/** dns.c: the query table as a timed state machine. */
module Dns {
  const DNS_MAX_RETRIES: nat := 4
  const DNS_MAX_TTL: nat := 604800
  const DNS_MSG_SIZE: nat := 512

  datatype State = Unused | New | Asking | Done

  /** `query` numbers the accepted queries; `found` says whether a callback is set. */
  datatype Entry = Entry(state: State, numdns: nat, tmr: nat, retries: nat, seqno: nat, ttl: nat, name: string,
    addr: int, found: bool, query: nat)

  /** An accepted query: its name and whether it came with a callback. */
  datatype Query = Query(name: string, found: bool)

  /** A callback of query `q`; `addr` is 0 for an error or a timeout. */
  datatype Call = Call(q: nat, addr: int)

  /** `servers` are the configured addresses, 0 for none; `calls` and `asked` are the history. */
  datatype Table = Table(entries: seq<Entry>, seqno: nat, servers: seq<int>, calls: seq<Call>, asked: seq<Query>)

  /** A resource record, and a reply as its header and its decoded records. */
  datatype Record = Record(isAddress: bool, ttl: nat, addr: int)
  datatype Message = Message(len: nat, id: nat, isResponse: bool, err: nat, questions: nat, answers: nat,
    nameMatches: bool, records: seq<Record>)

  /** The answer count is kept in a byte, and so many records are decoded. */
  type Reply = m: Message | |m.records| == m.answers % 256 witness Message(0, 0, false, 0, 0, 0, false, [])

  predicate Shape(d: Table) {
    0 < |d.entries| < 256 && 0 < |d.servers| < 256 && d.seqno < 256
  }

  // ---- dns_check_entry ----

  /** A byte and a 32-bit counter counted down by one. */
  function Dec8(n: nat): nat {
    if n == 0 then 255 else n - 1
  }

  function Dec32(n: nat): nat {
    if n == 0 then 0xFFFF_FFFF else n - 1
  }

  /** What dns_check_entry makes of an entry: a new query is sent, a waiting one ages, a completed one expires. */
  function Aged(servers: seq<int>, e: Entry): Entry {
    match e.state
    case New => e.(state := Asking, numdns := 0, tmr := 1, retries := 0)
    case Asking =>
      var again := (e.retries + 1) % 256;
      if Dec8(e.tmr) != 0 then e.(tmr := Dec8(e.tmr))
      else if again != DNS_MAX_RETRIES then e.(tmr := again, retries := again)
      else if e.numdns + 1 < |servers| && servers[e.numdns + 1] != 0 then
        e.(numdns := e.numdns + 1, tmr := 1, retries := 0)
      else e.(tmr := 0, retries := again, state := Unused, found := false)
    case Done =>
      if Dec32(e.ttl) == 0 then e.(ttl := 0, state := Unused, found := false) else e.(ttl := Dec32(e.ttl))
    case Unused => e
  }

  function Put(d: Table, i: nat, e: Entry): Table
    requires i < |d.entries|
  {
    d.(entries := d.entries[i := e])
  }

  /** The callback, if there is one. */
  function Tell(d: Table, e: Entry, addr: int): Table {
    if e.found then d.(calls := d.calls + [Call(e.query, addr)]) else d
  }

  function CheckEntry(d: Table, i: nat): (r: Table)
    requires Shape(d) && i < |d.entries|
    ensures Shape(r) && |r.entries| == |d.entries| && r.servers == d.servers && r.asked == d.asked
  {
    var e := d.entries[i];
    var e' := Aged(d.servers, e);
    Put(if e.state == Asking && e'.state == Unused then Tell(d, e, 0) else d, i, e')
  }

  /** dns_check_entries from entry `i` on. */
  function CheckFrom(d: Table, i: nat): (r: Table)
    requires Shape(d) && i <= |d.entries|
    ensures Shape(r) && |r.entries| == |d.entries| && r.servers == d.servers && r.asked == d.asked
    decreases |d.entries| - i
  {
    if i == |d.entries| then d else CheckFrom(CheckEntry(d, i), i + 1)
  }

  // ---- dns_recv ----

  /** The first address record, or the number of records. */
  function FirstAddress(records: seq<Record>): (k: nat)
    ensures k <= |records| && (k < |records| ==> records[k].isAddress) && forall j ::
      0 <= j < k ==> !records[j].isAddress
  {
    if records == [] || records[0].isAddress then 0 else 1 + FirstAddress(records[1..])
  }

  function CappedTtl(ttl: nat): nat {
    if ttl > DNS_MAX_TTL then DNS_MAX_TTL else ttl
  }

  /** A message of a length that is looked at, for an entry that waits; the identifier is kept in a byte. */
  predicate Expected(d: Table, m: Reply) {
    26 <= m.len <= DNS_MSG_SIZE && m.id % 256 < |d.entries| && d.entries[m.id % 256].state == Asking
  }

  /** A response without error to one question, the one asked, with an address among its answers. */
  predicate Answers(m: Reply) {
    m.isResponse && m.err == 0 && m.questions % 256 == 1 && m.nameMatches && FirstAddress(m.records) < |m.records|
  }

  function Recv(d: Table, m: Reply): (r: Table)
    requires Shape(d)
    ensures Shape(r) && |r.entries| == |d.entries| && r.servers == d.servers && r.asked == d.asked
  {
    var i := m.id % 256;
    if !Expected(d, m) then d
    else if Answers(m) then
      var a := m.records[FirstAddress(m.records)];
      Put(Tell(d, d.entries[i], a.addr), i, d.entries[i].(state := Done, ttl := CappedTtl(a.ttl), addr := a.addr))
    else Put(Tell(d, d.entries[i], 0), i, d.entries[i].(state := Unused, found := false))
  }

  // ---- dns_enqueue ----

  /**
   * The scan of dns_enqueue: the first unused entry, or else the completed one with the largest sequence difference.
   */
  datatype Pick = Pick(i: nat, lseq: nat, lseqi: nat)

  function Scan(d: Table, i: nat, lseq: nat, lseqi: nat): (r: Pick)
    requires Shape(d) && i <= |d.entries|
    ensures r.i <= |d.entries|
    decreases |d.entries| - i
  {
    if i == |d.entries| || d.entries[i].state == Unused then Pick(i, lseq, lseqi)
    else if d.entries[i].state == Done && d.seqno - d.entries[i].seqno > lseq then
      Scan(d, i + 1, d.seqno - d.entries[i].seqno, i)
    else Scan(d, i + 1, lseq, lseqi)
  }

  /** The entry dns_enqueue uses, or |entries| if it returns ERR_MEM. */
  function Chosen(d: Table): (i: nat)
    requires Shape(d)
    ensures i <= |d.entries|
  {
    var p := Scan(d, 0, 0, 0);
    if p.i < |d.entries| then p.i
    else if p.lseqi >= |d.entries| || d.entries[p.lseqi].state != Done then |d.entries| else p.lseqi
  }

  /** A new query in entry `i`. */
  function Filled(d: Table, i: nat, name: string, found: bool): Table
    requires i < |d.entries|
  {
    var e := d.entries[i].(state := New, seqno := d.seqno, found := found, name := name, query := |d.asked|);
    Put(d, i, e).(seqno := (d.seqno + 1) % 256, asked := d.asked + [Query(name, found)])
  }

  function Enqueue(d: Table, name: string, found: bool): (r: Table)
    requires Shape(d)
    ensures Shape(r) && |r.entries| == |d.entries| && r.servers == d.servers
  {
    var i := Chosen(d);
    if i == |d.entries| then d else CheckEntry(Filled(d, i, name, found), i)
  }

  /** dns_lookup: the address of the first completed entry of the name, or 0. */
  function LookupFrom(d: Table, name: string, i: nat): int
    requires i <= |d.entries|
    decreases |d.entries| - i
  {
    if i == |d.entries| then 0
    else if d.entries[i].state == Done && d.entries[i].name == name then d.entries[i].addr
    else LookupFrom(d, name, i + 1)
  }

  /** dns_setserver. */
  function SetServer(d: Table, k: nat, addr: int): (r: Table)
    requires Shape(d)
    ensures Shape(r) && |r.entries| == |d.entries| && |r.servers| == |d.servers|
  {
    if k < |d.servers| && addr != 0 then d.(servers := d.servers[k := addr]) else d
  }

  // ---- steps ----

  datatype Action = Tick | Receive(m: Reply) | Ask(name: string, found: bool) | Configure(k: nat, addr: int)

  function Step(d: Table, a: Action): (r: Table)
    requires Shape(d)
    ensures Shape(r) && |r.entries| == |d.entries| && |r.servers| == |d.servers|
  {
    match a
    case Tick => CheckFrom(d, 0)
    case Receive(m) => Recv(d, m)
    case Ask(name, found) => Enqueue(d, name, found)
    case Configure(k, addr) => SetServer(d, k, addr)
  }

  function Run(d: Table, acts: seq<Action>): (r: Table)
    requires Shape(d)
    ensures Shape(r) && |r.entries| == |d.entries| && |r.servers| == |d.servers|
    decreases |acts|
  {
    if acts == [] then d else Run(Step(d, acts[0]), acts[1..])
  }

  function Ticks(acts: seq<Action>): nat {
    if acts == [] then 0 else (if acts[0] == Tick then 1 else 0) + Ticks(acts[1..])
  }
}
