/** Exactly one callback for each query, by a deadline, on every run. */
module DnsFacts {
  import opened Dns

  // ---- the invariant ----

  /** The timer of a waiting entry: 1, then 1, 2 and 3 after each resend. */
  ghost predicate TimerOk(d: Table, e: Entry) {
    e.numdns < |d.servers| && e.retries < 4 && 1 <= e.tmr <= (if e.retries == 0 then 1 else e.retries)
  }

  ghost predicate Matches(d: Table, e: Entry) {
    e.query < |d.asked| && d.asked[e.query].name == e.name
  }

  /** An entry in use has the number of its query; a completed one holds the address its callback was given. */
  ghost predicate EntryOk(d: Table, e: Entry) {
    && e.state != New && (Live(e) ==> e.seqno == e.query % 256)
    && (e.state == Asking ==> TimerOk(d, e) && Matches(d, e) && e.found == d.asked[e.query].found)
    && (e.state == Done ==> Matches(d, e) && (d.asked[e.query].found ==> Call(e.query, e.addr) in d.calls))
  }

  ghost predicate EntriesOk(d: Table) {
    forall i {:trigger d.entries[i]} :: 0 <= i < |d.entries| ==> EntryOk(d, d.entries[i])
  }

  /** The entry holds a query, unanswered or answered. */
  predicate Live(e: Entry) {
    e.state == Asking || e.state == Done
  }

  /** No query is held by two entries. */
  ghost predicate Apart(d: Table) {
    forall i, j {:trigger d.entries[i], d.entries[j]} ::
      0 <= i < j < |d.entries| && Live(d.entries[i]) && Live(d.entries[j]) ==>
      d.entries[i].query != d.entries[j].query
  }

  ghost predicate HeldAt(d: Table, i: nat, q: nat) {
    i < |d.entries| && d.entries[i].state == Asking && d.entries[i].query == q
  }

  ghost predicate Pending(d: Table, q: nat) {
    exists i: nat :: HeldAt(d, i, q)
  }

  /** How often the callback of `q` has been called. */
  ghost function Calls(calls: seq<Call>, q: nat): nat {
    if calls == [] then 0 else Calls(calls[..|calls| - 1], q) + if calls[|calls| - 1].q == q then 1 else 0
  }

  /**
   * What the history says of `q`: called once if it was accepted with a callback and is no longer pending, else
   * never.
   */
  ghost predicate Told(d: Table, q: nat) {
    Calls(d.calls, q) == if q < |d.asked| && d.asked[q].found && !Pending(d, q) then 1 else 0
  }

  ghost predicate CalledOnce(d: Table) {
    forall q: nat :: Told(d, q)
  }

  ghost predicate DnsOk(d: Table) {
    Shape(d) && d.seqno == |d.asked| % 256 && EntriesOk(d) && Apart(d) && CalledOnce(d)
  }

  // ---- one entry changes ----

  /** A call is added for the query that entry `i` gives up, if it has a callback, and for no other. */
  ghost predicate CallsFor(d: Table, i: nat, e: Entry, d': Table)
    requires i < |d.entries|
  {
    var was := d.entries[i];
    if was.state == Asking && e.state != Asking && was.found
    then |d'.calls| == |d.calls| + 1 && d'.calls[..|d.calls|] == d.calls && d'.calls[|d.calls|].q == was.query
    else d'.calls == d.calls
  }

  lemma PutPending(d: Table, i: nat, e: Entry, d': Table, q: nat)
    requires EntriesOk(d) && Apart(d) && i < |d.entries| && d'.entries == d.entries[i := e]
    requires e.state == Asking ==> d.entries[i].state == Asking && e.query == d.entries[i].query
    ensures Pending(d', q) <==> Pending(d, q) && (HeldAt(d, i, q) ==> e.state == Asking)
  {
    if HeldAt(d, i, q) {
      forall j: nat | j != i ensures !HeldAt(d', j,
        q) { if j < |d.entries| { var (x, y) := (d.entries[i], d.entries[j]); } }
      if e.state == Asking { assert HeldAt(d', i, q); }
    } else {
      forall j: nat ensures HeldAt(d', j, q) <==> HeldAt(d, j, q) { }
    }
  }

  /** Entry `i` changes and the query it held stays or is told: the invariant stays. */
  lemma PutOk(d: Table, i: nat, e: Entry, d': Table)
    requires DnsOk(d) && i < |d.entries| && Shape(d') && d' == Put(d, i, e).(calls := d'.calls)
    requires EntryOk(d', e) && CallsFor(d, i, e, d')
    requires e.state == Asking ==> d.entries[i].state == Asking
    requires Live(e) ==> Live(d.entries[i]) && e.query == d.entries[i].query && e.seqno == d.entries[i].seqno
    ensures DnsOk(d')
  {
    var was := d.entries[i];
    assert forall c :: c in d.calls ==> c in d'.calls by {
      forall c | c in d.calls ensures c in d'.calls { var k: nat :| k < |d.calls| &&
        d.calls[k] == c; assert d'.calls[k] == c; }
    }
    forall j | 0 <= j < |d'.entries| ensures EntryOk(d', d'.entries[j]) { var x := d.entries[j]; }
    forall j, k | 0 <= j < k < |d'.entries| && Live(d'.entries[j]) && Live(d'.entries[k])
      ensures d'.entries[j].query != d'.entries[k].query { var (x, y) := (d.entries[j], d.entries[k]); }
    forall q: nat ensures Told(d', q) {
      assert Told(d, q);
      PutPending(d, i, e, d', q);
      if HeldAt(d, i, q) { assert EntryOk(d, was); }
    }
  }

  lemma CheckEntryOk(d: Table, i: nat)
    requires DnsOk(d) && i < |d.entries|
    ensures DnsOk(CheckEntry(d, i))
  {
    var e := d.entries[i];
    assert EntryOk(d, e);
    PutOk(d, i, Aged(d.servers, e), CheckEntry(d, i));
  }

  lemma {:induction false} CheckFromOk(d: Table, i: nat)
    requires DnsOk(d) && i <= |d.entries|
    ensures DnsOk(CheckFrom(d, i))
    decreases |d.entries| - i
  {
    if i < |d.entries| {
      CheckEntryOk(d, i);
      CheckFromOk(CheckEntry(d, i), i + 1);
    }
  }

  lemma RecvOk(d: Table, m: Reply)
    requires DnsOk(d)
    ensures DnsOk(Recv(d, m))
  {
    if Expected(d, m) {
      var d' := Recv(d, m);
      var e := d.entries[m.id % 256];
      assert EntryOk(d, e);
      assert e.found && Answers(m) ==> Call(e.query, d'.entries[m.id % 256].addr) == d'.calls[|d.calls|];
      PutOk(d, m.id % 256, d'.entries[m.id % 256], d');
    }
  }

  // ---- dns_enqueue ----

  /**
   * The scan stops at the first unused entry, or has seen them all; `lseq` is then the largest positive difference of
   * a completed one.
   */
  lemma {:induction false} ScanFacts(d: Table, i: nat, lseq: nat, lseqi: nat)
    requires Shape(d) && i <= |d.entries| && lseqi < |d.entries|
    ensures var p := Scan(d, i, lseq, lseqi);
      && i <= p.i && (p.i < |d.entries| ==> d.entries[p.i].state == Unused)
      && (forall j {:trigger d.entries[j]} ::
        i <= j < p.i ==>
        d.entries[j].state != Unused && (d.entries[j].state == Done ==> d.seqno - d.entries[j].seqno <= p.lseq))
      && p.lseqi < |d.entries| && p.lseq >= lseq
      && (p.lseq == lseq ==> p.lseqi == lseqi)
      && (p.lseq > lseq ==>
        i <= p.lseqi < p.i && d.entries[p.lseqi].state == Done && d.seqno - d.entries[p.lseqi].seqno == p.lseq)
    decreases |d.entries| - i
  {
    if i < |d.entries| && d.entries[i].state != Unused {
      if d.entries[i].state == Done && d.seqno - d.entries[i].seqno > lseq { ScanFacts(d, i + 1,
        d.seqno - d.entries[i].seqno, i); }
      else { ScanFacts(d, i + 1, lseq, lseqi); }
    }
  }

  predicate HasUnused(d: Table) {
    exists j :: 0 <= j < |d.entries| && d.entries[j].state == Unused
  }

  predicate HasDone(d: Table) {
    exists j :: 0 <= j < |d.entries| && d.entries[j].state == Done
  }

  /** A completed entry that is older than the next number, with no wrap in between. */
  predicate HasOlder(d: Table) {
    exists j :: 0 <= j < |d.entries| && d.entries[j].state == Done && d.entries[j].seqno < d.seqno
  }

  /** An unanswered query is never replaced; and a query is refused exactly when no entry is unused, none of the
      completed ones has a number below the next, and entry 0 is not completed. */
  lemma ChosenFacts(d: Table)
    requires Shape(d)
    ensures Chosen(d) < |d.entries| ==>
      d.entries[Chosen(d)].state == Unused || (d.entries[Chosen(d)].state == Done && !HasUnused(d))
    ensures Chosen(d) == |d.entries| <==> !HasUnused(d) && !HasOlder(d) && d.entries[0].state != Done
  {
    ScanFacts(d, 0, 0, 0);
    var p := Scan(d, 0, 0, 0);
    if p.i < |d.entries| { assert HasUnused(d); } else { assert !HasUnused(d); }
    if p.lseq > 0 { assert d.entries[p.lseqi].seqno < d.seqno; assert HasOlder(d); }
    else if p.i == |d.entries| { assert !HasOlder(d); }
  }

  /** Of the completed entries numbered below the next, the one replaced is the oldest. */
  lemma OldestReplaced(d: Table, j: nat)
    requires Shape(d) && !HasUnused(d) && j < |d.entries| && d.entries[j].state == Done && d.entries[j].seqno < d.seqno
    ensures Chosen(d) < |d.entries| && d.entries[Chosen(d)].state == Done &&
      d.entries[Chosen(d)].seqno <= d.entries[j].seqno
  {
    ScanFacts(d, 0, 0, 0);
    var p := Scan(d, 0, 0, 0);
    assert p.i == |d.entries|;
  }

  /**
   * Once the byte-wide number has wrapped, a query can be refused although an answered entry could be reused: of 258
   * queries, number 255 has been answered and is still cached, and number 257 is being asked.
   */
  lemma WrappedRefuses() returns (d: Table)
    ensures DnsOk(d) && HasDone(d) && Chosen(d) == |d.entries|
  {
    var a := Entry(Asking, 0, 1, 0, 1, 0, "", 0, false, 257);
    var b := Entry(Done, 0, 1, 0, 255, 9, "", 7, false, 255);
    d := Table([a, b], 2, [5], [], seq(258, i => Query("", false)));
    ChosenFacts(d);
    assert d.entries[1].state == Done;
    assert EntryOk(d, a) && EntryOk(d, b);
    forall q: nat ensures Told(d, q) { }
  }

  /** The table after a query is accepted into entry `i`. */
  ghost predicate Accepted(d: Table, i: nat, name: string, found: bool, d': Table) {
    && i < |d.entries| && d.entries[i].state != Asking && d'.servers == d.servers && d'.calls == d.calls
    && d'.asked == d.asked + [Query(name, found)]
    && |d'.entries| == |d.entries| && (forall j {:trigger d'.entries[j]} ::
      0 <= j < |d.entries| && j != i ==> d'.entries[j] == d.entries[j])
    && d'.seqno == (d.seqno + 1) % 256
    && var e := d'.entries[i];
      e.state == Asking && e.query == |d.asked| && e.seqno == d.seqno && e.name == name && e.found == found &&
        e.numdns == 0 && e.tmr == 1 && e.retries == 0
  }

  lemma EnqueueAccepts(d: Table, name: string, found: bool)
    requires Shape(d) && Chosen(d) < |d.entries|
    ensures Accepted(d, Chosen(d), name, found, Enqueue(d, name, found))
  {
    ChosenFacts(d);
  }

  lemma AcceptedPending(d: Table, i: nat, name: string, found: bool, d': Table, q: nat)
    requires Accepted(d, i, name, found, d')
    ensures Pending(d', q) <==> Pending(d, q) || q == |d.asked|
  {
    assert HeldAt(d', i, |d.asked|);
    forall j: nat | j != i ensures HeldAt(d', j, q) <==>
      HeldAt(d, j, q) { if j < |d.entries| { var e := d'.entries[j]; } }
  }

  lemma AcceptedOk(d: Table, i: nat, name: string, found: bool, d': Table)
    requires DnsOk(d) && Shape(d') && Accepted(d, i, name, found, d')
    ensures DnsOk(d')
  {
    forall j | 0 <= j < |d'.entries| ensures EntryOk(d',
      d'.entries[j]) { if j != i { assert EntryOk(d, d.entries[j]); } }
    forall j, k | 0 <= j < k < |d'.entries| && Live(d'.entries[j]) && Live(d'.entries[k])
      ensures d'.entries[j].query != d'.entries[k].query {
      assert EntryOk(d, d.entries[j]) && EntryOk(d, d.entries[k]);
    }
    forall q: nat ensures Told(d', q) {
      assert Told(d, q);
      AcceptedPending(d, i, name, found, d', q);
    }
  }

  // ---- every run ----

  lemma ServersOk(d: Table, k: nat, addr: int)
    requires DnsOk(d)
    ensures DnsOk(SetServer(d, k, addr))
  {
    var d' := SetServer(d, k, addr);
    forall j | 0 <= j < |d'.entries| ensures EntryOk(d', d'.entries[j]) { assert EntryOk(d, d.entries[j]); }
    forall q: nat ensures Told(d', q) {
      assert Told(d, q);
      forall j: nat ensures HeldAt(d', j, q) <==> HeldAt(d, j, q) { }
    }
  }

  lemma StepOk(d: Table, a: Action)
    requires DnsOk(d)
    ensures DnsOk(Step(d, a))
  {
    match a
    case Tick => CheckFromOk(d, 0);
    case Receive(m) => RecvOk(d, m);
    case Configure(k, addr) => ServersOk(d, k, addr);
    case Ask(name, found) =>
      if Chosen(d) < |d.entries| {
        EnqueueAccepts(d, name, found);
        AcceptedOk(d, Chosen(d), name, found, Enqueue(d, name, found));
      }
  }

  lemma {:induction false} RunOk(d: Table, acts: seq<Action>)
    requires DnsOk(d)
    ensures DnsOk(Run(d, acts))
    decreases |acts|
  {
    if acts != [] {
      StepOk(d, acts[0]);
      RunOk(Step(d, acts[0]), acts[1..]);
    }
  }

  /** dns_init leaves every entry unused. */
  lemma InitOk(d: Table)
    requires Shape(d) && d.seqno == 0 && d.calls == [] && d.asked == [] && forall i {:trigger d.entries[i]} ::
      0 <= i < |d.entries| ==> d.entries[i].state == Unused
    ensures DnsOk(d)
  {
    forall q: nat ensures Told(d, q) { forall j: nat ensures !HeldAt(d, j, q) { } }
  }

  // ---- the deadline ----

  /** Ticks an entry still waits at its server: the timer now and the longer ones after it. */
  ghost function Waits(e: Entry): nat {
    e.tmr + if e.retries == 0 then 6 else if e.retries == 1 then 5 else if e.retries == 2 then 3 else 0
  }

  /** At most so many ticks until the entry times out. */
  ghost function Bound(d: Table, e: Entry): int {
    Waits(e) + 7 * (|d.servers| - 1 - e.numdns)
  }

  /** How many configured servers follow server `k` without a gap. */
  ghost function Next(servers: seq<int>, k: nat): nat
    decreases |servers| - k
  {
    if k + 1 < |servers| && servers[k + 1] != 0 then 1 + Next(servers, k + 1) else 0
  }

  ghost function Left(d: Table, e: Entry): nat {
    Waits(e) + 7 * Next(d.servers, e.numdns)
  }

  /** If `q` is pending, it is for at most `n` ticks more. */
  ghost predicate Within(d: Table, q: nat, n: nat) {
    forall i: nat {:trigger HeldAt(d, i, q)} :: HeldAt(d, i, q) ==> Bound(d, d.entries[i]) <= n
  }

  lemma {:induction false} CheckFromAt(d: Table, i: nat, j: nat)
    requires Shape(d) && i <= |d.entries| && j < |d.entries|
    ensures CheckFrom(d, i).entries[j] == if j < i then d.entries[j] else Aged(d.servers, d.entries[j])
    decreases |d.entries| - i
  {
    if i < |d.entries| { CheckFromAt(CheckEntry(d, i), i + 1, j); }
  }

  /**
   * A waiting entry that stays waiting is one tick nearer to its timeout; it stays so unless its ticks have run out.
   */
  lemma AgedNearer(d: Table, e: Entry)
    requires e.state == Asking && TimerOk(d, e)
    ensures var e' := Aged(d.servers, e);
      && (e'.state == Asking ==> e'.query == e.query && 1 <= Bound(d, e') < Bound(d, e))
      && (e'.state == Asking <==> Left(d, e) > 1) && (e'.state == Asking ==> Left(d, e') == Left(d, e) - 1)
  {
  }

  /** A tick brings the deadline nearer by one. */
  lemma TickNearer(d: Table, q: nat, n: nat)
    requires DnsOk(d) && Within(d, q, n)
    ensures Within(CheckFrom(d, 0), q, if n == 0 then 0 else n - 1)
  {
    var d' := CheckFrom(d, 0);
    forall i: nat | HeldAt(d', i, q) ensures n > 0 && Bound(d', d'.entries[i]) <= n - 1 {
      CheckFromAt(d, 0, i);
      assert EntryOk(d, d.entries[i]);
      AgedNearer(d, d.entries[i]);
      assert HeldAt(d, i, q);
    }
  }

  /** Nothing else moves the deadline of an accepted query. */
  lemma OtherKeeps(d: Table, a: Action, q: nat, n: nat)
    requires DnsOk(d) && Within(d, q, n) && q < |d.asked| && a != Tick
    ensures Within(Step(d, a), q, n) && q < |Step(d, a).asked|
  {
    var d' := Step(d, a);
    if a.Ask? && Chosen(d) < |d.entries| { EnqueueAccepts(d, a.name, a.found); }
    forall i: nat | HeldAt(d', i, q) ensures Bound(d', d'.entries[i]) <= n {
      assert d'.entries[i] == d.entries[i];
      assert HeldAt(d, i, q);
    }
  }

  lemma {:induction false} RunNearer(d: Table, acts: seq<Action>, q: nat, n: nat)
    requires DnsOk(d) && Within(d, q, n) && q < |d.asked|
    ensures var d' := Run(d, acts); q < |d'.asked| && Within(d', q, if Ticks(acts) >= n then 0 else n - Ticks(acts))
    ensures d.asked <= Run(d, acts).asked
    decreases |acts|
  {
    if acts != [] {
      var d1 := Step(d, acts[0]);
      StepOk(d, acts[0]);
      assert d.asked <= d1.asked;
      if acts[0] == Tick {
        TickNearer(d, q, n);
        RunNearer(d1, acts[1..], q, if n == 0 then 0 else n - 1);
      } else {
        OtherKeeps(d, acts[0], q, n);
        RunNearer(d1, acts[1..], q, n);
      }
    }
  }

  /** The callback of an accepted query has been called exactly once after 7 * DNS_MAX_SERVERS ticks of the timer,
      whatever else happens in between and ever after. */
  lemma CalledInTime(d: Table, name: string, acts: seq<Action>)
    requires DnsOk(d) && Chosen(d) < |d.entries| && Ticks(acts) >= 7 * |d.servers|
    ensures Calls(Run(Enqueue(d, name, true), acts).calls, |d.asked|) == 1
  {
    var q := |d.asked|;
    var d1 := Enqueue(d, name, true);
    StepOk(d, Ask(name, true));
    EnqueueAccepts(d, name, true);
    forall i: nat | i != Chosen(d) ensures !HeldAt(d1, i, q) {
      if i < |d.entries| { assert EntryOk(d, d.entries[i]) && d1.entries[i] == d.entries[i]; }
    }
    RunNearer(d1, acts, q, 7 * |d.servers|);
    RunOk(d1, acts);
    var d2 := Run(d1, acts);
    assert Told(d2, q);
    forall i: nat ensures !HeldAt(d2, i, q) { if i < |d2.entries| { assert EntryOk(d2, d2.entries[i]); } }
    assert d2.asked[q] == d1.asked[q];
  }

  /** It is never called twice, however the run goes. */
  lemma NeverTwice(d: Table, acts: seq<Action>, q: nat)
    requires DnsOk(d)
    ensures Calls(Run(d, acts).calls, q) <= 1
  {
    RunOk(d, acts);
    assert Told(Run(d, acts), q);
  }

  function Silent(n: nat): (r: seq<Action>)
    ensures |r| == n
  {
    if n == 0 then [] else [Tick] + Silent(n - 1)
  }

  /** A tick with the query in entry `i` still waiting or, at the last tick, timed out. */
  lemma TickExact(d: Table, i: nat, q: nat)
    requires DnsOk(d) && HeldAt(d, i, q)
    ensures var d' := CheckFrom(d, 0); var n := Left(d, d.entries[i]);
      n > 0 && d'.servers == d.servers &&
      if n == 1 then !Pending(d', q) else HeldAt(d', i, q) && Left(d', d'.entries[i]) == n - 1
  {
    var d' := CheckFrom(d, 0);
    assert EntryOk(d, d.entries[i]);
    AgedNearer(d, d.entries[i]);
    CheckFromAt(d, 0, i);
    forall j: nat | j != i ensures !HeldAt(d', j, q) {
      if j < |d.entries| {
        CheckFromAt(d, 0, j);
        assert EntryOk(d, d.entries[j]);
      }
    }
  }

  /** Without a reply a query waits for exactly 7 ticks at each configured server: the deadline is sharp. */
  lemma {:induction false} SilentTimeout(d: Table, i: nat, q: nat, n: nat)
    requires DnsOk(d) && HeldAt(d, i, q)
    ensures n < Left(d, d.entries[i]) ==> HeldAt(Run(d, Silent(n)), i, q)
    ensures n == Left(d, d.entries[i]) ==> !Pending(Run(d, Silent(n)), q)
    decreases n
  {
    TickExact(d, i, q);
    CheckFromOk(d, 0);
    if n > 0 {
      assert Silent(n)[0] == Tick && Silent(n)[1..] == Silent(n - 1);
      var d1 := CheckFrom(d, 0);
      assert Run(d, Silent(n)) == Run(d1, Silent(n - 1));
      if Left(d, d.entries[i]) > 1 { SilentTimeout(d1, i, q, n - 1); }
      else if n == 1 { assert Run(d1, Silent(0)) == d1; }
    }
  }

  // ---- how long an answer is kept ----

  ghost function AgedBy(servers: seq<int>, e: Entry, n: nat): Entry
    decreases n
  {
    if n == 0 then e else AgedBy(servers, Aged(servers, e), n - 1)
  }

  /** After `n` ticks without anything else, each entry has aged by `n`. */
  lemma {:induction false} SilentAged(d: Table, j: nat, n: nat)
    requires Shape(d) && j < |d.entries|
    ensures Run(d, Silent(n)).entries[j] == AgedBy(d.servers, d.entries[j], n)
    decreases n
  {
    if n > 0 {
      assert Silent(n)[0] == Tick && Silent(n)[1..] == Silent(n - 1);
      CheckFromAt(d, 0, j);
      SilentAged(CheckFrom(d, 0), j, n - 1);
    }
  }

  lemma {:induction false} DoneAged(servers: seq<int>, e: Entry, n: nat)
    requires e.state == Done && n <= e.ttl
    ensures AgedBy(servers, e, n).state == if n < e.ttl || n == 0 then Done else Unused
    decreases n
  {
    if n > 0 && e.ttl > 1 { DoneAged(servers, e.(ttl := e.ttl - 1), n - 1); }
  }

  /**
   * A cached answer expires at the tick its time to live promises, if that is not 0. One with a time to live of 0 is
   * still there after `n` ticks, for every n below 2^32.
   */
  lemma CacheLife(d: Table, j: nat, n: nat)
    requires Shape(d) && j < |d.entries| && d.entries[j].state == Done
    ensures var (ttl, e) := (d.entries[j].ttl, Run(d, Silent(n)).entries[j]);
      && (0 < ttl && n < ttl ==> e.state == Done) && (0 < ttl == n ==> e.state == Unused)
      && (ttl == 0 && n < 0x1_0000_0000 ==> e.state == Done)
  {
    var e := d.entries[j];
    SilentAged(d, j, n);
    if n <= e.ttl {
      DoneAged(d.servers, e, n);
    } else if e.ttl == 0 && n < 0x1_0000_0000 {
      DoneAged(d.servers, e.(ttl := 0xFFFF_FFFF), n - 1);
    }
  }

  // ---- dns_lookup ----

  /** A cached address is one that a query of that name was answered with, and its callback was given it. */
  lemma {:induction false} LookupAnswered(d: Table, name: string, i: nat) returns (q: nat)
    requires DnsOk(d) && i <= |d.entries| && LookupFrom(d, name, i) != 0
    ensures q < |d.asked| && d.asked[q].name == name && !Pending(d, q)
    ensures d.asked[q].found ==> Call(q, LookupFrom(d, name, i)) in d.calls && Calls(d.calls, q) == 1
    decreases |d.entries| - i
  {
    q := 0;
    if d.entries[i].state == Done && d.entries[i].name == name {
      q := d.entries[i].query;
      assert EntryOk(d, d.entries[i]) && Told(d, q);
      forall j: nat ensures !HeldAt(d, j, q) { if j < |d.entries| { var (x, y) := (d.entries[i], d.entries[j]); } }
    } else {
      q := LookupAnswered(d, name, i + 1);
    }
  }
}
