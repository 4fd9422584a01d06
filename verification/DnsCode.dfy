/** The code of dns.c on its table, its counters updated in place. */
module DnsCode {
  import opened Dns
  import opened DnsFacts

  class Resolver {
    const table: array<Entry>
    const servers: array<int>
    var seqno: nat
    // the history: the callbacks made and the queries accepted
    var calls: seq<Call>
    var asked: seq<Query>

    ghost function Snap(): Table
      reads this, table, servers
    {
      Table(table[..], seqno, servers[..], calls, asked)
    }

    ghost predicate Valid()
      reads this, table, servers
    {
      DnsOk(Snap())
    }

    /** dns_init: every entry unused, and the default server as the first. */
    constructor (tableSize: nat, maxServers: nat, address: int)
      requires 0 < tableSize < 256 && 0 < maxServers < 256
      ensures Valid() && fresh(table) && fresh(servers) && calls == [] && asked == []
      ensures table.Length == tableSize && servers.Length == maxServers
      ensures servers[0] == address && forall k :: 0 < k < maxServers ==> servers[k] == 0
    {
      table := new Entry[tableSize](_ => Entry(Unused, 0, 0, 0, 0, 0, "", 0, false, 0));
      servers := new int[maxServers](_ => 0);
      seqno, calls, asked := 0, [], [];
      new;
      servers[0] := address;
      InitOk(Snap());
    }

    /** The callback with the address, or with NULL. */
    method Found(e: Entry, addr: int)
      modifies this`calls
      ensures Snap() == Tell(old(Snap()), e, addr)
    {
      if e.found {
        calls := calls + [Call(e.query, addr)];
      }
    }

    /** dns_check_entry, field by field. */
    method CheckEntry(i: nat)
      requires Shape(Snap()) && i < table.Length
      modifies this`calls, table
      ensures Snap() == Dns.CheckEntry(old(Snap()), i)
    {
      ghost var d := Snap();
      match table[i].state {
        case New =>
          table[i] := table[i].(state := Asking, numdns := 0, tmr := 1, retries := 0);
        case Asking =>
          table[i] := table[i].(tmr := Dec8(table[i].tmr));
          if table[i].tmr == 0 {
            table[i] := table[i].(retries := (table[i].retries + 1) % 256);
            if table[i].retries == DNS_MAX_RETRIES {
              if table[i].numdns + 1 < servers.Length && servers[table[i].numdns + 1] != 0 {
                table[i] := table[i].(numdns := table[i].numdns + 1, tmr := 1, retries := 0);
              } else {
                Found(table[i], 0);
                table[i] := table[i].(state := Unused, found := false);
              }
            } else {
              table[i] := table[i].(tmr := table[i].retries);
            }
          }
        case Done =>
          table[i] := table[i].(ttl := Dec32(table[i].ttl));
          if table[i].ttl == 0 {
            table[i] := table[i].(state := Unused, found := false);
          }
        case Unused =>
      }
      assert table[..] == d.entries[i := Aged(d.servers, d.entries[i])];
      assert Snap() == Dns.CheckEntry(d, i);
    }

    /** dns_check_entries. */
    method CheckEntries()
      requires Valid()
      modifies this`calls, table
      ensures Valid() && Snap() == Step(old(Snap()), Tick)
    {
      var i := 0;
      while i < table.Length
        invariant i <= table.Length && Valid()
        invariant CheckFrom(Snap(), i) == CheckFrom(old(Snap()), 0)
      {
        CheckEntryOk(Snap(), i);
        CheckEntry(i);
        i := i + 1;
      }
    }

    /** dns_recv on a decoded message. */
    method Recv(m: Reply)
      requires Valid()
      modifies this`calls, table
      ensures Valid() && Snap() == Step(old(Snap()), Receive(m))
    {
      ghost var d := Snap();
      RecvOk(d, m);
      var i := m.id % 256;
      if m.len > DNS_MSG_SIZE || m.len < 26 || i >= table.Length || table[i].state != Asking {
        return;
      }
      if m.isResponse && m.err == 0 && m.questions % 256 == 1 && m.nameMatches {
        var k := SkipOthers(m.records);
        if k < |m.records| {
          Found(table[i], m.records[k].addr);
          table[i] := table[i].(state := Done, ttl := CappedTtl(m.records[k].ttl), addr := m.records[k].addr);
          assert Snap() == Dns.Recv(d, m);
          return;
        }
      }
      Found(table[i], 0);
      table[i] := table[i].(state := Unused, found := false);
      assert Snap() == Dns.Recv(d, m);
    }

    /** The answer loop of dns_recv: records of other types and classes are passed over. */
    static method SkipOthers(records: seq<Record>) returns (k: nat)
      ensures k == FirstAddress(records)
    {
      k := 0;
      while k < |records| && !records[k].isAddress
        invariant k <= |records| && FirstAddress(records) == k + FirstAddress(records[k..])
        decreases |records| - k
      {
        assert records[k..][1..] == records[k + 1..];
        k := k + 1;
      }
    }

    /** The search of dns_enqueue for an unused entry, or else the oldest completed one. */
    method Search() returns (i: nat)
      requires Shape(Snap())
      ensures i == Chosen(Snap())
    {
      i := 0;
      var lseq: nat, lseqi: nat := 0, 0;
      while i < table.Length && table[i].state != Unused
        invariant i <= table.Length && Scan(Snap(), i, lseq, lseqi) == Scan(Snap(), 0, 0, 0)
        invariant lseqi < table.Length
        decreases table.Length - i
      {
        if table[i].state == Done && seqno - table[i].seqno > lseq {
          lseq, lseqi := seqno - table[i].seqno, i;
        }
        i := i + 1;
      }
      if i == table.Length && table[lseqi].state == Done {
        i := lseqi;
      }
    }

    /** The entry as dns_enqueue fills it in. */
    method Fill(i: nat, name: string, found: bool)
      requires Shape(Snap()) && i < table.Length
      modifies this, table
      ensures Snap() == Filled(old(Snap()), i, name, found)
    {
      ghost var d := Snap();
      table[i] := table[i].(state := New, seqno := seqno, found := found, name := name, query := |asked|);
      seqno, asked := (seqno + 1) % 256, asked + [Query(name, found)];
      assert table[..] == Filled(d, i, name, found).entries;
    }

    /** dns_enqueue; false is ERR_MEM. An unanswered query keeps its entry. */
    method Enqueue(name: string, found: bool) returns (ok: bool)
      requires Valid()
      modifies this, table
      ensures Valid() && Snap() == Step(old(Snap()), Ask(name, found))
      ensures ok <==> old(HasUnused(Snap()) || HasOlder(Snap()) || table[0].state == Done)
      ensures forall j :: 0 <= j < table.Length && old(table[j].state) == Asking ==> table[j] == old(table[j])
    {
      ghost var d := Snap();
      ChosenFacts(d);
      StepOk(d, Ask(name, found));
      var i := Search();
      if i == table.Length {
        return false;
      }
      Fill(i, name, found);
      CheckEntry(i);
      EnqueueAccepts(d, name, found);
      ok := true;
    }

    /** dns_lookup. */
    method Lookup(name: string) returns (addr: int)
      requires Valid()
      ensures addr == LookupFrom(Snap(), name, 0)
    {
      var i := 0;
      while i < table.Length
        invariant i <= table.Length && LookupFrom(Snap(), name, i) == LookupFrom(Snap(), name, 0)
      {
        if table[i].state == Done && table[i].name == name {
          return table[i].addr;
        }
        i := i + 1;
      }
      addr := 0;
    }

    /** dns_setserver. */
    method SetServer(k: nat, addr: int)
      requires Valid()
      modifies servers
      ensures Valid() && Snap() == Step(old(Snap()), Configure(k, addr))
    {
      ghost var d := Snap();
      ServersOk(d, k, addr);
      if k < servers.Length && addr != 0 {
        servers[k] := addr;
      }
      assert Snap() == Dns.SetServer(d, k, addr);
    }
  }
}
