/** pipe.c: the ring of a pipe with one reader and one writer, under any interleaving, and its two loops. */
module PipeRing {

  newtype Byte = x: int | 0 <= x < 256

  const PIPEBUFSIZ: nat := 32

  // ---- interleavings ----

  /** A byte is stored before p_wpos moves on, and taken before p_rpos does: between the two is a point of its own. */
  datatype Writer = Between | Stored
  datatype Reader = Waiting | Taken(b: Byte)

  /** `sent` and `received` are the bytes whose position counters have been moved. */
  datatype Pipe = Pipe(buf: seq<Byte>, rpos: nat, wpos: nat, w: Writer, r: Reader, pending: Byte, sent: seq<Byte>,
    received: seq<Byte>)

  datatype Action = Store(b: Byte) | AdvanceWrite | Take | AdvanceRead

  function Slot(pos: nat): (i: nat)
    ensures i < PIPEBUFSIZ
  {
    pos % 32
  }

  predicate CanStep(p: Pipe, a: Action) {
    && |p.buf| == PIPEBUFSIZ
    && match a
       case Store(b) => p.w.Between? && p.wpos < p.rpos + 32
       case AdvanceWrite => p.w.Stored?
       case Take => p.r.Waiting? && p.rpos != p.wpos
       case AdvanceRead => p.r.Taken?
  }

  function Step(p: Pipe, a: Action): Pipe
    requires CanStep(p, a)
  {
    match a
    case Store(b) => p.(buf := p.buf[Slot(p.wpos) := b], w := Stored, pending := b)
    case AdvanceWrite => p.(wpos := p.wpos + 1, w := Between, sent := p.sent + [p.pending])
    case Take => p.(r := Taken(p.buf[Slot(p.rpos)]))
    case AdvanceRead => p.(rpos := p.rpos + 1, r := Waiting, received := p.received + [p.r.b])
  }

  /** What lies in the ring is what has been sent and not yet received. */
  ghost predicate RingOk(p: Pipe) {
    && |p.buf| == PIPEBUFSIZ && p.rpos <= p.wpos <= p.rpos + 32
    && |p.sent| == p.wpos && p.received == p.sent[..p.rpos]
    && InRing(p.buf, p.sent, p.rpos, p.wpos)
    && (p.w.Stored? ==> p.wpos < p.rpos + 32 && p.buf[Slot(p.wpos)] == p.pending)
    && (p.r.Taken? ==> p.rpos < p.wpos && p.r.b == p.sent[p.rpos])
  }

  ghost predicate InRing(buf: seq<Byte>, sent: seq<Byte>, rpos: nat, wpos: nat)
    requires |buf| == PIPEBUFSIZ && wpos <= |sent|
  {
    forall i: nat {:trigger sent[i]} :: rpos <= i < wpos ==> buf[Slot(i)] == sent[i]
  }

  /** Positions less than a ring apart lie in different slots. */
  lemma SlotsApart(i: nat, j: nat)
    requires i < j < i + 32
    ensures Slot(i) != Slot(j)
  {
  }

  lemma StepRing(p: Pipe, a: Action)
    requires RingOk(p) && CanStep(p, a)
    ensures RingOk(Step(p, a))
  {
    var q := Step(p, a);
    match a
    case Store(b) =>
      forall i: nat {:trigger p.sent[i]} | p.rpos <= i < p.wpos
        ensures q.buf[Slot(i)] == p.sent[i] { SlotsApart(i, p.wpos); }
    case AdvanceWrite =>
      assert q.sent[..q.rpos] == p.sent[..p.rpos];
    case Take => assert p.buf[Slot(p.rpos)] == p.sent[p.rpos];
    case AdvanceRead => assert p.sent[..p.rpos + 1] == p.sent[..p.rpos] + [p.sent[p.rpos]];
  }

  ghost predicate IsRun(p: Pipe, acts: seq<Action>)
    decreases |acts|
  {
    acts != [] ==> CanStep(p, acts[0]) && IsRun(Step(p, acts[0]), acts[1..])
  }

  ghost function Execute(p: Pipe, acts: seq<Action>): Pipe
    requires IsRun(p, acts)
    decreases |acts|
  {
    if acts == [] then p else Execute(Step(p, acts[0]), acts[1..])
  }

  /** In every interleaving the reader receives the bytes the writer sent, in order, none lost and none twice. */
  lemma {:induction false} Fifo(p: Pipe, acts: seq<Action>)
    requires RingOk(p) && IsRun(p, acts)
    ensures var q := Execute(p, acts); RingOk(q) && q.received <= q.sent
    decreases |acts|
  {
    if acts != [] {
      StepRing(p, acts[0]);
      Fifo(Step(p, acts[0]), acts[1..]);
    }
  }

  // ---- the loops ----

  /** How a read or write ends: all of it, part of it, or at a point where it has to ask whether the pipe is closed. */
  datatype Outcome = Full | Part | Asks

  class Ring {
    const buf: array<Byte>
    var rpos: nat
    var wpos: nat
    /** All bytes ever stored. */
    ghost var sent: seq<Byte>

    ghost predicate Valid()
      reads this, buf
    {
      buf.Length == PIPEBUFSIZ && rpos <= wpos <= rpos + 32 && |sent| == wpos && InRing(buf[..], sent, rpos, wpos)
    }

    constructor ()
      ensures Valid() && sent == [] && rpos == 0
    {
      buf := new Byte[32];
      rpos, wpos, sent := 0, 0, [];
    }

    /** devpipe_read, or the part of it up to the question whether the pipe is closed. */
    method Read(n: nat) returns (out: seq<Byte>, c: Outcome)
      requires Valid()
      modifies this`rpos
      ensures Valid() && old(rpos) <= rpos && out == sent[old(rpos)..rpos]
      ensures rpos == if old(rpos) + n < wpos then old(rpos) + n else wpos
      ensures c == if |out| == n then Full else if |out| > 0 then Part else Asks
    {
      out := [];
      var i := 0;
      while i < n
        invariant i <= n && Valid() && i == |out| && rpos == old(rpos) + i && out == sent[old(rpos)..rpos]
      {
        if rpos == wpos {
          if i > 0 {
            return out, Part;
          }
          return out, Asks;
        }
        assert buf[..][Slot(rpos)] == sent[rpos];
        out := out + [buf[Slot(rpos)]];
        rpos := rpos + 1;
        i := i + 1;
      }
      return out, Full;
    }

    /** devpipe_write, or the part of it up to the question whether the pipe is closed: `k` bytes have been stored. */
    method Write(data: seq<Byte>) returns (k: nat, c: Outcome)
      requires Valid()
      modifies this`wpos, this`sent, buf
      ensures Valid() && k <= |data| && sent == old(sent) + data[..k]
      ensures wpos == if old(wpos) + |data| < rpos + 32 then old(wpos) + |data| else rpos + 32
      ensures c == if k == |data| then Full else Asks
    {
      k := 0;
      while k < |data|
        invariant k <= |data| && Valid() && wpos == old(wpos) + k && sent == old(sent) + data[..k]
      {
        if wpos >= rpos + 32 {
          return k, Asks;
        }
        ghost var b := buf[..];
        buf[Slot(wpos)] := data[k];
        forall i: nat {:trigger sent[i]} | rpos <= i < wpos ensures buf[..][Slot(i)] == sent[i] {
          SlotsApart(i, wpos);
          assert b[Slot(i)] == sent[i];
        }
        sent := sent + [data[k]];
        wpos := wpos + 1;
        k := k + 1;
      }
      return k, Full;
    }
  }
}
