/** A pipe with its holders and its ring together: what a read that reports the end of file has left unread. */
module PipeJoint {
  import E = PipeEof
  import R = PipeRing

  /**
   * devpipe_read: taking bytes, or having found the ring empty before the first byte. `at` is the number of bytes
   * stored at that moment, `asked` their number when _pipeisclosed last began.
   */
  datatype Read = Taking | FoundEmpty(at: nat, asked: nat) | Ended(at: nat, asked: nat)

  const NOBODY: int := -1

  /** Environment `reader` reads through its descriptor `slot`; `writer` is in the middle of storing a byte. */
  datatype Joint = Joint(s: E.Sys, p: R.Pipe, reader: nat, slot: nat, read: Read, writer: int)

  /**
   * A step of the holders, of a write, of a read, the emptiness test, and the answer of _pipeisclosed to the reader.
   */
  datatype Action = Do(a: E.Action) | Store(b: R.Byte) | Stored | Take | Taken | FindEmpty | Finish

  ghost predicate Holds(s: E.Sys, e: E.Env, x: E.End) {
    exists k: nat :: E.At(s, e, k).fd == x
  }

  /** The current environment is in no system call and no check. */
  ghost predicate Idle(s: E.Sys) {
    E.Shape(s) && s.pc[s.cur].Free? && s.check[s.cur].Idle?
  }

  ghost predicate Undisturbed(s: E.Sys) {
    E.Shape(s) && !s.check[s.cur].Idle? && s.check[s.cur].n == s.runs[s.cur]
  }

  /** The steps of _pipeisclosed while it has no answer yet. */
  ghost predicate CheckStep(j: Joint, b: E.Action) {
    b == E.ReadRuns(j.slot) || b == E.ReadFd || b == E.ReadData || (b == E.Answer && !Undisturbed(j.s))
  }

  /** The reader is between two calls, or at the top of its loop. */
  ghost predicate ReaderFree(j: Joint) {
    Idle(j.s) && j.s.cur == j.reader && j.s.cur != j.writer && !j.read.FoundEmpty? && j.p.r.Waiting? &&
      E.At(j.s, j.reader, j.slot).fd == E.ReadEnd
  }

  ghost predicate CanStep(j: Joint, a: Action) {
    match a
    case Do(b) => E.CanStep(j.s, b) && (b.Switch? ||
        (j.s.cur != j.writer && (j.s.cur == j.reader ==> j.p.r.Waiting? && (j.read.FoundEmpty? ==> CheckStep(j, b)))))
    case Store(b) => Idle(j.s) && Holds(j.s, j.s.cur, E.WriteEnd) && j.writer == NOBODY && R.CanStep(j.p, R.Store(b))
        && (j.s.cur == j.reader ==> j.p.r.Waiting? && !j.read.FoundEmpty?)
    case Stored => j.s.cur == j.writer && R.CanStep(j.p, R.AdvanceWrite)
    case Take => ReaderFree(j) && R.CanStep(j.p, R.Take)
    case Taken => j.s.cur == j.reader && R.CanStep(j.p, R.AdvanceRead)
    case FindEmpty => ReaderFree(j) && j.p.rpos == j.p.wpos
    case Finish => j.s.cur == j.reader && j.read.FoundEmpty? && E.CanStep(j.s, E.Answer) && Undisturbed(j.s)
  }

  ghost function Step(j: Joint, a: Action): Joint
    requires CanStep(j, a)
  {
    match a
    case Do(b) =>
      var begins := j.s.cur == j.reader && j.read.FoundEmpty? && (b.ReadRuns? || b.Answer?);
      j.(s := E.Step(j.s, b), read := if begins then FoundEmpty(j.read.at, j.p.wpos) else j.read)
    case Store(b) => j.(p := R.Step(j.p, R.Store(b)), writer := j.s.cur)
    case Stored => j.(p := R.Step(j.p, R.AdvanceWrite), writer := NOBODY)
    case Take => j.(p := R.Step(j.p, R.Take))
    case Taken => j.(p := R.Step(j.p, R.AdvanceRead))
    case FindEmpty => j.(read := FoundEmpty(j.p.wpos, j.p.wpos))
    case Finish => j.(s := E.Step(j.s, E.Answer), read := if E.SaysClosed(j.s) then Ended(j.read.at, j.read.asked)
      else Taking)
  }

  // ---- the invariant ----

  /** Who is in the middle of storing a byte holds the write end and does nothing else. */
  ghost predicate WriterOk(j: Joint)
    requires E.Shape(j.s)
  {
    && (j.p.w.Stored? <==> j.writer != NOBODY)
    && (j.writer != NOBODY ==> j.writer >= 0 && j.writer in j.s.runs && Holds(j.s, j.writer, E.WriteEnd))
    && (j.writer != NOBODY ==> j.s.pc[j.writer].Free? && j.s.check[j.writer].Idle?)
    && (j.writer == j.reader ==> !j.read.FoundEmpty? && j.p.r.Waiting?)
  }

  /** From the emptiness test on the reader takes nothing; in an undisturbed check nobody stores anything. */
  ghost predicate ReaderOk(j: Joint)
    requires E.Shape(j.s)
  {
    j.read.FoundEmpty? ==>
      && j.reader in j.s.runs && j.p.r.Waiting? && j.read.at == j.p.rpos && j.read.at <= j.read.asked <= j.p.wpos
      && j.s.pc[j.reader].Free? && E.At(j.s, j.reader, j.slot).fd == E.ReadEnd
      && (!j.s.check[j.reader].Idle? ==> j.s.check[j.reader].slot == j.slot)
      && (j.s.cur == j.reader && Undisturbed(j.s) ==> j.read.asked == j.p.wpos)
  }

  ghost predicate Inv(j: Joint) {
    E.Inv(j.s) && R.RingOk(j.p) && WriterOk(j) && ReaderOk(j)
  }

  /** A step of another environment leaves an environment's descriptors and its progress alone. */
  lemma OthersKept(s: E.Sys, a: E.Action, e: E.Env)
    requires E.CanStep(s, a) && e in s.runs && (s.cur != e || a.Switch?)
    ensures var t := E.Step(s, a); e in t.runs && t.pc[e] == s.pc[e] && t.check[e] == s.check[e]
    ensures forall k: nat {:trigger E.At(E.Step(s, a), e, k)} :: E.At(E.Step(s, a), e, k) == E.At(s, e, k)
  {
  }

  lemma HoldsKept(s: E.Sys, a: E.Action, e: E.Env, x: E.End)
    requires E.CanStep(s, a) && e in s.runs && (s.cur != e || a.Switch?) && Holds(s, e, x)
    ensures Holds(E.Step(s, a), e, x)
  {
    var k: nat :| E.At(s, e, k).fd == x;
    OthersKept(s, a, e);
    assert E.At(E.Step(s, a), e, k).fd == x;
  }

  /** The steps of a check change nothing but the check. */
  lemma CheckKept(s: E.Sys, b: E.Action)
    requires E.CanStep(s, b) && (b.ReadRuns? || b.ReadFd? || b.ReadData? || b.Answer?)
    ensures var t := E.Step(s, b);
      t == s.(check := t.check) && forall e :: e in s.check && e != s.cur ==> t.check[e] == s.check[e]
  {
  }

  lemma DoWriter(j: Joint, b: E.Action)
    requires Inv(j) && CanStep(j, Do(b))
    ensures E.Shape(Step(j, Do(b)).s) && WriterOk(Step(j, Do(b)))
  {
    if j.writer != NOBODY {
      OthersKept(j.s, b, j.writer);
      HoldsKept(j.s, b, j.writer, E.WriteEnd);
    }
  }

  lemma DoReader(j: Joint, b: E.Action)
    requires Inv(j) && CanStep(j, Do(b)) && E.Shape(Step(j, Do(b)).s)
    ensures ReaderOk(Step(j, Do(b)))
  {
    if j.read.FoundEmpty? {
      if j.s.cur != j.reader || b.Switch? {
        OthersKept(j.s, b, j.reader);
        assert E.At(E.Step(j.s, b), j.reader, j.slot) == E.At(j.s, j.reader, j.slot);
        if !j.s.check[j.reader].Idle? { assert E.CheckGood(j.s, j.reader); }
      } else {
        CheckKept(j.s, b);
      }
    }
  }

  /** Every step of the joint system keeps the invariant. */
  lemma StepInv(j: Joint, a: Action)
    requires Inv(j) && CanStep(j, a)
    ensures Inv(Step(j, a))
  {
    match a
    case Do(b) =>
      E.StepInv(j.s, b);
      DoWriter(j, b);
      DoReader(j, b);
    case Store(b) => R.StepRing(j.p, R.Store(b));
    case Stored => R.StepRing(j.p, R.AdvanceWrite); StoredReader(j);
    case Take => R.StepRing(j.p, R.Take);
    case Taken => R.StepRing(j.p, R.AdvanceRead);
    case FindEmpty =>
    case Finish => E.StepInv(j.s, E.Answer); FinishWriter(j);
  }

  lemma StoredReader(j: Joint)
    requires Inv(j) && CanStep(j, Stored)
    ensures ReaderOk(Step(j, Stored)) && WriterOk(Step(j, Stored))
  {
  }

  lemma FinishWriter(j: Joint)
    requires Inv(j) && CanStep(j, Finish)
    ensures E.Shape(Step(j, Finish).s) && WriterOk(Step(j, Finish)) && ReaderOk(Step(j, Finish))
  {
    CheckKept(j.s, E.Answer);
    var t := E.Step(j.s, E.Answer);
    if j.writer != NOBODY {
      var k: nat :| E.At(j.s, j.writer, k).fd == E.WriteEnd;
      assert E.At(t, j.writer, k).fd == E.WriteEnd;
    }
  }

  // ---- the end of file ----

  ghost predicate IsRun(j: Joint, acts: seq<Action>)
    decreases |acts|
  {
    acts != [] ==> CanStep(j, acts[0]) && IsRun(Step(j, acts[0]), acts[1..])
  }

  ghost function Execute(j: Joint, acts: seq<Action>): Joint
    requires IsRun(j, acts)
    decreases |acts|
  {
    if acts == [] then j else Execute(Step(j, acts[0]), acts[1..])
  }

  lemma {:induction false} RunInv(j: Joint, acts: seq<Action>)
    requires Inv(j) && IsRun(j, acts)
    ensures Inv(Execute(j, acts))
    decreases |acts|
  {
    if acts != [] {
      StepInv(j, acts[0]);
      RunInv(Step(j, acts[0]), acts[1..]);
    }
  }

  /** Where read returns 0. */
  ghost predicate AtEof(j: Joint) {
    CanStep(j, Finish) && E.SaysClosed(j.s)
  }

  /** Once nobody holds the write end and no byte is half stored, nothing is stored any more. */
  lemma {:induction false} NothingMore(j: Joint, acts: seq<Action>)
    requires Inv(j) && IsRun(j, acts) && E.Gone(j.s, E.WriteEnd) && j.writer == NOBODY
    ensures var t := Execute(j, acts); t.p.sent == j.p.sent && E.Gone(t.s, E.WriteEnd)
    decreases |acts|
  {
    if acts != [] {
      var a := acts[0];
      StepInv(j, a);
      GoneHolds(j.s, E.WriteEnd);
      if a.Do? { E.StepGone(j.s, a.a, E.WriteEnd); } else if a.Finish? { E.StepGone(j.s, E.Answer, E.WriteEnd); }
      NothingMore(Step(j, a), acts[1..]);
    }
  }

  lemma GoneHolds(s: E.Sys, x: E.End)
    requires E.Gone(s, x) && x != E.NoEnd
    ensures forall e: E.Env :: !Holds(s, e, x)
  {
    forall e: E.Env, k: nat ensures E.At(s, e, k).fd != x { if (e, k) in s.slots { var v := s.slots[(e, k)]; } }
  }

  /** A read that returns 0 is asked about the read end, nobody holds the write end, and no byte is half stored. */
  lemma EofGone(j: Joint)
    requires Inv(j) && AtEof(j)
    ensures E.Gone(j.s, E.WriteEnd) && j.writer == NOBODY
  {
    E.ClosedMeansGone(j.s);
    assert E.Asked(j.s) == E.ReadEnd;
    E.GoneIff(j.s, E.WriteEnd);
    GoneHolds(j.s, E.WriteEnd);
  }

  /**
   * In every run in which a read returns 0: the stream is complete, whatever follows. The reader has received all of it
   * if and only if no byte was stored between its finding the ring empty and the beginning of _pipeisclosed.
   */
  lemma EndOfStream(j: Joint, before: seq<Action>, after: seq<Action>)
    requires Inv(j) && IsRun(j, before) && AtEof(Execute(j, before)) && IsRun(Execute(j, before), after)
    ensures var t := Execute(j, before);
      && Execute(t, after).p.sent == t.p.sent && t.p.received <= t.p.sent
      && (t.p.received == t.p.sent <==> t.read.asked == t.read.at)
  {
    var t := Execute(j, before);
    RunInv(j, before);
    EofGone(t);
    NothingMore(t, after);
    assert |t.p.received| == t.read.at && |t.p.sent| == t.read.asked;
  }

  // ---- an end reported too early ----

  ghost function Holders(w: E.Slot, p: E.Pc, c: E.Check, r0: nat, r1: nat, cur: nat): E.Sys {
    E.Sys(map[(0, 0) := E.Slot(E.ReadEnd, true), (1, 0) := w], map[0 := E.Free, 1 := p], map[0 := c, 1 := E.Idle],
          map[0 := r0, 1 := r1], cur)
  }

  /** An empty ring, and the ring with one byte in it. */
  ghost function NoByte(): R.Pipe {
    R.Pipe(seq(32, i => 0), 0, 0, R.Between, R.Waiting, 0, [], [])
  }

  ghost function OneByte(): R.Pipe {
    R.Pipe(seq(32, i => 0)[0 := 7], 0, 1, R.Between, R.Waiting, 7, [7], [])
  }

  /** Environment 0 reads, environment 1 writes, and nothing has been sent. */
  ghost function Start(): Joint {
    Joint(Holders(E.Slot(E.WriteEnd, true), E.Free, E.Idle, 1, 1, 0), NoByte(), 0, 0, Taking, NOBODY)
  }

  lemma StartInv()
    ensures Inv(Start())
  {
  }

  /** 0 finds the ring empty, and 1 gets the CPU. */
  lemma Early1() returns (j: Joint)
    ensures Run(Start(), [FindEmpty, Do(E.Switch(1))], j)
    ensures j == Joint(Holders(E.Slot(E.WriteEnd, true), E.Free, E.Idle, 1, 2, 1), NoByte(), 0, 0, FoundEmpty(0, 0),
      NOBODY)
  {
    var j1 := Step(Start(), FindEmpty);
    j := Step(j1, Do(E.Switch(1)));
    RunTwo(Start(), FindEmpty, Do(E.Switch(1)), j);
  }

  /** 1 stores a byte. */
  lemma Early2(j: Joint) returns (k: Joint)
    requires j == Joint(Holders(E.Slot(E.WriteEnd, true), E.Free, E.Idle, 1, 2, 1), NoByte(), 0, 0, FoundEmpty(0, 0),
      NOBODY)
    ensures Run(j, [Store(7), Stored], k)
    ensures k == Joint(Holders(E.Slot(E.WriteEnd, true), E.Free, E.Idle, 1, 2, 1), OneByte(), 0, 0, FoundEmpty(0, 0),
      NOBODY)
  {
    assert E.At(j.s, 1, 0).fd == E.WriteEnd;
    assert R.Slot(0) == 0;
    var j1 := Step(j, Store(7));
    k := Step(j1, Stored);
    RunTwo(j, Store(7), Stored, k);
  }

  /** 1 closes its descriptor. */
  lemma Early3(j: Joint) returns (k: Joint)
    requires j == Joint(Holders(E.Slot(E.WriteEnd, true), E.Free, E.Idle, 1, 2, 1), OneByte(), 0, 0, FoundEmpty(0, 0),
      NOBODY)
    ensures Run(j, [Do(E.CloseFd(0)), Do(E.CloseData)], k)
    ensures k == Joint(Holders(E.Slot(E.NoEnd, false), E.Free, E.Idle, 1, 2, 1), OneByte(), 0, 0, FoundEmpty(0, 0),
      NOBODY)
  {
    var j1 := Step(j, Do(E.CloseFd(0)));
    k := Step(j1, Do(E.CloseData));
    RunTwo(j, Do(E.CloseFd(0)), Do(E.CloseData), k);
  }

  /** 0 begins to ask. */
  lemma Early4(j: Joint) returns (k: Joint)
    requires j == Joint(Holders(E.Slot(E.NoEnd, false), E.Free, E.Idle, 1, 2, 1), OneByte(), 0, 0, FoundEmpty(0, 0),
      NOBODY)
    ensures Run(j, [Do(E.Switch(0)), Do(E.ReadRuns(0))], k)
    ensures k == Joint(Holders(E.Slot(E.NoEnd, false), E.Free, E.Began(0, 2), 2, 2, 0), OneByte(), 0, 0,
      FoundEmpty(0, 1), NOBODY)
  {
    var j1 := Step(j, Do(E.Switch(0)));
    k := Step(j1, Do(E.ReadRuns(0)));
    RunTwo(j, Do(E.Switch(0)), Do(E.ReadRuns(0)), k);
  }

  /** 0 has its answer. */
  lemma Early5(j: Joint) returns (k: Joint)
    requires j == Joint(Holders(E.Slot(E.NoEnd, false), E.Free, E.Began(0, 2), 2, 2, 0), OneByte(), 0, 0,
      FoundEmpty(0, 1), NOBODY)
    ensures Run(j, [Do(E.ReadFd), Do(E.ReadData)], k) && AtEof(k) && k.p == OneByte()
  {
    assert E.Holding(j.s.slots, E.ReadEnd) == {(0, 0)} && E.Mapping(j.s.slots) == {(0, 0)};
    var j1 := Step(j, Do(E.ReadFd));
    k := Step(j1, Do(E.ReadData));
    RunTwo(j, Do(E.ReadFd), Do(E.ReadData), k);
  }

  ghost predicate Run(j: Joint, acts: seq<Action>, k: Joint) {
    IsRun(j, acts) && Execute(j, acts) == k
  }

  lemma RunTwo(j: Joint, a: Action, b: Action, k: Joint)
    requires CanStep(j, a) && CanStep(Step(j, a), b) && Step(Step(j, a), b) == k
    ensures Run(j, [a, b], k)
  {
    var m := Step(j, a);
    assert [a, b][1..] == [b] && [b][1..] == [];
    assert IsRun(k, []) && IsRun(m, [b]) && Execute(m, [b]) == k;
  }

  lemma {:induction false} RunJoin(j: Joint, before: seq<Action>, k: Joint, after: seq<Action>, m: Joint)
    requires Run(j, before, k) && Run(k, after, m)
    ensures Run(j, before + after, m)
    decreases |before|
  {
    if before == [] {
      assert before + after == after;
    } else {
      assert (before + after)[1..] == before[1..] + after;
      RunJoin(Step(j, before[0]), before[1..], k, after, m);
    }
  }

  /**
   * A read can return 0 with a byte unread: it was stored, and the pipe closed, after the ring had been found empty.
   */
  lemma EndsTooEarly() returns (acts: seq<Action>, j: Joint)
    ensures Inv(Start()) && Run(Start(), acts, j) && AtEof(j) && j.p.received == [] && j.p.sent == [7]
  {
    StartInv();
    var j1 := Early1();
    var j2 := Early2(j1);
    var j3 := Early3(j2);
    var j4 := Early4(j3);
    j := Early5(j4);
    var (a, b, c, d, e) := ([FindEmpty, Do(E.Switch(1))], [Store(7), Stored], [Do(E.CloseFd(0)), Do(E.CloseData)],
                            [Do(E.Switch(0)), Do(E.ReadRuns(0))], [Do(E.ReadFd), Do(E.ReadData)]);
    RunJoin(Start(), a, j1, b, j2);
    RunJoin(Start(), a + b, j2, c, j3);
    RunJoin(Start(), a + b + c, j3, d, j4);
    RunJoin(Start(), a + b + c + d, j4, e, j);
    acts := a + b + c + d + e;
  }
}
