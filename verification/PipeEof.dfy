/** pipe.c and fd.c: who holds which end of a pipe, and when the end of file may be reported. */
module PipeEof {

  /** What a descriptor page is: the pipe's read end, its write end, or nothing of this pipe. */
  datatype End = NoEnd | ReadEnd | WriteEnd

  /**
   * One descriptor slot of one environment: its descriptor page and whether the pipe's data page is mapped beside it.
   */
  datatype Slot = Slot(fd: End, data: bool)

  type Env = nat
  type Key = (nat, nat)

  /** Between the two system calls of dup, or of close. */
  datatype Pc = Free | Dupping(src: nat, dst: nat) | Closing(slot: nat)

  /** _pipeisclosed: env_runs read, descriptor count read, both counts read. */
  datatype Check = Idle | Began(slot: nat, n: nat) | GotFd(slot: nat, n: nat, a: nat) | GotBoth(slot: nat, n: nat,
    a: nat, b: nat)

  /** `runs` is each environment's env_runs; `cur` has the CPU. */
  datatype Sys = Sys(slots: map<Key, Slot>, pc: map<Env, Pc>, check: map<Env, Check>, runs: map<Env, nat>, cur: Env)

  // ---- reference counts ----

  ghost function Holding(slots: map<Key, Slot>, x: End): set<Key> {
    set k | k in slots && slots[k].fd == x
  }

  ghost function Mapping(slots: map<Key, Slot>): set<Key> {
    set k | k in slots && slots[k].data
  }

  /** pageref of a descriptor page, and of the data page. */
  ghost function FdRefs(slots: map<Key, Slot>, x: End): nat {
    |Holding(slots, x)|
  }

  ghost function DataRefs(slots: map<Key, Slot>): nat {
    |Mapping(slots)|
  }

  /** Wherever a descriptor page is mapped, the data page is too. */
  ghost predicate DataFirst(s: Sys) {
    forall k {:trigger s.slots[k]} :: k in s.slots && s.slots[k].fd != NoEnd ==> s.slots[k].data
  }

  ghost predicate Shape(s: Sys) {
    s.pc.Keys == s.runs.Keys && s.check.Keys == s.runs.Keys && s.cur in s.runs
  }

  /** An environment in the middle of dup has mapped the data page; its old descriptor is still there. */
  ghost predicate PcOk(s: Sys)
    requires Shape(s)
  {
    forall e {:trigger s.pc[e]} :: e in s.pc && s.pc[e].Dupping? ==>
      && s.pc[e].src != s.pc[e].dst && (e, s.pc[e].src) in s.slots && (e, s.pc[e].dst) in s.slots
      && s.slots[(e, s.pc[e].src)].fd != NoEnd && s.slots[(e, s.pc[e].dst)] == Slot(NoEnd, true)
  }

  /** An environment in the middle of close has unmapped the descriptor page. */
  ghost predicate CloseOk(s: Sys)
    requires Shape(s)
  {
    forall e {:trigger s.pc[e]} :: e in s.pc && s.pc[e].Closing? ==> At(s, e, s.pc[e].slot).fd == NoEnd
  }

  /** Every check is about an open descriptor; a count read since its environment was last scheduled is still right. */
  ghost predicate CheckOk(s: Sys)
    requires Shape(s)
  {
    forall e {:trigger s.check[e]} :: e in s.check && !s.check[e].Idle? ==> CheckGood(s, e)
  }

  ghost predicate CheckGood(s: Sys, e: Env)
    requires Shape(s) && e in s.check && !s.check[e].Idle?
  {
    var c := s.check[e];
    && c.n <= s.runs[e] && (e, c.slot) in s.slots && s.slots[(e, c.slot)].fd != NoEnd && s.pc[e].Free?
    && (c.n == s.runs[e] && s.cur == e ==>
          && (c.GotFd? || c.GotBoth? ==> c.a == FdRefs(s.slots, s.slots[(e, c.slot)].fd))
          && (c.GotBoth? ==> c.b == DataRefs(s.slots)))
  }

  ghost predicate Inv(s: Sys) {
    Shape(s) && DataFirst(s) && PcOk(s) && CloseOk(s) && CheckOk(s)
  }

  // ---- steps ----

  /**
   * The CPU goes to an environment; the current one performs one system call, or one step of _pipeisclosed;
   * fork copies all mappings of its caller at once; an exit removes all of them.
   */
  datatype Action =
    | Switch(e: Env)
    | DupData(src: nat, dst: nat)
    | DupFd
    | DupFails
    | CloseFd(slot: nat)
    | CloseData
    | Fork(child: Env)
    | Exit
    | ReadRuns(slot: nat)
    | ReadFd
    | ReadData
    | Answer

  ghost function At(s: Sys, e: Env, k: nat): Slot {
    if (e, k) in s.slots then s.slots[(e, k)] else Slot(NoEnd, false)
  }

  ghost predicate CanStep(s: Sys, a: Action) {
    && Shape(s)
    && var (e, c) := (s.cur, s.check[s.cur]);
    match a
    case Switch(f) => f in s.runs
    case DupData(src, dst) => s.pc[e].Free? && c.Idle? && src != dst && At(s, e, src).fd != NoEnd &&
      At(s, e, src).data && At(s, e, dst) == Slot(NoEnd, false)
    case DupFd => s.pc[e].Dupping? && c.Idle?
    case DupFails => s.pc[e].Dupping? && c.Idle?
    case CloseFd(k) => s.pc[e].Free? && c.Idle? && At(s, e, k).fd != NoEnd
    case CloseData => s.pc[e].Closing? && c.Idle?
    case Fork(child) => s.pc[e].Free? && c.Idle? && child !in s.runs
    case Exit => true
    case ReadRuns(k) => s.pc[e].Free? && c.Idle? && At(s, e, k).fd != NoEnd
    case ReadFd => c.Began?
    case ReadData => c.GotFd?
    case Answer => c.GotBoth?
  }

  ghost function Put(s: Sys, k: nat, v: Slot): map<Key, Slot> {
    s.slots[(s.cur, k) := v]
  }

  /** The mappings of `e` given to `child` as well. */
  ghost function Copied(slots: map<Key, Slot>, e: Env, child: Env): map<Key, Slot> {
    var keys := slots.Keys + set k: Key | k in slots && k.0 == e :: (child, k.1);
    map k: Key | k in keys :: if k.0 == child && (e, k.1) in slots then slots[(e, k.1)]
      else if k in slots then slots[k] else Slot(NoEnd, false)
  }

  ghost function Without(slots: map<Key, Slot>, e: Env): map<Key, Slot> {
    map k: Key | k in slots && k.0 != e :: slots[k]
  }

  /** The descriptor page the check was asked about. */
  ghost function Asked(s: Sys): End
    requires Shape(s) && !s.check[s.cur].Idle?
  {
    At(s, s.cur, s.check[s.cur].slot).fd
  }

  ghost function Step(s: Sys, a: Action): Sys
    requires CanStep(s, a)
  {
    var (e, c) := (s.cur, s.check[s.cur]);
    match a
    case Switch(f) => s.(cur := f, runs := s.runs[f := s.runs[f] + 1])
    case DupData(src, dst) => s.(slots := Put(s, dst, Slot(NoEnd, true)), pc := s.pc[e := Dupping(src, dst)])
    case DupFd => s.(slots := Put(s, s.pc[e].dst, Slot(At(s, e, s.pc[e].src).fd, true)), pc := s.pc[e := Free])
    case DupFails => s.(slots := Put(s, s.pc[e].dst, Slot(NoEnd, false)), pc := s.pc[e := Free])
    case CloseFd(k) => s.(slots := Put(s, k, Slot(NoEnd, At(s, e, k).data)), pc := s.pc[e := Closing(k)])
    case CloseData => s.(slots := Put(s, s.pc[e].slot, Slot(At(s, e, s.pc[e].slot).fd, false)), pc := s.pc[e := Free])
    case Fork(child) => Sys(Copied(s.slots, e, child), s.pc[child := Free], s.check[child := Idle],
      s.runs[child := 0], e)
    case Exit => s.(slots := Without(s.slots, e), pc := s.pc[e := Free], check := s.check[e := Idle])
    case ReadRuns(k) => s.(check := s.check[e := Began(k, s.runs[e])])
    case ReadFd => s.(check := s.check[e := GotFd(c.slot, c.n, FdRefs(s.slots, Asked(s)))])
    case ReadData => s.(check := s.check[e := GotBoth(c.slot, c.n, c.a, DataRefs(s.slots))])
    case Answer => s.(check := s.check[e := if c.n == s.runs[e] then Idle else Began(c.slot, s.runs[e])])
  }

  /** _pipeisclosed returns with this answer. */
  ghost predicate SaysClosed(s: Sys) {
    Shape(s) && s.check[s.cur].GotBoth? && s.check[s.cur].n == s.runs[s.cur] && s.check[s.cur].a == s.check[s.cur].b
  }

  // ---- the invariant ----

  lemma SwitchInv(s: Sys, f: Env)
    requires Inv(s) && f in s.runs
    ensures Inv(Step(s, Switch(f)))
  {
    var s' := Step(s, Switch(f));
    forall e | e in s'.check && !s'.check[e].Idle? ensures CheckGood(s', e) {
      var c := s.check[e];
    }
  }

  /** A system call of an environment that is not in the middle of a check. */
  lemma CallInv(s: Sys, a: Action)
    requires Inv(s) && CanStep(s, a) && (a.DupData? || a.DupFd? || a.DupFails? || a.CloseFd? || a.CloseData?)
    ensures Inv(Step(s, a))
  {
    var s' := Step(s, a);
    var e := s.cur;
    var p := s.pc[e];
    assert s.check[e].Idle?;
    assert DataFirst(s') by {
      forall k | k in s'.slots && s'.slots[k].fd != NoEnd
        ensures s'.slots[k].data { if k in s.slots { var v := s.slots[k]; } }
    }
    forall f | f in s'.pc ensures f != e ==> s'.pc[f] == s.pc[f] { }
    assert PcOk(s') by {
      forall f | f in s'.pc && s'.pc[f].Dupping? ensures
        && s'.pc[f].src != s'.pc[f].dst && (f, s'.pc[f].src) in s'.slots && (f, s'.pc[f].dst) in s'.slots
        && s'.slots[(f, s'.pc[f].src)].fd != NoEnd &&
          s'.slots[(f, s'.pc[f].dst)] == Slot(NoEnd, true) { var q := s.pc[f]; }
    }
    assert CloseOk(s') by {
      forall f | f in s'.pc && s'.pc[f].Closing? ensures At(s', f, s'.pc[f].slot).fd == NoEnd { var q := s.pc[f]; }
    }
    assert CheckOk(s') by {
      forall f | f in s'.check && !s'.check[f].Idle? ensures CheckGood(s', f) {
        var c := s.check[f];
      }
    }
  }

  lemma CheckInv(s: Sys, a: Action)
    requires Inv(s) && CanStep(s, a) && (a.ReadRuns? || a.ReadFd? || a.ReadData? || a.Answer?)
    ensures Inv(Step(s, a))
  {
    var s' := Step(s, a);
    var (e, c0) := (s.cur, s.check[s.cur]);
    forall f | f in s'.check && !s'.check[f].Idle? ensures CheckGood(s', f) {
      var c := s.check[f];
    }
  }

  lemma ForkInv(s: Sys, child: Env)
    requires Inv(s) && CanStep(s, Fork(child))
    ensures Inv(Step(s, Fork(child)))
  {
    var s' := Step(s, Fork(child));
    var e := s.cur;
    assert child != e;
    forall k: Key ensures k.0 != child ==>
      (k in s'.slots <==> k in s.slots) && (k in s.slots ==> s'.slots[k] == s.slots[k]) { }
    assert DataFirst(s') by {
      forall k: Key | k in s'.slots && s'.slots[k].fd != NoEnd ensures s'.slots[k].data {
        if k.0 == child && (e, k.1) in s.slots { var v := s.slots[(e, k.1)]; }
          else if k in s.slots { var v := s.slots[k]; }
      }
    }
    forall f | f in s'.pc ensures f != child ==> f in s.pc && s'.pc[f] == s.pc[f] { }
    forall f | f in s'.check && !s'.check[f].Idle? ensures CheckGood(s', f) {
      var c := s.check[f];
    }
  }

  lemma ExitInv(s: Sys)
    requires Inv(s)
    ensures CanStep(s, Exit) && Inv(Step(s, Exit))
  {
    var s' := Step(s, Exit);
    var e := s.cur;
    assert DataFirst(s') by { forall k: Key | k in s'.slots && s'.slots[k].fd != NoEnd
      ensures s'.slots[k].data { var v := s.slots[k]; } }
    forall f | f in s'.pc ensures f != e ==> s'.pc[f] == s.pc[f] { }
    forall f | f in s'.check && !s'.check[f].Idle? ensures CheckGood(s', f) {
      var c := s.check[f];
    }
  }

  lemma StepInv(s: Sys, a: Action)
    requires Inv(s) && CanStep(s, a)
    ensures Inv(Step(s, a))
  {
    match a
    case Switch(f) => SwitchInv(s, f);
    case Fork(child) => ForkInv(s, child);
    case Exit => ExitInv(s);
    case ReadRuns(k) => CheckInv(s, a);
    case ReadFd => CheckInv(s, a);
    case ReadData => CheckInv(s, a);
    case Answer => CheckInv(s, a);
    case _ => CallInv(s, a);
  }

  // ---- what an answer means ----

  /** The counts bound each other: each descriptor mapping comes with a data mapping. */
  lemma RefsBound(s: Sys)
    requires DataFirst(s)
    ensures FdRefs(s.slots, ReadEnd) + FdRefs(s.slots, WriteEnd) <= DataRefs(s.slots)
  {
    var (r, w, d) := (Holding(s.slots, ReadEnd), Holding(s.slots, WriteEnd), Mapping(s.slots));
    assert r !! w && r + w <= d by { forall k | k in r + w ensures k in d { var v := s.slots[k]; } }
    Disjoint(r, w);
    Smaller(r + w, d);
  }

  lemma {:induction false} Smaller(a: set<Key>, b: set<Key>)
    requires a <= b
    ensures |a| <= |b|
    decreases |a|
  {
    if a != {} {
      var k :| k in a;
      Smaller(a - {k}, b - {k});
    }
  }

  /** The other end. */
  ghost function Other(x: End): End {
    if x == ReadEnd then WriteEnd else ReadEnd
  }

  /** When _pipeisclosed says so, nobody holds the other end. */
  lemma ClosedMeansGone(s: Sys)
    requires Inv(s) && SaysClosed(s)
    ensures Asked(s) != NoEnd && FdRefs(s.slots, Other(Asked(s))) == 0
  {
    assert CheckGood(s, s.cur);
    RefsBound(s);
  }

  /** No environment is between the two calls of dup or close, and data pages are mapped beside descriptors only. */
  ghost predicate Quiet(s: Sys) {
    forall k {:trigger s.slots[k]} :: k in s.slots && s.slots[k].data ==> s.slots[k].fd != NoEnd
  }

  /** Once every dup and close is over, an end that nobody holds is noticed: the answer is then exact. */
  lemma QuietExact(s: Sys)
    requires Inv(s) && Quiet(s) && s.check[s.cur].GotBoth? && s.check[s.cur].n == s.runs[s.cur]
    ensures SaysClosed(s) <==> FdRefs(s.slots, Other(Asked(s))) == 0
  {
    assert CheckGood(s, s.cur);
    var (r, w, d) := (Holding(s.slots, ReadEnd), Holding(s.slots, WriteEnd), Mapping(s.slots));
    assert d == r + w by { forall k ensures k in d <==> k in r + w { if k in s.slots { var v := s.slots[k]; } } }
    assert r !! w && |r + w| == |r| + |w|;
  }

  // ---- an end that is gone stays gone ----

  ghost predicate Gone(s: Sys, x: End) {
    forall k {:trigger s.slots[k]} :: k in s.slots ==> s.slots[k].fd != x
  }

  lemma GoneIff(s: Sys, x: End)
    ensures Gone(s, x) <==> FdRefs(s.slots, x) == 0
  {
    var h := Holding(s.slots, x);
    if h != {} {
      var k :| k in h;
      assert s.slots[k].fd == x;
    } else {
      forall k | k in s.slots ensures s.slots[k].fd != x { assert k !in h; }
    }
  }

  lemma StepGone(s: Sys, a: Action, x: End)
    requires Inv(s) && CanStep(s, a) && x != NoEnd && Gone(s, x)
    ensures Gone(Step(s, a), x)
  {
    var s' := Step(s, a);
    var p := s.pc[s.cur];
    forall k: Key | k in s'.slots ensures s'.slots[k].fd != x {
      if k in s.slots { var v := s.slots[k]; }
      if a.Fork? && (s.cur, k.1) in s.slots { var v := s.slots[(s.cur, k.1)]; }
    }
  }

  // ---- runs ----

  ghost predicate IsRun(s: Sys, acts: seq<Action>)
    decreases |acts|
  {
    acts != [] ==> CanStep(s, acts[0]) && IsRun(Step(s, acts[0]), acts[1..])
  }

  ghost function Execute(s: Sys, acts: seq<Action>): Sys
    requires IsRun(s, acts)
    decreases |acts|
  {
    if acts == [] then s else Execute(Step(s, acts[0]), acts[1..])
  }

  lemma {:induction false} RunInv(s: Sys, acts: seq<Action>)
    requires Inv(s) && IsRun(s, acts)
    ensures Inv(Execute(s, acts))
    decreases |acts|
  {
    if acts != [] {
      StepInv(s, acts[0]);
      RunInv(Step(s, acts[0]), acts[1..]);
    }
  }

  lemma {:induction false} RunGone(s: Sys, acts: seq<Action>, x: End)
    requires Inv(s) && IsRun(s, acts) && x != NoEnd && Gone(s, x)
    ensures Gone(Execute(s, acts), x)
    decreases |acts|
  {
    if acts != [] {
      StepInv(s, acts[0]);
      StepGone(s, acts[0], x);
      RunGone(Step(s, acts[0]), acts[1..], x);
    }
  }

  /**
   * End of file is never reported early, and is final: if in a run of dups, closes, forks and exits the pipe is once
   * reported closed, then in whatever follows nobody holds the other end.
   */
  lemma EofIsFinal(s: Sys, before: seq<Action>, after: seq<Action>)
    requires Inv(s) && IsRun(s, before) && IsRun(Execute(s, before), after) && SaysClosed(Execute(s, before))
    ensures var t := Execute(s, before); Gone(t, Other(Asked(t))) && Gone(Execute(t, after), Other(Asked(t)))
  {
    var t := Execute(s, before);
    RunInv(s, before);
    ClosedMeansGone(t);
    GoneIff(t, Other(Asked(t)));
    RunGone(t, after, Other(Asked(t)));
  }

  /** pipe(): one environment with both ends, in two slots. */
  ghost function NewPipe(e: Env, r: nat, w: nat): Sys {
    Sys(map[(e, r) := Slot(ReadEnd, true), (e, w) := Slot(WriteEnd, true)], map[e := Free], map[e := Idle],
      map[e := 1], e)
  }

  lemma Created(e: Env, r: nat, w: nat)
    requires r != w
    ensures Inv(NewPipe(e, r, w))
  {
  }

  // ---- fork one page at a time ----

  /** fork() as it is: a child, then one page after the other, the descriptor pages before the data pages. */
  datatype Fine = Whole(a: Action) | Child(c: Env) | GiveFd(c: Env, slot: nat) | GiveData(c: Env, slot: nat)

  ghost predicate CanFine(s: Sys, f: Fine) {
    match f
    case Whole(a) => CanStep(s, a)
    case Child(c) => Shape(s) && c !in s.runs
    case GiveFd(c, k) => Shape(s) && c in s.runs && (s.cur, k) in s.slots
    case GiveData(c, k) => Shape(s) && c in s.runs && (s.cur, k) in s.slots
  }

  ghost function FineStep(s: Sys, f: Fine): Sys
    requires CanFine(s, f)
  {
    match f
    case Whole(a) => Step(s, a)
    case Child(c) => s.(pc := s.pc[c := Free], check := s.check[c := Idle], runs := s.runs[c := 0])
    case GiveFd(c, k) => s.(slots := s.slots[(c, k) := Slot(s.slots[(s.cur, k)].fd, At(s, c, k).data)])
    case GiveData(c, k) => s.(slots := s.slots[(c, k) := Slot(At(s, c, k).fd, s.slots[(s.cur, k)].data)])
  }

  ghost predicate FineRun(s: Sys, fs: seq<Fine>, t: Sys)
    decreases |fs|
  {
    if fs == [] then t == s else CanFine(s, fs[0]) && FineRun(FineStep(s, fs[0]), fs[1..], t)
  }

  lemma FineCons(s: Sys, f: Fine, rest: seq<Fine>, t: Sys)
    requires CanFine(s, f) && FineRun(FineStep(s, f), rest, t)
    ensures FineRun(s, [f] + rest, t)
  {
    assert ([f] + rest)[1..] == rest;
  }

  /** The run of a pipe's creator 0, which forks a reader 1 and is in the middle of forking 2 when the CPU goes to 1. */
  ghost function HalfForkRun(): seq<Fine> {
    [Whole(Fork(1)), Whole(Switch(1)), Whole(CloseFd(1)), Whole(CloseData), Whole(Switch(0)), Child(2), GiveFd(2, 0)]
  }

  ghost function HalfForkSlots(): map<Key, Slot> {
    map[(0, 0) := Slot(ReadEnd, true), (0, 1) := Slot(WriteEnd, true), (1, 0) := Slot(ReadEnd, true),
      (1, 1) := Slot(NoEnd, false),
        (2, 0) := Slot(ReadEnd, false)]
  }

  /** Two environments: the creator 0, and the reader 1 with whatever is left of its write end. */
  ghost function Two(w: Slot, p: Pc, r0: nat, r1: nat, cur: Env): Sys {
    Sys(map[(0, 0) := Slot(ReadEnd, true), (0, 1) := Slot(WriteEnd, true), (1, 0) := Slot(ReadEnd, true), (1, 1) := w],
        map[0 := Free, 1 := p], map[0 := Idle, 1 := Idle], map[0 := r0, 1 := r1], cur)
  }

  lemma ForkOne()
    ensures CanFine(NewPipe(0, 0, 1), Whole(Fork(1)))
    ensures FineStep(NewPipe(0, 0, 1), Whole(Fork(1))) == Two(Slot(WriteEnd, true), Free, 1, 0, 0)
  {
    CopiedTwo(Slot(ReadEnd, true), Slot(WriteEnd, true));
  }

  lemma CopiedTwo(a: Slot, b: Slot)
    ensures Copied(map[(0, 0) := a, (0, 1) := b], 0, 1) == map[(0, 0) := a, (0, 1) := b, (1, 0) := a, (1, 1) := b]
  {
    var m: map<Key, Slot> := map[(0, 0) := a, (0, 1) := b];
    var keys := set k: Key | k in m && k.0 == 0 :: (1, k.1);
    assert (1, 0) in keys by { assert (0, 0) in m; }
    assert (1, 1) in keys by { assert (0, 1) in m; }
    assert keys == {(1, 0), (1, 1)};
  }

  lemma ReaderCloses()
    ensures var (s1, s2) := (Two(Slot(WriteEnd, true), Free, 1, 0, 0), Two(Slot(WriteEnd, true), Free, 1, 1, 1));
      CanFine(s1, Whole(Switch(1))) && FineStep(s1, Whole(Switch(1))) == s2
    ensures var (s2, s3) := (Two(Slot(WriteEnd, true), Free, 1, 1, 1), Two(Slot(NoEnd, true), Closing(1), 1, 1, 1));
      CanFine(s2, Whole(CloseFd(1))) && FineStep(s2, Whole(CloseFd(1))) == s3
  {
  }

  lemma ReaderClosed()
    ensures var (s3, s4) := (Two(Slot(NoEnd, true), Closing(1), 1, 1, 1), Two(Slot(NoEnd, false), Free, 1, 1, 1));
      CanFine(s3, Whole(CloseData)) && FineStep(s3, Whole(CloseData)) == s4
    ensures var (s4, s5) := (Two(Slot(NoEnd, false), Free, 1, 1, 1), Two(Slot(NoEnd, false), Free, 2, 1, 0));
      CanFine(s4, Whole(Switch(0))) && FineStep(s4, Whole(Switch(0))) == s5
  {
  }

  lemma SecondFork() returns (s5: Sys, s6: Sys, t: Sys)
    ensures s5 == Two(Slot(NoEnd, false), Free, 2, 1, 0) && CanFine(s5, Child(2)) && FineStep(s5, Child(2)) == s6
    ensures CanFine(s6, GiveFd(2, 0)) && FineStep(s6, GiveFd(2, 0)) == t && Shape(t) && t.slots == HalfForkSlots()
    ensures 1 in t.runs && t.pc[1].Free? && t.check[1].Idle?
  {
    s5 := Two(Slot(NoEnd, false), Free, 2, 1, 0);
    s6 := FineStep(s5, Child(2));
    t := FineStep(s6, GiveFd(2, 0));
  }

  lemma HalfForkReached() returns (t: Sys)
    ensures FineRun(NewPipe(0, 0, 1), HalfForkRun(), t) && Shape(t) && t.slots == HalfForkSlots()
    ensures 1 in t.runs && t.pc[1].Free? && t.check[1].Idle?
  {
    ForkOne();
    ReaderCloses();
    ReaderClosed();
    var s5, s6;
    s5, s6, t := SecondFork();
    RunBack(NewPipe(0, 0, 1), Two(Slot(WriteEnd, true), Free, 1, 0, 0), Two(Slot(WriteEnd, true), Free, 1, 1, 1),
            Two(Slot(NoEnd, true), Closing(1), 1, 1, 1), Two(Slot(NoEnd, false), Free, 1, 1, 1), s5, s6, t);
  }

  lemma RunBack(s0: Sys, s1: Sys, s2: Sys, s3: Sys, s4: Sys, s5: Sys, s6: Sys, t: Sys)
    requires CanFine(s0, Whole(Fork(1))) && FineStep(s0, Whole(Fork(1))) == s1
    requires CanFine(s1, Whole(Switch(1))) && FineStep(s1, Whole(Switch(1))) == s2
    requires CanFine(s2, Whole(CloseFd(1))) && FineStep(s2, Whole(CloseFd(1))) == s3
    requires CanFine(s3, Whole(CloseData)) && FineStep(s3, Whole(CloseData)) == s4
    requires CanFine(s4, Whole(Switch(0))) && FineStep(s4, Whole(Switch(0))) == s5
    requires CanFine(s5, Child(2)) && FineStep(s5, Child(2)) == s6
    requires CanFine(s6, GiveFd(2, 0)) && FineStep(s6, GiveFd(2, 0)) == t
    ensures FineRun(s0, HalfForkRun(), t)
  {
    FineCons(s6, GiveFd(2, 0), [], t);
    FineCons(s5, Child(2), [GiveFd(2, 0)], t);
    FineCons(s4, Whole(Switch(0)), [Child(2), GiveFd(2, 0)], t);
    FineCons(s3, Whole(CloseData), [Whole(Switch(0)), Child(2), GiveFd(2, 0)], t);
    FineCons(s2, Whole(CloseFd(1)), [Whole(CloseData), Whole(Switch(0)), Child(2), GiveFd(2, 0)], t);
    FineCons(s1, Whole(Switch(1)), [Whole(CloseFd(1)), Whole(CloseData), Whole(Switch(0)), Child(2), GiveFd(2, 0)], t);
    FineCons(s0, Whole(Fork(1)), HalfForkRun()[1..], t);
  }

  /**
   * From the creation of the pipe on, a reader comes to be told that it is closed while environment 0 holds the write
   * end.
   */
  lemma HalfForkEndsEarly() returns (t: Sys)
    ensures FineRun(NewPipe(0, 0, 1), HalfForkRun(), t)
    ensures var acts := [Switch(1), ReadRuns(0), ReadFd, ReadData];
      IsRun(t, acts) && SaysClosed(Execute(t, acts)) && !Gone(Execute(t, acts), WriteEnd)
  {
    t := HalfForkReached();
    HalfForkAsk(t);
  }

  lemma HalfForkAsk(t: Sys)
    requires Shape(t) && t.slots == HalfForkSlots() && 1 in t.runs && t.pc[1].Free? && t.check[1].Idle?
    ensures var acts := [Switch(1), ReadRuns(0), ReadFd, ReadData];
      IsRun(t, acts) && SaysClosed(Execute(t, acts)) && !Gone(Execute(t, acts), WriteEnd)
  {
    HalfForkCounts();
    assert At(t, 1, 0).fd == ReadEnd;
    AskRun(t, 1, 0);
    assert t.slots[(0, 1)].fd == WriteEnd;
  }

  /** An undisturbed check by `f` of its slot `k` answers by comparing the counts of this very state. */
  lemma AskRun(s: Sys, f: Env, k: nat)
    requires Shape(s) && f in s.runs && s.pc[f].Free? && s.check[f].Idle? && At(s, f, k).fd != NoEnd
    ensures var acts := [Switch(f), ReadRuns(k), ReadFd, ReadData];
      && IsRun(s, acts) && Execute(s, acts).slots == s.slots
      && (SaysClosed(Execute(s, acts)) <==> FdRefs(s.slots, At(s, f, k).fd) == DataRefs(s.slots))
  {
    var s1, s2, s3, s4 := AskSteps(s, f, k);
    RunCons(s3, ReadData, []);
    RunCons(s2, ReadFd, [ReadData]);
    RunCons(s1, ReadRuns(k), [ReadFd, ReadData]);
    RunCons(s, Switch(f), [ReadRuns(k), ReadFd, ReadData]);
    assert [Switch(f)] + [ReadRuns(k), ReadFd, ReadData] == [Switch(f), ReadRuns(k), ReadFd, ReadData];
  }

  lemma AskSteps(s: Sys, f: Env, k: nat) returns (s1: Sys, s2: Sys, s3: Sys, s4: Sys)
    requires Shape(s) && f in s.runs && s.pc[f].Free? && s.check[f].Idle? && At(s, f, k).fd != NoEnd
    ensures CanStep(s, Switch(f)) && s1 == Step(s, Switch(f)) && CanStep(s1, ReadRuns(k)) && s2 == Step(s1, ReadRuns(k))
    ensures CanStep(s2, ReadFd) && s3 == Step(s2, ReadFd) && CanStep(s3, ReadData) && s4 == Step(s3, ReadData) &&
      s4.slots == s.slots
    ensures SaysClosed(s4) <==> FdRefs(s.slots, At(s, f, k).fd) == DataRefs(s.slots)
  {
    s1 := Step(s, Switch(f));
    s2 := Step(s1, ReadRuns(k));
    s3 := Step(s2, ReadFd);
    s4 := Step(s3, ReadData);
  }

  lemma HalfForkCounts()
    ensures FdRefs(HalfForkSlots(), ReadEnd) == 3 && DataRefs(HalfForkSlots()) == 3
  {
    assert Holding(HalfForkSlots(), ReadEnd) == {(0, 0), (1, 0), (2, 0)};
    assert Mapping(HalfForkSlots()) == {(0, 0), (0, 1), (1, 0)};
  }

  lemma RunCons(s: Sys, a: Action, rest: seq<Action>)
    requires CanStep(s, a) && IsRun(Step(s, a), rest)
    ensures IsRun(s, [a] + rest) && Execute(s, [a] + rest) == Execute(Step(s, a), rest)
  {
    assert ([a] + rest)[1..] == rest;
  }

  /** Descriptors mapped without the data page, and the reverse. */
  ghost function Bare(slots: map<Key, Slot>): set<Key> {
    set k | k in slots && slots[k].fd != NoEnd && !slots[k].data
  }

  ghost function Spare(slots: map<Key, Slot>): set<Key> {
    set k | k in slots && slots[k].fd == NoEnd && slots[k].data
  }

  /**
   * Exactly when the two counts agree, whatever the order of mapping: when the bare descriptors are as many as the
   * holders of the other end and the spare data pages together. Without bare descriptors that means nobody holds it.
   */
  lemma EqualCountsMean(slots: map<Key, Slot>, x: End)
    requires x != NoEnd
    ensures FdRefs(slots, x) == DataRefs(slots) <==> |Bare(slots)| == FdRefs(slots, Other(x)) + |Spare(slots)|
  {
    var (r, w, d) := (Holding(slots, ReadEnd), Holding(slots, WriteEnd), Mapping(slots));
    var (bare, spare) := (Bare(slots), Spare(slots));
    SameSlots(slots);
    Disjoint(r, w);
    Disjoint(r + w, spare);
    Disjoint(d, bare);
  }

  lemma Disjoint(a: set<Key>, b: set<Key>)
    requires a !! b
    ensures |a + b| == |a| + |b|
  {
  }

  lemma SameSlots(slots: map<Key, Slot>)
    ensures var (r, w, d) := (Holding(slots, ReadEnd), Holding(slots, WriteEnd), Mapping(slots));
      r + w + Spare(slots) == d + Bare(slots) && r !! w && (r + w) !! Spare(slots) && d !! Bare(slots)
  {
  }
}
