/**
 * The flag, mutex and WaitGroup that keep bootstraps apart, as interleaved steps of any number of
 * goroutines. Each step is one access to shared state, so that other goroutines may run between
 * setting the flag and adding to the WaitGroup, and between clearing the flag and Done.
 */
module BootstrapProtocol {
  import opened Prelude

  /** Where a goroutine is. */
  datatype Pc =
    | Idle       // not bootstrapping
    | Waiting    // in bootstrapWg.Wait()
    | Entering   // about to lock the mutex in bootstrap()
    | Checking   // holds the mutex, has not read the flag
    | Refusing   // holds the mutex, found the flag set
    | FlagSet    // holds the mutex, set the flag, has not called Add(1)
    | Added      // holds the mutex, called Add(1)
    | Working(async: bool)  // the body of bootstrap(), or the asynchronous checkpoint processing
    | Clearing(async: bool)  // about to lock the mutex to clear the flag
    | InClear(async: bool)   // holds the mutex, has not cleared the flag
    | Cleared(async: bool)   // holds the mutex, cleared the flag
    | MustDone(async: bool)  // unlocked, has not called Done()
    | Ended      // an asynchronous goroutine that has returned

  datatype State = State(flag: bool, wg: int, mutex: Option<nat>, pcs: map<nat, Pc>)

  predicate HoldsMutex(pc: Pc) {
    pc.Checking? || pc.Refusing? || pc.FlagSet? || pc.Added? || pc.InClear? || pc.Cleared?
  }

  /** Owns the flag. */
  predicate Holder(pc: Pc) {
    pc.FlagSet? || pc.Added? || pc.Working? || pc.Clearing? || pc.InClear?
  }

  /** Cleared the flag but did not call Done() yet. */
  predicate ClearedNotDone(pc: Pc) { pc.Cleared? || pc.MustDone? }

  /** Has added to the WaitGroup and not called Done(). */
  predicate Counted(pc: Pc) { (Holder(pc) && !pc.FlagSet?) || ClearedNotDone(pc) }

  function Threads(s: State, p: Pc -> bool): set<nat> { set t | t in s.pcs && p(s.pcs[t]) }

  ghost predicate Init(s: State) {
    !s.flag && s.wg == 0 && s.mutex.None? && forall t :: t in s.pcs ==> s.pcs[t].Idle?
  }

  datatype Step =
    | StartWait | FinishWait | Lock | Check | Unlock | AddOne | Fail | Spawn(child: nat) | FinishAsync | ClearFlag | CallDone

  /** Goroutine t takes a step; None when the step is not possible. */
  function Next(s: State, t: nat, step: Step): Option<State>
    requires t in s.pcs
  {
    var pc := s.pcs[t];
    match step
    case StartWait =>
      if pc.Idle? then Some(s.(pcs := s.pcs[t := Waiting])) else None
    case FinishWait =>
      if pc.Waiting? && s.wg == 0 then Some(s.(pcs := s.pcs[t := Entering])) else None
    case Lock =>
      if s.mutex.Some? then None
      else if pc.Entering? then Some(s.(mutex := Some(t), pcs := s.pcs[t := Checking]))
      else if pc.Clearing? then Some(s.(mutex := Some(t), pcs := s.pcs[t := InClear(pc.async)]))
      else None
    case Check =>
      if !pc.Checking? then None
      else if s.flag then Some(s.(pcs := s.pcs[t := Refusing]))
      else Some(s.(flag := true, pcs := s.pcs[t := FlagSet]))
    case AddOne =>
      if pc.FlagSet? then Some(s.(wg := s.wg + 1, pcs := s.pcs[t := Added])) else None
    case Unlock =>
      if pc.Refusing? then Some(s.(mutex := None, pcs := s.pcs[t := Idle]))
      else if pc.Added? then Some(s.(mutex := None, pcs := s.pcs[t := Working(false)]))
      else if pc.Cleared? then Some(s.(mutex := None, pcs := s.pcs[t := MustDone(pc.async)]))
      else None
    case Fail =>
      if pc == Working(false) then Some(s.(pcs := s.pcs[t := Clearing(false)])) else None
    case Spawn(child) =>
      if pc == Working(false) && child !in s.pcs
      then Some(s.(pcs := s.pcs[t := Idle][child := Working(true)])) else None
    case FinishAsync =>
      if pc == Working(true) then Some(s.(pcs := s.pcs[t := Clearing(true)])) else None
    case ClearFlag =>
      if pc.InClear? then Some(s.(flag := false, pcs := s.pcs[t := Cleared(pc.async)])) else None
    case CallDone =>
      if pc.MustDone? then Some(s.(wg := s.wg - 1, pcs := s.pcs[t := if pc.async then Ended else Idle])) else None
  }

  ghost predicate MutexInv(s: State) {
    && (forall t :: t in s.pcs && HoldsMutex(s.pcs[t]) ==> s.mutex == Some(t))
    && (s.mutex.Some? ==> s.mutex.value in s.pcs && HoldsMutex(s.pcs[s.mutex.value]))
  }

  ghost predicate CountInv(s: State) {
    && |Threads(s, Holder)| == (if s.flag then 1 else 0)
    && s.wg == |Threads(s, Counted)|
  }

  ghost predicate Inv(s: State) { MutexInv(s) && CountInv(s) }

  /** How the set of goroutines satisfying a condition changes when one of them moves. */
  lemma MoveChangesThreads(s: State, s': State, t: nat, pc: Pc, p: Pc -> bool)
    requires t in s.pcs && s'.pcs == s.pcs[t := pc]
    ensures Threads(s', p) == if p(pc) then Threads(s, p) + {t} else Threads(s, p) - {t}
    ensures |Threads(s', p)| == |Threads(s, p)| + (if p(pc) then 1 else 0) - (if p(s.pcs[t]) then 1 else 0)
  {
    var before, after := Threads(s, p), Threads(s', p);
    assert t in before <==> p(s.pcs[t]);
    assert after == if p(pc) then before + {t} else before - {t};
    hide Threads;
    SizeChange(before, t, p(pc));
  }

  lemma SizeChange(a: set<nat>, t: nat, member: bool)
    ensures |if member then a + {t} else a - {t}| == |a| + (if member then 1 else 0) - (if t in a then 1 else 0)
  {
    if t in a {
      assert a + {t} == a;
      assert a == a - {t} + {t};
    } else {
      assert a - {t} == a;
    }
  }

  lemma SpawnChangesThreads(s: State, s': State, t: nat, child: nat, p: Pc -> bool)
    requires t in s.pcs && child !in s.pcs && s'.pcs == s.pcs[t := Idle][child := Working(true)]
    requires !p(Idle) && p(Working(true)) && p(s.pcs[t])
    ensures |Threads(s', p)| == |Threads(s, p)|
  {
    assert Threads(s', p) == Threads(s, p) - {t} + {child};
    assert t in Threads(s, p) && child !in Threads(s, p);
  }

  /** The flag owner is unique. */
  lemma HolderUnique(s: State, t: nat, u: nat)
    requires |Threads(s, Holder)| <= 1
    requires t in s.pcs && u in s.pcs && Holder(s.pcs[t]) && Holder(s.pcs[u])
    ensures t == u
  {
    var a := Threads(s, Holder);
    assert u in a - {t} || u == t;
    assert |a - {t}| == |a| - 1;
  }

  lemma StepKeepsMutexInv(s: State, t: nat, step: Step)
    requires MutexInv(s) && t in s.pcs && Next(s, t, step).Some?
    ensures MutexInv(Next(s, t, step).value)
  {
  }

  function One(b: bool): int { if b then 1 else 0 }

  /** The counts stay right when flag and WaitGroup follow what the moving goroutine holds. */
  lemma MoveKeepsCountInv(s: State, s': State, t: nat, pc: Pc)
    requires CountInv(s) && t in s.pcs && s'.pcs == s.pcs[t := pc]
    requires One(s'.flag) == One(s.flag) + One(Holder(pc)) - One(Holder(s.pcs[t]))
    requires s'.wg == s.wg + One(Counted(pc)) - One(Counted(s.pcs[t]))
    ensures CountInv(s')
  {
    hide Threads;
    MoveChangesThreads(s, s', t, pc, Holder);
    MoveChangesThreads(s, s', t, pc, Counted);
  }

  lemma StepKeepsCountInv(s: State, t: nat, step: Step)
    requires CountInv(s) && t in s.pcs && Next(s, t, step).Some?
    ensures CountInv(Next(s, t, step).value)
  {
    var s' := Next(s, t, step).value;
    if step.Spawn? {
      hide Threads;
      SpawnChangesThreads(s, s', t, step.child, Holder);
      SpawnChangesThreads(s, s', t, step.child, Counted);
    } else {
      assert Holder(s.pcs[t]) ==> s.flag by { if !s.flag { NoHolder(s, t); } }
      hide CountInv, Threads;
      MoveKeepsCountInv(s, s', t, s'.pcs[t]);
    }
  }

  lemma StepKeepsInv(s: State, t: nat, step: Step)
    requires Inv(s) && t in s.pcs && Next(s, t, step).Some?
    ensures Inv(Next(s, t, step).value)
  {
    StepKeepsMutexInv(s, t, step);
    StepKeepsCountInv(s, t, step);
  }

  lemma NoHolder(s: State, t: nat)
    requires |Threads(s, Holder)| == 0 && t in s.pcs
    ensures !Holder(s.pcs[t])
  {
    assert Holder(s.pcs[t]) ==> t in Threads(s, Holder);
  }

  lemma InitInv(s: State)
    requires Init(s)
    ensures Inv(s)
  {
    assert Threads(s, Holder) == {} && Threads(s, Counted) == {};
  }

  /** An interleaving: which goroutine takes which step, from an initial state. */
  ghost predicate Run(states: seq<State>) {
    && states != [] && Init(states[0])
    && forall i :: 0 <= i < |states| - 1 ==> Stepped(states[i], states[i + 1])
  }

  ghost predicate Stepped(s: State, s': State) {
    exists t, step :: t in s.pcs && Next(s, t, step) == Some(s')
  }

  lemma {:induction false} RunKeepsInv(states: seq<State>, i: nat)
    requires Run(states) && i < |states|
    ensures Inv(states[i])
  {
    if i == 0 {
      InitInv(states[0]);
    } else {
      RunKeepsInv(states, i - 1);
      assert Stepped(states[i - 1], states[i - 1 + 1]);
      var t, step :| t in states[i - 1].pcs && Next(states[i - 1], t, step) == Some(states[i]);
      StepKeepsInv(states[i - 1], t, step);
    }
  }

  /**
   * In every state of every interleaving at most one goroutine owns the flag, and the WaitGroup
   * count is the number of owners that have added plus those that cleared the flag but are not
   * done; so it is never negative.
   */
  lemma OneBootstrapAtATime(states: seq<State>, i: nat, t: nat, u: nat)
    requires Run(states) && i < |states|
    ensures t in states[i].pcs && u in states[i].pcs && Holder(states[i].pcs[t]) && Holder(states[i].pcs[u]) ==> t == u
    ensures states[i].wg >= 0
    ensures states[i].wg == |Threads(states[i], pc => Holder(pc) && !pc.FlagSet?)| + |Threads(states[i], ClearedNotDone)|
  {
    var s := states[i];
    RunKeepsInv(states, i);
    if t in s.pcs && u in s.pcs && Holder(s.pcs[t]) && Holder(s.pcs[u]) {
      HolderUnique(s, t, u);
    }
    var owners, clearing := Threads(s, pc => Holder(pc) && !pc.FlagSet?), Threads(s, ClearedNotDone);
    assert Threads(s, Counted) == owners + clearing && owners !! clearing;
  }

  /** Some goroutine holds the mutex between setting the flag and adding to the WaitGroup. */
  predicate InsideWindow(s: State) {
    s.mutex.Some? && s.mutex.value in s.pcs && s.pcs[s.mutex.value].FlagSet?
  }

  /**
   * When a Wait finishes, the flag is clear, except exactly when some goroutine is inside the
   * mutex between setting the flag and adding to the WaitGroup.
   */
  lemma FinishedWaitSeesClearFlag(states: seq<State>, i: nat)
    requires Run(states) && i < |states| && states[i].wg == 0
    ensures states[i].flag <==> InsideWindow(states[i])
    ensures states[i].mutex.None? ==> !states[i].flag
  {
    var s := states[i];
    RunKeepsInv(states, i);
    assert Threads(s, Counted) == {};
    if s.flag {
      assert Threads(s, Holder) != {};
      var t :| t in Threads(s, Holder);
      assert s.pcs[t].FlagSet? || t in Threads(s, Counted);
    } else if s.mutex.Some? {
      NoHolder(s, s.mutex.value);
    }
  }

  /** With two callers at once that window is reachable: the flag is set and a Wait can still finish. */
  lemma WindowIsReachable() returns (states: seq<State>)
    ensures Run(states)
    ensures var s := states[|states| - 1];
            s.flag && s.wg == 0 && 1 in s.pcs && Next(s, 1, FinishWait).Some?
  {
    var s0 := State(false, 0, None, map[0 := Idle, 1 := Idle]);
    var s1 := Next(s0, 0, StartWait).value;
    var s2 := Next(s1, 1, StartWait).value;
    var s3 := Next(s2, 0, FinishWait).value;
    var s4 := Next(s3, 0, Lock).value;
    var s5 := Next(s4, 0, Check).value;
    assert Stepped(s0, s1) && Stepped(s1, s2) && Stepped(s2, s3) && Stepped(s3, s4) && Stepped(s4, s5);
    states := [s0, s1, s2, s3, s4, s5];
  }

  // ----- one caller at a time, as in the reporter -----

  /** In the asynchronous part, which neither waits nor sets the flag. */
  predicate Async(pc: Pc) {
    pc.Ended? || ((pc.Working? || pc.Clearing? || pc.InClear? || pc.Cleared? || pc.MustDone?) && pc.async)
  }

  /** Every other goroutine is asynchronous, and between its Wait and setting the flag the caller is alone. */
  ghost predicate SingleCaller(s: State, c: nat) {
    && c in s.pcs && !Async(s.pcs[c]) && !s.pcs[c].Refusing?
    && (forall t :: t in s.pcs && t != c ==> Async(s.pcs[t]))
    && (s.pcs[c].Entering? || s.pcs[c].Checking? ==> !s.flag)
  }

  /** With a count of zero and the caller not in the window, nobody owns the flag. */
  lemma NobodyElseOwnsTheFlag(s: State, c: nat)
    requires Inv(s) && SingleCaller(s, c) && s.wg == 0 && !s.pcs[c].FlagSet?
    ensures !s.flag
  {
    assert Threads(s, Counted) == {};
    assert Threads(s, Holder) <= Threads(s, Counted);
  }

  lemma StepKeepsSingleCaller(s: State, c: nat, t: nat, step: Step)
    requires Inv(s) && SingleCaller(s, c) && t in s.pcs && Next(s, t, step).Some?
    ensures SingleCaller(Next(s, t, step).value, c)
  {
    if step.FinishWait? { NobodyElseOwnsTheFlag(s, c); }
    hide Inv;
  }

  lemma {:induction false} RunKeepsSingleCaller(states: seq<State>, c: nat, i: nat)
    requires Run(states) && states[0].pcs.Keys == {c} && i < |states|
    ensures SingleCaller(states[i], c)
  {
    if i == 0 {
      assert c in states[0].pcs.Keys;
    } else {
      RunKeepsSingleCaller(states, c, i - 1);
      RunKeepsInv(states, i - 1);
      assert Stepped(states[i - 1], states[i - 1 + 1]);
      var t, step :| t in states[i - 1].pcs && Next(states[i - 1], t, step) == Some(states[i]);
      hide SingleCaller, Inv;
      StepKeepsSingleCaller(states[i - 1], c, t, step);
    }
  }

  /**
   * When one goroutine does all the calling, as in the reporter, a finishing Wait always sees the
   * flag clear, and bootstrap never refuses because another one is in progress.
   */
  lemma SingleCallerNeverRefused(states: seq<State>, c: nat, i: nat, t: nat)
    requires Run(states) && states[0].pcs.Keys == {c} && i < |states| && t in states[i].pcs
    ensures Next(states[i], t, FinishWait).Some? ==> !states[i].flag
    ensures states[i].pcs[t].Checking? ==> !states[i].flag
    ensures !states[i].pcs[t].Refusing?
  {
    RunKeepsSingleCaller(states, c, i);
    RunKeepsInv(states, i);
    if t == c && Next(states[i], t, FinishWait).Some? {
      NobodyElseOwnsTheFlag(states[i], c);
    }
  }

  // ----- the protocol does its work -----

  /** The given steps of one goroutine, one after the other; None when one is not possible. */
  function Steps(s: State, t: nat, steps: seq<Step>): Option<State>
    decreases |steps|
  {
    if steps == [] then Some(s)
    else if t !in s.pcs then None
    else
      var s' := Next(s, t, steps[0]);
      if s'.None? then None else Steps(s'.value, t, steps[1..])
  }

  lemma StepsCons(s: State, t: nat, step: Step, steps: seq<Step>)
    requires t in s.pcs && Next(s, t, step).Some?
    ensures Steps(s, t, [step] + steps) == Steps(Next(s, t, step).value, t, steps)
  {
    assert ([step] + steps)[1..] == steps;
  }

  /** A caller that waits with nothing in progress sets the flag, counts itself, and hands over to its child. */
  lemma BootstrapRuns(s: State, t: nat, child: nat)
    requires t in s.pcs && s.pcs[t].Waiting? && !s.flag && s.wg == 0 && s.mutex.None? && child !in s.pcs
    ensures Steps(s, t, [FinishWait, Lock, Check, AddOne, Unlock, Spawn(child)]) ==
            Some(State(true, 1, None, s.pcs[t := Idle][child := Working(true)]))
  {
    hide Steps;
    var s5 := State(true, 1, None, s.pcs[t := Working(false)]);
    EnterSteps(s, t, [Spawn(child)]);
    StepsCons(s5, t, Spawn(child), []);
    var s6 := State(true, 1, None, s.pcs[t := Idle][child := Working(true)]);
    assert s5.pcs[t := Idle] == s.pcs[t := Idle];
    StepsDone(s6, t);
    assert [FinishWait, Lock, Check, AddOne, Unlock, Spawn(child)] == [FinishWait, Lock, Check, AddOne, Unlock] + [Spawn(child)];
    assert [Spawn(child)] + [] == [Spawn(child)];
  }

  lemma StepsDone(s: State, t: nat)
    ensures Steps(s, t, []) == Some(s)
  {
  }

  lemma EnterSteps(s: State, t: nat, rest: seq<Step>)
    requires t in s.pcs && s.pcs[t].Waiting? && !s.flag && s.wg == 0 && s.mutex.None?
    ensures Steps(s, t, [FinishWait, Lock, Check, AddOne, Unlock] + rest) ==
            Steps(State(true, 1, None, s.pcs[t := Working(false)]), t, rest)
  {
    hide Steps;
    var s1 := State(false, 0, None, s.pcs[t := Entering]);
    var s2 := State(false, 0, Some(t), s.pcs[t := Checking]);
    var s3 := State(true, 0, Some(t), s.pcs[t := FlagSet]);
    var s4 := State(true, 1, Some(t), s.pcs[t := Added]);
    var s5 := State(true, 1, None, s.pcs[t := Working(false)]);
    assert Next(s, t, FinishWait) == Some(s1);
    assert Next(s1, t, Lock) == Some(s2) by { assert s1.pcs[t := Checking] == s2.pcs; }
    assert Next(s2, t, Check) == Some(s3) by { assert s2.pcs[t := FlagSet] == s3.pcs; }
    assert Next(s3, t, AddOne) == Some(s4) by { assert s3.pcs[t := Added] == s4.pcs; }
    assert Next(s4, t, Unlock) == Some(s5) by { assert s4.pcs[t := Working(false)] == s5.pcs; }
    hide Next;
    StepsCons(s4, t, Unlock, rest);
    StepsCons(s3, t, AddOne, [Unlock] + rest);
    StepsCons(s2, t, Check, [AddOne] + ([Unlock] + rest));
    StepsCons(s1, t, Lock, [Check] + ([AddOne] + ([Unlock] + rest)));
    StepsCons(s, t, FinishWait, [Lock] + ([Check] + ([AddOne] + ([Unlock] + rest))));
    assert [FinishWait, Lock, Check, AddOne, Unlock] + rest ==
           [FinishWait] + ([Lock] + ([Check] + ([AddOne] + ([Unlock] + rest))));
  }

  /** Whoever finishes, the asynchronous part or a failed bootstrap, clears the flag and uncounts itself. */
  lemma FinishingCleansUp(s: State, t: nat, async: bool)
    requires t in s.pcs && s.pcs[t] == Working(async) && s.mutex.None?
    ensures Steps(s, t, [if async then FinishAsync else Fail, Lock, ClearFlag, Unlock, CallDone]) ==
            Some(State(false, s.wg - 1, None, s.pcs[t := if async then Ended else Idle]))
  {
    hide Steps;
    var first := if async then FinishAsync else Fail;
    var s1 := s.(pcs := s.pcs[t := Clearing(async)]);
    assert Next(s, t, first) == Some(s1);
    StepsCons(s, t, first, [Lock, ClearFlag, Unlock, CallDone]);
    hide Next;
    ClearingSteps(s1, t, async);
    assert s1.pcs[t := if async then Ended else Idle] == s.pcs[t := if async then Ended else Idle];
    assert [first, Lock, ClearFlag, Unlock, CallDone] == [first] + [Lock, ClearFlag, Unlock, CallDone];
  }

  lemma ClearingSteps(s: State, t: nat, async: bool)
    requires t in s.pcs && s.pcs[t] == Clearing(async) && s.mutex.None?
    ensures Steps(s, t, [Lock, ClearFlag, Unlock, CallDone]) ==
            Some(State(false, s.wg - 1, None, s.pcs[t := if async then Ended else Idle]))
  {
    hide Steps;
    var s2 := s.(mutex := Some(t), pcs := s.pcs[t := InClear(async)]);
    var s3 := State(false, s.wg, Some(t), s.pcs[t := Cleared(async)]);
    var s4 := State(false, s.wg, None, s.pcs[t := MustDone(async)]);
    var s5 := State(false, s.wg - 1, None, s.pcs[t := if async then Ended else Idle]);
    assert Next(s, t, Lock) == Some(s2);
    assert Next(s2, t, ClearFlag) == Some(s3) by { assert s2.pcs[t := Cleared(async)] == s3.pcs; }
    assert Next(s3, t, Unlock) == Some(s4) by { assert s3.pcs[t := MustDone(async)] == s4.pcs; }
    assert Next(s4, t, CallDone) == Some(s5) by { assert s4.pcs[t := if async then Ended else Idle] == s5.pcs; }
    hide Next;
    StepsDone(s5, t);
    StepsCons(s4, t, CallDone, []);
    StepsCons(s3, t, Unlock, [CallDone] + []);
    StepsCons(s2, t, ClearFlag, [Unlock] + ([CallDone] + []));
    StepsCons(s, t, Lock, [ClearFlag] + ([Unlock] + ([CallDone] + [])));
    assert [Lock, ClearFlag, Unlock, CallDone] == [Lock] + ([ClearFlag] + ([Unlock] + ([CallDone] + [])));
  }
}
