/**
 * The monitor's progress through epochs, across failing queries, failing saves, crashes and
 * restarts. `verified` is history: the epochs whose checkpoint has passed verification, and what
 * it was verified against.
 */
module Monitor {
  import opened Prelude
  import opened ForkEvidence

  /** What does not change over a run. */
  datatype Setup = Setup(bls: BlsCheck, genesis: seq<Validator>)

  datatype Evidence = Evidence(vals: seq<Validator>, btc: RawCheckpoint, queried: RawCheckpoint)

  /** `cur` is None while the monitor is down. */
  datatype State = State(saved: Option<nat>, cur: Option<EpochInfo>, verified: map<nat, Evidence>)

  datatype Event =
    // readFails: the store cannot be read; current: the chain's answer; info: the validator set query
    | Start(readFails: bool, current: Option<nat>, info: Option<seq<Validator>>)
    // a checkpoint from BTC and the chain's own one for its epoch
    | Checkpoint(btc: RawCheckpoint, queried: Result<RawCheckpoint, QueryError>, info: Option<seq<Validator>>, save: SaveOutcome)
    | Crash

  const GENESIS_EPOCH: nat := 1

  /** Where a restart resumes; None when it fails. */
  function Resumed(su: Setup, saved: Option<nat>, e: Event): Option<EpochInfo>
    requires e.Start?
  {
    if e.readFails then None
    else if saved.None? && (e.current.None? || e.current.value == 0) then Some(EpochInfo(GENESIS_EPOCH, su.genesis))
    else if e.info.None? then None
    else Some(EpochInfo(if saved.Some? then saved.value + 1 else e.current.value, e.info.value))
  }

  function Next(su: Setup, s: State, e: Event): State {
    match e
    case Crash => s.(cur := None)
    case Start(_, _, _) => if s.cur.Some? then s else s.(cur := Resumed(su, s.saved, e))
    case Checkpoint(btc, queried, info, save) =>
      if s.cur.None? || VerifyCheckpoint(su.bls, s.cur.value, btc, queried).Some? then s
      else
        var EpochInfo(epoch, vals) := s.cur.value;
        var s1 := s.(verified := s.verified[epoch := Evidence(vals, btc, queried.value)]);
        if info.None? then s1
        else s1.(cur := Some(EpochInfo(epoch + 1, info.value)), saved := if save == FailedLost then s.saved else Some(epoch))
  }

  class Monitor {
    const su: Setup
    var saved: Option<nat>
    var cur: Option<EpochInfo>
    ghost var verified: map<nat, Evidence>

    ghost function Abs(): State
      reads this
    {
      State(saved, cur, verified)
    }

    constructor (su: Setup, saved: Option<nat>)
      ensures this.su == su && Abs() == State(saved, None, map[])
    {
      this.su, this.saved, cur, verified := su, saved, None, map[];
    }

    method UpdateEpochInfo(epoch: nat, info: Option<seq<Validator>>) returns (ok: bool)
      modifies this`cur
      ensures ok == info.Some? && cur == if ok then Some(EpochInfo(epoch, info.value)) else old(cur)
    {
      if info.None? { return false; }
      cur := Some(EpochInfo(epoch, info.value));
      return true;
    }

    /** `up` is false when starting ended in a panic or a fatal error. */
    method StartUp(readFails: bool, current: Option<nat>, info: Option<seq<Validator>>) returns (up: bool)
      requires cur.None?
      modifies this`cur
      ensures Abs() == Next(su, old(Abs()), Start(readFails, current, info))
      ensures up <==> cur.Some?
      ensures if readFails then !up
              else if saved.Some? then cur == if info.Some? then Some(EpochInfo(saved.value + 1, info.value)) else None
              else if current.None? || current.value == 0 then cur == Some(EpochInfo(1, su.genesis))
              else cur == if info.Some? then Some(EpochInfo(current.value, info.value)) else None
    {
      if readFails { return false; }
      if saved.Some? {
        up := UpdateEpochInfo(saved.value + 1, info);
      } else if current.None? || current.value == 0 {
        cur := Some(EpochInfo(GENESIS_EPOCH, su.genesis));
        up := true;
      } else {
        up := UpdateEpochInfo(current.value, info);
      }
    }

    method HandleNewConfirmedCheckpoint(btc: RawCheckpoint, queried: Result<RawCheckpoint, QueryError>,
                                        info: Option<seq<Validator>>, save: SaveOutcome)
      returns (failed: bool)
      requires cur.Some?
      modifies this
      ensures Abs() == Next(su, old(Abs()), Checkpoint(btc, queried, info, save))
      ensures var verdict := VerifyCheckpoint(su.bls, old(cur.value), btc, queried);
              failed <==> verdict == Some(InconsistentBlockHash) || (verdict.None? && (info.None? || save != Saved))
      ensures var EpochInfo(epoch, vals) := old(cur.value);
              if VerifyCheckpoint(su.bls, old(cur.value), btc, queried).Some? then Abs() == old(Abs())
              else
                && queried.Ok? && verified == old(verified)[epoch := Evidence(vals, btc, queried.value)]
                && cur == (if info.Some? then Some(EpochInfo(epoch + 1, info.value)) else old(cur))
                && saved == (if info.Some? && save != FailedLost then Some(epoch) else old(saved))
    {
      var verdict := VerifyCheckpoint(su.bls, cur.value, btc, queried);
      if verdict.Some? { return verdict.value == InconsistentBlockHash; }
      var EpochInfo(current, vals) := cur.value;
      verified := verified[current := Evidence(vals, btc, queried.value)];
      var ok := UpdateEpochInfo(current + 1, info);
      if !ok { return true; }
      if save != FailedLost { saved := Some(current); }
      return save != Saved;
    }
  }

  function Run(su: Setup, s: State, events: seq<Event>): State {
    if events == [] then s else Next(su, Run(su, s, events[..|events| - 1]), events[|events| - 1])
  }

  // ----- what it means that an epoch has been verified -----

  ghost predicate Passed(su: Setup, epoch: nat, ev: Evidence) {
    VerifyCheckpoint(su.bls, EpochInfo(epoch, ev.vals), ev.btc, Ok(ev.queried)).None?
  }

  /** Every verified epoch passed verification against the validator set the monitor had for it. */
  ghost predicate Genuine(su: Setup, s: State) {
    forall e :: e in s.verified ==> Passed(su, e, s.verified[e])
  }

  lemma NextKeepsGenuine(su: Setup, s: State, e: Event)
    requires Genuine(su, s)
    ensures Genuine(su, Next(su, s, e))
  {
    hide VerifyMultiSig;
  }

  lemma {:induction false} RunKeepsGenuine(su: Setup, s: State, events: seq<Event>)
    requires Genuine(su, s)
    ensures Genuine(su, Run(su, s, events))
  {
    if events != [] {
      RunKeepsGenuine(su, s, events[..|events| - 1]);
      NextKeepsGenuine(su, Run(su, s, events[..|events| - 1]), events[|events| - 1]);
    }
  }

  /**
   * Over every run, an epoch counts as verified only with a checkpoint on BTC and one on the chain
   * that agree on the block hash, each carrying a valid signature of more than two thirds of the
   * epoch's power unless a harmful wrap-around let it through.
   */
  lemma VerifiedMeansTwoThirds(su: Setup, s: State, events: seq<Event>, e: nat)
    requires Genuine(su, s) && e in Run(su, s, events).verified
    ensures var Evidence(vals, btc, queried) := Run(su, s, events).verified[e];
            && btc.epoch == e && btc.blockHash == queried.blockHash
            && forall c :: c in [btc, queried] && WrapHarmless(Power(vals, Signers(c.bitMap)), TotalPower(vals)) ==>
                             TwoThirdsSigned(EpochInfo(e, vals), c) && su.bls(c, Keys(vals, Signers(c.bitMap)))
  {
    RunKeepsGenuine(su, s, events);
    var Evidence(vals, btc, queried) := Run(su, s, events).verified[e];
    assert Passed(su, e, Evidence(vals, btc, queried));
    hide Power, TotalPower, Signers, Keys, WrapHarmless, Run, VerifyMultiSig, TwoThirdsSigned;
    PassingMeansTwoThirds(su.bls, EpochInfo(e, vals), btc);
    PassingMeansTwoThirds(su.bls, EpochInfo(e, vals), queried);
  }

  // ----- progress from a saved epoch -----

  /** Every epoch of a range has been verified. */
  ghost predicate AllVerified(s: State, from: nat, to: nat) {
    forall e :: from <= e < to ==> e in s.verified
  }

  /** No epoch after s0 has been skipped, in memory or on disk. */
  ghost predicate Inv(s0: nat, s: State) {
    && s.saved.Some? && s0 <= s.saved.value && AllVerified(s, s0 + 1, s.saved.value + 1)
    && (s.cur.Some? ==> s.saved.value + 1 <= s.cur.value.epoch && AllVerified(s, s0 + 1, s.cur.value.epoch))
  }

  /**
   * From a store with a saved epoch, over every run of checkpoints, failures, crashes and
   * restarts: every epoch after the saved one and below the current one has been verified, and
   * what is saved is always below the current epoch.
   */
  lemma {:induction false} NoEpochIsSkipped(su: Setup, s0: nat, verified: map<nat, Evidence>, events: seq<Event>)
    ensures Inv(s0, Run(su, State(Some(s0), None, verified), events))
  {
    hide VerifyCheckpoint;
    if events != [] {
      NoEpochIsSkipped(su, s0, verified, events[..|events| - 1]);
    }
  }

  /** The checkpoint passes, the next validator set is answered and the epoch is saved. */
  ghost predicate PassesAt(su: Setup, s: State, e: Event) {
    && s.cur.Some? && e.Checkpoint? && e.info.Some? && e.save == Saved
    && VerifyCheckpoint(su.bls, s.cur.value, e.btc, e.queried).None?
  }

  ghost predicate AllPass(su: Setup, s: State, events: seq<Event>) {
    forall i :: 0 <= i < |events| ==> PassesAt(su, Run(su, s, events[..i]), events[i])
  }

  lemma PassedMovesOn(su: Setup, s: State, e: Event)
    requires PassesAt(su, s, e)
    ensures var epoch, s' := s.cur.value.epoch, Next(su, s, e);
            s'.cur.Some? && s'.cur.value.epoch == epoch + 1 && s'.saved == Some(epoch) && epoch in s'.verified
  {
    hide VerifyCheckpoint;
  }

  /** As long as checkpoints pass the monitor moves on by one epoch with each, and what it passed is saved. */
  lemma {:induction false} PassingCheckpointsMoveOn(su: Setup, s: State, events: seq<Event>)
    requires s.cur.Some? && AllPass(su, s, events) && events != []
    ensures var last, e := Run(su, s, events), s.cur.value.epoch + |events|;
            && last.cur.Some? && last.cur.value.epoch == e && last.saved == Some(e - 1) && e - 1 in last.verified
  {
    hide AllPass, Next, PassesAt, Run;
    var n := |events| - 1;
    LastPasses(su, s, events);
    PassedMovesOn(su, Run(su, s, events[..n]), events[n]);
    if n > 0 {
      AllPassPrefix(su, s, events);
      PassingCheckpointsMoveOn(su, s, events[..n]);
    }
  }

  lemma LastPasses(su: Setup, s: State, events: seq<Event>)
    requires AllPass(su, s, events) && events != []
    ensures var n := |events| - 1;
            && PassesAt(su, Run(su, s, events[..n]), events[n])
            && Run(su, s, events) == Next(su, Run(su, s, events[..n]), events[n])
            && (n == 0 ==> Run(su, s, events[..n]) == s)
  {
    hide Next, PassesAt;
  }

  lemma AllPassPrefix(su: Setup, s: State, events: seq<Event>)
    requires AllPass(su, s, events) && events != []
    ensures AllPass(su, s, events[..|events| - 1])
  {
    hide Run, PassesAt;
    var front := events[..|events| - 1];
    forall i | 0 <= i < |front| ensures PassesAt(su, Run(su, s, front[..i]), front[i]) {
      assert front[..i] == events[..i] && front[i] == events[i];
    }
  }

  // ----- progress from an empty store -----

  /** The first epoch from e0 on that has not been verified. */
  ghost function FirstGap(e0: nat, verified: set<nat>): (g: nat)
    ensures e0 <= g && g !in verified && forall e :: e0 <= e < g ==> e in verified
    decreases |verified|
  {
    if e0 in verified then
      var g := FirstGap(e0 + 1, verified - {e0});
      assert forall e :: e0 <= e < g ==> e in verified by {
        forall e | e0 <= e < g ensures e in verified { assert e == e0 || e in verified - {e0}; }
      }
      g
    else e0
  }

  /** In no state of the run is an epoch from e0 on, below the current one, unverified. */
  ghost predicate NothingSkipped(su: Setup, e0: nat, s: State, events: seq<Event>) {
    forall i :: 0 <= i <= |events| ==> SoundAt(e0, Run(su, s, events[..i]))
  }

  ghost predicate SoundAt(e0: nat, s: State) {
    s.cur.Some? ==> AllVerified(s, e0, s.cur.value.epoch)
  }

  /** Every restart that finds the store empty resumes at most at the first unverified epoch. */
  ghost predicate RestartsBehind(su: Setup, e0: nat, s: State, events: seq<Event>) {
    forall i :: 0 <= i < |events| ==> RestartBehind(su, e0, Run(su, s, events[..i]), events[i])
  }

  ghost predicate RestartBehind(su: Setup, e0: nat, s: State, e: Event) {
    e.Start? && s.cur.None? && s.saved.None? ==>
      var resumed := Resumed(su, None, e);
      resumed.Some? ==> resumed.value.epoch <= FirstGap(e0, s.verified.Keys)
  }

  /** Nothing is skipped in memory, nor would be by resuming from disk. */
  ghost predicate FreshInv(e0: nat, s: State) {
    SoundAt(e0, s) && (s.saved.Some? ==> AllVerified(s, e0, s.saved.value + 1))
  }

  lemma StepBehindKeepsInv(su: Setup, e0: nat, s: State, e: Event)
    requires FreshInv(e0, s) && RestartBehind(su, e0, s, e)
    ensures FreshInv(e0, Next(su, s, e))
  {
    hide VerifyCheckpoint;
  }

  /** A restart that skips nothing was behind. */
  lemma SoundStepIsBehind(su: Setup, e0: nat, s: State, e: Event)
    requires SoundAt(e0, Next(su, s, e))
    ensures RestartBehind(su, e0, s, e)
  {
    hide VerifyCheckpoint;
    var gap := FirstGap(e0, s.verified.Keys);
    assert gap !in s.verified;
  }

  /**
   * A monitor that started with an empty store at epoch e0 skips nothing, over any run of
   * checkpoints, failures, crashes and restarts, if and only if each restart that still finds the
   * store empty is answered at most the first epoch not yet verified.
   */
  lemma FreshRunSkipsNothingIff(su: Setup, first: Event, e0: nat, events: seq<Event>)
    requires first.Start? && Resumed(su, None, first).Some? && Resumed(su, None, first).value.epoch == e0
    ensures var started := Next(su, State(None, None, map[]), first);
            NothingSkipped(su, e0, started, events) <==> RestartsBehind(su, e0, started, events)
  {
    var started := Next(su, State(None, None, map[]), first);
    if RestartsBehind(su, e0, started, events) {
      forall i | 0 <= i <= |events| ensures SoundAt(e0, Run(su, started, events[..i])) {
        BehindSkipsNothing(su, e0, started, events, i);
      }
    }
    if NothingSkipped(su, e0, started, events) {
      forall i | 0 <= i < |events| ensures RestartBehind(su, e0, Run(su, started, events[..i]), events[i]) {
        assert SoundAt(e0, Run(su, started, events[..i + 1]));
        RunSnoc(su, started, events, i);
        SoundStepIsBehind(su, e0, Run(su, started, events[..i]), events[i]);
      }
    }
  }

  lemma RunSnoc(su: Setup, s: State, events: seq<Event>, i: nat)
    requires i < |events|
    ensures Run(su, s, events[..i + 1]) == Next(su, Run(su, s, events[..i]), events[i])
  {
    assert events[..i + 1][..i] == events[..i];
  }

  lemma {:induction false} BehindSkipsNothing(su: Setup, e0: nat, s: State, events: seq<Event>, i: nat)
    requires FreshInv(e0, s) && RestartsBehind(su, e0, s, events) && i <= |events|
    ensures FreshInv(e0, Run(su, s, events[..i]))
  {
    if i > 0 {
      BehindSkipsNothing(su, e0, s, events, i - 1);
      RunSnoc(su, s, events, i - 1);
      assert RestartBehind(su, e0, Run(su, s, events[..i - 1]), events[i - 1]);
      hide FreshInv, RestartBehind, Next;
      StepBehindKeepsInv(su, e0, Run(su, s, events[..i - 1]), events[i - 1]);
    }
  }

  /** Such a run: started at epoch 5, which is verified but not saved, and restarted at epoch 9. */
  lemma FreshStoreMaySkip() returns (su: Setup, first: Event, events: seq<Event>)
    ensures first.Start? && Resumed(su, None, first).Some? && Resumed(su, None, first).value.epoch == 5
    ensures var s := Run(su, Next(su, State(None, None, map[]), first), events);
            s.cur.Some? && s.cur.value.epoch == 9 && 5 in s.verified && 6 !in s.verified
  {
    var vals := [Validator([], 1)];
    var c := RawCheckpoint(5, [], [1], []);
    su := Setup((c, keys) => true, vals);
    first := Start(false, Some(5), Some(vals));
    var a, b, d := Checkpoint(c, Ok(c), Some(vals), FailedLost), Crash, Start(false, Some(9), Some(vals));
    events := [a, b, d];
    OneValidatorPasses(su, c);
    var s := Next(su, State(None, None, map[]), first);
    assert events[..0] == [];
    RunSnoc(su, s, events, 0);
    RunSnoc(su, s, events, 1);
    RunSnoc(su, s, events, 2);
    assert events[..3] == events;
  }

  lemma OneValidatorPasses(su: Setup, c: RawCheckpoint)
    requires su.bls == ((c, keys) => true) && c.bitMap == [1]
    ensures VerifyMultiSig(su.bls, EpochInfo(c.epoch, [Validator([], 1)]), c).None?
  {
    var vals := [Validator([], 1)];
    assert Bit([1], 0) && 0 in Signers([1]);
    assert vals[..0] == [];
    assert Power(vals, Signers([1])) == 1 && TotalPower(vals) == 1;
  }
}
