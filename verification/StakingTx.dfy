/** Identifiable staking transactions: the OP_RETURN codec, the builder and the parser. */
module StakingTx {
  import opened Prelude
  import opened BtcTx
  import opened StakingScripts

  const TAG_LEN: nat := 4
  const DATA_SIZE: nat := 71
  const MAX_DATA_CARRIER_SIZE: nat := 80
  const OP_PUSHDATA1: Byte := 0x4c
  const OP_PUSHDATA2: Byte := 0x4d
  const OP_PUSHDATA4: Byte := 0x4e

  datatype OpReturnData = OpReturnData(tag: Bytes, version: Byte, staker: PublicKey, fp: PublicKey, stakingTime: Uint16)

  datatype Parsed = Parsed(stakingIdx: nat, opReturnIdx: nat, data: OpReturnData)

  datatype TxError =
    | BadTagLength | BadDataLength | BadVersion | BadStakerKey | BadFpKey | NilKey | NotOpReturn
    | Script(e: ScriptError) | NoCovenantKeys | QuorumTooHigh | TooFewOutputs
    | ManyOpReturns | NoOpReturn | ManyStakingOutputs | NoStakingOutput | UnexpectedTag

  /** Which x coordinates belong to a curve point. */
  type OnCurve = XOnly -> bool

  // ----- the OP_RETURN data -----

  /** schnorr.ParsePubKey: the point with even y. */
  function ParsePubKey(cv: OnCurve, b: Bytes): (r: Option<PublicKey>)
    ensures r.Some? ==> |b| == 32 && r.value == PublicKey(b, false)
  {
    if |b| == 32 && cv(b) then Some(PublicKey(b, false)) else None
  }

  function DataFromBytes(cv: OnCurve, b: Bytes): Result<OpReturnData, TxError> {
    if |b| != DATA_SIZE then Err(BadDataLength)
    else if b[TAG_LEN] != 0 then Err(BadVersion)
    else
      var staker, fp := ParsePubKey(cv, b[5..37]), ParsePubKey(cv, b[37..69]);
      Pow256Values();
      if staker.None? then Err(BadStakerKey)
      else if fp.None? then Err(BadFpKey)
      else Ok(OpReturnData(b[..TAG_LEN], 0, staker.value, fp.value, FromBigEndian(b[69..])))
  }

  function Marshall(d: OpReturnData): Bytes {
    d.tag + [d.version] + d.staker.x + d.fp.x + ToBigEndian(d.stakingTime, 2)
  }

  /** txscript.IsNullData: OP_RETURN alone or followed by exactly one push of at most 80 bytes. */
  predicate IsNullData(s: Bytes) {
    && |s| >= 1 && s[0] == OP_RETURN
    && (|| |s| == 1
        || (var op := s[1];
            if op == 0 || 0x51 <= op <= 0x60 then |s| == 2
            else if op < OP_PUSHDATA1 then |s| == 2 + op
            else if op == OP_PUSHDATA1 then |s| >= 3 && s[2] <= MAX_DATA_CARRIER_SIZE && |s| == 3 + s[2]
            else if op == OP_PUSHDATA2 then
              |s| >= 4 && s[2] <= MAX_DATA_CARRIER_SIZE && s[3] == 0 && |s| == 4 + s[2]
            else if op == OP_PUSHDATA4 then
              |s| >= 6 && s[2] <= MAX_DATA_CARRIER_SIZE && s[3] == s[4] == s[5] == 0 && |s| == 6 + s[2]
            else false))
  }

  function OpReturnBytes(out: TxOut): (r: Option<Bytes>)
    ensures r.Some? ==> |r.value| == DATA_SIZE
  {
    if |out.pkScript| == DATA_SIZE + 2 && IsNullData(out.pkScript) then Some(out.pkScript[2..]) else None
  }

  function DataOf(cv: OnCurve, out: TxOut): Result<OpReturnData, TxError> {
    var b := OpReturnBytes(out);
    if b.None? then Err(NotOpReturn) else DataFromBytes(cv, b.value)
  }

  function OpReturnOutput(d: OpReturnData): TxOut
    requires |d.tag| == TAG_LEN
  {
    TxOut(0, [OP_RETURN, DATA_SIZE] + Marshall(d))
  }

  /** Reading back what was written gives the same data with even keys. */
  lemma OpReturnRoundTrip(cv: OnCurve, d: OpReturnData)
    requires |d.tag| == TAG_LEN && d.version == 0 && cv(d.staker.x) && cv(d.fp.x)
    ensures DataOf(cv, OpReturnOutput(d)) ==
            Ok(d.(staker := PublicKey(d.staker.x, false), fp := PublicKey(d.fp.x, false)))
  {
    hide ToBigEndian, FromBigEndian;
    var b := Marshall(d);
    assert b[..4] == d.tag && b[4] == 0 && b[5..37] == d.staker.x && b[37..69] == d.fp.x;
    assert b[69..] == ToBigEndian(d.stakingTime, 2);
    Pow256Values();
    BigEndianRoundTrip(d.stakingTime, 2);
    assert OpReturnOutput(d).pkScript[2..] == b;
  }

  /**
   * 73 bytes that start OP_RETURN and then push the rest. The usual push has its length, 71, as
   * opcode; a longer push opcode fits too if its length bytes happen to be the first bytes of the tag.
   */
  predicate DataScript(s: Bytes) {
    && |s| == 73 && s[0] == 0x6a
    && (|| s[1] == 71
        || (s[1] == 0x4c && s[2] == 70)
        || (s[1] == 0x4d && s[2] == 69 && s[3] == 0)
        || (s[1] == 0x4e && s[2] == 67 && s[3] == s[4] == s[5] == 0))
  }

  /** What is read as staking data, and where each field is. */
  lemma OpReturnLayout(cv: OnCurve, out: TxOut)
    ensures DataOf(cv, out).Ok? <==>
            && DataScript(out.pkScript) && out.pkScript[6] == 0
            && cv(out.pkScript[7..39]) && cv(out.pkScript[39..71])
    ensures DataOf(cv, out).Ok? ==>
              var s := out.pkScript;
              DataOf(cv, out).value == OpReturnData(s[2..6], 0, PublicKey(s[7..39], false), PublicKey(s[39..71], false), FromBigEndian(s[71..]))
  {
    hide FromBigEndian;
    DataScriptIs(out);
    hide IsNullData;
    var s := out.pkScript;
    if |s| == 73 {
      var b := s[2..];
      assert b[..4] == s[2..6] && b[5..37] == s[7..39] && b[37..69] == s[39..71] && b[69..] == s[71..];
    }
  }

  /** The written output, byte by byte. */
  lemma OpReturnBytesWritten(d: OpReturnData)
    requires |d.tag| == TAG_LEN
    ensures var s := OpReturnOutput(d).pkScript;
            && OpReturnOutput(d).value == 0 && |s| == 73 && s[0] == 0x6a && s[1] == 71
            && s[2..6] == d.tag && s[6] == d.version && s[7..39] == d.staker.x && s[39..71] == d.fp.x
            && FromBigEndian(s[71..]) == d.stakingTime
  {
    hide ToBigEndian, FromBigEndian;
    var s := OpReturnOutput(d).pkScript;
    assert s[71..] == ToBigEndian(d.stakingTime, 2);
    Pow256Values();
    BigEndianRoundTrip(d.stakingTime, 2);
  }

  lemma DataScriptIs(out: TxOut)
    ensures OpReturnBytes(out).Some? <==> DataScript(out.pkScript)
  {
  }

  // ----- building -----

  function BuildOutputs(t: Taproot, tag: Bytes, staker: Option<PublicKey>, fp: PublicKey, covenant: seq<PublicKey>,
                        quorum: Uint32, stakingTime: Uint16, amount: Int64): Result<(TxOut, TxOut), TxError> {
    var pkScript := StakingPkScript(t, staker, [fp], covenant, quorum, stakingTime);
    if pkScript.Err? then Err(Script(pkScript.error))
    else if |tag| != TAG_LEN then Err(BadTagLength)
    else if staker.None? then Err(NilKey)
    else Ok((TxOut(amount, pkScript.value),
             OpReturnOutput(OpReturnData(tag, 0, staker.value, fp, stakingTime))))
  }

  /** When the outputs are built: the policy compiles to a tree and the tag has its length. */
  lemma BuiltIff(t: Taproot, tag: Bytes, staker: Option<PublicKey>, fp: PublicKey, covenant: seq<PublicKey>,
                 quorum: Uint32, stakingTime: Uint16, amount: Int64)
    ensures var b := BuildOutputs(t, tag, staker, fp, covenant, quorum, stakingTime, amount);
            && (b.Ok? <==> staker.Some? && StakingPkScript(t, staker, [fp], covenant, quorum, stakingTime).Ok? && |tag| == 4)
            && (b.Ok? ==> b.value.0 == TxOut(amount, StakingPkScript(t, staker, [fp], covenant, quorum, stakingTime).value))
  {
  }

  // ----- parsing -----

  /** The parser's parameters. */
  datatype Params = Params(t: Taproot, cv: OnCurve, tag: Bytes, covenant: seq<PublicKey>, quorum: Uint32)

  function ExpectedScript(p: Params, d: OpReturnData): Result<TaprootScript, ScriptError> {
    StakingPkScript(p.t, Some(d.staker), [d.fp], p.covenant, p.quorum, d.stakingTime)
  }

  /** Exactly one output carries staking data, and exactly one pays to the script it describes. */
  ghost predicate Describes(p: Params, outs: seq<TxOut>, r: Parsed) {
    && |p.tag| == TAG_LEN && 0 < |p.covenant| && p.quorum <= |p.covenant| && 2 <= |outs|
    && OnlyData(p.cv, outs, r.opReturnIdx, r.data)
    && r.data.tag == p.tag
    && var script := ExpectedScript(p, r.data);
       script.Ok? && OnlyPayment(outs, r.stakingIdx, script.value)
  }

  ghost predicate OnlyData(cv: OnCurve, outs: seq<TxOut>, i: nat, d: OpReturnData) {
    i < |outs| && DataOf(cv, outs[i]) == Ok(d) && forall j :: 0 <= j < |outs| && j != i ==> DataOf(cv, outs[j]).Err?
  }

  ghost predicate OnlyPayment(outs: seq<TxOut>, i: nat, script: Bytes) {
    i < |outs| && outs[i].pkScript == script && forall j :: 0 <= j < |outs| && j != i ==> outs[j].pkScript != script
  }

  method TryToGetOpReturnData(cv: OnCurve, outs: seq<TxOut>) returns (r: Result<Option<(OpReturnData, nat)>, TxError>)
    ensures r.Ok? && r.value.Some? ==> OnlyData(cv, outs, r.value.value.1, r.value.value.0)
    ensures r == Ok(None) ==> forall j :: 0 <= j < |outs| ==> DataOf(cv, outs[j]).Err?
    ensures r.Err? ==> r == Err(ManyOpReturns) &&
                       exists i, j :: 0 <= i < j < |outs| && DataOf(cv, outs[i]).Ok? && DataOf(cv, outs[j]).Ok?
  {
    var found: Option<(OpReturnData, nat)> := None;
    for i := 0 to |outs|
      invariant found.None? ==> forall j :: 0 <= j < i ==> DataOf(cv, outs[j]).Err?
      invariant found.Some? ==> OnlyData(cv, outs[..i], found.value.1, found.value.0)
    {
      var d := DataOf(cv, outs[i]);
      if d.Err? {
        continue;
      }
      if found.Some? {
        assert outs[..i][found.value.1] == outs[found.value.1];
        return Err(ManyOpReturns);
      }
      found := Some((d.value, i));
    }
    assert outs[..|outs|] == outs;
    return Ok(found);
  }

  method TryToGetStakingOutput(outs: seq<TxOut>, script: Bytes) returns (r: Result<Option<nat>, TxError>)
    ensures r.Ok? && r.value.Some? ==> OnlyPayment(outs, r.value.value, script)
    ensures r == Ok(None) ==> forall j :: 0 <= j < |outs| ==> outs[j].pkScript != script
    ensures r.Err? ==> r == Err(ManyStakingOutputs) &&
                       exists i, j :: 0 <= i < j < |outs| && outs[i].pkScript == script && outs[j].pkScript == script
  {
    var found: Option<nat> := None;
    for i := 0 to |outs|
      invariant found.None? ==> forall j :: 0 <= j < i ==> outs[j].pkScript != script
      invariant found.Some? ==> OnlyPayment(outs[..i], found.value, script)
    {
      if outs[i].pkScript != script {
        continue;
      }
      if found.Some? {
        assert outs[..i][found.value] == outs[found.value];
        return Err(ManyStakingOutputs);
      }
      found := Some(i);
    }
    assert outs[..|outs|] == outs;
    return Ok(found);
  }

  /** The parser accepts exactly the transactions that describe themselves unambiguously. */
  method ParseV0StakingTx(p: Params, outs: seq<TxOut>) returns (r: Result<Parsed, TxError>)
    ensures r.Ok? ==> Describes(p, outs, r.value)
    ensures r.Err? ==> forall d :: !Describes(p, outs, d)
  {
    if |p.tag| != TAG_LEN { return Err(BadTagLength); }
    if |p.covenant| == 0 { return Err(NoCovenantKeys); }
    if p.quorum > |p.covenant| { return Err(QuorumTooHigh); }
    if |outs| < 2 { return Err(TooFewOutputs); }
    var data := TryToGetOpReturnData(p.cv, outs);
    if data.Err? {
      return Err(data.error);
    }
    if data.value.None? { return Err(NoOpReturn); }
    var (d, opReturnIdx) := data.value.value;
    OnlyDataUnique(p, outs, opReturnIdx, d);
    if d.version != 0 { return Err(BadVersion); }
    var script := ExpectedScript(p, d);
    if script.Err? { return Err(Script(script.error)); }
    var staking := TryToGetStakingOutput(outs, script.value);
    if staking.Err? {
      return Err(staking.error);
    }
    if staking.value.None? { return Err(NoStakingOutput); }
    if d.tag != p.tag { return Err(UnexpectedTag); }
    return Ok(Parsed(staking.value.value, opReturnIdx, d));
  }

  lemma OnlyDataUnique(p: Params, outs: seq<TxOut>, i: nat, d: OpReturnData)
    requires OnlyData(p.cv, outs, i, d)
    ensures d.version == 0
    ensures forall r :: Describes(p, outs, r) ==> r.data == d && r.opReturnIdx == i
  {
    assert d.version == 0;
    hide DataOf, ExpectedScript;
  }

  /** A transaction describes itself in at most one way. */
  lemma DescriptionUnique(p: Params, outs: seq<TxOut>, a: Parsed, b: Parsed)
    requires Describes(p, outs, a) && Describes(p, outs, b)
    ensures a == b
  {
    hide DataOf, ExpectedScript;
    OnlyDataUnique(p, outs, a.opReturnIdx, a.data);
  }

  // ----- building and parsing are inverse -----

  /** An output that is neither staking data nor a payment to the staking script. */
  ghost predicate Unrelated(cv: OnCurve, out: TxOut, script: Bytes) {
    DataOf(cv, out).Err? && out.pkScript != script
  }

  /**
   * Whatever unrelated outputs surround the two built ones, and in whatever order, the parser
   * recovers the tag, the x-only keys, the staking time and the two positions.
   */
  lemma ParsesWhatWasBuilt(p: Params, staker: PublicKey, fp: PublicKey, stakingTime: Uint16, amount: Int64,
                           outs: seq<TxOut>, i: nat, j: nat)
    requires BuildOutputs(p.t, p.tag, Some(staker), fp, p.covenant, p.quorum, stakingTime, amount).Ok?
    requires p.cv(staker.x) && p.cv(fp.x)
    requires i < |outs| && j < |outs| && i != j
    requires (outs[i], outs[j]) == BuildOutputs(p.t, p.tag, Some(staker), fp, p.covenant, p.quorum, stakingTime, amount).value
    requires forall k :: 0 <= k < |outs| && k != i && k != j ==> Unrelated(p.cv, outs[k], outs[i].pkScript)
    ensures Describes(p, outs, Parsed(i, j, OpReturnData(p.tag, 0, PublicKey(staker.x, false), PublicKey(fp.x, false), stakingTime)))
    ensures outs[i].value == amount && outs[j].value == 0
  {
    var d := OpReturnData(p.tag, 0, staker, fp, stakingTime);
    OpReturnRoundTrip(p.cv, d);
    var even, evenFp := PublicKey(staker.x, false), PublicKey(fp.x, false);
    SameX(fp);
    ScriptsIgnoreParity(p.t, staker, [fp], even, [evenFp], p.covenant, p.quorum, stakingTime);
    assert OpReturnBytes(outs[i]).None?;
    assert |outs[j].pkScript| == 73;
    BuiltNeedsQuorum(p.t, staker, fp, p.covenant, p.quorum, stakingTime);
  }

  lemma SameX(k: PublicKey)
    ensures Xs([k]) == Xs([PublicKey(k.x, false)])
  {
  }

  lemma BuiltNeedsQuorum(t: Taproot, staker: PublicKey, fp: PublicKey, covenant: seq<PublicKey>, quorum: Uint32, time: Uint16)
    requires StakingPkScript(t, Some(staker), [fp], covenant, quorum, time).Ok?
    ensures 0 < |covenant| && quorum <= |covenant|
  {
  }

  // ----- the fast filter -----

  /** Carries the tag and version 0, whether or not its keys parse. */
  predicate TaggedV0(out: TxOut, tag: Bytes) {
    var b := OpReturnBytes(out);
    b.Some? && b.value[..TAG_LEN] == tag && b.value[TAG_LEN] == 0
  }

  lemma TaggedIff(out: TxOut, tag: Bytes)
    requires |tag| == TAG_LEN
    ensures TaggedV0(out, tag) <==>
            var s := out.pkScript;
            DataScript(s) && s[2..6] == tag && s[6] == 0
  {
    DataScriptIs(out);
    hide IsNullData;
    if |out.pkScript| == 73 { assert out.pkScript[2..][..4] == out.pkScript[2..6]; }
  }

  ghost predicate ExactlyOneTagged(outs: seq<TxOut>, tag: Bytes) {
    exists i :: 0 <= i < |outs| && TaggedV0(outs[i], tag) && OthersUntagged(outs, tag, i)
  }

  ghost predicate OthersUntagged(outs: seq<TxOut>, tag: Bytes, i: int) {
    forall j :: 0 <= j < |outs| && j != i ==> !TaggedV0(outs[j], tag)
  }

  method IsPossibleV0StakingTx(outs: seq<TxOut>, tag: Bytes) returns (possible: bool)
    ensures possible <==> |tag| == TAG_LEN && 2 <= |outs| && ExactlyOneTagged(outs, tag)
  {
    if |tag| != TAG_LEN { return false; }
    if |outs| < 2 { return false; }
    possible := false;
    ghost var at := 0;
    for i := 0 to |outs|
      invariant possible ==> 0 <= at < i && TaggedV0(outs[at], tag)
      invariant forall j :: 0 <= j < i && !(possible && j == at) ==> !TaggedV0(outs[j], tag)
    {
      if !TaggedV0(outs[i], tag) {
        continue;
      }
      if possible {
        assert TaggedV0(outs[at], tag) && TaggedV0(outs[i], tag);
        return false;
      }
      possible := true;
      at := i;
    }
    if possible {
      assert OthersUntagged(outs, tag, at);
    }
  }

  /** Every output with the tag and version 0 also has keys that parse. */
  ghost predicate TaggedOutputsParse(p: Params, outs: seq<TxOut>) {
    forall j :: 0 <= j < |outs| && TaggedV0(outs[j], p.tag) ==> DataOf(p.cv, outs[j]).Ok?
  }

  /**
   * On a transaction the parser accepts, the filter accepts too if and only if all the outputs that
   * carry the tag and version 0 have keys that parse.
   */
  lemma FilterAgreesWithParser(p: Params, outs: seq<TxOut>, r: Parsed)
    requires Describes(p, outs, r)
    ensures ExactlyOneTagged(outs, p.tag) <==> TaggedOutputsParse(p, outs)
  {
    DescribedIsTagged(p, outs, r);
    hide DataOf, TaggedV0, Describes;
    if ExactlyOneTagged(outs, p.tag) {
      var i :| 0 <= i < |outs| && TaggedV0(outs[i], p.tag) && OthersUntagged(outs, p.tag, i);
      assert i == r.opReturnIdx;
    }
    if TaggedOutputsParse(p, outs) {
      assert OthersUntagged(outs, p.tag, r.opReturnIdx);
    }
  }

  /** The output the parser reads is tagged, and it is the only one that parses. */
  lemma DescribedIsTagged(p: Params, outs: seq<TxOut>, r: Parsed)
    requires Describes(p, outs, r)
    ensures r.opReturnIdx < |outs| && TaggedV0(outs[r.opReturnIdx], p.tag)
    ensures forall j :: 0 <= j < |outs| ==> (DataOf(p.cv, outs[j]).Ok? <==> j == r.opReturnIdx)
  {
    hide ExpectedScript, IsNullData;
  }

  /** An accepted transaction stays accepted, but is filtered out, once such an output is appended. */
  lemma FilterRejectsAnAcceptedTx(p: Params, outs: seq<TxOut>, r: Parsed, extra: TxOut)
    requires Describes(p, outs, r)
    requires TaggedV0(extra, p.tag) && DataOf(p.cv, extra).Err?
    ensures Describes(p, outs + [extra], r)
    ensures !ExactlyOneTagged(outs + [extra], p.tag)
  {
    hide IsNullData, DataFromBytes;
    var all := outs + [extra];
    assert all[r.opReturnIdx] == outs[r.opReturnIdx] && all[r.stakingIdx] == outs[r.stakingIdx];
    assert |extra.pkScript| == 73;
    assert Describes(p, all, r);
    FilterAgreesWithParser(p, all, r);
    assert TaggedV0(all[|outs|], p.tag) && DataOf(p.cv, all[|outs|]).Err?;
  }

  function RepeatedKey(b: Byte): (k: PublicKey)
    ensures forall i :: 0 <= i < 32 ==> k.x[i] == b
  {
    PublicKey(seq(32, _ => b), false)
  }

  /** One such transaction: its third output repeats the tag with keys that are on no curve point. */
  lemma FilterRejectsThisTx() returns (p: Params, outs: seq<TxOut>, r: Parsed)
    ensures Describes(p, outs, r) && !ExactlyOneTagged(outs, p.tag)
  {
    var staker, fp, cov, bad := RepeatedKey(1), RepeatedKey(2), RepeatedKey(3), RepeatedKey(4);
    assert staker.x[0] == 1 && fp.x[0] == 2 && cov.x[0] == 3 && bad.x[0] == 4;
    var t := Taproot(leaf => leaf, _ => seq(34, _ => 0));
    p := Params(t, x => x != bad.x, [0, 0, 0, 0], [cov], 1);
    BuildsFor(t, p.tag, staker, fp, cov);
    var built := BuildOutputs(t, p.tag, Some(staker), fp, [cov], 1, 1, 0).value;
    var two := [built.0, built.1];
    ParsesWhatWasBuilt(p, staker, fp, 1, 0, two, 0, 1);
    r := Parsed(0, 1, OpReturnData(p.tag, 0, PublicKey(staker.x, false), PublicKey(fp.x, false), 1));
    var extra := OpReturnOutput(OpReturnData(p.tag, 0, bad, bad, 1));
    UnparseableKeys(p.cv, OpReturnData(p.tag, 0, bad, bad, 1));
    FilterRejectsAnAcceptedTx(p, two, r, extra);
    outs := two + [extra];
  }

  lemma BuildsFor(t: Taproot, tag: Bytes, staker: PublicKey, fp: PublicKey, cov: PublicKey)
    requires |tag| == TAG_LEN && staker.x != fp.x && staker.x != cov.x && fp.x != cov.x
    requires forall b :: t.leafHash(b) == b
    ensures BuildOutputs(t, tag, Some(staker), fp, [cov], 1, 1, 0).Ok?
  {
    assert AllXs(staker, [fp], [cov]) == [staker.x, fp.x, cov.x];
    assert CompiledPaths(Some(staker), [fp], [cov], 1, 1).Ok?;
    CompiledLeavesAlwaysFormATree(t, staker, [fp], [cov], 1, 1);
  }

  lemma UnparseableKeys(cv: OnCurve, d: OpReturnData)
    requires |d.tag| == TAG_LEN && d.version == 0 && !cv(d.staker.x)
    ensures TaggedV0(OpReturnOutput(d), d.tag) && DataOf(cv, OpReturnOutput(d)).Err?
  {
    hide ToBigEndian, FromBigEndian;
    var b := Marshall(d);
    assert b[..4] == d.tag && b[4] == 0 && b[5..37] == d.staker.x;
    assert OpReturnOutput(d).pkScript[2..] == b;
  }
}
