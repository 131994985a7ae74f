/**
 * Staking scripts as a compiler: newAnonScriptPaths turns a spending policy into tapscript bytes,
 * the witness builders lay out the stack, and each leaf is accepted exactly when its policy holds.
 */
module StakingScripts {
  import opened Prelude
  import opened Sorting
  import opened Tapscript

  type XOnly = Bytes32

  /** A curve point; schnorr.SerializePubKey keeps only its x coordinate. */
  datatype PublicKey = PublicKey(x: XOnly, odd: bool)

  /** A 64-byte Schnorr signature. */
  type Signature = b: Bytes | |b| == 64 witness seq(64, _ => 0)

  datatype ScriptError =
    | NoKeys | ThresholdTooHigh | DuplicateKey | NilStakerKey
    | EmptyLeaf | DuplicateLeaf

  datatype WitnessError = NoCovenantSigs | NoFinalityProviderSigs | NoDelegatorSig

  datatype ScriptPaths = ScriptPaths(timeLock: Bytes, unbonding: Bytes, slashing: Bytes)

  // ----- keys -----

  function KeyX(k: PublicKey): Bytes { k.x }

  function Xs(keys: seq<PublicKey>): seq<Bytes> { Map(keys, KeyX) }

  predicate KeyBefore(a: PublicKey, b: PublicKey) { Ascending(a.x, b.x) }

  function SortKeys(keys: seq<PublicKey>): seq<PublicKey> { StableSort(keys, KeyBefore) }

  function SortBIP340PKs(keys: seq<Bytes>): seq<Bytes> { StableSort(keys, Descending) }

  /**
   * The key a script meets i-th from the start is the one whose signature was listed i-th from the
   * end, whatever the parities and the original order of the keys.
   */
  lemma WitnessOrderMeetsScriptOrder(keys: seq<PublicKey>)
    requires Distinct(Xs(keys))
    ensures SortBIP340PKs(Xs(keys)) == Reverse(Xs(SortKeys(keys)))
  {
    SortCommutesWithMap(keys, KeyBefore, KeyX, Ascending);
    DescendingIsReversedAscending(Xs(keys));
  }

  /** In a script an earlier key has the smaller byte at the first difference; signatures are listed the other way. */
  lemma KeyOrder(keys: seq<PublicKey>, i: nat, j: nat)
    requires Distinct(Xs(keys)) && i < j < |keys|
    ensures multiset(SortKeys(keys)) == multiset(keys) && Below(SortKeys(keys)[i].x, SortKeys(keys)[j].x)
    ensures Below(SortBIP340PKs(Xs(keys))[j], SortBIP340PKs(Xs(keys))[i])
  {
    StableSortPermutes(keys, KeyBefore);
    CompareIsOrder();
    SortCommutesWithMap(keys, KeyBefore, KeyX, Ascending);
    assert Xs(SortKeys(keys))[i] == SortKeys(keys)[i].x && Xs(SortKeys(keys))[j] == SortKeys(keys)[j].x;
    hide StableSort, Ascending, Descending, Below, Compare;
    SortedByBytes(Xs(keys), i, j);
  }

  // ----- script builders -----

  /** `<key> OP_CHECKSIG` for the first key, `<key> OP_CHECKSIGADD` for the others. */
  function CheckSigs(keys: seq<PublicKey>, i: nat): Bytes
    requires i <= |keys|
    decreases |keys| - i
  {
    if i == |keys| then []
    else AddKey(keys[i].x) + ([if i == 0 then OP_CHECKSIG else OP_CHECKSIGADD] + CheckSigs(keys, i + 1))
  }

  function MultiSigScript(keys: seq<PublicKey>, threshold: Uint32, withVerify: bool): Bytes {
    CheckSigs(keys, 0) + (AddInt(threshold) + [if withVerify then OP_NUMEQUALVERIFY else OP_NUMEQUAL])
  }

  function SingleKeySigScript(key: PublicKey, withVerify: bool): Bytes {
    AddKey(key.x) + [if withVerify then OP_CHECKSIGVERIFY else OP_CHECKSIG]
  }

  function TimeLockScript(key: PublicKey, lockTime: Uint16): Bytes {
    AddKey(key.x) + ([OP_CHECKSIGVERIFY] + (AddInt(lockTime) + [OP_CHECKSEQUENCEVERIFY]))
  }

  function QuorumScript(keys: seq<PublicKey>, threshold: Uint32, withVerify: bool): Result<Bytes, ScriptError> {
    if |keys| == 0 then Err(NoKeys)
    else if threshold > |keys| then Err(ThresholdTooHigh)
    else if |keys| == 1 then Ok(SingleKeySigScript(keys[0], withVerify))
    else Ok(MultiSigScript(SortKeys(keys), threshold, withVerify))
  }

  /** Key i of a multisig and its opcode are the 34 bytes from 34 * i on. */
  lemma {:induction false} CheckSigsSplit(keys: seq<PublicKey>, from: nat, i: nat) returns (pre: Bytes, post: Bytes)
    requires from <= i < |keys|
    ensures CheckSigs(keys, from) == pre + KeyAndCode(keys[i], i) + post
    ensures |pre| == 34 * (i - from) && |post| == 34 * (|keys| - 1 - i)
    decreases |keys| - from
  {
    hide KeyAndCode, CheckSigs;
    var head := KeyAndCode(keys[from], from);
    CheckSigsHead(keys, from);
    if i == from {
      pre, post := [], CheckSigs(keys, from + 1);
      CheckSigsLength(keys, from + 1);
    } else {
      var p, q := CheckSigsSplit(keys, from + 1, i);
      pre, post := head + p, q;
    }
  }

  lemma CheckSigsHead(keys: seq<PublicKey>, from: nat)
    requires from < |keys|
    ensures CheckSigs(keys, from) == KeyAndCode(keys[from], from) + CheckSigs(keys, from + 1)
  {
  }

  function KeyAndCode(key: PublicKey, i: nat): (r: Bytes)
    ensures |r| == 34
  {
    [0x20] + key.x + [if i == 0 then 0xac else 0xba]
  }

  lemma {:induction false} CheckSigsLength(keys: seq<PublicKey>, from: nat)
    requires from <= |keys|
    ensures |CheckSigs(keys, from)| == 34 * (|keys| - from)
    decreases |keys| - from
  {
    if from < |keys| { CheckSigsLength(keys, from + 1); }
  }

  /** The exact bytes of a quorum script, and when there is one. */
  lemma QuorumScriptBytes(keys: seq<PublicKey>, threshold: Uint32, withVerify: bool)
    ensures var script := QuorumScript(keys, threshold, withVerify);
            && (script.Ok? <==> 0 < |keys| && threshold <= |keys|)
            && (keys == [] ==> script == Err(NoKeys))
            && (script.Ok? && |keys| == 1 ==> script.value == [0x20] + keys[0].x + [if withVerify then 0xad else 0xac])
            && (script.Ok? && |keys| > 1 ==>
                  && |script.value| > 34 * |keys|
                  && (forall i :: 0 <= i < |keys| ==>
                        script.value[34 * i..34 * i + 34] == [0x20] + SortKeys(keys)[i].x + [if i == 0 then 0xac else 0xba])
                  && script.value[34 * |keys|..] == AddInt(threshold) + [if withVerify then 0x9d else 0x9c])
  {
    hide SortKeys, CheckSigs, AddInt;
    if |keys| > 1 && threshold <= |keys| {
      var sorted, rest := SortKeys(keys), AddInt(threshold) + [if withVerify then OP_NUMEQUALVERIFY else OP_NUMEQUAL];
      SortLength(keys);
      CheckSigsLength(sorted, 0);
      var script := CheckSigs(sorted, 0) + rest;
      forall i | 0 <= i < |keys| ensures script[34 * i..34 * i + 34] == [0x20] + sorted[i].x + [if i == 0 then 0xac else 0xba] {
        var pre, post := CheckSigsSplit(sorted, 0, i);
        assert script == pre + KeyAndCode(sorted[i], i) + (post + rest);
      }
    }
  }

  lemma SortLength(keys: seq<PublicKey>)
    ensures |SortKeys(keys)| == |keys|
  {
  }

  lemma {:induction false} CheckSigsSnoc(keys: seq<PublicKey>, key: PublicKey, i: nat)
    requires i <= |keys|
    ensures CheckSigs(keys + [key], i) ==
            CheckSigs(keys, i) + AddKey(key.x) + [if |keys| == 0 then OP_CHECKSIG else OP_CHECKSIGADD]
    decreases |keys| - i
  {
    if i < |keys| {
      CheckSigsSnoc(keys, key, i + 1);
    } else {
      assert CheckSigs(keys + [key], i + 1) == [];
    }
  }

  method AssembleMultiSigScript(keys: seq<PublicKey>, threshold: Uint32, withVerify: bool) returns (script: Bytes)
    ensures script == MultiSigScript(keys, threshold, withVerify)
  {
    script := [];
    for i := 0 to |keys|
      invariant script == CheckSigs(keys[..i], 0)
    {
      CheckSigsSnoc(keys[..i], keys[i], 0);
      assert keys[..i + 1] == keys[..i] + [keys[i]];
      script := script + AddKey(keys[i].x);
      if i == 0 {
        script := script + [OP_CHECKSIG];
      } else {
        script := script + [OP_CHECKSIGADD];
      }
    }
    assert keys[..|keys|] == keys;
    script := script + AddInt(threshold);
    script := script + [if withVerify then OP_NUMEQUALVERIFY else OP_NUMEQUAL];
  }

  method BuildMultiSigScript(keys: seq<PublicKey>, threshold: Uint32, withVerify: bool)
    returns (r: Result<Bytes, ScriptError>)
    ensures r == QuorumScript(keys, threshold, withVerify)
  {
    if |keys| == 0 { return Err(NoKeys); }
    if threshold > |keys| { return Err(ThresholdTooHigh); }
    if |keys| == 1 { return Ok(SingleKeySigScript(keys[0], withVerify)); }
    var script := AssembleMultiSigScript(SortKeys(keys), threshold, withVerify);
    r := Ok(script);
  }

  // ----- the compiler -----

  function AllXs(staker: PublicKey, fps: seq<PublicKey>, covenant: seq<PublicKey>): seq<Bytes> {
    [staker.x] + Xs(fps) + Xs(covenant)
  }

  method CheckForDuplicateKeys(staker: PublicKey, fps: seq<PublicKey>, covenant: seq<PublicKey>) returns (ok: bool)
    ensures ok <==> Distinct(AllXs(staker, fps, covenant))
    ensures ok <==> && staker.x !in Xs(fps) && staker.x !in Xs(covenant) && Distinct(Xs(fps)) && Distinct(Xs(covenant))
                    && (forall x :: x in Xs(fps) ==> x !in Xs(covenant))
  {
    DistinctByGroup(staker, fps, covenant);
    hide SeenPrefix, Distinct, AllXs, Map;
    ghost var all := AllXs(staker, fps, covenant);
    var seen: set<Bytes> := {staker.x};
    SeenFirst(all);
    for i := 0 to |fps|
      invariant SeenPrefix(all, 1 + i, seen)
    {
      SeenNext(all, 1 + i, seen);
      if fps[i].x in seen { return false; }
      seen := seen + {fps[i].x};
    }
    for i := 0 to |covenant|
      invariant SeenPrefix(all, 1 + |fps| + i, seen)
    {
      SeenNext(all, 1 + |fps| + i, seen);
      if covenant[i].x in seen { return false; }
      seen := seen + {covenant[i].x};
    }
    SeenAll(all, seen);
    return true;
  }

  lemma DistinctByGroup(staker: PublicKey, fps: seq<PublicKey>, covenant: seq<PublicKey>)
    ensures Distinct(AllXs(staker, fps, covenant)) <==>
            && staker.x !in Xs(fps) && staker.x !in Xs(covenant) && Distinct(Xs(fps)) && Distinct(Xs(covenant))
            && (forall x :: x in Xs(fps) ==> x !in Xs(covenant))
    ensures |AllXs(staker, fps, covenant)| == 1 + |fps| + |covenant| && AllXs(staker, fps, covenant)[0] == staker.x
    ensures forall i :: 0 <= i < |fps| ==> AllXs(staker, fps, covenant)[1 + i] == fps[i].x
    ensures forall i :: 0 <= i < |covenant| ==> AllXs(staker, fps, covenant)[1 + |fps| + i] == covenant[i].x
  {
    var s, f, c := [staker.x], Xs(fps), Xs(covenant);
    assert AllXs(staker, fps, covenant) == (s + f) + c;
    DistinctAppend(s, f);
    DistinctAppend(s + f, c);
    assert forall x :: x in s + f <==> x == staker.x || x in f;
  }

  /** The first n strings are pairwise different and are what has been seen. */
  ghost predicate SeenPrefix(all: seq<Bytes>, n: nat, seen: set<Bytes>) {
    && n <= |all|
    && (forall i, j :: 0 <= i < j < n ==> all[i] != all[j])
    && (forall i :: 0 <= i < n ==> all[i] in seen)
    && (forall x :: x in seen ==> exists i :: 0 <= i < n && all[i] == x)
  }

  lemma SeenFirst(all: seq<Bytes>)
    requires all != []
    ensures SeenPrefix(all, 1, {all[0]})
  {
  }

  lemma SeenNext(all: seq<Bytes>, n: nat, seen: set<Bytes>)
    requires SeenPrefix(all, n, seen) && n < |all|
    ensures all[n] in seen ==> !Distinct(all)
    ensures all[n] !in seen ==> SeenPrefix(all, n + 1, seen + {all[n]})
  {
    if all[n] !in seen {
      assert all[n] in seen + {all[n]};
    }
  }

  lemma SeenAll(all: seq<Bytes>, seen: set<Bytes>)
    requires SeenPrefix(all, |all|, seen)
    ensures Distinct(all)
  {
  }

  method AggregateScripts(scripts: seq<Bytes>) returns (script: Bytes)
    ensures script == Flatten(scripts)
    ensures |scripts| == 2 ==> script == scripts[0] + scripts[1]
    ensures |scripts| == 3 ==> script == scripts[0] + (scripts[1] + scripts[2])
  {
    script := [];
    for i := 0 to |scripts|
      invariant script == Flatten(scripts[..i])
    {
      FlattenSnoc(scripts[..i], scripts[i]);
      assert scripts[..i + 1] == scripts[..i] + [scripts[i]];
      script := script + scripts[i];
    }
    assert scripts[..|scripts|] == scripts;
    FlattenSmall(scripts);
  }

  function Flatten(scripts: seq<Bytes>): Bytes {
    if scripts == [] then [] else scripts[0] + Flatten(scripts[1..])
  }

  lemma {:induction false} FlattenSnoc(scripts: seq<Bytes>, last: Bytes)
    ensures Flatten(scripts + [last]) == Flatten(scripts) + last
  {
    if scripts == [] {
      assert [last][1..] == [];
    } else {
      FlattenSnoc(scripts[1..], last);
      assert (scripts + [last])[1..] == scripts[1..] + [last];
    }
  }

  lemma FlattenSmall(scripts: seq<Bytes>)
    ensures |scripts| == 2 ==> Flatten(scripts) == scripts[0] + scripts[1]
    ensures |scripts| == 3 ==> Flatten(scripts) == scripts[0] + (scripts[1] + scripts[2])
  {
    if |scripts| == 2 {
      assert scripts[1..][1..] == [];
      assert Flatten(scripts[1..]) == scripts[1] + Flatten([]);
    } else if |scripts| == 3 {
      assert scripts[1..][1..][1..] == [];
      assert Flatten(scripts[1..][1..]) == scripts[2] + Flatten([]);
    }
  }

  function CompiledPaths(staker: Option<PublicKey>, fps: seq<PublicKey>, covenant: seq<PublicKey>,
                         quorum: Uint32, lockTime: Uint16): Result<ScriptPaths, ScriptError> {
    if staker.None? then Err(NilStakerKey)
    else if !Distinct(AllXs(staker.value, fps, covenant)) then Err(DuplicateKey)
    else
      var cov := QuorumScript(covenant, quorum, false);
      if cov.Err? then Err(cov.error) else
      var fp := QuorumScript(fps, 1, true);
      if fp.Err? then Err(fp.error) else
      var sig := SingleKeySigScript(staker.value, true);
      Ok(ScriptPaths(TimeLockScript(staker.value, lockTime), sig + cov.value, sig + (fp.value + cov.value)))
  }

  method NewAnonScriptPaths(staker: Option<PublicKey>, fps: seq<PublicKey>, covenant: seq<PublicKey>,
                            quorum: Uint32, lockTime: Uint16) returns (r: Result<ScriptPaths, ScriptError>)
    ensures r == CompiledPaths(staker, fps, covenant, quorum, lockTime)
    ensures r.Ok? <==> staker.Some? && Distinct(AllXs(staker.value, fps, covenant)) &&
                       0 < |fps| && 0 < |covenant| && quorum <= |covenant|
    ensures r.Ok? ==>
              var sig := [0x20] + staker.value.x + [0xad];
              && r.value.timeLock == sig + AddInt(lockTime) + [0xb2]
              && r.value.unbonding == sig + QuorumScript(covenant, quorum, false).value
              && r.value.slashing == sig + QuorumScript(fps, 1, true).value + QuorumScript(covenant, quorum, false).value
  {
    hide Distinct, AllXs, AddInt, CheckSigs, SortKeys, Map;
    if staker.None? { return Err(NilStakerKey); }
    var unique := CheckForDuplicateKeys(staker.value, fps, covenant);
    if !unique { return Err(DuplicateKey); }
    var timeLock := TimeLockScript(staker.value, lockTime);
    var cov := BuildMultiSigScript(covenant, quorum, false);
    if cov.Err? { return Err(cov.error); }
    var sig := SingleKeySigScript(staker.value, true);
    var fp := BuildMultiSigScript(fps, 1, true);
    if fp.Err? { return Err(fp.error); }
    var unbonding := AggregateScripts([sig, cov.value]);
    var slashing := AggregateScripts([sig, fp.value, cov.value]);
    r := Ok(ScriptPaths(timeLock, unbonding, slashing));
  }

  // ----- what a quorum of slots means -----

  function NonEmpty(slots: seq<Bytes>): (n: nat)
    ensures n <= |slots|
  {
    if slots == [] then 0
    else NonEmpty(slots[..|slots| - 1]) + if slots[|slots| - 1] == [] then 0 else 1
  }

  /** Every filled slot holds a valid signature for the key of that slot. */
  predicate SlotsValid(keys: seq<Bytes>, slots: seq<Bytes>, env: Env) {
    && |slots| == |keys|
    && forall i :: 0 <= i < |slots| ==> slots[i] == [] || env.validSig(keys[i], slots[i])
  }

  /**
   * Exactly the required number of slots are filled, each validly for its own key, slots being in
   * SortBIP340PKs order. A single key is always required, whatever the threshold.
   */
  predicate QuorumSigned(keys: seq<PublicKey>, threshold: nat, slots: seq<Bytes>, env: Env) {
    && SlotsValid(SortBIP340PKs(Xs(keys)), slots, env)
    && NonEmpty(slots) == if |keys| == 1 then 1 else threshold
  }

  /** A non-empty valid signature. */
  predicate Signed(key: PublicKey, sig: Bytes, env: Env) {
    sig != [] && env.validSig(key.x, sig)
  }

  // ----- meaning of the multisig scripts -----

  lemma StepCheckSigAdd(key: XOnly, sig: Bytes, count: nat, base: Stack, rest: Bytes, env: Env)
    requires |base| + 3 <= MAX_STACK_SIZE && count <= MAX_STACK_SIZE
    ensures var r := SigResult(env, key, sig);
            Exec(AddKey(key) + ([OP_CHECKSIGADD] + rest), base + [sig] + [EncodeNum(count)], env) ==
            if r.None? then None else Exec(rest, base + [EncodeNum(count + if r.value then 1 else 0)], env)
  {
    hide Exec;
    var s := base + [sig] + [EncodeNum(count)];
    ExecKey(key, [OP_CHECKSIGADD] + rest, s, env);
    ExecCode(OP_CHECKSIGADD, rest, s + [key], env);
    NumRoundTrip(count);
    SmallNumLength(count);
    assert (s + [key])[..|s| - 2] == base;
  }

  lemma StepCheckSig(key: XOnly, sig: Bytes, base: Stack, rest: Bytes, env: Env)
    requires |base| + 2 <= MAX_STACK_SIZE
    ensures var r := SigResult(env, key, sig);
            Exec(AddKey(key) + ([OP_CHECKSIG] + rest), base + [sig], env) ==
            if r.None? then None else Exec(rest, base + [EncodeNum(if r.value then 1 else 0)], env)
  {
    hide Exec;
    var s := base + [sig];
    ExecKey(key, [OP_CHECKSIG] + rest, s, env);
    ExecCode(OP_CHECKSIG, rest, s + [key], env);
    assert (s + [key])[..|s| - 1] == base;
    assert EncodeNum(1) == [1] by { assert LittleEndian(1) == [1] + LittleEndian(0); }
  }

  /** After the first key: the counter on top is increased once per filled, valid slot. */
  lemma {:induction false} ExecCheckSigAdds(keys: seq<PublicKey>, i: nat, slots: seq<Bytes>, base: Stack, count: nat,
                                            rest: Bytes, env: Env)
    requires 1 <= i <= |keys| && |slots| == |keys| - i
    requires |base| + |slots| + 2 <= MAX_STACK_SIZE && count + |slots| <= MAX_STACK_SIZE
    ensures Exec(CheckSigs(keys, i) + rest, base + slots + [EncodeNum(count)], env) ==
            if SlotsValid(Reverse(Xs(keys[i..])), slots, env)
            then Exec(rest, base + [EncodeNum(count + NonEmpty(slots))], env) else None
    decreases |keys| - i
  {
    hide Exec, EncodeNum, SlotsValid, Reverse, Map;
    if i == |keys| {
      assert CheckSigs(keys, i) + rest == rest;
      assert base + slots == base;
      NoSlotsValid(keys, env);
    } else {
      var sig, key, front := slots[|slots| - 1], keys[i].x, slots[..|slots| - 1];
      var tail := CheckSigs(keys, i + 1) + rest;
      assert CheckSigs(keys, i) + rest == AddKey(key) + ([OP_CHECKSIGADD] + tail);
      assert base + slots + [EncodeNum(count)] == (base + front) + [sig] + [EncodeNum(count)];
      StepCheckSigAdd(key, sig, count, base + front, tail, env);
      ReverseTail(keys, i);
      SlotsValidSnoc(Reverse(Xs(keys[i + 1..])), key, front, sig, env);
      assert slots == front + [sig];
      var r := SigResult(env, key, sig);
      if r.Some? {
        ExecCheckSigAdds(keys, i + 1, front, base, count + if r.value then 1 else 0, rest, env);
      }
    }
  }

  lemma NoSlotsValid(keys: seq<PublicKey>, env: Env)
    ensures SlotsValid(Reverse(Xs(keys[|keys|..])), [], env)
  {
  }

  lemma ReverseTail(keys: seq<PublicKey>, i: nat)
    requires i < |keys|
    ensures Reverse(Xs(keys[i..])) == Reverse(Xs(keys[i + 1..])) + [keys[i].x]
  {
    assert keys[i..][1..] == keys[i + 1..];
  }

  lemma SlotsValidSnoc(keys: seq<Bytes>, key: Bytes, slots: seq<Bytes>, sig: Bytes, env: Env)
    ensures SlotsValid(keys + [key], slots + [sig], env) <==>
            SlotsValid(keys, slots, env) && (sig == [] || env.validSig(key, sig))
  {
    if SlotsValid(keys + [key], slots + [sig], env) {
      forall i | 0 <= i < |slots| ensures slots[i] == [] || env.validSig(keys[i], slots[i]) {
        assert (slots + [sig])[i] == slots[i] && (keys + [key])[i] == keys[i];
      }
      assert (slots + [sig])[|slots|] == sig && (keys + [key])[|slots|] == key;
    }
  }

  /** All the signature checks of a multisig leave the number of filled slots on the stack. */
  lemma ExecAllCheckSigs(keys: seq<PublicKey>, slots: seq<Bytes>, base: Stack, rest: Bytes, env: Env)
    requires 1 <= |keys| == |slots|
    requires |base| + |slots| + 1 <= MAX_STACK_SIZE
    ensures Exec(CheckSigs(keys, 0) + rest, base + slots, env) ==
            if SlotsValid(Reverse(Xs(keys)), slots, env)
            then Exec(rest, base + [EncodeNum(NonEmpty(slots))], env) else None
  {
    hide Exec, EncodeNum, SlotsValid, Reverse, Map;
    var sig, key, front := slots[|slots| - 1], keys[0].x, slots[..|slots| - 1];
    var tail := CheckSigs(keys, 1) + rest;
    assert CheckSigs(keys, 0) + rest == AddKey(key) + ([OP_CHECKSIG] + tail);
    assert base + slots == (base + front) + [sig];
    StepCheckSig(key, sig, base + front, tail, env);
    ReverseTail(keys, 0);
    assert keys[0..] == keys;
    SlotsValidSnoc(Reverse(Xs(keys[1..])), key, front, sig, env);
    assert slots == front + [sig];
    var r := SigResult(env, key, sig);
    if r.Some? {
      ExecCheckSigAdds(keys, 1, front, base, if r.value then 1 else 0, rest, env);
    }
  }

  lemma StepNumEqual(count: nat, threshold: Uint32, withVerify: bool, base: Stack, rest: Bytes, env: Env)
    requires |base| + 2 <= MAX_STACK_SIZE && count <= MAX_STACK_SIZE && threshold <= MAX_STACK_SIZE
    ensures var op := if withVerify then OP_NUMEQUALVERIFY else OP_NUMEQUAL;
            Exec(AddInt(threshold) + ([op] + rest), base + [EncodeNum(count)], env) ==
            if !withVerify then Exec(rest, base + [FromBool(count == threshold)], env)
            else if count == threshold then Exec(rest, base, env) else None
  {
    hide Exec;
    var op := if withVerify then OP_NUMEQUALVERIFY else OP_NUMEQUAL;
    var s := base + [EncodeNum(count)];
    ExecInt(threshold, [op] + rest, s, env);
    ExecCode(op, rest, s + [EncodeNum(threshold)], env);
    NumRoundTrip(count);
    SmallNumLength(count);
    NumRoundTrip(threshold);
    SmallNumLength(threshold);
    assert (s + [EncodeNum(threshold)])[..|s| - 1] == base;
  }

  lemma ExecMultiSig(keys: seq<PublicKey>, threshold: Uint32, withVerify: bool, slots: seq<Bytes>, base: Stack,
                     rest: Bytes, env: Env)
    requires 1 <= |keys| == |slots| && threshold <= |keys|
    requires |base| + |slots| + 1 <= MAX_STACK_SIZE
    ensures Exec(MultiSigScript(keys, threshold, withVerify) + rest, base + slots, env) ==
            if !SlotsValid(Reverse(Xs(keys)), slots, env) then None
            else if withVerify then (if NonEmpty(slots) == threshold then Exec(rest, base, env) else None)
            else Exec(rest, base + [FromBool(NonEmpty(slots) == threshold)], env)
  {
    hide Exec, EncodeNum, SlotsValid, CheckSigs, AddInt;
    var tail := AddInt(threshold) + ([if withVerify then OP_NUMEQUALVERIFY else OP_NUMEQUAL] + rest);
    assert MultiSigScript(keys, threshold, withVerify) + rest == CheckSigs(keys, 0) + tail;
    ExecAllCheckSigs(keys, slots, base, tail, env);
    StepNumEqual(NonEmpty(slots), threshold, withVerify, base, rest, env);
  }

  lemma ExecSingleKey(key: PublicKey, withVerify: bool, sig: Bytes, base: Stack, rest: Bytes, env: Env)
    requires |base| + 2 <= MAX_STACK_SIZE
    ensures Exec(SingleKeySigScript(key, withVerify) + rest, base + [sig], env) ==
            if sig != [] && !env.validSig(key.x, sig) then None
            else if withVerify then (if Signed(key, sig, env) then Exec(rest, base, env) else None)
            else Exec(rest, base + [FromBool(Signed(key, sig, env))], env)
  {
    hide Exec;
    var op := if withVerify then OP_CHECKSIGVERIFY else OP_CHECKSIG;
    var s := base + [sig];
    assert SingleKeySigScript(key, withVerify) + rest == AddKey(key.x) + ([op] + rest);
    ExecKey(key.x, [op] + rest, s, env);
    ExecCode(op, rest, s + [key.x], env);
    assert (s + [key.x])[..|s| - 1] == base;
  }

  /** The script of one key runs exactly like the one-of-one multisig would. */
  lemma SingleKeyIsOneOfOne(key: PublicKey, withVerify: bool, sig: Bytes, base: Stack, rest: Bytes, env: Env)
    requires |base| + 2 <= MAX_STACK_SIZE
    ensures Exec(SingleKeySigScript(key, withVerify) + rest, base + [sig], env) ==
            Exec(MultiSigScript([key], 1, withVerify) + rest, base + [sig], env)
  {
    hide Exec;
    ExecSingleKey(key, withVerify, sig, base, rest, env);
    ExecMultiSig([key], 1, withVerify, [sig], base, rest, env);
    assert Reverse(Xs([key])) == [key.x];
    assert [sig][..0] == [];
    assert NonEmpty([sig]) == NonEmpty([]) + if sig == [] then 0 else 1;
  }

  /** What a compiled quorum does to the stack, in the terms of the policy. */
  lemma ExecQuorum(keys: seq<PublicKey>, threshold: Uint32, withVerify: bool, slots: seq<Bytes>, base: Stack,
                   rest: Bytes, env: Env)
    requires Distinct(Xs(keys)) && 1 <= |keys| == |slots| && threshold <= |keys|
    requires |base| + |slots| + 1 <= MAX_STACK_SIZE
    ensures var script := QuorumScript(keys, threshold, withVerify).value;
            var ok := QuorumSigned(keys, threshold, slots, env);
            Exec(script + rest, base + slots, env) ==
            if ok then Exec(rest, if withVerify then base else base + [[1]], env)
            else if withVerify || !SlotsValid(SortBIP340PKs(Xs(keys)), slots, env) then None
            else Exec(rest, base + [[]], env)
  {
    hide Exec;
    WitnessOrderMeetsScriptOrder(keys);
    if |keys| == 1 {
      SortOne(keys[0]);
      assert keys == [keys[0]] && slots == [slots[0]];
      SingleKeyIsOneOfOne(keys[0], withVerify, slots[0], base, rest, env);
      ExecMultiSig(keys, 1, withVerify, slots, base, rest, env);
    } else {
      ExecMultiSig(SortKeys(keys), threshold, withVerify, slots, base, rest, env);
    }
  }

  lemma SortOne(key: PublicKey)
    ensures SortKeys([key]) == [key]
  {
    assert StableSort([key][1..], KeyBefore) == [];
  }

  // ----- the three leaves -----

  /** The covenant part closes the script, so its verdict is the verdict of the whole leaf. */
  lemma FinalQuorum(keys: seq<PublicKey>, threshold: Uint32, slots: seq<Bytes>, env: Env)
    requires Distinct(Xs(keys)) && 1 <= |keys| == |slots| && threshold <= |keys|
    requires |slots| + 1 <= MAX_STACK_SIZE
    ensures Accepts(QuorumScript(keys, threshold, false).value, slots, env) <==>
            QuorumSigned(keys, threshold, slots, env)
  {
    hide Exec, QuorumSigned, SlotsValid, MultiSigScript;
    var script := QuorumScript(keys, threshold, false).value;
    ExecQuorum(keys, threshold, false, slots, [], [], env);
    assert script + [] == script && [] + slots == slots;
    var empty: Stack := [];
    ExecDone([FromBool(true)], env);
    ExecDone([FromBool(false)], env);
    assert empty + [FromBool(true)] == [FromBool(true)] && empty + [FromBool(false)] == [FromBool(false)];
    assert Truthy([1]) by { assert [1][0] == 1; }
  }

  /** Unbonding: the staker and exactly a quorum of the covenant, each for its own key. */
  lemma UnbondingLeafMeaning(staker: PublicKey, fps: seq<PublicKey>, covenant: seq<PublicKey>, quorum: Uint32,
                             lockTime: Uint16, covSlots: seq<Bytes>, stakerSig: Bytes, env: Env)
    requires CompiledPaths(Some(staker), fps, covenant, quorum, lockTime).Ok?
    requires |covSlots| == |covenant|
    ensures var script := CompiledPaths(Some(staker), fps, covenant, quorum, lockTime).value.unbonding;
            Accepts(script, covSlots + [stakerSig], env) <==>
            && |covSlots| + 2 <= MAX_STACK_SIZE
            && Signed(staker, stakerSig, env)
            && QuorumSigned(covenant, quorum, covSlots, env)
  {
    hide Exec, QuorumSigned, SingleKeySigScript;
    var cov := QuorumScript(covenant, quorum, false).value;
    DistinctParts(staker, fps, covenant);
    if |covSlots| + 2 <= MAX_STACK_SIZE {
      ExecSingleKey(staker, true, stakerSig, covSlots, cov, env);
      FinalQuorum(covenant, quorum, covSlots, env);
    } else {
      OverflowingStack(staker, cov, covSlots + [stakerSig], env);
    }
  }

  /** Slashing: in addition, exactly one finality provider, for its own key. */
  lemma SlashingLeafMeaning(staker: PublicKey, fps: seq<PublicKey>, covenant: seq<PublicKey>, quorum: Uint32,
                            lockTime: Uint16, covSlots: seq<Bytes>, fpSlots: seq<Bytes>, stakerSig: Bytes, env: Env)
    requires CompiledPaths(Some(staker), fps, covenant, quorum, lockTime).Ok?
    requires |covSlots| == |covenant| && |fpSlots| == |fps|
    ensures var script := CompiledPaths(Some(staker), fps, covenant, quorum, lockTime).value.slashing;
            Accepts(script, covSlots + fpSlots + [stakerSig], env) <==>
            && |covSlots| + |fpSlots| + 2 <= MAX_STACK_SIZE
            && Signed(staker, stakerSig, env)
            && QuorumSigned(fps, 1, fpSlots, env)
            && QuorumSigned(covenant, quorum, covSlots, env)
  {
    hide Exec, QuorumSigned, SingleKeySigScript;
    var cov := QuorumScript(covenant, quorum, false).value;
    var fp := QuorumScript(fps, 1, true).value;
    DistinctParts(staker, fps, covenant);
    if |covSlots| + |fpSlots| + 2 <= MAX_STACK_SIZE {
      ExecSingleKey(staker, true, stakerSig, covSlots + fpSlots, fp + cov, env);
      ExecQuorum(fps, 1, true, fpSlots, covSlots, cov, env);
      FinalQuorum(covenant, quorum, covSlots, env);
    } else {
      OverflowingStack(staker, fp + cov, covSlots + fpSlots + [stakerSig], env);
    }
  }

  /** Time lock: the staker alone, once the input is old enough. */
  lemma TimeLockLeafMeaning(staker: PublicKey, lockTime: Uint16, stakerSig: Bytes, env: Env)
    ensures Accepts(TimeLockScript(staker, lockTime), [stakerSig], env) <==>
            && Signed(staker, stakerSig, env)
            && lockTime >= 1
            && env.txVersion >= 2
            && env.sequence < SEQUENCE_LOCKTIME_DISABLE
            && env.sequence / SEQUENCE_LOCKTIME_TYPE % 2 == 0
            && lockTime <= env.sequence % TWO_16
  {
    var tail := AddInt(lockTime) + [OP_CHECKSEQUENCEVERIFY];
    assert Accepts(TimeLockScript(staker, lockTime), [stakerSig], env) <==>
           Signed(staker, stakerSig, env) && Accepts(tail, [], env) by {
      hide Exec, AddInt;
      assert TimeLockScript(staker, lockTime) == SingleKeySigScript(staker, true) + tail;
      ExecSingleKey(staker, true, stakerSig, [], tail, env);
      assert [] + [stakerSig] == [stakerSig];
    }
    FinalSequenceCheck(lockTime, env);
    SequenceMeaning(lockTime, env);
  }

  lemma FinalSequenceCheck(lockTime: Uint16, env: Env)
    ensures Accepts(AddInt(lockTime) + [OP_CHECKSEQUENCEVERIFY], [], env) <==>
            lockTime >= 1 && SequenceOk(env, lockTime)
  {
    hide Exec, SequenceOk, EncodeNum, Truthy;
    var s := [EncodeNum(lockTime)];
    ExecInt(lockTime, [OP_CHECKSEQUENCEVERIFY], [], env);
    assert [] + s == s;
    assert [OP_CHECKSEQUENCEVERIFY] + [] == [OP_CHECKSEQUENCEVERIFY];
    ExecCode(OP_CHECKSEQUENCEVERIFY, [], s, env);
    ExecDone(s, env);
    NumRoundTrip(lockTime);
    SmallNumLength(lockTime);
    NumTruthy(lockTime);
  }

  /** A block count as operand asks for a block count of at least that much as sequence. */
  lemma SequenceMeaning(lockTime: Uint16, env: Env)
    ensures SequenceOk(env, lockTime) <==>
            && env.txVersion >= 2
            && env.sequence < SEQUENCE_LOCKTIME_DISABLE
            && env.sequence / SEQUENCE_LOCKTIME_TYPE % 2 == 0
            && lockTime <= env.sequence % TWO_16
  {
  }

  lemma DistinctParts(staker: PublicKey, fps: seq<PublicKey>, covenant: seq<PublicKey>)
    requires Distinct(AllXs(staker, fps, covenant))
    ensures Distinct(Xs(fps)) && Distinct(Xs(covenant))
  {
    var all := AllXs(staker, fps, covenant);
    assert forall i :: 0 <= i < |fps| ==> Xs(fps)[i] == all[1 + i];
    assert forall i :: 0 <= i < |covenant| ==> Xs(covenant)[i] == all[1 + |fps| + i];
  }

  lemma OverflowingStack(staker: PublicKey, rest: Bytes, s: Stack, env: Env)
    requires |s| >= MAX_STACK_SIZE
    ensures !Accepts(SingleKeySigScript(staker, true) + rest, s, env)
  {
    if |s| == MAX_STACK_SIZE {
      assert SingleKeySigScript(staker, true) + rest == AddKey(staker.x) + ([OP_CHECKSIGVERIFY] + rest);
      ExecKey(staker.x, [OP_CHECKSIGVERIFY] + rest, s, env);
    }
  }

  // ----- the taproot output -----

  /** Leaf hashing and the output script committing to a list of leaves. */
  datatype Taproot = Taproot(leafHash: Bytes -> Bytes, pkScript: seq<Bytes> -> TaprootScript)

  /** `OP_1 <32-byte output key>`. */
  type TaprootScript = b: Bytes | |b| == 34 witness seq(34, _ => 0)

  function Leaves(paths: ScriptPaths): seq<Bytes> {
    [paths.timeLock, paths.unbonding, paths.slashing]
  }

  function ScriptTree(t: Taproot, scripts: seq<Bytes>): Result<TaprootScript, ScriptError> {
    if [] in scripts then Err(EmptyLeaf)
    else if !Distinct(Map(scripts, t.leafHash)) then Err(DuplicateLeaf)
    else Ok(t.pkScript(scripts))
  }

  /** BuildStakingInfo reduced to the output script it commits to. */
  function StakingPkScript(t: Taproot, staker: Option<PublicKey>, fps: seq<PublicKey>, covenant: seq<PublicKey>,
                           quorum: Uint32, stakingTime: Uint16): Result<TaprootScript, ScriptError> {
    var paths := CompiledPaths(staker, fps, covenant, quorum, stakingTime);
    if paths.Err? then Err(paths.error) else ScriptTree(t, Leaves(paths.value))
  }

  method NewTaprootScriptHolder(t: Taproot, scripts: seq<Bytes>) returns (r: Result<TaprootScript, ScriptError>)
    ensures r.Ok? <==> [] !in scripts && Distinct(Map(scripts, t.leafHash))
    ensures r.Ok? ==> r.value == t.pkScript(scripts) && r == ScriptTree(t, scripts)
    ensures r.Err? ==> || (r.error == EmptyLeaf && [] in scripts)
                       || (r.error == DuplicateLeaf && !Distinct(Map(scripts, t.leafHash)))
  {
    hide SeenPrefix, Distinct;
    ghost var hashes := Map(scripts, t.leafHash);
    var created: set<Bytes> := {};
    SeenNone(hashes);
    for i := 0 to |scripts|
      invariant SeenPrefix(hashes, i, created)
      invariant [] !in scripts[..i]
    {
      if scripts[i] == [] { return Err(EmptyLeaf); }
      SeenNext(hashes, i, created);
      var h := t.leafHash(scripts[i]);
      if h in created { return Err(DuplicateLeaf); }
      created := created + {h};
      assert scripts[..i + 1] == scripts[..i] + [scripts[i]];
    }
    SeenAll(hashes, created);
    assert scripts[..|scripts|] == scripts;
    r := Ok(t.pkScript(scripts));
  }

  lemma SeenNone(all: seq<Bytes>)
    ensures SeenPrefix(all, 0, {})
  {
  }

  /**
   * The three leaves of a compiled policy are never empty and never coincide, so with a
   * collision-free leaf hash the tree is built whenever the scripts are.
   */
  lemma CompiledLeavesAlwaysFormATree(t: Taproot, staker: PublicKey, fps: seq<PublicKey>, covenant: seq<PublicKey>,
                                      quorum: Uint32, lockTime: Uint16)
    requires CompiledPaths(Some(staker), fps, covenant, quorum, lockTime).Ok?
    requires var leaves := Leaves(CompiledPaths(Some(staker), fps, covenant, quorum, lockTime).value);
             forall a, b :: a in leaves && b in leaves && t.leafHash(a) == t.leafHash(b) ==> a == b
    ensures var leaves := Leaves(CompiledPaths(Some(staker), fps, covenant, quorum, lockTime).value);
            Distinct(leaves) && ScriptTree(t, leaves).Ok?
    ensures var paths := CompiledPaths(Some(staker), fps, covenant, quorum, lockTime).value;
            StakingPkScript(t, Some(staker), fps, covenant, quorum, lockTime) ==
            Ok(t.pkScript([paths.timeLock, paths.unbonding, paths.slashing]))
  {
    hide QuorumScript, TimeLockScript, SingleKeySigScript;
    var paths := CompiledPaths(Some(staker), fps, covenant, quorum, lockTime).value;
    var leaves := Leaves(paths);
    LeavesDiffer(staker, QuorumScript(fps, 1, true).value, QuorumScript(covenant, quorum, false).value, lockTime) by {
      QuorumScriptShape(covenant, quorum, false);
      QuorumScriptShape(fps, 1, true);
    }
    assert leaves[0] == paths.timeLock && leaves[1] == paths.unbonding && leaves[2] == paths.slashing;
    var hashes := Map(leaves, t.leafHash);
    forall i, j | 0 <= i < j < 3 ensures hashes[i] != hashes[j] {
      assert leaves[i] != leaves[j] && leaves[i] in leaves && leaves[j] in leaves;
    }
  }

  lemma LeavesDiffer(staker: PublicKey, fp: Bytes, cov: Bytes, lockTime: Uint16)
    requires fp != [] && cov != [] && fp[0] == cov[0] == OP_DATA_32
    ensures var sig := SingleKeySigScript(staker, true);
            var timeLock, unbonding, slashing := TimeLockScript(staker, lockTime), sig + cov, sig + (fp + cov);
            && timeLock != unbonding && timeLock != slashing && unbonding != slashing
            && timeLock != [] && unbonding != [] && slashing != []
  {
    var sig := SingleKeySigScript(staker, true);
    AddIntHead(lockTime);
    assert TimeLockScript(staker, lockTime)[34] == AddInt(lockTime)[0];
    assert (sig + cov)[34] == OP_DATA_32 && (sig + (fp + cov))[34] == OP_DATA_32;
    assert |sig + cov| < |sig + (fp + cov)|;
  }

  lemma QuorumScriptShape(keys: seq<PublicKey>, threshold: Uint32, withVerify: bool)
    requires QuorumScript(keys, threshold, withVerify).Ok?
    ensures var script := QuorumScript(keys, threshold, withVerify).value;
            |script| > 0 && script[0] == OP_DATA_32
  {
  }

  lemma AddIntHead(n: Uint16)
    ensures AddInt(n)[0] != OP_DATA_32
  {
    SmallNumLength(n);
  }

  lemma {:induction false} CheckSigsIgnoreParity(keys: seq<PublicKey>, keys': seq<PublicKey>, i: nat)
    requires Xs(keys) == Xs(keys') && i <= |keys|
    ensures |keys| == |keys'| && CheckSigs(keys, i) == CheckSigs(keys', i)
    decreases |keys| - i
  {
    assert |Xs(keys)| == |keys| && |Xs(keys')| == |keys'|;
    if i < |keys| {
      assert Xs(keys)[i] == Xs(keys')[i];
      CheckSigsIgnoreParity(keys, keys', i + 1);
    }
  }

  lemma QuorumIgnoresParity(keys: seq<PublicKey>, keys': seq<PublicKey>, threshold: Uint32, withVerify: bool)
    requires Xs(keys) == Xs(keys')
    ensures QuorumScript(keys, threshold, withVerify) == QuorumScript(keys', threshold, withVerify)
  {
    SortCommutesWithMap(keys, KeyBefore, KeyX, Ascending);
    SortCommutesWithMap(keys', KeyBefore, KeyX, Ascending);
    CheckSigsIgnoreParity(SortKeys(keys), SortKeys(keys'), 0);
    assert |keys| == |keys'| by { assert |Xs(keys)| == |keys| && |Xs(keys')| == |keys'|; }
    assert |keys| == 1 ==> Xs(keys)[0] == Xs(keys')[0];
  }

  /** The output script depends on the x coordinates of the keys only. */
  lemma ScriptsIgnoreParity(t: Taproot, staker: PublicKey, fps: seq<PublicKey>, staker': PublicKey, fps': seq<PublicKey>,
                            covenant: seq<PublicKey>, quorum: Uint32, lockTime: Uint16)
    requires staker.x == staker'.x && Xs(fps) == Xs(fps')
    ensures StakingPkScript(t, Some(staker), fps, covenant, quorum, lockTime) ==
            StakingPkScript(t, Some(staker'), fps', covenant, quorum, lockTime)
  {
    QuorumIgnoresParity(fps, fps', 1, true);
  }

  // ----- witnesses -----

  /** What is needed to spend one leaf: its script and the serialized control block. */
  datatype SpendInfo = SpendInfo(script: Bytes, controlBlock: Bytes)

  function Slot(sig: Option<Signature>): Bytes {
    match sig case None => [] case Some(s) => s
  }

  function Slots(sigs: seq<Option<Signature>>): seq<Bytes> { Map(sigs, Slot) }

  method CreateWitness(si: SpendInfo, signatures: seq<Bytes>) returns (w: array<Bytes>)
    ensures fresh(w) && w[..] == signatures + [si.script, si.controlBlock]
  {
    var n := |signatures|;
    w := new Bytes[n + 2](_ => []);
    for i := 0 to n
      invariant forall j :: 0 <= j < i ==> w[j] == signatures[j]
    {
      w[i] := signatures[i];
    }
    w[n] := si.script;
    w[n + 1] := si.controlBlock;
  }

  method AppendSlots(stack: seq<Bytes>, sigs: seq<Option<Signature>>) returns (r: seq<Bytes>)
    ensures r == stack + Slots(sigs)
  {
    r := stack;
    for i := 0 to |sigs|
      invariant r == stack + Slots(sigs)[..i]
    {
      if sigs[i] == None {
        r := r + [[]];
      } else {
        r := r + [sigs[i].value];
      }
      assert Slots(sigs)[..i + 1] == Slots(sigs)[..i] + [Slot(sigs[i])];
    }
  }

  method CreateUnbondingPathWitness(si: SpendInfo, covSigs: seq<Option<Signature>>, delegatorSig: Option<Signature>)
    returns (r: Result<array<Bytes>, WitnessError>)
    ensures r.Ok? <==> covSigs != [] && delegatorSig.Some?
    ensures r.Ok? ==> r.value[..] == Slots(covSigs) + [Slot(delegatorSig)] + [si.script, si.controlBlock]
  {
    if |covSigs| == 0 { return Err(NoCovenantSigs); }
    var stack := AppendSlots([], covSigs);
    if delegatorSig == None { return Err(NoDelegatorSig); }
    var w := CreateWitness(si, stack + [delegatorSig.value]);
    r := Ok(w);
  }

  method CreateSlashingPathWitness(si: SpendInfo, covSigs: seq<Option<Signature>>, fpSigs: seq<Option<Signature>>,
                                   delegatorSig: Option<Signature>)
    returns (r: Result<array<Bytes>, WitnessError>)
    ensures r.Ok? <==> covSigs != [] && fpSigs != [] && delegatorSig.Some?
    ensures r.Ok? ==>
              r.value[..] == Slots(covSigs) + Slots(fpSigs) + [Slot(delegatorSig)] + [si.script, si.controlBlock]
  {
    if |covSigs| == 0 { return Err(NoCovenantSigs); }
    var stack := AppendSlots([], covSigs);
    if |fpSigs| == 0 { return Err(NoFinalityProviderSigs); }
    stack := AppendSlots(stack, fpSigs);
    if delegatorSig == None { return Err(NoDelegatorSig); }
    var w := CreateWitness(si, stack + [delegatorSig.value]);
    r := Ok(w);
  }

  method CreateTimeLockPathWitness(si: SpendInfo, delegatorSig: Option<Signature>)
    returns (r: Result<array<Bytes>, WitnessError>)
    ensures r.Ok? <==> delegatorSig.Some?
    ensures r.Ok? ==> r.value[..] == [Slot(delegatorSig)] + [si.script, si.controlBlock]
  {
    if delegatorSig == None { return Err(NoDelegatorSig); }
    var w := CreateWitness(si, [delegatorSig.value]);
    r := Ok(w);
  }

  /** How many of a list of optional signatures are there. */
  function Present(sigs: seq<Option<Signature>>): nat {
    if sigs == [] then 0 else Present(sigs[..|sigs| - 1]) + if sigs[|sigs| - 1].None? then 0 else 1
  }

  lemma {:induction false} PresentIsNonEmpty(sigs: seq<Option<Signature>>)
    ensures NonEmpty(Slots(sigs)) == Present(sigs)
  {
    if sigs != [] {
      PresentIsNonEmpty(sigs[..|sigs| - 1]);
      assert Slots(sigs)[..|sigs| - 1] == Slots(sigs[..|sigs| - 1]);
    }
  }

  /**
   * End to end: the slashing transaction with the built witness is spendable exactly when the
   * delegator signed, one finality provider signed and a quorum of covenant members signed, all
   * signature lists being in SortBIP340PKs order with nil for the members that did not sign.
   */
  lemma BuiltSlashingWitnessSpends(staker: PublicKey, fps: seq<PublicKey>, covenant: seq<PublicKey>, quorum: Uint32,
                                   lockTime: Uint16, controlBlock: Bytes, covSigs: seq<Option<Signature>>,
                                   fpSigs: seq<Option<Signature>>, sig: Signature, env: Env)
    requires CompiledPaths(Some(staker), fps, covenant, quorum, lockTime).Ok?
    requires |covSigs| == |covenant| && |fpSigs| == |fps|
    ensures var script := CompiledPaths(Some(staker), fps, covenant, quorum, lockTime).value.slashing;
            SpendAccepted(Slots(covSigs) + Slots(fpSigs) + [Slot(Some(sig))] + [script, controlBlock], env) <==>
            && |covSigs| + |fpSigs| + 2 <= MAX_STACK_SIZE
            && env.validSig(staker.x, sig)
            && Present(fpSigs) == 1
            && SlotsValid(SortBIP340PKs(Xs(fps)), Slots(fpSigs), env)
            && Present(covSigs) == (if |covenant| == 1 then 1 else quorum)
            && SlotsValid(SortBIP340PKs(Xs(covenant)), Slots(covSigs), env)
  {
    hide Exec, SlotsValid, QuorumScript;
    var script := CompiledPaths(Some(staker), fps, covenant, quorum, lockTime).value.slashing;
    var stack := Slots(covSigs) + Slots(fpSigs) + [sig];
    var w := stack + [script, controlBlock];
    assert w[|w| - 2] == script && w[..|w| - 2] == stack;
    PresentIsNonEmpty(covSigs);
    PresentIsNonEmpty(fpSigs);
    SlashingLeafMeaning(staker, fps, covenant, quorum, lockTime, Slots(covSigs), Slots(fpSigs), sig, env);
  }

  /** The same for unbonding: the delegator and a quorum of covenant members signed. */
  lemma BuiltUnbondingWitnessSpends(staker: PublicKey, fps: seq<PublicKey>, covenant: seq<PublicKey>, quorum: Uint32,
                                    lockTime: Uint16, controlBlock: Bytes, covSigs: seq<Option<Signature>>,
                                    sig: Signature, env: Env)
    requires CompiledPaths(Some(staker), fps, covenant, quorum, lockTime).Ok?
    requires |covSigs| == |covenant|
    ensures var script := CompiledPaths(Some(staker), fps, covenant, quorum, lockTime).value.unbonding;
            SpendAccepted(Slots(covSigs) + [Slot(Some(sig))] + [script, controlBlock], env) <==>
            && |covSigs| + 2 <= MAX_STACK_SIZE
            && env.validSig(staker.x, sig)
            && Present(covSigs) == (if |covenant| == 1 then 1 else quorum)
            && SlotsValid(SortBIP340PKs(Xs(covenant)), Slots(covSigs), env)
  {
    hide Exec, SlotsValid, QuorumScript;
    var script := CompiledPaths(Some(staker), fps, covenant, quorum, lockTime).value.unbonding;
    var stack := Slots(covSigs) + [sig];
    var w := stack + [script, controlBlock];
    assert w[|w| - 2] == script && w[..|w| - 2] == stack;
    PresentIsNonEmpty(covSigs);
    UnbondingLeafMeaning(staker, fps, covenant, quorum, lockTime, Slots(covSigs), sig, env);
  }

  /** The same for the time lock: the delegator signed and the spending input is old enough. */
  lemma BuiltTimeLockWitnessSpends(staker: PublicKey, fps: seq<PublicKey>, covenant: seq<PublicKey>, quorum: Uint32,
                                   lockTime: Uint16, controlBlock: Bytes, sig: Signature, env: Env)
    requires CompiledPaths(Some(staker), fps, covenant, quorum, lockTime).Ok?
    ensures var script := CompiledPaths(Some(staker), fps, covenant, quorum, lockTime).value.timeLock;
            SpendAccepted([Slot(Some(sig))] + [script, controlBlock], env) <==>
            && env.validSig(staker.x, sig)
            && lockTime >= 1
            && env.txVersion >= 2
            && env.sequence < SEQUENCE_LOCKTIME_DISABLE
            && env.sequence / SEQUENCE_LOCKTIME_TYPE % 2 == 0
            && lockTime <= env.sequence % TWO_16
  {
    hide Exec, QuorumScript;
    var w := [Slot(Some(sig))] + [TimeLockScript(staker, lockTime), controlBlock];
    assert w[|w| - 2] == TimeLockScript(staker, lockTime) && w[..|w| - 2] == [sig];
    hide TimeLockScript;
    TimeLockLeafMeaning(staker, lockTime, sig, env);
  }
}
