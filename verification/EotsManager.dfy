/**
 * The local EOTS manager: signing guarded by a store of sign records, so that the nonce of a
 * height is spent on one message only. Calls run one at a time under the manager's mutex, and the
 * store may fail at every access.
 */
module EotsManager {
  import opened Prelude
  import opened Eots

  datatype SignRecord = SignRecord(msg: Bytes, sig: nat)

  type Store = map<Bytes, SignRecord>

  /** What does not change over a run: the scheme, HMAC-SHA256 keyed by a private key, the nonces
      derived with it, and the key tables (public key to name, name to private key). */
  datatype Setup = Setup(sc: Scheme, hmac: (nat, Bytes) -> Bytes32, nonce: (nat, Bytes, Uint64) -> nat,
                         keyNames: map<Bytes, string>, keys: map<string, nat>) {
    ghost predicate Valid() {
      && sc.curve.Valid()
      && (forall sk, chain, h :: Samples(sk, chain, h))
      && (forall name :: name in keys ==> 0 < keys[name] < sc.curve.n)
    }

    /** What iteration i of the rejection sampling for a height draws. */
    function Sample(sk: nat, chain: Bytes, height: Uint64, i: Uint64): nat {
      FromBigEndian(hmac(sk, RandInput(chain, height, i)))
    }

    /** The nonce is the first sample that neither overflows nor is zero. */
    ghost predicate SampledAt(sk: nat, chain: Bytes, height: Uint64, i: Uint64) {
      && 0 < Sample(sk, chain, height, i) < sc.curve.n
      && (forall j :: 0 <= j < i ==> !(0 < Sample(sk, chain, height, j) < sc.curve.n))
      && nonce(sk, chain, height) == Sample(sk, chain, height, i)
    }

    /** The sampling loop comes to an end, with the nonce. */
    ghost predicate Samples(sk: nat, chain: Bytes, height: Uint64) {
      exists i: Uint64 :: SampledAt(sk, chain, height, i)
    }

    lemma SamplingEnds(sk: nat, chain: Bytes, height: Uint64) returns (last: Uint64)
      requires Valid()
      ensures SampledAt(sk, chain, height, last)
    {
      assert Samples(sk, chain, height);
      last :| SampledAt(sk, chain, height, last);
    }

    lemma NonceInRange(sk: nat, chain: Bytes, height: Uint64)
      requires Valid()
      ensures 0 < nonce(sk, chain, height) < sc.curve.n
    {
      var _ := SamplingEnds(sk, chain, height);
    }

    /** The private key stored for a public key, if it really is the key of that public key. */
    function KeyFor(pk: Bytes): (r: Option<nat>)
    {
      if pk in keyNames && keyNames[pk] in keys && sc.curve.x(keys[keyNames[pk]]) == pk
      then Some(keys[keyNames[pk]]) else None
    }

    function PublicRand(sk: nat, chain: Bytes, height: Uint64): XCoord {
      sc.curve.x(nonce(sk, chain, height))
    }

    function NewSignature(sk: nat, chain: Bytes, height: Uint64, msg: Bytes, randFails: bool)
      : (r: Result<nat, Failure>)
      requires Valid() && 0 < sk < sc.curve.n
      ensures r.Err? ==> r.error.SignFailed?
      ensures r.Ok? ==> r.value < sc.curve.n
    {
      NonceInRange(sk, chain, height);
      match Sign(sc, sk, nonce(sk, chain, height), msg, if randFails then None else Some(0))
      case Ok(s) => Ok(s)
      case Err(e) => Err(SignFailed(e))
    }
  }

  datatype Failure =
    | ReadFailed | DoubleSign | DuplicateHeight | NoKeyName | NoPrivateKey | PublicKeyMismatch
    | SignFailed(e: SignError) | SaveFailed | DuplicateRecord | ZeroInterval

  datatype Faults = Faults(readFails: bool, keyFails: bool, randFailsAt: set<nat>, save: SaveOutcome)

  const NO_FAULTS := Faults(false, false, {}, Saved)

  datatype Request = Request(msg: Bytes, height: Uint64)

  datatype Signed = Signed(height: Uint64, msg: Bytes, sig: nat)

  /** chainID || pk || height. */
  function RecordKey(chain: Bytes, pk: Bytes, height: Uint64): Bytes {
    chain + pk + ToBigEndian(height, 8)
  }

  lemma RecordKeyInjective(chain: Bytes, pk: Bytes, height: Uint64, chain': Bytes, pk': Bytes, height': Uint64)
    requires |pk| == |pk'| && RecordKey(chain, pk, height) == RecordKey(chain', pk', height')
    ensures chain == chain' && pk == pk' && height == height'
  {
    var a, b := RecordKey(chain, pk, height), RecordKey(chain', pk', height');
    var n := |chain|;
    assert |chain'| == n;
    assert chain == a[..n] && chain' == b[..n];
    assert pk == a[n..n + |pk|] && pk' == b[n..n + |pk|];
    assert ToBigEndian(height, 8) == a[n + |pk|..] && ToBigEndian(height', 8) == b[n + |pk|..];
    BigEndianInjective(height, height');
  }

  /** Where the three parts of a record key are. */
  lemma RecordKeyParts(chain: Bytes, pk: Bytes, height: Uint64)
    ensures var key, n := RecordKey(chain, pk, height), |chain| + |pk|;
            && |key| == n + 8 && key[..|chain|] == chain && key[|chain|..n] == pk
            && FromBigEndian(key[n..]) == height
  {
    Pow256Values();
    BigEndianRoundTrip(height, 8);
    assert RecordKey(chain, pk, height)[|chain| + |pk|..] == ToBigEndian(height, 8);
  }

  /** height || chainID || iteration, what is fed to HMAC. */
  function RandInput(chain: Bytes, height: Uint64, i: Uint64): Bytes {
    ToBigEndian(height, 8) + chain + ToBigEndian(i, 8)
  }

  lemma RandInputInjective(chain: Bytes, height: Uint64, i: Uint64, chain': Bytes, height': Uint64, i': Uint64)
    requires RandInput(chain, height, i) == RandInput(chain', height', i')
    ensures chain == chain' && height == height' && i == i'
  {
    var a, b := RandInput(chain, height, i), RandInput(chain', height', i');
    assert |chain| == |chain'|;
    assert ToBigEndian(height, 8) == a[..8] && ToBigEndian(height', 8) == b[..8];
    assert chain == a[8..8 + |chain|] && chain' == b[8..8 + |chain|];
    assert ToBigEndian(i, 8) == a[8 + |chain|..] && ToBigEndian(i', 8) == b[8 + |chain|..];
    BigEndianInjective(height, height');
    BigEndianInjective(i, i');
  }

  /** Where the three parts of an HMAC input are. */
  lemma RandInputParts(chain: Bytes, height: Uint64, i: Uint64)
    ensures var b := RandInput(chain, height, i);
            && |b| == 16 + |chain| && FromBigEndian(b[..8]) == height && b[8..8 + |chain|] == chain
            && FromBigEndian(b[8 + |chain|..]) == i
  {
    Pow256Values();
    BigEndianRoundTrip(height, 8);
    BigEndianRoundTrip(i, 8);
    var b := RandInput(chain, height, i);
    assert b[..8] == ToBigEndian(height, 8) && b[8 + |chain|..] == ToBigEndian(i, 8);
  }

  /** Rejection sampling of the nonce of a height. */
  method GenerateRandomness(su: Setup, sk: nat, chain: Bytes, height: Uint64) returns (k: nat, r: XCoord)
    requires su.Valid()
    ensures k == su.nonce(sk, chain, height) && 0 < k < su.sc.curve.n
    ensures r == su.PublicRand(sk, chain, height) == su.sc.curve.x(k)
  {
    hide Setup.Sample, Setup.Valid, Setup.Samples;
    ghost var last := su.SamplingEnds(sk, chain, height);
    var iteration: Uint64 := 0;
    k := su.Sample(sk, chain, height, 0);
    while !(0 < k < su.sc.curve.n)
      invariant iteration <= last && k == su.Sample(sk, chain, height, iteration)
      invariant forall j :: 0 <= j < iteration ==> !(0 < su.Sample(sk, chain, height, j) < su.sc.curve.n)
      decreases last - iteration
    {
      iteration := iteration + 1;
      k := su.Sample(sk, chain, height, iteration);
    }
    r := su.sc.curve.x(k);
  }

  // ----- specification of the calls -----

  function LookUpKey(su: Setup, pk: Bytes, f: Faults): (r: Result<nat, Failure>)
    ensures r.Ok? ==> su.KeyFor(pk) == Some(r.value)
    ensures !f.keyFails && su.KeyFor(pk).Some? ==> r.Ok?
  {
    if pk !in su.keyNames then Err(NoKeyName)
    else if f.keyFails || su.keyNames[pk] !in su.keys then Err(NoPrivateKey)
    else if su.sc.curve.x(su.keys[su.keyNames[pk]]) != pk then Err(PublicKeyMismatch)
    else Ok(su.keys[su.keyNames[pk]])
  }

  function SignOne(su: Setup, store: Store, pk: Bytes, chain: Bytes, msg: Bytes, height: Uint64, f: Faults)
    : (Store, Result<nat, Failure>)
    requires su.Valid()
  {
    var key := RecordKey(chain, pk, height);
    if f.readFails then (store, Err(ReadFailed))
    else if key in store then
      (store, if store[key].msg == msg then Ok(store[key].sig) else Err(DoubleSign))
    else
      var sk := LookUpKey(su, pk, f);
      if sk.Err? then (store, Err(sk.error)) else
      var sig := su.NewSignature(sk.value, chain, height, msg, 0 in f.randFailsAt);
      if sig.Err? then (store, sig) else
      var saved := store[key := SignRecord(msg, sig.value)];
      match f.save
      case Saved => (saved, sig)
      case FailedLost => (store, Err(SaveFailed))
      case FailedKept => (saved, Err(SaveFailed))
  }

  function Heights(reqs: seq<Request>): (r: seq<Uint64>)
    ensures |r| == |reqs|
    ensures forall i :: 0 <= i < |reqs| ==> r[i] == reqs[i].height
  {
    seq(|reqs|, i requires 0 <= i < |reqs| => reqs[i].height)
  }

  /** What the batch loop has collected: responses, and records still to be saved. */
  datatype Collected = Collected(signed: seq<Signed>, records: seq<Signed>)

  function ScanStep(su: Setup, store: Store, sk: nat, pk: Bytes, chain: Bytes, acc: Collected, req: Request, randFails: bool)
    : Result<Collected, Failure>
    requires su.Valid() && 0 < sk < su.sc.curve.n
  {
    var Request(msg, height) := req;
    var key := RecordKey(chain, pk, height);
    if key in store then
      Ok(if store[key].msg == msg
         then Collected(acc.signed + [Signed(height, msg, store[key].sig)], acc.records)
         else acc)
    else
      var sig := su.NewSignature(sk, chain, height, msg, randFails);
      if sig.Err? then Err(sig.error)
      else
        var s := Signed(height, msg, sig.value);
        Ok(Collected(acc.signed + [s], acc.records + [s]))
  }

  function Scan(su: Setup, store: Store, sk: nat, pk: Bytes, chain: Bytes, reqs: seq<Request>, f: Faults)
    : Result<Collected, Failure>
    requires su.Valid() && 0 < sk < su.sc.curve.n
  {
    if reqs == [] then Ok(Collected([], []))
    else
      var n := |reqs| - 1;
      var prev := Scan(su, store, sk, pk, chain, reqs[..n], f);
      if prev.Err? then prev
      else ScanStep(su, store, sk, pk, chain, prev.value, reqs[n], n in f.randFailsAt)
  }

  function Apply(store: Store, pk: Bytes, chain: Bytes, records: seq<Signed>): Store {
    if records == [] then store
    else
      var last := records[|records| - 1];
      Apply(store, pk, chain, records[..|records| - 1])[RecordKey(chain, pk, last.height) := SignRecord(last.msg, last.sig)]
  }

  function SaveBatch(store: Store, pk: Bytes, chain: Bytes, records: seq<Signed>, f: Faults): (Store, Option<Failure>) {
    if records == [] then (store, None)
    else if exists i :: 0 <= i < |records| && RecordKey(chain, pk, records[i].height) in Apply(store, pk, chain, records[..i])
    then (store, Some(DuplicateRecord))
    else match f.save
      case Saved => (Apply(store, pk, chain, records), None)
      case FailedLost => (store, Some(SaveFailed))
      case FailedKept => (Apply(store, pk, chain, records), Some(SaveFailed))
  }

  function SignBatch(su: Setup, store: Store, pk: Bytes, chain: Bytes, reqs: seq<Request>, f: Faults)
    : (Store, Result<seq<Signed>, Failure>)
    requires su.Valid()
  {
    if !Distinct(Heights(reqs)) then (store, Err(DuplicateHeight)) else
    var sk := LookUpKey(su, pk, f);
    if sk.Err? then (store, Err(sk.error))
    else if f.readFails then (store, Err(ReadFailed)) else
    var scan := Scan(su, store, sk.value, pk, chain, reqs, f);
    if scan.Err? then (store, Err(scan.error)) else
    var (store', err) := SaveBatch(store, pk, chain, scan.value.records, f);
    (store', if err.Some? then Err(err.value) else Ok(scan.value.signed))
  }

  // ----- the manager -----

  method HasDuplicateHeights(heights: seq<Uint64>) returns (dup: bool, height: Uint64)
    ensures dup <==> !Distinct(heights)
    ensures dup ==> exists i, j :: 0 <= i < j < |heights| && heights[i] == heights[j] == height &&
                                   Distinct(heights[..j])
    ensures !dup ==> height == 0
  {
    var seen: set<Uint64> := {};
    for i := 0 to |heights|
      invariant seen == set k | 0 <= k < i :: heights[k]
      invariant Distinct(heights[..i])
    {
      if heights[i] in seen {
        return true, heights[i];
      }
      seen := seen + {heights[i]};
    }
    assert heights[..|heights|] == heights;
    return false, 0;
  }

  class LocalEOTSManager {
    const su: Setup
    var store: Store

    constructor (su: Setup, store: Store)
      ensures this.su == su && this.store == store
    {
      this.su := su;
      this.store := store;
    }

    method SignEOTS(pk: Bytes, chain: Bytes, msg: Bytes, height: Uint64, f: Faults) returns (r: Result<nat, Failure>)
      requires su.Valid()
      modifies this
      ensures (store, r) == SignOne(su, old(store), pk, chain, msg, height, f)
    {
      if f.readFails { return Err(ReadFailed); }
      var key := RecordKey(chain, pk, height);
      if key in store {
        if store[key].msg == msg { return Ok(store[key].sig); }
        return Err(DoubleSign);
      }
      var sk := LookUpKey(su, pk, f);
      if sk.Err? { return Err(sk.error); }
      r := su.NewSignature(sk.value, chain, height, msg, 0 in f.randFailsAt);
      if r.Err? { return r; }
      if f.save != FailedLost {
        store := store[key := SignRecord(msg, r.value)];
      }
      if f.save != Saved { return Err(SaveFailed); }
    }

    method SignBatchEOTS(pk: Bytes, chain: Bytes, reqs: seq<Request>, f: Faults)
      returns (r: Result<seq<Signed>, Failure>)
      requires su.Valid()
      modifies this
      ensures (store, r) == SignBatch(su, old(store), pk, chain, reqs, f)
    {
      var heights := Heights(reqs);
      var dup, _ := HasDuplicateHeights(heights);
      if dup { return Err(DuplicateHeight); }
      var sk := LookUpKey(su, pk, f);
      if sk.Err? { return Err(sk.error); }
      if f.readFails { return Err(ReadFailed); }
      var response: seq<Signed>, toSave: seq<Signed> := [], [];
      for i := 0 to |reqs|
        invariant Scan(su, store, sk.value, pk, chain, reqs[..i], f) == Ok(Collected(response, toSave))
        invariant store == old(store)
      {
        assert reqs[..i + 1][..i] == reqs[..i];
        var Request(msg, height) := reqs[i];
        var key := RecordKey(chain, pk, height);
        if key in store {
          if store[key].msg == msg {
            response := response + [Signed(height, msg, store[key].sig)];
          }
        } else {
          var sig := su.NewSignature(sk.value, chain, height, msg, i in f.randFailsAt);
          if sig.Err? {
            ScanErrorSticks(su, store, sk.value, pk, chain, reqs, f, i + 1);
            return Err(sig.error);
          }
          toSave := toSave + [Signed(height, msg, sig.value)];
          response := response + [Signed(height, msg, sig.value)];
        }
      }
      assert reqs[..|reqs|] == reqs;
      var (store', err) := SaveBatch(store, pk, chain, toSave, f);
      store := store';
      if err.Some? { return Err(err.value); }
      return Ok(response);
    }

    /** The public randomness committed to for `num` heights from `start`, `interval` or 1 apart, in 64-bit arithmetic. */
    method CreateRandomnessPairList(pk: Bytes, chain: Bytes, start: Uint64, num: Uint32, interval: Option<Uint64>, f: Faults)
      returns (r: Result<seq<XCoord>, Failure>)
      requires su.Valid()
      ensures interval == Some(0) ==> r == Err(ZeroInterval)
      ensures !f.keyFails && su.KeyFor(pk).Some? && interval != Some(0) ==> r.Ok?
      ensures r.Ok? ==> su.KeyFor(pk).Some? && |r.value| == num &&
                        var step := if interval.Some? then interval.value else 1;
                        forall i :: 0 <= i < num ==>
                          r.value[i] == su.PublicRand(su.KeyFor(pk).value, chain, (start + i * step) % TWO_64)
    {
      if interval == Some(0) { return Err(ZeroInterval); }
      var sk := LookUpKey(su, pk, f);
      if sk.Err? { return Err(sk.error); }
      hide EntryHeight, LookUpKey, Setup.Valid, Setup.PublicRand;
      var list := [];
      ghost var step := if interval.Some? then interval.value else 1;
      for i := 0 to num
        invariant |list| == i
        invariant forall j :: 0 <= j < i ==> list[j] == su.PublicRand(sk.value, chain, EntryHeight(start, step, j))
      {
        EntryHeightIs(start, step, i);
        var height := if interval.Some? then (start + i * interval.value) % TWO_64 else (start + i) % TWO_64;
        var _, publicRand := GenerateRandomness(su, sk.value, chain, height);
        list := list + [publicRand];
      }
      forall i | 0 <= i < num ensures EntryHeight(start, step, i) == (start + i * step) % TWO_64 {
        EntryHeightIs(start, step, i);
      }
      return Ok(list);
    }
  }

  ghost function EntryHeight(start: Uint64, step: nat, i: nat): Uint64 { (start + i * step) % TWO_64 }

  lemma EntryHeightIs(start: Uint64, step: nat, i: nat)
    ensures EntryHeight(start, step, i) == (start + i * step) % TWO_64
  {
  }

  lemma {:induction false} ScanErrorSticks(su: Setup, store: Store, sk: nat, pk: Bytes, chain: Bytes, reqs: seq<Request>,
                                           f: Faults, n: nat)
    requires su.Valid() && 0 < sk < su.sc.curve.n && n <= |reqs|
    requires Scan(su, store, sk, pk, chain, reqs[..n], f).Err?
    ensures Scan(su, store, sk, pk, chain, reqs, f) == Scan(su, store, sk, pk, chain, reqs[..n], f)
    decreases |reqs| - n
  {
    if n < |reqs| {
      assert reqs[..n + 1][..n] == reqs[..n];
      ScanErrorSticks(su, store, sk, pk, chain, reqs, f, n + 1);
    } else {
      assert reqs[..n] == reqs;
    }
  }

  // ----- a batch is the same as its entries one by one -----

  /** SignEOTS on every entry in order, dropping double-sign refusals; None on any other failure. */
  function Sequentially(su: Setup, store: Store, pk: Bytes, chain: Bytes, reqs: seq<Request>): Option<(Store, seq<Signed>)>
    requires su.Valid()
  {
    if reqs == [] then Some((store, []))
    else
      var prev := Sequentially(su, store, pk, chain, reqs[..|reqs| - 1]);
      if prev.None? then None else
      var Request(msg, height) := reqs[|reqs| - 1];
      var (store', r) := SignOne(su, prev.value.0, pk, chain, msg, height, NO_FAULTS);
      match r
      case Ok(s) => Some((store', prev.value.1 + [Signed(height, msg, s)]))
      case Err(DoubleSign) => Some((store', prev.value.1))
      case Err(_) => None
  }

  /** Records for different requested heights, none of them in the store yet. */
  ghost predicate Pending(store: Store, pk: Bytes, chain: Bytes, records: seq<Signed>, heights: seq<Uint64>) {
    && (forall r :: r in records ==> RecordKey(chain, pk, r.height) !in store && r.height in heights)
    && (forall i, j :: 0 <= i < j < |records| ==> records[i].height != records[j].height)
  }

  lemma {:induction false} ScanRecords(su: Setup, store: Store, sk: nat, pk: Bytes, chain: Bytes, reqs: seq<Request>,
                                       f: Faults)
    requires su.Valid() && 0 < sk < su.sc.curve.n && Scan(su, store, sk, pk, chain, reqs, f).Ok?
    requires Distinct(Heights(reqs))
    ensures Pending(store, pk, chain, Scan(su, store, sk, pk, chain, reqs, f).value.records, Heights(reqs))
  {
    hide Setup.Valid, Setup.NewSignature, RecordKey;
    if reqs != [] {
      var n := |reqs| - 1;
      var heights := Heights(reqs[..n]);
      assert Heights(reqs) == heights + [reqs[n].height];
      assert reqs[n].height !in heights;
      ScanRecords(su, store, sk, pk, chain, reqs[..n], f);
    }
  }

  lemma {:induction false} ApplyKeys(store: Store, pk: Bytes, chain: Bytes, records: seq<Signed>, height: Uint64)
    requires forall r :: r in records ==> r.height != height
    ensures SameRecord(store, Apply(store, pk, chain, records), RecordKey(chain, pk, height))
  {
    if records != [] {
      var n := |records| - 1;
      ApplyKeys(store, pk, chain, records[..n], height);
      if RecordKey(chain, pk, records[n].height) == RecordKey(chain, pk, height) {
        RecordKeyInjective(chain, pk, records[n].height, chain, pk, height);
      }
    }
  }

  ghost predicate SameRecord(store: Store, store': Store, key: Bytes) {
    (key in store' <==> key in store) && (key in store ==> store'[key] == store[key])
  }

  /** One entry: signing it on the evolving store and scanning it against the original one. */
  lemma SequentialStep(su: Setup, store: Store, sk: nat, pk: Bytes, chain: Bytes, acc: Collected, req: Request)
    requires su.Valid() && su.KeyFor(pk) == Some(sk) && 0 < sk < su.sc.curve.n
    requires SameRecord(store, Apply(store, pk, chain, acc.records), RecordKey(chain, pk, req.height))
    ensures var (store', r) := SignOne(su, Apply(store, pk, chain, acc.records), pk, chain, req.msg, req.height, NO_FAULTS);
            var next := ScanStep(su, store, sk, pk, chain, acc, req, false);
            && (next.Err? ==> r.Err? && r.error != DoubleSign)
            && (next.Ok? ==>
                  && store' == Apply(store, pk, chain, next.value.records)
                  && (r.Err? ==> r.error == DoubleSign && next.value.signed == acc.signed)
                  && (r.Ok? ==> next.value.signed == acc.signed + [Signed(req.height, req.msg, r.value)]))
  {
    hide Setup.Valid, Setup.NewSignature, RecordKey, Apply;
    var sig := su.NewSignature(sk, chain, req.height, req.msg, false);
    if RecordKey(chain, pk, req.height) !in store && sig.Ok? {
      ApplySnoc(store, pk, chain, acc.records, Signed(req.height, req.msg, sig.value));
    }
  }

  lemma ApplySnoc(store: Store, pk: Bytes, chain: Bytes, records: seq<Signed>, last: Signed)
    ensures Apply(store, pk, chain, records + [last]) ==
            Apply(store, pk, chain, records)[RecordKey(chain, pk, last.height) := SignRecord(last.msg, last.sig)]
  {
    var all := records + [last];
    assert all[..|all| - 1] == records;
  }

  lemma {:induction false} ScanIsSequential(su: Setup, store: Store, sk: nat, pk: Bytes, chain: Bytes, reqs: seq<Request>)
    requires su.Valid() && su.KeyFor(pk) == Some(sk) && 0 < sk < su.sc.curve.n && Distinct(Heights(reqs))
    ensures var scan := Scan(su, store, sk, pk, chain, reqs, NO_FAULTS);
            Sequentially(su, store, pk, chain, reqs) ==
            if scan.Err? then None else Some((Apply(store, pk, chain, scan.value.records), scan.value.signed))
  {
    hide Setup.Valid, RecordKey, SignOne, ScanStep, Apply;
    assert forall i :: i !in NO_FAULTS.randFailsAt;
    if reqs != [] {
      var n := |reqs| - 1;
      var front := reqs[..n];
      assert Heights(reqs) == Heights(front) + [reqs[n].height];
      ScanIsSequential(su, store, sk, pk, chain, front);
      var prev := Scan(su, store, sk, pk, chain, front, NO_FAULTS);
      if prev.Ok? {
        ScanLeavesHeight(su, store, sk, pk, chain, front, NO_FAULTS, reqs[n].height);
        SequentialStep(su, store, sk, pk, chain, prev.value, reqs[n]);
        assert Scan(su, store, sk, pk, chain, reqs, NO_FAULTS) ==
               ScanStep(su, store, sk, pk, chain, prev.value, reqs[n], false);
        var (store', r) := SignOne(su, Apply(store, pk, chain, prev.value.records), pk, chain, reqs[n].msg,
                                   reqs[n].height, NO_FAULTS);
        assert r.Err? && r.error != DoubleSign ==> Sequentially(su, store, pk, chain, reqs) == None;
      }
    } else {
      NothingToApply(store, pk, chain);
    }
  }

  lemma NothingToApply(store: Store, pk: Bytes, chain: Bytes)
    ensures Apply(store, pk, chain, []) == store
  {
  }

  /** The pending records do not touch a height that was not requested. */
  lemma ScanLeavesHeight(su: Setup, store: Store, sk: nat, pk: Bytes, chain: Bytes, reqs: seq<Request>, f: Faults,
                         height: Uint64)
    requires su.Valid() && 0 < sk < su.sc.curve.n && Scan(su, store, sk, pk, chain, reqs, f).Ok?
    requires Distinct(Heights(reqs) + [height])
    ensures SameRecord(store, Apply(store, pk, chain, Scan(su, store, sk, pk, chain, reqs, f).value.records),
                       RecordKey(chain, pk, height))
  {
    hide Setup.Valid, RecordKey, Scan, Apply;
    var heights := Heights(reqs) + [height];
    assert forall i :: 0 <= i < |reqs| ==> heights[i] == Heights(reqs)[i];
    assert heights[|reqs|] == height;
    ScanRecords(su, store, sk, pk, chain, reqs, f);
    ApplyKeys(store, pk, chain, Scan(su, store, sk, pk, chain, reqs, f).value.records, height);
  }

  lemma KeyInRange(su: Setup, pk: Bytes)
    requires su.Valid() && su.KeyFor(pk).Some?
    ensures 0 < su.KeyFor(pk).value < su.sc.curve.n
  {
  }

  /**
   * What one call does when nothing fails: a recorded message gets the recorded signature again, a
   * different message at that height is refused, and a height without a record is signed, exactly
   * when the challenge is in range, with a signature that verifies against the height's public
   * randomness and becomes the only new record.
   */
  lemma SigningOutcome(su: Setup, store: Store, pk: Bytes, chain: Bytes, msg: Bytes, height: Uint64)
    requires su.Valid() && |pk| == 32
    requires pk in su.keyNames && su.keyNames[pk] in su.keys && su.sc.curve.x(su.keys[su.keyNames[pk]]) == pk
    ensures var key, sk := RecordKey(chain, pk, height), su.keys[su.keyNames[pk]];
            var rand := su.sc.curve.x(su.nonce(sk, chain, height));
            var (store', r) := SignOne(su, store, pk, chain, msg, height, NO_FAULTS);
            && (key in store && store[key].msg == msg ==> r == Ok(store[key].sig) && store' == store)
            && (key in store && store[key].msg != msg ==> r == Err(DoubleSign) && store' == store)
            && (key !in store ==>
                  && (r.Ok? <==> su.sc.challenge(rand, pk, su.sc.hash(msg)) < su.sc.curve.n)
                  && (r.Err? ==> store' == store)
                  && (r.Ok? ==> && r.value < su.sc.curve.n && VerifyHash(su.sc, pk, rand, su.sc.hash(msg), r.value).None?
                                && store' == store[key := SignRecord(msg, r.value)]))
  {
    var sk := su.keys[su.keyNames[pk]];
    su.NonceInRange(sk, chain, height);
    KeyInRange(su, pk);
    var k := su.nonce(sk, chain, height);
    SignSucceedsIff(su.sc, sk, k, su.sc.hash(msg), Some(0));
    if SignHash(su.sc, sk, k, su.sc.hash(msg), Some(0)).Ok? {
      SignedVerifies(su.sc, sk, k, su.sc.hash(msg), Some(0));
    }
    hide SignHash, VerifyHash, RecordKey;
  }

  /**
   * With the key available and no store error, a batch of distinct heights releases the same
   * signatures and leaves the same store as signing its entries one by one, and it fails exactly
   * when one of the entries would fail to be signed.
   */
  lemma BatchIsSequential(su: Setup, store: Store, pk: Bytes, chain: Bytes, reqs: seq<Request>)
    requires su.Valid() && su.KeyFor(pk).Some?
    ensures var (store', r) := SignBatch(su, store, pk, chain, reqs, NO_FAULTS);
            var each := Sequentially(su, store, pk, chain, reqs);
            && (!Distinct(Heights(reqs)) ==> r == Err(DuplicateHeight) && store' == store)
            && (Distinct(Heights(reqs)) && each.Some? ==> r == Ok(each.value.1) && store' == each.value.0)
            && (Distinct(Heights(reqs)) && each.None? ==> r.Err? && store' == store)
  {
    if !Distinct(Heights(reqs)) { return; }
    var sk := su.KeyFor(pk).value;
    KeyInRange(su, pk);
    ScanIsSequential(su, store, sk, pk, chain, reqs);
    var scan := Scan(su, store, sk, pk, chain, reqs, NO_FAULTS);
    if scan.Ok? {
      ScanRecords(su, store, sk, pk, chain, reqs, NO_FAULTS);
      NoDuplicateRecords(store, pk, chain, scan.value.records, Heights(reqs));
    }
  }

  lemma NoDuplicateRecords(store: Store, pk: Bytes, chain: Bytes, records: seq<Signed>, heights: seq<Uint64>)
    requires Pending(store, pk, chain, records, heights)
    ensures forall i :: 0 <= i < |records| ==>
                          RecordKey(chain, pk, records[i].height) !in Apply(store, pk, chain, records[..i])
  {
    forall i | 0 <= i < |records|
      ensures RecordKey(chain, pk, records[i].height) !in Apply(store, pk, chain, records[..i])
    {
      ApplyKeys(store, pk, chain, records[..i], records[i].height);
    }
  }

  // ----- safety over every run -----

  datatype Call =
    | One(pk: Bytes, chain: Bytes, msg: Bytes, height: Uint64, f: Faults)
    | Batch(pk: Bytes, chain: Bytes, reqs: seq<Request>, f: Faults)

  /** A signature handed to a caller. */
  datatype Release = Release(pk: Bytes, chain: Bytes, height: Uint64, msg: Bytes, sig: nat) {
    function Key(): Bytes { RecordKey(chain, pk, height) }
  }

  datatype World = World(store: Store, released: set<Release>)

  function Step(su: Setup, w: World, call: Call): World
    requires su.Valid()
  {
    match call
    case One(pk, chain, msg, height, f) =>
      var (store', r) := SignOne(su, w.store, pk, chain, msg, height, f);
      World(store', if r.Ok? then w.released + {Release(pk, chain, height, msg, r.value)} else w.released)
    case Batch(pk, chain, reqs, f) =>
      var (store', r) := SignBatch(su, w.store, pk, chain, reqs, f);
      World(store', if r.Ok? then w.released + Releases(pk, chain, r.value) else w.released)
  }

  function Releases(pk: Bytes, chain: Bytes, signed: seq<Signed>): set<Release> {
    set s | s in signed :: Release(pk, chain, s.height, s.msg, s.sig)
  }

  function Run(su: Setup, w: World, calls: seq<Call>): World
    requires su.Valid()
  {
    if calls == [] then w else Step(su, Run(su, w, calls[..|calls| - 1]), calls[|calls| - 1])
  }

  /** The record was signed by the key stored for its public key, with the nonce of its height. */
  ghost predicate MadeBy(su: Setup, key: Bytes, rec: SignRecord, sk: nat, chain: Bytes, height: Uint64)
    requires su.Valid()
  {
    && su.KeyFor(su.sc.curve.x(sk)) == Some(sk) && 0 < sk < su.sc.curve.n
    && key == RecordKey(chain, su.sc.curve.x(sk), height)
    && su.NewSignature(sk, chain, height, rec.msg, false) == Ok(rec.sig)
  }

  ghost predicate Genuine(su: Setup, store: Store)
    requires su.Valid()
  {
    forall key :: key in store ==> exists sk, chain, height :: MadeBy(su, key, store[key], sk, chain, height)
  }

  /** Everything released is on record. */
  ghost predicate Recorded(w: World) {
    forall r :: r in w.released ==> r.Key() in w.store && w.store[r.Key()] == SignRecord(r.msg, r.sig)
  }

  ghost predicate Inv(su: Setup, w: World)
    requires su.Valid()
  {
    Genuine(su, w.store) && Recorded(w)
  }

  /** No record is ever dropped or changed. */
  ghost predicate Grows(store: Store, store': Store) {
    forall key :: key in store ==> key in store' && store'[key] == store[key]
  }

  ghost predicate RecordedAs(store: Store, pk: Bytes, chain: Bytes, s: Signed) {
    var key := RecordKey(chain, pk, s.height);
    key in store && store[key] == SignRecord(s.msg, s.sig)
  }

  lemma SignOneSafe(su: Setup, store: Store, pk: Bytes, chain: Bytes, msg: Bytes, height: Uint64, f: Faults)
    requires su.Valid() && Genuine(su, store)
    ensures var (store', r) := SignOne(su, store, pk, chain, msg, height, f);
            && Genuine(su, store') && Grows(store, store')
            && (r.Ok? ==> RecordedAs(store', pk, chain, Signed(height, msg, r.value)))
  {
    hide Setup.NewSignature, RecordKey, Genuine;
    var sk := LookUpKey(su, pk, f);
    if RecordKey(chain, pk, height) !in store && sk.Ok? {
      var sig := su.NewSignature(sk.value, chain, height, msg, 0 in f.randFailsAt);
      if sig.Ok? {
        NewRecordGenuine(su, store, sk.value, pk, chain, Request(msg, height), 0 in f.randFailsAt, sig.value);
      }
    }
  }

  /** The signatures collected by a scan are recorded once its new records are applied. */
  ghost predicate ScanSound(su: Setup, store: Store, pk: Bytes, chain: Bytes, heights: seq<Uint64>, c: Collected)
    requires su.Valid()
  {
    var store' := Apply(store, pk, chain, c.records);
    && Genuine(su, store') && Grows(store, store')
    && (forall s :: s in c.signed ==> s.height in heights && RecordedAs(store', pk, chain, s))
  }

  lemma ScanStepSound(su: Setup, store: Store, sk: nat, pk: Bytes, chain: Bytes, heights: seq<Uint64>, acc: Collected,
                      req: Request, randFails: bool)
    requires su.Valid() && su.KeyFor(pk) == Some(sk) && 0 < sk < su.sc.curve.n
    requires ScanSound(su, store, pk, chain, heights, acc) && req.height !in heights
    requires SameRecord(store, Apply(store, pk, chain, acc.records), RecordKey(chain, pk, req.height))
    requires ScanStep(su, store, sk, pk, chain, acc, req, randFails).Ok?
    ensures ScanSound(su, store, pk, chain, heights + [req.height],
                      ScanStep(su, store, sk, pk, chain, acc, req, randFails).value)
  {
    hide Setup.Valid, Setup.NewSignature, RecordKey, Genuine, Apply;
    var sig := su.NewSignature(sk, chain, req.height, req.msg, randFails);
    var key := RecordKey(chain, pk, req.height);
    if key !in store {
      ApplySnoc(store, pk, chain, acc.records, Signed(req.height, req.msg, sig.value));
      NewRecordGenuine(su, Apply(store, pk, chain, acc.records), sk, pk, chain, req, randFails, sig.value);
      forall s | s in acc.signed ensures RecordKey(chain, pk, s.height) != key {
        if RecordKey(chain, pk, s.height) == key {
          RecordKeyInjective(chain, pk, s.height, chain, pk, req.height);
        }
      }
    }
  }

  lemma {:induction false} ScanIsSound(su: Setup, store: Store, sk: nat, pk: Bytes, chain: Bytes, reqs: seq<Request>, f: Faults)
    requires su.Valid() && Genuine(su, store) && su.KeyFor(pk) == Some(sk) && Distinct(Heights(reqs))
    requires 0 < sk < su.sc.curve.n && Scan(su, store, sk, pk, chain, reqs, f).Ok?
    ensures ScanSound(su, store, pk, chain, Heights(reqs), Scan(su, store, sk, pk, chain, reqs, f).value)
  {
    hide Setup.Valid, RecordKey, ScanStep, Genuine;
    if reqs != [] {
      var n := |reqs| - 1;
      var front := reqs[..n];
      assert Heights(reqs) == Heights(front) + [reqs[n].height];
      ScanIsSound(su, store, sk, pk, chain, front, f);
      ScanLeavesHeight(su, store, sk, pk, chain, front, f, reqs[n].height);
      var prev := Scan(su, store, sk, pk, chain, front, f).value;
      ScanStepSound(su, store, sk, pk, chain, Heights(front), prev, reqs[n], n in f.randFailsAt);
    }
  }

  lemma NewRecordGenuine(su: Setup, store: Store, sk: nat, pk: Bytes, chain: Bytes, req: Request, randFails: bool, sig: nat)
    requires su.Valid() && Genuine(su, store) && su.KeyFor(pk) == Some(sk) && 0 < sk < su.sc.curve.n
    requires su.NewSignature(sk, chain, req.height, req.msg, randFails) == Ok(sig)
    requires RecordKey(chain, pk, req.height) !in store
    ensures Genuine(su, store[RecordKey(chain, pk, req.height) := SignRecord(req.msg, sig)])
  {
    var key := RecordKey(chain, pk, req.height);
    assert MadeBy(su, key, SignRecord(req.msg, sig), sk, chain, req.height);
    var store' := store[key := SignRecord(req.msg, sig)];
    forall k | k in store' ensures exists sk, chain, height :: MadeBy(su, k, store'[k], sk, chain, height) {
      if k != key {
        var sk', chain', height' :| MadeBy(su, k, store[k], sk', chain', height');
        assert MadeBy(su, k, store'[k], sk', chain', height');
      }
    }
  }

  lemma SignBatchSafe(su: Setup, store: Store, pk: Bytes, chain: Bytes, reqs: seq<Request>, f: Faults)
    requires su.Valid() && Genuine(su, store)
    ensures var (store', r) := SignBatch(su, store, pk, chain, reqs, f);
            && Genuine(su, store') && Grows(store, store')
            && (r.Ok? ==> forall s :: s in r.value ==> RecordedAs(store', pk, chain, s))
  {
    hide RecordKey, Genuine, Scan, RecordedAs;
    var sk := LookUpKey(su, pk, f);
    if Distinct(Heights(reqs)) && sk.Ok? {
      KeyInRange(su, pk);
      var scan := Scan(su, store, sk.value, pk, chain, reqs, f);
      if scan.Ok? {
        ScanIsSound(su, store, sk.value, pk, chain, reqs, f);
      }
    }
  }

  lemma StepKeepsInv(su: Setup, w: World, call: Call)
    requires su.Valid() && Inv(su, w)
    ensures Inv(su, Step(su, w, call))
    ensures Grows(w.store, Step(su, w, call).store)
  {
    hide RecordKey, SignOne, SignBatch, Genuine;
    match call
    case One(pk, chain, msg, height, f) => SignOneSafe(su, w.store, pk, chain, msg, height, f);
    case Batch(pk, chain, reqs, f) => SignBatchSafe(su, w.store, pk, chain, reqs, f);
  }

  lemma {:induction false} RunKeepsInv(su: Setup, w: World, calls: seq<Call>)
    requires su.Valid() && Inv(su, w)
    ensures Inv(su, Run(su, w, calls))
  {
    if calls != [] {
      RunKeepsInv(su, w, calls[..|calls| - 1]);
      StepKeepsInv(su, Run(su, w, calls[..|calls| - 1]), calls[|calls| - 1]);
    }
  }

  /**
   * Over every run of single and batch calls, with store failures anywhere, all signatures
   * released for one key, chain and height are over the same message, and are the same signature.
   */
  lemma OneMessagePerHeight(su: Setup, w: World, calls: seq<Call>, a: Release, b: Release)
    requires su.Valid() && Inv(su, w)
    requires a in Run(su, w, calls).released && b in Run(su, w, calls).released
    requires a.pk == b.pk && a.chain == b.chain && a.height == b.height
    ensures a.msg == b.msg && a.sig == b.sig
  {
    RunKeepsInv(su, w, calls);
  }

  /** A released signature was made by the key of its public key with the nonce of its height. */
  lemma ReleaseOrigin(su: Setup, w: World, a: Release) returns (sk: nat)
    requires su.Valid() && Inv(su, w) && a in w.released && |a.pk| == 32
    ensures su.KeyFor(a.pk) == Some(sk) && 0 < sk < su.sc.curve.n
    ensures su.NewSignature(sk, a.chain, a.height, a.msg, false) == Ok(a.sig)
  {
    var chain, height;
    sk, chain, height :| MadeBy(su, a.Key(), w.store[a.Key()], sk, chain, height);
    RecordKeyInjective(a.chain, a.pk, a.height, chain, su.sc.curve.x(sk), height);
  }

  /**
   * Every released signature verifies against the entry for its height in the randomness list the
   * manager commits to, for consecutive heights and for intervals alike.
   */
  lemma ReleasedVerifiesAgainstCommitment(su: Setup, w: World, calls: seq<Call>, a: Release, start: Uint64,
                                          interval: Option<Uint64>, i: nat, list: seq<XCoord>)
    requires su.Valid() && Inv(su, w) && a in Run(su, w, calls).released && |a.pk| == 32
    requires i < |list| && su.KeyFor(a.pk).Some?
    requires var height := (start + i * if interval.Some? then interval.value else 1) % TWO_64;
             a.height == height && list[i] == su.PublicRand(su.KeyFor(a.pk).value, a.chain, height)
    ensures a.sig < su.sc.curve.n && VerifyHash(su.sc, a.pk, list[i], su.sc.hash(a.msg), a.sig).None?
  {
    RunKeepsInv(su, w, calls);
    var sk := ReleaseOrigin(su, Run(su, w, calls), a);
    su.NonceInRange(sk, a.chain, a.height);
    SignedVerifies(su.sc, sk, su.nonce(sk, a.chain, a.height), su.sc.hash(a.msg), Some(0));
  }

  /** Different (chain, height) pairs signed for have different public randomness. */
  ghost predicate NoncesDiffer(su: Setup, sk: nat, released: set<Release>) {
    forall a, b :: a in released && b in released &&
                   su.PublicRand(sk, a.chain, a.height) == su.PublicRand(sk, b.chain, b.height) ==>
                   a.chain == b.chain && a.height == b.height
  }

  /**
   * HMAC never maps two different inputs from which nonces were drawn to the same number, nor to
   * two numbers that are each other's negation modulo the group order.
   */
  ghost predicate NoHmacCollision(su: Setup, sk: nat, released: set<Release>) {
    forall a, b, i: Uint64, j: Uint64 ::
      a in released && b in released && su.SampledAt(sk, a.chain, a.height, i) && su.SampledAt(sk, b.chain, b.height, j) &&
      RandInput(a.chain, a.height, i) != RandInput(b.chain, b.height, j) ==>
        var v, v' := FromBigEndian(su.hmac(sk, RandInput(a.chain, a.height, i))), FromBigEndian(su.hmac(sk, RandInput(b.chain, b.height, j)));
        v != v' && v + v' != su.sc.curve.n
  }

  /** Without HMAC collisions the public randomness of different heights differs. */
  lemma NoncesDifferWithoutCollisions(su: Setup, sk: nat, released: set<Release>)
    requires su.Valid() && NoHmacCollision(su, sk, released)
    ensures NoncesDiffer(su, sk, released)
  {
    forall a, b | a in released && b in released && su.PublicRand(sk, a.chain, a.height) == su.PublicRand(sk, b.chain, b.height)
      ensures a.chain == b.chain && a.height == b.height
    {
      assert su.Samples(sk, a.chain, a.height) && su.Samples(sk, b.chain, b.height);
      var i: Uint64 :| su.SampledAt(sk, a.chain, a.height, i);
      var j: Uint64 :| su.SampledAt(sk, b.chain, b.height, j);
      SameXSameUpToSign(su.sc.curve, su.nonce(sk, a.chain, a.height), su.nonce(sk, b.chain, b.height));
      assert RandInput(a.chain, a.height, i) == RandInput(b.chain, b.height, j);
      RandInputInjective(a.chain, a.height, i, b.chain, b.height, j);
    }
  }

  lemma SameXSameUpToSign(c: Curve, d: nat, e: nat)
    requires c.Valid() && 0 < d < c.n && 0 < e < c.n && c.x(d) == c.x(e)
    ensures d == e || d + e == c.n
  {
  }

  /**
   * If HMAC does not collide on the heights signed for, no two released signatures of one key
   * ever meet the premise of extraction: sharing the public randomness, they are one signature over
   * one message, and Extract refuses them.
   */
  lemma ReleasesNeverRevealTheKey(su: Setup, w: World, calls: seq<Call>, a: Release, b: Release, pub: nat, r: XCoord)
    requires su.Valid() && Inv(su, w)
    requires a in Run(su, w, calls).released && b in Run(su, w, calls).released
    requires 0 < pub < su.sc.curve.n && a.pk == b.pk == su.sc.curve.x(pub)
    requires su.KeyFor(a.pk).Some? && NoHmacCollision(su, su.KeyFor(a.pk).value, Run(su, w, calls).released)
    requires r == su.PublicRand(su.KeyFor(a.pk).value, a.chain, a.height)
    requires r == su.PublicRand(su.KeyFor(b.pk).value, b.chain, b.height)
    ensures a.msg == b.msg && a.sig == b.sig < su.sc.curve.n
    ensures Extract(su.sc, pub, r, a.msg, a.sig, b.msg, b.sig) == Err(SameSignature)
  {
    NoncesDifferWithoutCollisions(su, su.KeyFor(a.pk).value, Run(su, w, calls).released);
    hide Setup.Valid, NoHmacCollision;
    OneMessagePerHeight(su, w, calls, a, b);
    RunKeepsInv(su, w, calls);
    var sk := ReleaseOrigin(su, Run(su, w, calls), a);
  }

  lemma ToyOrder()
    ensures ToyScheme().curve == ToyCurve() && ToyCurve().n == 5
  {
  }

  lemma OneAsBytes()
    ensures FromBigEndian(ToBigEndian(1, 32)) == 1
  {
    assert Pow256(32) == 256 * Pow256(31);
    BigEndianRoundTrip(1, 32);
  }

  /** The assumptions on the setup can be met: the group of order 5 with an HMAC that always gives 1. */
  lemma SetupCanBeValid() returns (su: Setup)
    ensures su.Valid()
  {
    su := Setup(ToyScheme(), (_, _) => ToBigEndian(1, 32), (_, _, _) => 1, map[], map[]);
    hide ToBigEndian, FromBigEndian, Pow256, Curve.Valid, ToyCurve, RandInput;
    ToyCurveIsValid();
    assert su.sc.curve == ToyCurve() && su.sc.curve.n == 5 by { ToyOrder(); }
    OneAsBytes();
    forall sk, chain, h ensures su.Samples(sk, chain, h) {
      assert su.SampledAt(sk, chain, h, 0);
    }
  }
}
