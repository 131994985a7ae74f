/** The two-thirds multi-signature check, and what two conflicting checkpoints prove. */
module ForkEvidence {
  import opened Prelude
  import ModArith

  datatype Validator = Validator(blsKey: Bytes, power: Uint64)

  datatype RawCheckpoint = RawCheckpoint(epoch: Uint64, blockHash: Bytes, bitMap: Bytes, multiSig: Bytes)

  datatype EpochInfo = EpochInfo(epoch: nat, vals: seq<Validator>)

  /** Why the chain's own checkpoint is not available. */
  datatype QueryError = QueryFailed | ParseFailed

  datatype VerifyError =
    | InvalidEpochNum | InsufficientPower | InvalidMultiSig | NotQueried(e: QueryError) | InconsistentBlockHash

  // ----- bitmaps -----

  function Pow2(n: nat): nat { if n == 0 then 1 else 2 * Pow2(n - 1) }

  lemma Pow2Positive(n: nat)
    ensures Pow2(n) > 0
  {
  }

  /** Bit i of a bitmap, least significant bit of each byte first. */
  predicate Bit(bm: Bytes, i: nat) {
    Pow2Positive(i % 8);
    i / 8 < |bm| && bm[i / 8] / Pow2(i % 8) % 2 == 1
  }

  /** What bits i to 7 of byte m are worth, bit i counting 2^i. */
  function BitsValue(bm: Bytes, m: nat, i: nat): nat
    decreases 8 - i
  {
    if i >= 8 then 0 else (if Bit(bm, m * 8 + i) then Pow2(i) else 0) + BitsValue(bm, m, i + 1)
  }

  /** A byte is the sum of what its bits are worth. */
  lemma ByteIsSumOfBits(bm: Bytes, m: nat)
    requires m < |bm|
    ensures BitsValue(bm, m, 0) == bm[m]
  {
    Pow2Positive(0);
    HighBits(bm, m, 0);
  }

  lemma {:induction false} HighBits(bm: Bytes, m: nat, i: nat)
    requires m < |bm| && i <= 8 && Pow2(i) > 0
    ensures BitsValue(bm, m, i) == bm[m] - bm[m] % Pow2(i)
    decreases 8 - i
  {
    if i == 8 {
      assert Pow2(3) == 8 && Pow2(6) == 64 && Pow2(8) == 256;
    } else {
      Pow2Positive(i + 1);
      HighBits(bm, m, i + 1);
      ModDouble(bm[m], Pow2(i));
      assert (m * 8 + i) / 8 == m && (m * 8 + i) % 8 == i;
    }
  }

  lemma ModDouble(b: nat, p: nat)
    requires p > 0
    ensures b % (2 * p) == b % p + if b / p % 2 == 1 then p else 0
  {
    var q, r := b / p, b % p;
    var h, d := q / 2, q % 2;
    assert q * p == h * (2 * p) + d * p;
    ModArith.DivModUnique(b, h, d * p + r, 2 * p);
  }

  /** The positions whose bit is set. */
  function Signers(bm: Bytes): set<nat> { set i: nat | i < |bm| * 8 && Bit(bm, i) }

  lemma SignerBit(bm: Bytes, i: nat)
    requires i < |bm| * 8
    ensures i in Signers(bm) <==> Bit(bm, i)
  {
  }

  /** The exact power of the validators at some positions. */
  function Power(vals: seq<Validator>, at: set<nat>): nat {
    if vals == [] then 0
    else Power(vals[..|vals| - 1], at) + if |vals| - 1 in at then vals[|vals| - 1].power else 0
  }

  function Keys(vals: seq<Validator>, at: set<nat>): seq<Bytes> {
    if vals == [] then []
    else Keys(vals[..|vals| - 1], at) + if |vals| - 1 in at then [vals[|vals| - 1].blsKey] else []
  }

  function TotalPower(vals: seq<Validator>): nat {
    if vals == [] then 0 else TotalPower(vals[..|vals| - 1]) + vals[|vals| - 1].power
  }

  // ----- as computed, in 64-bit arithmetic -----

  method FindSubsetWithPowerSum(vals: seq<Validator>, bm: Bytes) returns (keys: seq<Bytes>, sum: Uint64, ok: bool)
    ensures ok <==> |bm| * 8 >= |vals|
    ensures !ok ==> keys == [] && sum == 0
    ensures ok ==> sum == Power(vals, Signers(bm)) % TWO_64 && keys == Keys(vals, Signers(bm))
  {
    hide Bit, Signers;
    keys, sum := [], 0;
    if |bm| * 8 < |vals| { return [], 0, false; }
    for i := 0 to |vals|
      invariant sum == Power(vals[..i], Signers(bm)) % TWO_64
      invariant keys == Keys(vals[..i], Signers(bm))
    {
      assert vals[..i + 1][..i] == vals[..i];
      SignerBit(bm, i);
      if Bit(bm, i) {
        keys := keys + [vals[i].blsKey];
        sum := (sum + vals[i].power) % TWO_64;
      }
    }
    assert vals[..|vals|] == vals;
    return keys, sum, true;
  }

  method GetTotalPower(vals: seq<Validator>) returns (total: Uint64)
    ensures total == TotalPower(vals) % TWO_64
  {
    total := 0;
    for i := 0 to |vals|
      invariant total == TotalPower(vals[..i]) % TWO_64
    {
      assert vals[..i + 1][..i] == vals[..i];
      total := (total + vals[i].power) % TWO_64;
    }
    assert vals[..|vals|] == vals;
  }

  /** Aggregate BLS verification of a checkpoint under a list of keys. */
  type BlsCheck = (RawCheckpoint, seq<Bytes>) -> bool

  /** None when the checkpoint carries a valid multi-signature of enough power. */
  function VerifyMultiSig(bls: BlsCheck, ei: EpochInfo, c: RawCheckpoint): Option<VerifyError> {
    var fits := |c.bitMap| * 8 >= |ei.vals|;
    var sum := if fits then Power(ei.vals, Signers(c.bitMap)) % TWO_64 else 0;
    if sum * 3 % TWO_64 <= TotalPower(ei.vals) % TWO_64 * 2 % TWO_64 then Some(InsufficientPower)
    else if !fits then Some(InvalidMultiSig)
    else if !bls(c, Keys(ei.vals, Signers(c.bitMap))) then Some(InvalidMultiSig)
    else None
  }

  method VerifyMultiSigAsWritten(bls: BlsCheck, ei: EpochInfo, c: RawCheckpoint) returns (err: Option<VerifyError>)
    ensures err == VerifyMultiSig(bls, ei, c)
  {
    var keys, sum, ok := FindSubsetWithPowerSum(ei.vals, c.bitMap);
    var total := GetTotalPower(ei.vals);
    if sum * 3 % TWO_64 <= total * 2 % TWO_64 { return Some(InsufficientPower); }
    if !ok { return Some(InvalidMultiSig); }
    if !bls(c, keys) { return Some(InvalidMultiSig); }
    return None;
  }

  /** Verification of a BTC checkpoint against the one queried from the chain. */
  function VerifyCheckpoint(bls: BlsCheck, ei: EpochInfo, btc: RawCheckpoint, queried: Result<RawCheckpoint, QueryError>)
    : Option<VerifyError>
  {
    if ei.epoch != btc.epoch then Some(InvalidEpochNum)
    else
      var btcErr := VerifyMultiSig(bls, ei, btc);
      if btcErr.Some? then btcErr
      else if queried.Err? then Some(NotQueried(queried.error))
      else
        var err := VerifyMultiSig(bls, ei, queried.value);
        if err.Some? then err
        else if queried.value.blockHash != btc.blockHash then Some(InconsistentBlockHash)
        else None
  }

  /** A checkpoint passes, or is reported as a fork, in exactly these situations. */
  lemma VerifyCheckpointIff(bls: BlsCheck, ei: EpochInfo, btc: RawCheckpoint, queried: Result<RawCheckpoint, QueryError>)
    ensures var err := VerifyCheckpoint(bls, ei, btc, queried);
            var bothSigned := && ei.epoch == btc.epoch && queried.Ok?
                              && VerifyMultiSig(bls, ei, btc).None? && VerifyMultiSig(bls, ei, queried.value).None?;
            && (err.None? <==> bothSigned && queried.value.blockHash == btc.blockHash)
            && (err == Some(InconsistentBlockHash) <==> bothSigned && queried.value.blockHash != btc.blockHash)
            && (err == Some(InvalidEpochNum) <==> ei.epoch != btc.epoch)
  {
    hide VerifyMultiSig;
    MultiSigErrors(bls, ei, btc);
    if queried.Ok? { MultiSigErrors(bls, ei, queried.value); }
  }

  lemma MultiSigErrors(bls: BlsCheck, ei: EpochInfo, c: RawCheckpoint)
    ensures VerifyMultiSig(bls, ei, c) in {None, Some(InsufficientPower), Some(InvalidMultiSig)}
  {
  }

  // ----- quorum intersection -----

  /** Inclusion and exclusion over positions. */
  lemma {:induction false} InclusionExclusion(vals: seq<Validator>, a: set<nat>, b: set<nat>)
    ensures Power(vals, a) + Power(vals, b) == Power(vals, a * b) + Power(vals, a + b)
    ensures Power(vals, a) <= TotalPower(vals)
  {
    if vals != [] {
      InclusionExclusion(vals[..|vals| - 1], a, b);
    }
  }

  /** The signers of a checkpoint hold more than two thirds of the epoch's power. */
  ghost predicate TwoThirdsSigned(ei: EpochInfo, c: RawCheckpoint) {
    |c.bitMap| * 8 >= |ei.vals| && Power(ei.vals, Signers(c.bitMap)) * 3 > TotalPower(ei.vals) * 2
  }

  /**
   * Truncating three times the signed power and twice the total power to 64 bits keeps their order:
   * both lose the same multiple of 2^64, or their difference exceeds the difference in what they lose.
   */
  predicate WrapHarmless(power: nat, total: nat) {
    var a, b := power * 3 / TWO_64, total * 2 / TWO_64;
    || a == b
    || (a > b && power * 3 - total * 2 > (a - b) * TWO_64)
    || (a < b && total * 2 - power * 3 >= (b - a) * TWO_64)
  }

  /**
   * The power test is the two-thirds rule if and only if the wrap-around is harmless, and then
   * passing means a valid signature of more than two thirds.
   */
  lemma PassingMeansTwoThirds(bls: BlsCheck, ei: EpochInfo, c: RawCheckpoint)
    ensures var harmless := |c.bitMap| * 8 >= |ei.vals| ==> WrapHarmless(Power(ei.vals, Signers(c.bitMap)), TotalPower(ei.vals));
            && (harmless <==>
                (VerifyMultiSig(bls, ei, c) == Some(InsufficientPower) <==> !TwoThirdsSigned(ei, c)))
            && (harmless ==>
                (VerifyMultiSig(bls, ei, c).None? <==>
                 TwoThirdsSigned(ei, c) && bls(c, Keys(ei.vals, Signers(c.bitMap)))))
  {
    hide Power, TotalPower, Signers, Keys;
    var power, total := Power(ei.vals, Signers(c.bitMap)), TotalPower(ei.vals);
    WrapOfMultiple(power, 3);
    WrapOfMultiple(total, 2);
    WrapKeepsOrder(power * 3, total * 2);
    hide WrapHarmless;
  }

  lemma WrapOfMultiple(v: nat, k: nat)
    requires 2 <= k <= 3
    ensures v % TWO_64 * k % TWO_64 == v * k % TWO_64
  {
    var q, r := v / TWO_64, v % TWO_64;
    assert v * k == r * k + (q * k) * TWO_64;
    MultiplesVanish(r * k, q * k);
  }

  lemma {:induction false} MultiplesVanish(v: nat, q: nat)
    ensures (v + q * TWO_64) % TWO_64 == v % TWO_64
    decreases q
  {
    if q > 0 { MultiplesVanish(v + TWO_64, q - 1); }
  }

  /** Comparing remainders agrees with comparing the numbers in exactly three situations. */
  lemma WrapKeepsOrder(x: nat, y: nat)
    ensures var a, b := x / TWO_64, y / TWO_64;
            (x % TWO_64 > y % TWO_64 <==> x > y) <==>
            || a == b
            || (a > b && x - y > (a - b) * TWO_64)
            || (a < b && y - x >= (b - a) * TWO_64)
  {
  }

  /** For a total that itself fits, only a threshold that wraps alone, over a small enough power, is harmless. */
  lemma HarmlessForFittingTotal(power: nat, total: nat)
    requires power <= total < TWO_64
    ensures WrapHarmless(power, total) <==>
            || power * 3 / TWO_64 == total * 2 / TWO_64
            || (power * 3 < TWO_64 <= total * 2 && power * 3 + TWO_64 <= total * 2)
    ensures total * 3 < TWO_64 ==> WrapHarmless(power, total)
  {
  }

  /**
   * Conflicting checkpoints are evidence: if verification reports an inconsistent block hash, the
   * validators who signed both checkpoints hold more than one third of the epoch's power.
   */
  lemma ForkNeedsOneThird(bls: BlsCheck, ei: EpochInfo, btc: RawCheckpoint, queried: Result<RawCheckpoint, QueryError>)
    requires VerifyCheckpoint(bls, ei, btc, queried) == Some(InconsistentBlockHash)
    requires WrapHarmless(Power(ei.vals, Signers(btc.bitMap)), TotalPower(ei.vals))
    requires queried.Ok? ==> WrapHarmless(Power(ei.vals, Signers(queried.value.bitMap)), TotalPower(ei.vals))
    ensures queried.Ok? && btc.blockHash != queried.value.blockHash
    ensures Power(ei.vals, Signers(btc.bitMap) * Signers(queried.value.bitMap)) * 3 > TotalPower(ei.vals)
  {
    hide Power, TotalPower, Signers, WrapHarmless;
    var a, b := Signers(btc.bitMap), Signers(queried.value.bitMap);
    PassingMeansTwoThirds(bls, ei, btc);
    PassingMeansTwoThirds(bls, ei, queried.value);
    InclusionExclusion(ei.vals, a, b);
    InclusionExclusion(ei.vals, a + b, {});
  }

  /** A bitmap too short for the validator set always reads as insufficient power. */
  lemma ShortBitmapIsInsufficient(bls: BlsCheck, ei: EpochInfo, c: RawCheckpoint)
    requires |c.bitMap| * 8 < |ei.vals|
    ensures VerifyMultiSig(bls, ei, c) == Some(InsufficientPower)
  {
  }

  /** With a total of 2^63 the threshold wraps to 0, and one unit of power passes the check. */
  lemma WrappedThresholdAcceptsAMinority()
    ensures var vals := [Validator([], 1), Validator([], 0x7fff_ffff_ffff_ffff)];
            VerifyMultiSig((c, keys) => true, EpochInfo(0, vals), RawCheckpoint(0, [], [1], [])).None? &&
            Power(vals, Signers([1])) * 3 <= TotalPower(vals) * 2
  {
    var vals := [Validator([], 1), Validator([], 0x7fff_ffff_ffff_ffff)];
    assert Bit([1], 0) && !Bit([1], 1);
    assert 0 in Signers([1]) && 1 !in Signers([1]);
    assert vals[..1] == [vals[0]] && vals[..1][..0] == [];
    assert Power(vals[..1], Signers([1])) == Power([], Signers([1])) + 1;
    assert TotalPower(vals[..1]) == TotalPower([]) + 1;
  }

  lemma {:induction false} EveryoneHasTotalPower(vals: seq<Validator>, at: set<nat>)
    requires forall i :: 0 <= i < |vals| ==> i in at
    ensures Power(vals, at) == TotalPower(vals)
  {
    if vals != [] { EveryoneHasTotalPower(vals[..|vals| - 1], at); }
  }

  /** When three times the total wraps and twice the total does not, even everybody's signature is rejected. */
  lemma EveryonesSignatureIsRejected(bls: BlsCheck, ei: EpochInfo, c: RawCheckpoint)
    requires TotalPower(ei.vals) * 2 < TWO_64 <= TotalPower(ei.vals) * 3
    requires |c.bitMap| * 8 >= |ei.vals| && forall i :: 0 <= i < |ei.vals| ==> i in Signers(c.bitMap)
    ensures VerifyMultiSig(bls, ei, c) == Some(InsufficientPower) && TwoThirdsSigned(ei, c)
  {
    hide Signers;
    EveryoneHasTotalPower(ei.vals, Signers(c.bitMap));
    hide Power, TotalPower;
    PassingMeansTwoThirds(bls, ei, c);
    HarmlessForFittingTotal(TotalPower(ei.vals), TotalPower(ei.vals));
  }

  /** One such epoch: a single validator with a power of 2^63 - 1. */
  lemma OnlyValidatorIsRejected()
    ensures var ei := EpochInfo(0, [Validator([], 0x7fff_ffff_ffff_ffff)]);
            var c := RawCheckpoint(0, [], [1], []);
            VerifyMultiSig((c, keys) => true, ei, c) == Some(InsufficientPower) && TwoThirdsSigned(ei, c)
  {
    var ei := EpochInfo(0, [Validator([], 0x7fff_ffff_ffff_ffff)]);
    assert Bit([1], 0) && 0 in Signers([1]);
    assert ei.vals[..0] == [];
    assert TotalPower(ei.vals) == TotalPower([]) + 0x7fff_ffff_ffff_ffff;
    EveryonesSignatureIsRejected((c, keys) => true, ei, RawCheckpoint(0, [], [1], []));
  }
}
