/**
 * Extractable one-time signatures: the BIP-340 algebra with a caller-chosen nonce. A point is
 * represented by its discrete logarithm modulo the group order, so that k*G is k; what is kept of
 * the curve is that x identifies a point up to its sign and that the two signs differ in parity.
 */
module Eots {
  import opened Prelude
  import opened ModArith

  type XCoord = Bytes32

  /** The group as the scheme sees it: its order, the serialized x coordinate and the parity of the
      y coordinate of a point, and lift_x, the even point with a given x. */
  datatype Curve = Curve(n: nat, x: nat -> XCoord, odd: nat -> bool, liftX: XCoord -> Option<nat>) {
    ghost predicate Valid() {
      && Prime(n) && n > 2
      && !odd(0)
      && (forall d :: 0 < d < n ==> x(Negated(d)) == x(d) && odd(Negated(d)) == !odd(d))
      && (forall d, e :: 0 < d < n && 0 < e < n && x(d) == x(e) ==> e == d || e == Negated(d))
      && (forall v :: liftX(v).Some? ==>
                        0 < liftX(v).value < n && !odd(liftX(v).value) && x(liftX(v).value) == v)
      && (forall d :: 0 < d < n ==> liftX(x(d)).Some?)
    }

    function Negated(d: nat): nat
      requires d <= n
    {
      n - d
    }

    /** Of a point and its negation, the one with even y. */
    function Even(d: nat): (r: nat)
      requires d < n
      ensures r == d || r == n - d
    {
      if odd(d) then n - d else d
    }
  }

  /** The curve together with the hashes: the challenge is a 256-bit number, not yet reduced. */
  datatype Scheme = Scheme(curve: Curve, challenge: (XCoord, XCoord, Bytes) -> nat, hash: Bytes -> Bytes)

  datatype SignError = KeyIsZero | RandFailed | HashTooBig

  datatype VerifyError = NotOnCurve | ChallengeTooBig | RAtInfinity | RYIsOdd | UnequalR

  datatype ExtractError = SameSignature | ChallengeOverflow | KeyMismatch(key: nat)

  // ----- scalars modulo n, mutated in place -----

  class Scalar {
    const n: nat
    var v: nat

    ghost predicate Valid()
      reads this
    {
      v < n
    }

    constructor (n: nat, v: nat)
      requires v < n
      ensures Valid() && this.n == n && this.v == v
    {
      this.n := n;
      this.v := v;
    }

    method Negate()
      requires Valid()
      modifies this
      ensures Valid() && v == NegMod(old(v), n)
    {
      v := NegMod(v, n);
    }

    method Add(a: Scalar)
      requires Valid() && a.Valid() && a.n == n
      modifies this
      ensures Valid() && v == AddMod(old(v), old(a.v), n)
    {
      v := AddMod(v, a.v, n);
    }

    method Add2(a: Scalar, b: Scalar)
      requires a.Valid() && b.Valid() && a.n == b.n == n
      modifies this
      ensures Valid() && v == AddMod(old(a.v), old(b.v), n)
    {
      v := AddMod(a.v, b.v, n);
    }

    method Mul(a: Scalar)
      requires Valid() && a.Valid() && a.n == n
      modifies this
      ensures Valid() && v == MulMod(old(v), old(a.v), n)
    {
      v := MulMod(v, a.v, n);
    }

    method Mul2(a: Scalar, b: Scalar)
      requires a.Valid() && b.Valid() && a.n == b.n == n
      modifies this
      ensures Valid() && v == MulMod(old(a.v), old(b.v), n)
    {
      v := MulMod(a.v, b.v, n);
    }

    method InverseNonConst()
      requires Valid()
      modifies this
      ensures Valid() && v == Inverse(old(v), n)
    {
      v := Inverse(v, n);
    }
  }

  // ----- specification of the three operations -----

  /** ScalarBaseMultWithBlinding: (k+b)*G - b*G. */
  function BlindedBaseMult(k: nat, b: nat, n: nat): (r: nat)
    requires k < n && b < n
    ensures r < n
  {
    AddMod(AddMod(k, b, n), NegMod(b, n), n)
  }

  function SignHash(sc: Scheme, sk: nat, k: nat, hash: Bytes, blinding: Option<nat>): Result<nat, SignError>
    requires sk < sc.curve.n && k < sc.curve.n && (blinding.Some? ==> blinding.value < sc.curve.n)
  {
    var c, n := sc.curve, sc.curve.n;
    if sk == 0 then Err(KeyIsZero)
    else if blinding.None? then Err(RandFailed)
    else
      var bigR := BlindedBaseMult(k, blinding.value, n);
      var e := sc.challenge(c.x(bigR), c.x(sk), hash);
      if e >= n then Err(HashTooBig)
      else
        var d := if c.odd(sk) then NegMod(sk, n) else sk;
        var k' := if c.odd(bigR) then NegMod(k, n) else k;
        Ok(AddMod(MulMod(e, d, n), k', n))
  }

  /** None when the signature verifies. */
  function VerifyHash(sc: Scheme, pk: XCoord, r: XCoord, hash: Bytes, sig: nat): Option<VerifyError>
    requires sig < sc.curve.n
  {
    var c, n := sc.curve, sc.curve.n;
    var lifted := c.liftX(pk);
    if lifted.None? then Some(NotOnCurve)
    else
      var p := lifted.value;
      var e := sc.challenge(r, c.x(p), hash);
      if e >= n then Some(ChallengeTooBig)
      else
        var bigR := AddMod(sig, MulMod(NegMod(e, n), p, n), n);
        if bigR == 0 then Some(RAtInfinity)
        else if c.odd(bigR) then Some(RYIsOdd)
        else if c.x(bigR) != r then Some(UnequalR)
        else None
  }

  /** `pub` is the point of the given public key, of either parity. */
  function ExtractFromHashes(sc: Scheme, pub: nat, r: XCoord, hash1: Bytes, sig1: nat, hash2: Bytes, sig2: nat)
    : Result<nat, ExtractError>
    requires sig1 < sc.curve.n && sig2 < sc.curve.n
  {
    var c, n := sc.curve, sc.curve.n;
    var e1, e2 := sc.challenge(r, c.x(pub), hash1), sc.challenge(r, c.x(pub), hash2);
    if sig1 == sig2 then Err(SameSignature)
    else if e1 >= n || e2 >= n then Err(ChallengeOverflow)
    else
      var x := MulMod(AddMod(sig1, NegMod(sig2, n), n), Inverse(AddMod(e1, NegMod(e2, n), n), n), n);
      var key := if c.odd(pub) then NegMod(x, n) else x;
      if key == pub then Ok(key) else Err(KeyMismatch(key))
  }

  function Sign(sc: Scheme, sk: nat, k: nat, message: Bytes, blinding: Option<nat>): Result<nat, SignError>
    requires sk < sc.curve.n && k < sc.curve.n && (blinding.Some? ==> blinding.value < sc.curve.n)
  {
    SignHash(sc, sk, k, sc.hash(message), blinding)
  }

  function Extract(sc: Scheme, pub: nat, r: XCoord, message1: Bytes, sig1: nat, message2: Bytes, sig2: nat)
    : Result<nat, ExtractError>
    requires sig1 < sc.curve.n && sig2 < sc.curve.n
  {
    ExtractFromHashes(sc, pub, r, sc.hash(message1), sig1, sc.hash(message2), sig2)
  }

  // ----- the operations as written, on mutable scalars -----

  method SignHashInPlace(sc: Scheme, sk: Scalar, privateRand: Scalar, hash: Bytes, blinding: Option<nat>)
    returns (r: Result<nat, SignError>)
    requires sk.Valid() && privateRand.Valid() && sk.n == privateRand.n == sc.curve.n
    requires blinding.Some? ==> blinding.value < sc.curve.n
    ensures r == SignHash(sc, sk.v, privateRand.v, hash, blinding)
    ensures unchanged(sk) && unchanged(privateRand)
  {
    var c, n := sc.curve, sc.curve.n;
    if sk.v == 0 { return Err(KeyIsZero); }
    var priv := new Scalar(n, sk.v);
    var privNegated := new Scalar(n, sk.v);
    privNegated.Negate();
    var isPyOdd := c.odd(sk.v);
    var k := new Scalar(n, privateRand.v);
    if blinding.None? { return Err(RandFailed); }
    var bigR := BlindedBaseMult(k.v, blinding.value, n);
    var kNegated := new Scalar(n, k.v);
    kNegated.Negate();
    var isRyOdd := c.odd(bigR);
    var commitment := sc.challenge(c.x(bigR), c.x(sk.v), hash);
    if commitment >= n { return Err(HashTooBig); }
    var e := new Scalar(n, commitment);
    var sig := new Scalar(n, 0);
    if isPyOdd && isRyOdd {
      sig.Mul2(e, privNegated);
      sig.Add(kNegated);
    } else if isPyOdd {
      sig.Mul2(e, privNegated);
      sig.Add(k);
    } else if isRyOdd {
      sig.Mul2(e, priv);
      sig.Add(kNegated);
    } else {
      sig.Mul2(e, priv);
      sig.Add(k);
    }
    r := Ok(sig.v);
  }

  method VerifyHashInPlace(sc: Scheme, pk: XCoord, r: XCoord, hash: Bytes, sig: Scalar) returns (err: Option<VerifyError>)
    requires sig.Valid() && sig.n == sc.curve.n
    ensures err == VerifyHash(sc, pk, r, hash, sig.v)
    ensures unchanged(sig)
  {
    var c, n := sc.curve, sc.curve.n;
    var pubKey := c.liftX(pk);
    if pubKey.None? { return Some(NotOnCurve); }
    var commitment := sc.challenge(r, c.x(pubKey.value), hash);
    if commitment >= n { return Some(ChallengeTooBig); }
    var e := new Scalar(n, commitment);
    e.Negate();
    var bigR := AddMod(sig.v, MulMod(e.v, pubKey.value, n), n);
    if bigR == 0 { return Some(RAtInfinity); }
    if c.odd(bigR) { return Some(RYIsOdd); }
    if c.x(bigR) != r { return Some(UnequalR); }
    return None;
  }

  /** The caller's sig2 is left negated whenever both challenges are in range. */
  method ExtractFromHashesInPlace(sc: Scheme, pub: nat, r: XCoord, hash1: Bytes, sig1: Scalar, hash2: Bytes, sig2: Scalar)
    returns (key: Result<nat, ExtractError>)
    requires sig1.Valid() && sig2.Valid() && sig1.n == sig2.n == sc.curve.n
    modifies sig2
    ensures key == ExtractFromHashes(sc, pub, r, hash1, old(sig1.v), hash2, old(sig2.v))
    ensures sig2.v == if key.Ok? || key.error.KeyMismatch? then NegMod(old(sig2.v), sig2.n) else old(sig2.v)
    ensures sig1.v == old(sig1.v)
  {
    var c, n := sc.curve, sc.curve.n;
    if sig1.v == sig2.v { return Err(SameSignature); }
    var commitment1 := sc.challenge(r, c.x(pub), hash1);
    if commitment1 >= n { return Err(ChallengeOverflow); }
    var e1 := new Scalar(n, commitment1);
    var commitment2 := sc.challenge(r, c.x(pub), hash2);
    if commitment2 >= n { return Err(ChallengeOverflow); }
    var e2 := new Scalar(n, commitment2);
    var x := new Scalar(n, 0);
    var denom := new Scalar(n, 0);
    e2.Negate();
    denom.Add2(e1, e2);
    sig2.Negate();
    x.Add2(sig1, sig2);
    denom.InverseNonConst();
    x.Mul(denom);
    if c.odd(pub) { x.Negate(); }
    if x.v == pub { return Ok(x.v); }
    return Err(KeyMismatch(x.v));
  }

  // ----- correctness -----

  /** The blinding factor cancels out. */
  lemma BlindingCancels(k: nat, b: nat, n: nat)
    requires k < n && b < n
    ensures BlindedBaseMult(k, b, n) == k
  {
    NegModCongruent(b, n);
    AddModCongruent(k, k, b, b, n);
    AddModCongruent(AddMod(k, b, n), k + b, NegMod(b, n), 0 - b, n);
    ReducedEqual(BlindedBaseMult(k, b, n), k, n);
  }

  /** What verification recomputes: R is s - e*p. */
  lemma VerifiedR(sig: nat, sig': int, e: nat, p: nat, n: nat)
    requires sig < n && e < n && Congruent(sig, sig', n)
    ensures Congruent(AddMod(sig, MulMod(NegMod(e, n), p, n), n), sig' - e * p, n)
  {
    hide Congruent, AddMod, MulMod, NegMod;
    NegModCongruent(e, n);
    CongruentSelf(p, n);
    MulModCongruent(NegMod(e, n), 0 - e, p, p, n);
    assert (0 - e) * p == 0 - e * p;
    AddModCongruent(sig, sig', MulMod(NegMod(e, n), p, n), 0 - e * p, n);
  }

  lemma CongruentSelf(a: int, n: nat)
    requires n > 0
    ensures Congruent(a, a, n)
  {
  }

  lemma LiftOfX(c: Curve, d: nat)
    requires c.Valid() && 0 < d < c.n
    ensures c.liftX(c.x(d)) == Some(c.Even(d))
    ensures c.x(c.Even(d)) == c.x(d) && !c.odd(c.Even(d)) && 0 < c.Even(d) < c.n
  {
    assert c.Negated(d) == c.n - d;
    var e := c.liftX(c.x(d)).value;
    assert c.x(e) == c.x(d);
  }

  /**
   * Whatever the parities of the key and of the nonce point, a signature that Sign returns
   * verifies against the signer's x-only key and public randomness, except for the zero nonce,
   * which Sign does not reject and Verify always does.
   */
  lemma SignedVerifies(sc: Scheme, sk: nat, k: nat, hash: Bytes, blinding: Option<nat>)
    requires sc.curve.Valid()
    requires sk < sc.curve.n && k < sc.curve.n && (blinding.Some? ==> blinding.value < sc.curve.n)
    requires SignHash(sc, sk, k, hash, blinding).Ok?
    ensures var s := SignHash(sc, sk, k, hash, blinding).value;
            s < sc.curve.n &&
            (VerifyHash(sc, sc.curve.x(sk), sc.curve.x(k), hash, s).None? <==> k != 0)
  {
    hide Congruent, AddMod, MulMod;
    var c, n := sc.curve, sc.curve.n;
    BlindingCancels(k, blinding.value, n);
    LiftOfX(c, sk);
    NegModCongruent(sk, n);
    if k != 0 {
      LiftOfX(c, k);
      NegModCongruent(k, n);
    }
    var d, e := c.Even(sk), sc.challenge(c.x(k), c.x(sk), hash);
    var k' := if c.odd(k) then NegMod(k, n) else k;
    SignedR(e, d, k', n);
  }

  /** When Sign returns a signature, and the reason when it does not. */
  lemma SignSucceedsIff(sc: Scheme, sk: nat, k: nat, hash: Bytes, blinding: Option<nat>)
    requires sk < sc.curve.n && k < sc.curve.n && (blinding.Some? ==> blinding.value < sc.curve.n)
    ensures var inRange := sc.challenge(sc.curve.x(k), sc.curve.x(sk), hash) < sc.curve.n;
            var s := SignHash(sc, sk, k, hash, blinding);
            && (s.Ok? <==> sk != 0 && blinding.Some? && inRange)
            && (sk == 0 ==> s == Err(KeyIsZero))
            && (sk != 0 && blinding.None? ==> s == Err(RandFailed))
            && (sk != 0 && blinding.Some? && !inRange ==> s == Err(HashTooBig))
  {
    if blinding.Some? { BlindingCancels(k, blinding.value, sc.curve.n); }
  }

  /** Subtracting e*d from the signature leaves the nonce. */
  lemma SignedR(e: nat, d: nat, k: nat, n: nat)
    requires e < n && d < n && k < n
    ensures var s := AddMod(MulMod(e, d, n), k, n);
            AddMod(s, MulMod(NegMod(e, n), d, n), n) == k
  {
    hide Congruent, AddMod, MulMod, NegMod;
    var s := AddMod(MulMod(e, d, n), k, n);
    CongruentSelf(e, n);
    CongruentSelf(d, n);
    CongruentSelf(k, n);
    MulModCongruent(e, e, d, d, n);
    AddModCongruent(MulMod(e, d, n), e * d, k, k, n);
    VerifiedR(s, e * d + k, e, d, n);
    ReducedEqual(AddMod(s, MulMod(NegMod(e, n), d, n), n), k, n);
  }

  /** The signature does not depend on the blinding factor. */
  lemma BlindingIsIrrelevant(sc: Scheme, sk: nat, k: nat, message: Bytes, b: nat)
    requires sk < sc.curve.n && k < sc.curve.n && b < sc.curve.n
    ensures Sign(sc, sk, k, message, Some(b)) == Sign(sc, sk, k, message, Some(0))
  {
    BlindingCancels(k, b, sc.curve.n);
    BlindingCancels(k, 0, sc.curve.n);
  }

  /** The even point a verifying signature commits to, and the equation it satisfies. */
  lemma VerifyEquation(sc: Scheme, pk: XCoord, r: XCoord, hash: Bytes, sig: nat) returns (p: nat, e: nat)
    requires sc.curve.Valid() && sig < sc.curve.n
    requires VerifyHash(sc, pk, r, hash, sig).None?
    ensures sc.curve.liftX(pk) == Some(p) && e == sc.challenge(r, pk, hash) < sc.curve.n
    ensures sc.curve.liftX(r).Some? && Congruent(sc.curve.liftX(r).value, sig - e * p, sc.curve.n)
  {
    var c, n := sc.curve, sc.curve.n;
    p := c.liftX(pk).value;
    e := sc.challenge(r, pk, hash);
    VerifiedR(sig, sig, e, p, n);
    var bigR := AddMod(sig, MulMod(NegMod(e, n), p, n), n);
    LiftOfX(c, bigR);
  }

  /** A signature verifies exactly when it is R + e*P for the even points of the randomness and the key. */
  lemma VerifiesIff(sc: Scheme, pk: XCoord, r: XCoord, hash: Bytes, sig: nat)
    requires sc.curve.Valid() && sig < sc.curve.n
    ensures var c, e := sc.curve, sc.challenge(r, pk, hash);
            VerifyHash(sc, pk, r, hash, sig).None? <==>
            && c.liftX(pk).Some? && c.liftX(r).Some? && e < c.n
            && Congruent(c.liftX(r).value, sig - e * c.liftX(pk).value, c.n)
  {
    var c, n, e := sc.curve, sc.curve.n, sc.challenge(r, pk, hash);
    if VerifyHash(sc, pk, r, hash, sig).None? {
      var _, _ := VerifyEquation(sc, pk, r, hash, sig);
    } else if c.liftX(pk).Some? && c.liftX(r).Some? && e < n && Congruent(c.liftX(r).value, sig - e * c.liftX(pk).value, n) {
      var p, bigR := c.liftX(pk).value, c.liftX(r).value;
      VerifiedR(sig, sig, e, p, n);
      hide Congruent, AddMod, MulMod, NegMod;
      var got := AddMod(sig, MulMod(NegMod(e, n), p, n), n);
      CongruentSymmetric(bigR, sig - e * p, n);
      CongruentTransitive(got, sig - e * p, bigR, n);
      ReducedEqual(got, bigR, n);
    }
  }

  /** (s1 - s2) / (e1 - e2) solves s1 - e1*p = s2 - e2*p. */
  lemma SolveForKey(p: nat, e1: nat, s1: nat, e2: nat, s2: nat, n: nat)
    requires Prime(n) && p < n && e1 < n && s1 < n && e2 < n && s2 < n
    requires Congruent(s1 - e1 * p, s2 - e2 * p, n) && e1 != e2
    ensures MulMod(AddMod(s1, NegMod(s2, n), n), Inverse(AddMod(e1, NegMod(e2, n), n), n), n) == p
  {
    hide Congruent, AddMod, MulMod, NegMod, Inverse;
    var num, den := AddMod(s1, NegMod(s2, n), n), AddMod(e1, NegMod(e2, n), n);
    var i := Inverse(den, n);
    DifferenceCongruent(s1, s2, n);
    DifferenceCongruent(e1, e2, n);
    DifferenceEquation(p, e1, s1, e2, s2, n);
    CongruentSelf(p, n);
    CongruentSelf(i, n);
    CongruentMul(e1 - e2, den, p, p, n) by { CongruentSymmetric(den, e1 - e2, n); }
    CongruentTransitive(num, s1 - s2, (e1 - e2) * p, n);
    CongruentTransitive(num, (e1 - e2) * p, den * p, n);
    MulModCongruent(num, den * p, i, i, n);
    assert (den * p) * i == (den * i) * p;
    InverseCorrect(den, n);
    CongruentMul(den * i, 1, p, p, n);
    CongruentTransitive(MulMod(num, i, n), (den * i) * p, p, n);
    ReducedEqual(MulMod(num, i, n), p, n);
  }

  lemma DifferenceEquation(p: nat, e1: nat, s1: nat, e2: nat, s2: nat, n: nat)
    requires n > 0 && Congruent(s1 - e1 * p, s2 - e2 * p, n)
    ensures Congruent(s1 - s2, (e1 - e2) * p, n)
  {
    hide Congruent;
    CongruentSelf(e1 * p - s2, n);
    CongruentAdd(s1 - e1 * p, s2 - e2 * p, e1 * p - s2, e1 * p - s2, n);
    assert (e1 - e2) * p == e1 * p - e2 * p;
  }

  lemma CongruentSymmetric(a: int, b: int, n: nat)
    requires n > 0 && Congruent(a, b, n)
    ensures Congruent(b, a, n)
  {
  }

  /**
   * Extraction is complete: for any two signatures that verify under the same public key and the
   * same public randomness, however they were made, Extract returns the private key of exactly the
   * given point, even or odd, if and only if the two challenges differ.
   */
  lemma ExtractComplete(sc: Scheme, pub: nat, r: XCoord, hash1: Bytes, sig1: nat, hash2: Bytes, sig2: nat)
    requires sc.curve.Valid() && 0 < pub < sc.curve.n && sig1 < sc.curve.n && sig2 < sc.curve.n
    requires VerifyHash(sc, sc.curve.x(pub), r, hash1, sig1).None?
    requires VerifyHash(sc, sc.curve.x(pub), r, hash2, sig2).None?
    ensures var pk := sc.curve.x(pub);
            ExtractFromHashes(sc, pub, r, hash1, sig1, hash2, sig2) ==
            if sc.challenge(r, pk, hash1) != sc.challenge(r, pk, hash2) then Ok(pub) else Err(SameSignature)
  {
    hide VerifyHash, ExtractFromHashes, Congruent, Curve.Valid;
    var c, n := sc.curve, sc.curve.n;
    var p, e1 := VerifyEquation(sc, c.x(pub), r, hash1, sig1);
    var _, e2 := VerifyEquation(sc, c.x(pub), r, hash2, sig2);
    CongruentSymmetric(c.liftX(r).value, sig1 - e1 * p, n);
    CongruentTransitive(sig1 - e1 * p, c.liftX(r).value, sig2 - e2 * p, n);
    ExtractFromEquations(sc, pub, r, hash1, sig1, hash2, sig2, e1, e2);
  }

  lemma ExtractFromEquations(sc: Scheme, pub: nat, r: XCoord, hash1: Bytes, sig1: nat, hash2: Bytes, sig2: nat, e1: nat, e2: nat)
    requires sc.curve.Valid() && 0 < pub < sc.curve.n && sig1 < sc.curve.n && sig2 < sc.curve.n
    requires e1 == sc.challenge(r, sc.curve.x(pub), hash1) < sc.curve.n
    requires e2 == sc.challenge(r, sc.curve.x(pub), hash2) < sc.curve.n
    requires sc.curve.liftX(sc.curve.x(pub)).Some?
    requires Congruent(sig1 - e1 * sc.curve.liftX(sc.curve.x(pub)).value, sig2 - e2 * sc.curve.liftX(sc.curve.x(pub)).value,
                       sc.curve.n)
    ensures ExtractFromHashes(sc, pub, r, hash1, sig1, hash2, sig2) == if e1 != e2 then Ok(pub) else Err(SameSignature)
  {
    var c, n := sc.curve, sc.curve.n;
    var p := c.Even(pub);
    RepresentativeOf(c, pub);
    assert Prime(n);
    hide AddMod, MulMod, NegMod, Inverse, Congruent, Curve.Valid, Prime, Curve.Even;
    if e1 == e2 {
      CongruentSelf(e1 * p, n);
      CongruentAdd(sig1 - e1 * p, sig2 - e2 * p, e1 * p, e1 * p, n);
      ReducedEqual(sig1, sig2, n);
    } else {
      SolveForKey(p, e1, sig1, e2, sig2, n);
      SignaturesDiffer(p, e1, sig1, e2, sig2, n);
    }
  }

  /** Whatever the signatures, Extract returns no key but that of the given point, and each error has its cause. */
  lemma ExtractSound(sc: Scheme, pub: nat, r: XCoord, hash1: Bytes, sig1: nat, hash2: Bytes, sig2: nat)
    requires sig1 < sc.curve.n && sig2 < sc.curve.n
    ensures var key, pk := ExtractFromHashes(sc, pub, r, hash1, sig1, hash2, sig2), sc.curve.x(pub);
            var inRange := sc.challenge(r, pk, hash1) < sc.curve.n && sc.challenge(r, pk, hash2) < sc.curve.n;
            && (key.Ok? ==> key.value == pub)
            && (key == Err(SameSignature) <==> sig1 == sig2)
            && (key == Err(ChallengeOverflow) <==> sig1 != sig2 && !inRange)
            && (key.Err? && key.error.KeyMismatch? ==> sig1 != sig2 && inRange && key.error.key != pub)
  {
    hide AddMod, MulMod, NegMod, Inverse;
  }

  /** Undoing the parity adjustment gives back the point itself. */
  lemma RepresentativeOf(c: Curve, d: nat)
    requires c.Valid() && 0 < d < c.n
    ensures c.liftX(c.x(d)) == Some(c.Even(d)) && 0 < c.Even(d) < c.n
    ensures (if c.odd(d) then NegMod(c.Even(d), c.n) else c.Even(d)) == d
  {
    LiftOfX(c, d);
    NegModCongruent(c.Even(d), c.n);
  }

  lemma SignaturesDiffer(p: nat, e1: nat, s1: nat, e2: nat, s2: nat, n: nat)
    requires Prime(n) && 0 < p < n && e1 < n && s1 < n && e2 < n && s2 < n
    requires Congruent(s1 - e1 * p, s2 - e2 * p, n) && e1 != e2
    ensures s1 != s2
  {
    hide AddMod, MulMod, NegMod;
    var den := AddMod(e1, NegMod(e2, n), n);
    DifferenceCongruent(e1, e2, n);
    DifferenceEquation(p, e1, s1, e2, s2, n);
    NoZeroDivisors(den, p, n);
    CongruentMul(den, e1 - e2, p, p, n);
  }

  /** The assumptions on the curve are met by a group of order 5. */
  lemma ToyCurveIsValid()
    ensures ToyCurve().Valid()
  {
    var c := ToyCurve();
    assert Prime(5) by {
      forall d | 1 < d < 5 ensures !Divides(d, 5) {
        assert d == 2 || d == 3 || d == 4;
      }
    }
    forall d | 0 < d < 5 ensures c.x(c.Negated(d)) == c.x(d) && c.odd(c.Negated(d)) == !c.odd(d) && c.liftX(c.x(d)).Some? {
      assert c.Negated(d) == 5 - d;
    }
  }

  /** Sign accepts the zero nonce and Verify rejects what it returns. */
  lemma ZeroNonceSignatureIsRejected()
    ensures var s := SignHash(ToyScheme(), 1, 0, [], Some(0));
            s.Ok? && s.value < 5 && VerifyHash(ToyScheme(), ToyX(1), ToyX(0), [], s.value).Some?
  {
    hide Curve.Valid, ToyX, VerifyHash;
    assert SignHash(ToyScheme(), 1, 0, [], Some(0)).Ok?;
    ToyCurveIsValid();
    SignedVerifies(ToyScheme(), 1, 0, [], Some(0));
  }

  function ToyScheme(): Scheme { Scheme(ToyCurve(), (r, p, m) => 1, m => m) }

  function ToyCurve(): Curve {
    Curve(5, ToyX, d => 2 < d < 5, v => if 0 < v[31] <= 2 && v == ToyX(v[31]) then Some(v[31]) else None)
  }

  function ToyX(d: nat): XCoord {
    seq(31, _ => 0) + [if d <= 2 then d else if d < 5 then 5 - d else 0]
  }
}
