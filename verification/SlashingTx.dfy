/** The slashing transaction builder against its validator, in int64 arithmetic. */
module SlashingTx {
  import opened Prelude
  import opened BtcTx
  import opened StakingScripts

  const MAX_SATOSHI: int := 2_100_000_000_000_000
  const MAX_TX_IN_SEQUENCE: nat := 0xffff_ffff
  const MAX_PREV_OUT_INDEX: nat := 0xffff_ffff
  const MAX_TX_VERSION: int := 2
  const MAX_STANDARD_TX_WEIGHT: nat := 400_000
  const DEC_ONE: int := 1_000_000_000_000_000_000

  datatype OutPoint = OutPoint(hash: Bytes, index: Uint32)

  datatype TxIn = TxIn(prev: OutPoint, sequence: Uint32, sigScript: Bytes)

  datatype Tx = Tx(version: int, ins: seq<TxIn>, outs: seq<TxOut>, lockTime: Uint32)

  /** Library functions the code relies on: the same rounding of amount times rate, the same dust
      rule and the same hash are used when building and when validating. */
  datatype Btc = Btc(t: Taproot, txHash: Tx -> Bytes, sizeOk: Tx -> bool, weight: Tx -> nat, isDust: TxOut -> bool,
                     mulRate: (Int64, int) -> Int64, zeroHash: Bytes)

  datatype SlashError =
    | AmountNotPositive | InvalidRate | EmptyScript | InsufficientSlashing | InsufficientChange | Dust
    | BadOutputIndex | NotTaproot | NotSane | InputCount | OutputCount | HasLockTime | BadVersion | TooHeavy
    | Replaceable | HasSignatureScript | SlashesTooLittle | WrongSlashingScript | WrongChangeScript
    | ValuesNotPositive | SpendsTooMuch | FeeTooLow | MinFeeNotPositive | WrongHash | WrongIndex

  // ----- the slashing rate -----

  /** The rate is a decimal with 18 digits, held as an integer multiple of 10^-18. */
  predicate IsSlashingRateValid(rate: int) {
    0 < rate < DEC_ONE && rate * 10_000 == (rate * 10_000) / DEC_ONE * DEC_ONE
  }

  /** Valid rates are the multiples of 0.0001 strictly between 0 and 1. */
  lemma SlashingRateMeaning(rate: int)
    ensures IsSlashingRateValid(rate) <==> exists k :: 1 <= k <= 9999 && rate == k * 100_000_000_000_000
  {
    if IsSlashingRateValid(rate) {
      var k := rate * 10_000 / DEC_ONE;
      assert rate * 10_000 == k * DEC_ONE;
      assert 1 <= k <= 9999 && rate == k * 100_000_000_000_000;
    }
  }

  // ----- Bitcoin's own rules -----

  function Sum(outs: seq<TxOut>): int {
    if outs == [] then 0 else Sum(outs[..|outs| - 1]) + outs[|outs| - 1].value
  }

  /** An input that spends nothing, as coinbase inputs do. */
  predicate NullPrev(b: Btc, p: OutPoint) { p.index == MAX_PREV_OUT_INDEX && p.hash == b.zeroHash }

  /** blockchain.CheckTransactionSanity. */
  predicate Sane(b: Btc, tx: Tx) {
    && tx.ins != [] && tx.outs != [] && b.sizeOk(tx)
    && (forall i :: 0 <= i < |tx.outs| ==> 0 <= tx.outs[i].value <= MAX_SATOSHI)
    && Sum(tx.outs) <= MAX_SATOSHI
    && (forall i, j :: 0 <= i < j < |tx.ins| ==> tx.ins[i].prev != tx.ins[j].prev)
    && (if |tx.ins| == 1 && NullPrev(b, tx.ins[0].prev) then 2 <= |tx.ins[0].sigScript| <= 100
        else forall i :: 0 <= i < |tx.ins| ==> !NullPrev(b, tx.ins[i].prev))
  }

  predicate IsOPReturn(script: Bytes) { script != [] && script[0] == OP_RETURN }

  predicate NoDust(b: Btc, outs: seq<TxOut>) {
    forall i :: 0 <= i < |outs| ==> IsOPReturn(outs[i].pkScript) || !b.isDust(outs[i])
  }

  predicate IsPayToTaproot(script: Bytes) { |script| == 34 && script[0] == 0x51 && script[1] == 0x20 }

  /** The output script locking the change to the staker for a number of blocks. */
  function ChangeScript(b: Btc, staker: PublicKey, lockTime: Uint16): Bytes {
    b.t.pkScript([TimeLockScript(staker, lockTime)])
  }

  // ----- building -----

  function BuildFromOutpoint(b: Btc, prev: OutPoint, amount: Int64, fee: Int64, slashingScript: Bytes, changeScript: Bytes,
                             rate: int): Result<Tx, SlashError> {
    if amount <= 0 then Err(AmountNotPositive)
    else if !IsSlashingRateValid(rate) then Err(InvalidRate)
    else if slashingScript == [] then Err(EmptyScript)
    else
      var slashed := b.mulRate(amount, rate);
      if slashed <= 0 then Err(InsufficientSlashing)
      else
        var change := Wrap64(Wrap64(amount - slashed) - fee);
        if change <= 0 then Err(InsufficientChange)
        else
          var outs := [TxOut(slashed, slashingScript), TxOut(change, changeScript)];
          if !NoDust(b, outs) then Err(Dust)
          else Ok(Tx(1, [TxIn(prev, MAX_TX_IN_SEQUENCE, [])], outs, 0))
  }

  function BuildStrict(b: Btc, stakingTx: Tx, idx: Uint32, slashingScript: Bytes, staker: PublicKey, lockTime: Uint16,
                       fee: Int64, rate: int): Result<Tx, SlashError> {
    if idx >= |stakingTx.outs| then Err(BadOutputIndex)
    else if !IsPayToTaproot(stakingTx.outs[idx].pkScript) then Err(NotTaproot)
    else BuildFromOutpoint(b, OutPoint(b.txHash(stakingTx), idx), stakingTx.outs[idx].value, fee, slashingScript,
                           ChangeScript(b, staker, lockTime), rate)
  }

  /** When the strict builder returns a transaction, and every field of it. */
  lemma BuiltIff(b: Btc, stakingTx: Tx, idx: Uint32, slashingScript: Bytes, staker: PublicKey, lockTime: Uint16,
                 fee: Int64, rate: int)
    ensures var r := BuildStrict(b, stakingTx, idx, slashingScript, staker, lockTime, fee, rate);
            && (r.Ok? ==> idx < |stakingTx.outs|)
            && (idx < |stakingTx.outs| ==>
                  var value := stakingTx.outs[idx].value;
                  var slashed := b.mulRate(value, rate);
                  var change := Wrap64(Wrap64(value - slashed) - fee);
                  var changeScript := b.t.pkScript([TimeLockScript(staker, lockTime)]);
                  && (r.Ok? <==>
                      && |stakingTx.outs[idx].pkScript| == 34 && stakingTx.outs[idx].pkScript[..2] == [0x51, 0x20]
                      && value > 0 && IsSlashingRateValid(rate) && slashingScript != [] && slashed > 0 && change > 0
                      && (slashingScript[0] == 0x6a || !b.isDust(TxOut(slashed, slashingScript)))
                      && (changeScript[0] == 0x6a || !b.isDust(TxOut(change, changeScript))))
                  && (r.Ok? ==>
                      && r.value.ins == [TxIn(OutPoint(b.txHash(stakingTx), idx), 0xffff_ffff, [])]
                      && r.value.outs == [TxOut(slashed, slashingScript), TxOut(change, changeScript)]
                      && r.value.version == 1 && r.value.lockTime == 0))
  {
    hide IsSlashingRateValid, Wrap64, NoDust;
    if idx < |stakingTx.outs| {
      var value: int := stakingTx.outs[idx].value;
      var slashed: int := b.mulRate(stakingTx.outs[idx].value, rate);
      NoDustOfTwo(b, TxOut(slashed, slashingScript),
                  TxOut(Wrap64(Wrap64(value - slashed) - fee), b.t.pkScript([TimeLockScript(staker, lockTime)])));
      if |stakingTx.outs[idx].pkScript| == 34 {
        assert stakingTx.outs[idx].pkScript[..2] == [stakingTx.outs[idx].pkScript[0], stakingTx.outs[idx].pkScript[1]];
      }
    }
  }

  lemma NoDustOfTwo(b: Btc, x: TxOut, y: TxOut)
    ensures NoDust(b, [x, y]) <==>
            && ((x.pkScript != [] && x.pkScript[0] == 0x6a) || !b.isDust(x))
            && ((y.pkScript != [] && y.pkScript[0] == 0x6a) || !b.isDust(y))
  {
    assert [x, y][0] == x && [x, y][1] == y;
  }

  // ----- validating -----

  function CheckPreSigned(b: Btc, tx: Tx, numIns: nat, numOuts: nat, minVersion: int, maxVersion: int): Option<SlashError> {
    if !Sane(b, tx) then Some(NotSane)
    else if |tx.ins| != numIns then Some(InputCount)
    else if |tx.outs| != numOuts then Some(OutputCount)
    else if tx.lockTime != 0 then Some(HasLockTime)
    else if tx.version > maxVersion || tx.version < minVersion then Some(BadVersion)
    else if b.weight(tx) > MAX_STANDARD_TX_WEIGHT then Some(TooHeavy)
    else if exists i :: 0 <= i < |tx.ins| && tx.ins[i].sequence != MAX_TX_IN_SEQUENCE then Some(Replaceable)
    else if exists i :: 0 <= i < |tx.ins| && tx.ins[i].sigScript != [] then Some(HasSignatureScript)
    else None
  }

  /** The sum as the loop computes it, wrapping at 64 bits. */
  function WrappedSum(outs: seq<TxOut>): Int64 {
    if outs == [] then 0 else Wrap64(WrappedSum(outs[..|outs| - 1]) + outs[|outs| - 1].value)
  }

  /** What the caller of the validator fixes. */
  datatype Terms = Terms(slashingScript: Bytes, rate: int, minFee: Int64, staker: PublicKey, lockTime: Uint16)

  function Validate(b: Btc, tx: Tx, terms: Terms, stakingValue: Int64): Option<SlashError> {
    var presigned := CheckPreSigned(b, tx, 1, 2, 1, MAX_TX_VERSION);
    if presigned.Some? then presigned
    else if tx.outs[0].value < b.mulRate(stakingValue, terms.rate) then Some(SlashesTooLittle)
    else if tx.outs[0].pkScript != terms.slashingScript then Some(WrongSlashingScript)
    else if tx.outs[1].pkScript != ChangeScript(b, terms.staker, terms.lockTime) then Some(WrongChangeScript)
    else if !NoDust(b, tx.outs) then Some(Dust)
    else if tx.outs[0].value <= 0 || stakingValue <= 0 then Some(ValuesNotPositive)
    else if stakingValue <= WrappedSum(tx.outs) then Some(SpendsTooMuch)
    else if Wrap64(stakingValue - WrappedSum(tx.outs)) < terms.minFee then Some(FeeTooLow)
    else None
  }

  /** None when the slashing transaction matches the funding transaction. */
  function CheckMatch(b: Btc, tx: Tx, funding: Tx, idx: Uint32, terms: Terms): Option<SlashError> {
    if !Sane(b, funding) then Some(NotSane)
    else if terms.minFee <= 0 then Some(MinFeeNotPositive)
    else if !IsSlashingRateValid(terms.rate) then Some(InvalidRate)
    else if idx >= |funding.outs| then Some(BadOutputIndex)
    else
      var err := Validate(b, tx, terms, funding.outs[idx].value);
      if err.Some? then err
      else if tx.ins[0].prev.hash != b.txHash(funding) then Some(WrongHash)
      else if tx.ins[0].prev.index != idx then Some(WrongIndex)
      else None
  }

  /** The validator with its loops. */
  method ValidateSlashingTx(b: Btc, tx: Tx, terms: Terms, stakingValue: Int64) returns (err: Option<SlashError>)
    ensures err == Validate(b, tx, terms, stakingValue)
  {
    err := CheckPreSigned(b, tx, 1, 2, 1, MAX_TX_VERSION);
    if err.Some? { return err; }
    if tx.outs[0].value < b.mulRate(stakingValue, terms.rate) { return Some(SlashesTooLittle); }
    if tx.outs[0].pkScript != terms.slashingScript { return Some(WrongSlashingScript); }
    if tx.outs[1].pkScript != ChangeScript(b, terms.staker, terms.lockTime) { return Some(WrongChangeScript); }
    for i := 0 to |tx.outs|
      invariant NoDust(b, tx.outs[..i])
    {
      if IsOPReturn(tx.outs[i].pkScript) {
        continue;
      }
      if b.isDust(tx.outs[i]) { return Some(Dust); }
    }
    assert tx.outs[..|tx.outs|] == tx.outs;
    if tx.outs[0].value <= 0 || stakingValue <= 0 { return Some(ValuesNotPositive); }
    var sum: Int64 := 0;
    for i := 0 to |tx.outs|
      invariant sum == WrappedSum(tx.outs[..i])
    {
      assert tx.outs[..i + 1][..i] == tx.outs[..i];
      sum := Wrap64(sum + tx.outs[i].value);
    }
    assert tx.outs[..|tx.outs|] == tx.outs;
    if stakingValue <= sum { return Some(SpendsTooMuch); }
    if Wrap64(stakingValue - sum) < terms.minFee { return Some(FeeTooLow); }
    return None;
  }

  // ----- the builder meets the validator -----

  lemma TwoOutputSums(tx: Tx)
    requires |tx.outs| == 2
    ensures Sum(tx.outs) == tx.outs[0].value + tx.outs[1].value
    ensures WrappedSum(tx.outs) == Wrap64(tx.outs[0].value + tx.outs[1].value)
  {
    var outs := tx.outs;
    assert outs[..1][..0] == [] && outs[..1][0] == outs[0];
    assert Sum(outs[..1]) == Sum([]) + outs[0].value;
    assert WrappedSum(outs[..1]) == Wrap64(WrappedSum([]) + outs[0].value);
  }

  /** The change of a sane built transaction is exact: no wrap-around was involved. */
  lemma BuiltAmounts(b: Btc, stakingTx: Tx, idx: Uint32, slashingScript: Bytes, staker: PublicKey, lockTime: Uint16,
                     fee: Int64, rate: int)
    requires BuildStrict(b, stakingTx, idx, slashingScript, staker, lockTime, fee, rate).Ok?
    requires Sane(b, stakingTx) && Sane(b, BuildStrict(b, stakingTx, idx, slashingScript, staker, lockTime, fee, rate).value)
    ensures var tx := BuildStrict(b, stakingTx, idx, slashingScript, staker, lockTime, fee, rate).value;
            stakingTx.outs[idx].value == tx.outs[0].value + tx.outs[1].value + fee
  {
    hide NoDust, ChangeScript, IsSlashingRateValid;
    var tx := BuildStrict(b, stakingTx, idx, slashingScript, staker, lockTime, fee, rate).value;
    var value, slashed := stakingTx.outs[idx].value, tx.outs[0].value;
    assert 0 <= value <= MAX_SATOSHI && 0 <= slashed <= MAX_SATOSHI && 0 <= tx.outs[1].value <= MAX_SATOSHI;
    ExactDifference(value, slashed, fee);
  }

  lemma ExactDifference(value: int, slashed: int, fee: Int64)
    requires 0 <= value <= MAX_SATOSHI && 0 <= slashed <= MAX_SATOSHI
    requires 0 <= Wrap64(Wrap64(value - slashed) - fee) <= MAX_SATOSHI
    ensures Wrap64(Wrap64(value - slashed) - fee) == value - slashed - fee
  {
  }

  /**
   * A transaction the strict builder returns passes the validator for the same parameters if and
   * only if the minimum fee is positive, the fee reaches it, and both transactions keep Bitcoin's
   * own limits.
   */
  lemma BuiltTxPassesValidation(b: Btc, stakingTx: Tx, idx: Uint32, terms: Terms, fee: Int64)
    requires BuildStrict(b, stakingTx, idx, terms.slashingScript, terms.staker, terms.lockTime, fee, terms.rate).Ok?
    ensures var tx := BuildStrict(b, stakingTx, idx, terms.slashingScript, terms.staker, terms.lockTime, fee, terms.rate).value;
            CheckMatch(b, tx, stakingTx, idx, terms).None? <==>
            && 0 < terms.minFee <= fee
            && Sane(b, stakingTx) && Sane(b, tx) && b.weight(tx) <= MAX_STANDARD_TX_WEIGHT
  {
    hide NoDust, ChangeScript, IsSlashingRateValid, IsPayToTaproot;
    var tx := BuildStrict(b, stakingTx, idx, terms.slashingScript, terms.staker, terms.lockTime, fee, terms.rate).value;
    if Sane(b, stakingTx) && Sane(b, tx) {
      BuiltAmounts(b, stakingTx, idx, terms.slashingScript, terms.staker, terms.lockTime, fee, terms.rate);
      TwoOutputSums(tx);
    }
  }

  /** What makes a slashing transaction acceptable: its form, where it pays, and how it splits the value. */
  ghost predicate WellFormedSlashing(b: Btc, tx: Tx, terms: Terms) {
    && Sane(b, tx) && |tx.ins| == 1 && |tx.outs| == 2 && tx.lockTime == 0 && 1 <= tx.version <= 2
    && b.weight(tx) <= 400_000 && tx.ins[0].sequence == 0xffff_ffff && tx.ins[0].sigScript == []
    && tx.outs[0].pkScript == terms.slashingScript
    && tx.outs[1].pkScript == b.t.pkScript([TimeLockScript(terms.staker, terms.lockTime)])
    && (forall i :: 0 <= i < 2 ==> (tx.outs[i].pkScript != [] && tx.outs[i].pkScript[0] == 0x6a) || !b.isDust(tx.outs[i]))
  }

  /**
   * A transaction passes if and only if it is well formed, spends the funding output, and splits
   * its value exactly into at least the rounded slash amount, a change locked to the staker, and a
   * fee of at least the minimum; no 64-bit wrap-around is involved.
   */
  lemma PassingTxSplitsFunding(b: Btc, tx: Tx, funding: Tx, idx: Uint32, terms: Terms)
    ensures CheckMatch(b, tx, funding, idx, terms).None? <==>
            && Sane(b, funding) && idx < |funding.outs| && IsSlashingRateValid(terms.rate)
            && WellFormedSlashing(b, tx, terms)
            && tx.ins[0].prev == OutPoint(b.txHash(funding), idx)
            && var value := funding.outs[idx].value;
               var slashed, change := tx.outs[0].value, tx.outs[1].value;
               && slashed >= b.mulRate(value, terms.rate) && slashed > 0 && change >= 0
               && value - slashed - change >= terms.minFee > 0
  {
    hide IsSlashingRateValid, Wrap64;
    if |tx.outs| == 2 && Sane(b, tx) {
      TwoOutputSums(tx);
      assert 0 <= tx.outs[0].value <= MAX_SATOSHI && 0 <= tx.outs[1].value <= MAX_SATOSHI;
      SumFits(tx.outs[0].value + tx.outs[1].value);
    }
    if idx < |funding.outs| && Sane(b, funding) && |tx.outs| == 2 {
      assert 0 <= funding.outs[idx].value <= MAX_SATOSHI;
      SumFits(funding.outs[idx].value - WrappedSum(tx.outs));
    }
  }

  lemma SumFits(v: int)
    ensures -TWO_63 <= v < TWO_63 ==> Wrap64(v) == v
  {
  }
}
