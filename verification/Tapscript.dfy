/**
 * The fragment of tapscript that staking scripts use, executed on script bytes and a stack of byte
 * strings (the sections "Specification" and "Rules for signature opcodes" of BIP-342, and the
 * section "Specification" of BIP-112). An opcode outside the fragment makes execution fail.
 */
module Tapscript {
  import opened Prelude

  const OP_0: Byte := 0x00
  const OP_DATA_32: Byte := 0x20
  const OP_DATA_75: Byte := 0x4b
  const OP_1: Byte := 0x51
  const OP_16: Byte := 0x60
  const OP_NUMEQUAL: Byte := 0x9c
  const OP_NUMEQUALVERIFY: Byte := 0x9d
  const OP_CHECKSIG: Byte := 0xac
  const OP_CHECKSIGVERIFY: Byte := 0xad
  const OP_CHECKSEQUENCEVERIFY: Byte := 0xb2
  const OP_CHECKSIGADD: Byte := 0xba

  const MAX_STACK_SIZE: nat := 1000
  const SEQUENCE_LOCKTIME_DISABLE: nat := 0x8000_0000
  const SEQUENCE_LOCKTIME_TYPE: nat := 0x40_0000

  /** What the script can observe: signature validity for the spending transaction, its version
      and the sequence of the spending input. */
  datatype Env = Env(validSig: (Bytes, Bytes) -> bool, txVersion: Uint32, sequence: Uint32)

  type Stack = seq<Bytes>

  // ----- script numbers -----

  function LittleEndian(n: nat): (r: Bytes)
    ensures r == [] <==> n == 0
  {
    if n == 0 then [] else [n % 256] + LittleEndian(n / 256)
  }

  function LittleEndianValue(b: Bytes): nat {
    if b == [] then 0 else b[0] + 256 * LittleEndianValue(b[1..])
  }

  function EncodeNum(n: int): Bytes {
    var m := LittleEndian(if n < 0 then -n else n);
    var k := |m| - 1;
    if m == [] then []
    else if m[k] >= 0x80 then m + [if n < 0 then 0x80 else 0]
    else if n < 0 then m[k := m[k] + 0x80]
    else m
  }

  function DecodeNum(b: Bytes): int {
    var k := |b| - 1;
    if b == [] then 0
    else if b[k] >= 0x80 then 0 - LittleEndianValue(b[k := b[k] - 0x80])
    else LittleEndianValue(b)
  }

  function NumOperand(b: Bytes, maxLen: nat): (r: Option<int>)
    ensures r.Some? ==> |b| <= maxLen
  {
    if |b| <= maxLen then Some(DecodeNum(b)) else None
  }

  lemma {:induction false} LittleEndianRoundTrip(n: nat)
    ensures LittleEndianValue(LittleEndian(n)) == n
    ensures LittleEndianValue(LittleEndian(n) + [0]) == n
  {
    if n > 0 {
      LittleEndianRoundTrip(n / 256);
      assert (LittleEndian(n) + [0])[1..] == LittleEndian(n / 256) + [0];
    } else {
      assert [0][1..] == [];
    }
  }

  /** A non-negative script number survives being written and read back. */
  lemma NumRoundTrip(n: nat)
    ensures DecodeNum(EncodeNum(n)) == n
  {
    LittleEndianRoundTrip(n);
  }

  lemma SmallNumLength(n: nat)
    requires n < TWO_16
    ensures |EncodeNum(n)| <= 3
    ensures n != 0 ==> |EncodeNum(n)| >= 1
  {
    if n > 0 {
      assert LittleEndian(n) == [n % 256] + LittleEndian(n / 256);
      assert n / 256 > 0 ==> LittleEndian(n / 256) == [n / 256 % 256] + LittleEndian(n / 256 / 256);
      assert n / 256 / 256 == 0;
    }
  }

  /** CastToBool: any non-zero byte other than a lone sign bit in last position. */
  predicate Truthy(b: Bytes) {
    exists i :: 0 <= i < |b| && b[i] != 0 && !(i == |b| - 1 && b[i] == 0x80)
  }

  lemma {:induction false} ZeroBytesValue(b: Bytes)
    requires forall i :: 0 <= i < |b| ==> b[i] == 0
    ensures LittleEndianValue(b) == 0
  {
    if b != [] { ZeroBytesValue(b[1..]); }
  }

  lemma NumTruthy(n: nat)
    ensures Truthy(EncodeNum(n)) <==> n != 0
  {
    var b := EncodeNum(n);
    if n != 0 && !Truthy(b) {
      assert b[|b| - 1] < 0x80;
      assert forall i :: 0 <= i < |b| ==> b[i] == 0;
      ZeroBytesValue(b);
      NumRoundTrip(n);
      assert false;
    }
  }

  // ----- execution -----

  datatype Instr = Push(data: Bytes) | Op(code: Byte)

  /** The first instruction of a script and its length; None for a truncated push. */
  function Fetch(script: Bytes): (r: Option<(Instr, nat)>)
    requires script != []
    ensures r.Some? ==> 0 < r.value.1 <= |script|
  {
    var b := script[0];
    if b == OP_0 then Some((Push([]), 1))
    else if b <= OP_DATA_75 then
      if 1 + b <= |script| then Some((Push(script[1..1 + b]), 1 + b)) else None
    else if OP_1 <= b <= OP_16 then Some((Push([b - OP_1 + 1]), 1))
    else Some((Op(b), 1))
  }

  /**
   * The signature rule shared by the three signature opcodes: an empty signature is "not signed",
   * a non-empty one must be valid for a 32-byte key or the script aborts, and an unknown key type
   * accepts any non-empty signature.
   */
  function SigResult(env: Env, key: Bytes, sig: Bytes): (r: Option<bool>)
    ensures r == Some(false) ==> sig == []
  {
    if |key| == 0 then None
    else if sig == [] then Some(false)
    else if |key| != 32 || env.validSig(key, sig) then Some(true)
    else None
  }

  function FromBool(b: bool): Bytes { if b then [1] else [] }

  /** Relative lock-time rule of BIP-112 for a non-negative operand. */
  predicate SequenceOk(env: Env, operand: nat) {
    || operand / SEQUENCE_LOCKTIME_DISABLE % 2 == 1
    || (&& env.txVersion >= 2
        && env.sequence / SEQUENCE_LOCKTIME_DISABLE % 2 == 0
        && operand / SEQUENCE_LOCKTIME_TYPE % 2 == env.sequence / SEQUENCE_LOCKTIME_TYPE % 2
        && operand % TWO_16 <= env.sequence % TWO_16)
  }

  function ExecOp(code: Byte, s: Stack, env: Env): Option<Stack> {
    var n := |s|;
    if code == OP_CHECKSIG || code == OP_CHECKSIGVERIFY then
      if n < 2 then None else
      var r := SigResult(env, s[n - 1], s[n - 2]);
      if r.None? then None
      else if code == OP_CHECKSIG then Some(s[..n - 2] + [FromBool(r.value)])
      else if r.value then Some(s[..n - 2]) else None
    else if code == OP_CHECKSIGADD then
      if n < 3 then None else
      var r, num := SigResult(env, s[n - 1], s[n - 3]), NumOperand(s[n - 2], 4);
      if r.None? || num.None? then None
      else Some(s[..n - 3] + [EncodeNum(num.value + if r.value then 1 else 0)])
    else if code == OP_NUMEQUAL || code == OP_NUMEQUALVERIFY then
      if n < 2 then None else
      var a, b := NumOperand(s[n - 1], 4), NumOperand(s[n - 2], 4);
      if a.None? || b.None? then None
      else if code == OP_NUMEQUAL then Some(s[..n - 2] + [FromBool(a.value == b.value)])
      else if a.value == b.value then Some(s[..n - 2]) else None
    else if code == OP_CHECKSEQUENCEVERIFY then
      if n < 1 then None else
      var a := NumOperand(s[n - 1], 5);
      if a.None? || a.value < 0 || !SequenceOk(env, a.value) then None else Some(s)
    else None
  }

  function Exec(script: Bytes, s: Stack, env: Env): Option<Stack>
    decreases |script|
  {
    if |s| > MAX_STACK_SIZE then None
    else if script == [] then Some(s)
    else
      var f := Fetch(script);
      if f.None? then None else
      var rest := script[f.value.1..];
      match f.value.0
      case Push(d) => Exec(rest, s + [d], env)
      case Op(c) =>
        var r := ExecOp(c, s, env);
        if r.None? then None else Exec(rest, r.value, env)
  }

  /** Success means exactly one, true, element is left. */
  predicate Accepts(script: Bytes, s: Stack, env: Env) {
    var r := Exec(script, s, env);
    r.Some? && |r.value| == 1 && Truthy(r.value[0])
  }

  /** A script-path witness: the initial stack, then the script, then the control block. */
  predicate SpendAccepted(wit: seq<Bytes>, env: Env) {
    && |wit| >= 2
    && Accepts(wit[|wit| - 2], wit[..|wit| - 2], env)
  }

  // ----- script assembly, as txscript.ScriptBuilder emits it -----

  function AddKey(key: Bytes): (r: Bytes)
    requires |key| == 32
    ensures |r| == 33
  {
    [OP_DATA_32] + key
  }

  function AddInt(n: nat): (r: Bytes)
    requires n < TWO_32
    ensures r != []
  {
    if n == 0 then [OP_0]
    else if n <= 16 then [OP_1 + n - 1]
    else
      var e := EncodeNum(n);
      EncodeNumLength(n);
      [|e|] + e
  }

  /**
   * A number is pushed the minimal way: by its own opcode up to 16, and above as the shortest
   * little-endian bytes whose top bit, the sign, is clear.
   */
  lemma AddIntIsMinimal(n: nat)
    requires n < TWO_32
    ensures n == 0 ==> AddInt(n) == [0x00]
    ensures 1 <= n <= 16 ==> AddInt(n) == [0x50 + n]
    ensures n > 16 ==> var e := AddInt(n)[1..];
                       && AddInt(n)[0] == |e| > 0 && LittleEndianValue(e) == n && e[|e| - 1] < 0x80
                       && (e[|e| - 1] != 0 || (|e| > 1 && e[|e| - 2] >= 0x80))
  {
    LittleEndianRoundTrip(n);
    if n > 0 { LittleEndianTop(n); }
  }

  lemma {:induction false} LittleEndianTop(n: nat)
    requires n > 0
    ensures var m := LittleEndian(n); m != [] && m[|m| - 1] != 0
  {
    if n / 256 > 0 { LittleEndianTop(n / 256); }
  }

  lemma EncodeNumLength(n: nat)
    requires n < TWO_32
    ensures |EncodeNum(n)| <= 5
  {
    if n > 0 {
      var a, b, c := n / 256, n / 256 / 256, n / 256 / 256 / 256;
      assert LittleEndian(n) == [n % 256] + LittleEndian(a);
      assert a > 0 ==> LittleEndian(a) == [a % 256] + LittleEndian(b);
      assert b > 0 ==> LittleEndian(b) == [b % 256] + LittleEndian(c);
      assert c < 256;
      assert c > 0 ==> LittleEndian(c) == [c % 256] + LittleEndian(0);
    }
  }

  lemma ExecDone(s: Stack, env: Env)
    requires |s| <= MAX_STACK_SIZE
    ensures Exec([], s, env) == Some(s)
  {
  }

  lemma ExecKey(key: Bytes, rest: Bytes, s: Stack, env: Env)
    requires |key| == 32 && |s| <= MAX_STACK_SIZE
    ensures Exec(AddKey(key) + rest, s, env) == Exec(rest, s + [key], env)
  {
    var script := AddKey(key) + rest;
    assert script[1..33] == key && script[33..] == rest;
  }

  lemma ExecInt(n: nat, rest: Bytes, s: Stack, env: Env)
    requires n < TWO_32 && |s| <= MAX_STACK_SIZE
    ensures Exec(AddInt(n) + rest, s, env) == Exec(rest, s + [EncodeNum(n)], env)
  {
    var script := AddInt(n) + rest;
    if n == 0 {
      assert script[1..] == rest;
    } else if n <= 16 {
      assert script[1..] == rest;
      assert LittleEndian(n) == [n] + LittleEndian(0);
      assert EncodeNum(n) == [n] == Fetch(script).value.0.data;
    } else {
      var e := EncodeNum(n);
      EncodeNumLength(n);
      assert script[1..1 + |e|] == e && script[1 + |e|..] == rest;
    }
  }

  lemma ExecCode(code: Byte, rest: Bytes, s: Stack, env: Env)
    requires code > OP_16 && |s| <= MAX_STACK_SIZE
    ensures var r := ExecOp(code, s, env);
            Exec([code] + rest, s, env) == if r.None? then None else Exec(rest, r.value, env)
  {
    assert ([code] + rest)[1..] == rest;
  }
}
