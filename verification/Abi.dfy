/** The Solidity ABI codecs: encoders that append to a buffer, decoders that check every bound, and the
    words they are made of. */
module Abi {
  import opened Base

  type Bytes = seq<byte>

  const DEFAULT_MAX_TOKENS: u32 := 1000

  datatype AbiError =
    | OffsetWordOutOfRange | LengthWordOutOfRange | WordTooLarge | Overflow | Truncated | TooShort

  // ---- words --------------------------------------------------------------------------------

  /** `U256::from_big_endian`. */
  function Num(bs: Bytes): nat {
    if bs == [] then 0 else Num(bs[..|bs| - 1]) * 256 + bs[|bs| - 1]
  }

  /** The `n` big-endian bytes of `v`. */
  function Be(v: nat, n: nat): (bs: Bytes)
    ensures |bs| == n
  {
    if n == 0 then [] else Be(v / 256, n - 1) + [v % 256]
  }

  function Zeros(n: nat): (bs: Bytes)
    ensures |bs| == n && forall i | 0 <= i < n :: bs[i] == 0
  {
    seq(n, _ => 0)
  }

  /** The 32-byte word of a number. */
  function Word(v: nat): (w: Bytes)
    ensures |w| == 32
  {
    Be(v, 32)
  }

  function Pow256(n: nat): nat {
    if n == 0 then 1 else 256 * Pow256(n - 1)
  }

  lemma {:induction false} NumOfBe(v: nat, n: nat)
    requires v < Pow256(n)
    ensures Num(Be(v, n)) == v
  {
    if n > 0 {
      NumOfBe(v / 256, n - 1);
      assert Be(v, n)[..n - 1] == Be(v / 256, n - 1);
    }
  }

  lemma {:induction false} BeOfNum(bs: Bytes)
    ensures Be(Num(bs), |bs|) == bs && Num(bs) < Pow256(|bs|)
    decreases |bs|
  {
    if bs != [] {
      var v, b := Num(bs[..|bs| - 1]), bs[|bs| - 1];
      BeOfNum(bs[..|bs| - 1]);
      assert (v * 256 + b) / 256 == v && (v * 256 + b) % 256 == b;
      assert bs == bs[..|bs| - 1] + [bs[|bs| - 1]];
    }
  }

  lemma {:induction false} BeOfSmall(v: nat, m: nat, n: nat)
    requires v < Pow256(n)
    ensures Be(v, m + n) == Zeros(m) + Be(v, n)
    decreases m + n
  {
    if n == 0 {
      BeOfZero(m);
    } else {
      BeOfSmall(v / 256, m, n - 1);
    }
  }

  lemma {:induction false} BeOfZero(m: nat)
    ensures Be(0, m) == Zeros(m)
  {
    if m > 0 {
      BeOfZero(m - 1);
    }
  }

  lemma Eight()
    ensures Pow256(8) == MAX64 + 1
  {
    assert Pow256(2) == 0x1_0000;
    assert Pow256(4) == 0x1_0000_0000;
    assert Pow256(6) == 0x1_0000_0000_0000;
  }

  lemma {:induction false} PowGrows(m: nat, n: nat)
    requires m <= n
    ensures Pow256(m) <= Pow256(n)
    decreases n
  {
    if m < n {
      PowGrows(m, n - 1);
    }
  }

  /** A word spells exactly one number. */
  lemma WordIffNum(w: Bytes, v: u64)
    requires |w| == 32
    ensures w == Word(v) <==> Num(w) == v
  {
    Eight();
    PowGrows(8, 32);
    NumOfBe(v, 32);
    BeOfNum(w);
  }

  // ---- checked decoding ---------------------------------------------------------------------

  /** `u256_to_usize`, on a 64-bit machine. */
  function ToUsize(w: Bytes): Result<u64, AbiError> {
    if Num(w) > MAX64 then Err(WordTooLarge) else Ok(Num(w))
  }

  function CheckedAdd(a: u64, b: u64): Option<u64> {
    if a + b <= MAX64 then Some(a + b) else None
  }

  function CheckedMul(a: u64, b: u64): Option<u64> {
    if a * b <= MAX64 then Some(a * b) else None
  }

  /** `decode_dynamic_bytes_at_offset`. */
  function DecodeDynamicBytes(buf: Bytes, pos: nat): Result<Bytes, AbiError> {
    if |buf| < pos + 32 then Err(OffsetWordOutOfRange)
    else
      var offset := ToUsize(buf[pos..pos + 32]);
      if offset.Err? then Err(offset.error)
      else
        var offsetEnd := CheckedAdd(offset.value, 32);
        if offsetEnd.None? then Err(Overflow)
        else if |buf| < offsetEnd.value then Err(LengthWordOutOfRange)
        else
          var len := ToUsize(buf[offset.value..offsetEnd.value]);
          if len.Err? then Err(len.error)
          else
            var dataEnd := CheckedAdd(offsetEnd.value, len.value);
            if dataEnd.None? then Err(Overflow)
            else if |buf| < dataEnd.value then Err(Truncated)
            else Ok(buf[offsetEnd.value..dataEnd.value])
  }

  /** `decode_bytes_return`'s word at `i`: 24 zero bytes, then a 64-bit number. */
  function WordAt(ret: Bytes, i: u64): Result<u64, AbiError> {
    var end := CheckedAdd(i, 32);
    if end.None? then Err(Overflow)
    else if end.value > |ret| then Err(TooShort)
    else if exists k | i <= k < i + 24 :: ret[k] != 0 then Err(WordTooLarge)
    else
      Eight();
      BeOfNum(ret[i + 24..i + 32]);
      Ok(Num(ret[i + 24..i + 32]))
  }

  function DecodeBytesReturn(ret: Bytes): Result<Bytes, AbiError> {
    var off := WordAt(ret, 0);
    if off.Err? then Err(off.error)
    else
      var len := WordAt(ret, off.value);
      if len.Err? then Err(len.error)
      else
        var start := CheckedAdd(off.value, 32);
        if start.None? then Err(Overflow)
        else
          var end := CheckedAdd(start.value, len.value);
          if end.None? then Err(Overflow)
          else if end.value > |ret| then Err(Truncated)
          else Ok(ret[start.value..end.value])
  }

  /** `fetch_job_spec` on what the chain returned: the prompt's bytes and the token limit. */
  function FetchJobSpec(ret: Bytes): Result<(Bytes, u32), AbiError> {
    if |ret| < 256 then Err(TooShort)
    else
      var spec := DecodeDynamicBytes(ret, 64);
      if spec.Err? then Err(spec.error)
      else if spec.value == [] then Ok(([], DEFAULT_MAX_TOKENS))
      else if |spec.value| < 224 then Err(TooShort)
      else
        var n := Num(spec.value[128..160]);
        var maxTokens: u32 := if n > MAX32 then MAX32 else if n == 0 then DEFAULT_MAX_TOKENS else n;
        var input := DecodeDynamicBytes(spec.value, 96);
        if input.Err? then Err(input.error) else Ok((input.value, maxTokens))
  }

  /** The addresses of the `n` words from `at` on: the last 20 bytes of each. */
  function Addresses(buf: Bytes, at: nat, n: nat): (r: seq<Bytes>)
    requires at + 32 * n <= |buf|
    ensures |r| == n
  {
    if n == 0 then [] else Addresses(buf, at, n - 1) + [buf[at + 32 * (n - 1) + 12..at + 32 * n]]
  }

  method DecodeAddressArray(buf: Bytes) returns (r: Result<seq<Bytes>, AbiError>)
    ensures r.Ok? <==> |buf| >= 64 && Num(buf[32..64]) <= MAX64 && 64 + 32 * Num(buf[32..64]) <= Min(|buf|, MAX64)
    ensures r.Ok? ==> r.value == Addresses(buf, 64, Num(buf[32..64]))
  {
    if |buf| < 64 { return Err(TooShort); }
    var len := ToUsize(buf[32..64]);
    if len.Err? { return Err(len.error); }
    var bytes := CheckedMul(len.value, 32);
    if bytes.None? { return Err(Overflow); }
    var expected := CheckedAdd(bytes.value, 64);
    if expected.None? { return Err(Overflow); }
    if |buf| < expected.value { return Err(Truncated); }
    var out: seq<Bytes> := [];
    for i := 0 to len.value
      invariant out == Addresses(buf, 64, i)
    {
      var start := 64 + i * 32;
      out := out + [buf[start + 12..start + 32]];
    }
    r := Ok(out);
  }

  // ---- encoding -----------------------------------------------------------------------------

  function PaddedLen(n: nat): nat {
    (n + 31) / 32 * 32
  }

  /** A dynamic argument's tail: its length, its bytes, and zeros to the next word. */
  function Block(data: Bytes): Bytes {
    Word(|data|) + data + Zeros(PaddedLen(|data|) - |data|)
  }

  /** A tail as the encoding lays it out: the length word, the data, and fewer than 32 zeros to the next word. */
  ghost predicate IsTail(tail: Bytes, data: Bytes) {
    exists z: nat :: z < 32 && (|data| + z) % 32 == 0 && tail == Word(|data|) + data + Zeros(z)
  }

  lemma BlockIsTail(data: Bytes)
    ensures IsTail(Block(data), data) && |Block(data)| % 32 == 0
  {
    PadsToAWord(|data|);
    var z := PaddedLen(|data|) - |data|;
    assert Block(data) == Word(|data|) + data + Zeros(z);
  }

  lemma PadsToAWord(n: nat)
    ensures n <= PaddedLen(n) < n + 32 && PaddedLen(n) % 32 == 0 && (32 + PaddedLen(n)) % 32 == 0
  {
  }

  /** `u256_be`: sixteen zero bytes and the 128-bit number's sixteen. */
  method U256Be(v: nat) returns (w: Bytes)
    requires v < Pow256(16)
    ensures w == Word(v)
  {
    BeOfSmall(v, 16, 16);
    w := Zeros(16) + Be(v, 16);
  }

  /** Three dynamic arguments between four static words, as `submitAttestationStrictBound` takes them. */
  datatype StrictBound = StrictBound(jwt: Bytes, signature: Bytes, kid: Bytes, claim: Bytes, gpu: Bytes, model: Bytes,
                                     nras: Bytes)
  {
    predicate Valid() {
      && |kid| == |gpu| == |model| == |nras| == 32
      && 7 * 32 + 3 * 32 + PaddedLen(|jwt|) + PaddedLen(|signature|) + PaddedLen(|claim|) + 4 <= MAX64
    }
  }

  function Head(c: StrictBound): Bytes {
    var jwtAt := 224;
    var sigAt := jwtAt + 32 + PaddedLen(|c.jwt|);
    var claimAt := sigAt + 32 + PaddedLen(|c.signature|);
    Word(jwtAt) + Word(sigAt) + c.kid + Word(claimAt) + c.gpu + c.model + c.nras
  }

  function Arguments(c: StrictBound): Bytes {
    Head(c) + Block(c.jwt) + Block(c.signature) + Block(c.claim)
  }

  /** Seven head words, the dynamic arguments' tails after them, each named by its offset, all of whole words. */
  ghost predicate LaidOut(args: Bytes, c: StrictBound) {
    exists x: Bytes, y: Bytes, z: Bytes :: Tails(args, c, x, y, z)
  }

  ghost predicate Tails(args: Bytes, c: StrictBound, x: Bytes, y: Bytes, z: Bytes) {
    && IsTail(x, c.jwt) && IsTail(y, c.signature) && IsTail(z, c.claim)
    && args == Word(224) + Word(224 + |x|) + c.kid + Word(224 + |x| + |y|) + c.gpu + c.model + c.nras + x + y + z
    && |x| % 32 == 0 && |y| % 32 == 0 && |z| % 32 == 0
  }

  lemma ArgumentsAreLaidOut(c: StrictBound)
    ensures LaidOut(Arguments(c), c)
  {
    BlockIsTail(c.jwt);
    BlockIsTail(c.signature);
    BlockIsTail(c.claim);
    assert Tails(Arguments(c), c, Block(c.jwt), Block(c.signature), Block(c.claim));
  }

  lemma FitsU128(v: u64)
    ensures v < Pow256(16)
  {
    Eight();
    PowGrows(8, 16);
  }

  method AppendBlock(out: Bytes, data: Bytes) returns (r: Bytes)
    requires |data| <= MAX64
    ensures r == out + Block(data)
  {
    FitsU128(|data|);
    var len := U256Be(|data|);
    r := out + len;
    r := r + data;
    var pad := PaddedLen(|data|) - |data|;
    r := r + Zeros(pad);
    assert r == out + Block(data);
  }

  method EncodeSubmitStrictBound(selector: Bytes, c: StrictBound) returns (out: Bytes)
    requires |selector| == 4 && c.Valid()
    ensures out == selector + Arguments(c)
    ensures |out| >= 4 && LaidOut(out[4..], c) && |out[4..]| % 32 == 0
  {
    out := AppendHead(selector, c);
    out := AppendBlocks(out, c);
    Grouped(selector, Head(c), Block(c.jwt), Block(c.signature), Block(c.claim));
    ArgumentsAreLaidOut(c);
    WholeWords(c);
    assert out[4..] == Arguments(c);
  }

  lemma WholeWords(c: StrictBound)
    requires c.Valid()
    ensures |Arguments(c)| % 32 == 0
  {
    BlockIsTail(c.jwt);
    BlockIsTail(c.signature);
    BlockIsTail(c.claim);
    SumOfWords(|Block(c.jwt)|, |Block(c.signature)|, |Block(c.claim)|);
    assert |Head(c)| == 224;
  }

  lemma SumOfWords(x: nat, y: nat, z: nat)
    requires x % 32 == 0 && y % 32 == 0 && z % 32 == 0
    ensures (224 + x + y + z) % 32 == 0
  {
  }

  lemma Grouped(s: Bytes, h: Bytes, x: Bytes, y: Bytes, z: Bytes)
    ensures s + h + (x + y + z) == s + (h + x + y + z)
  {
  }

  method AppendHead(selector: Bytes, c: StrictBound) returns (out: Bytes)
    requires c.Valid()
    ensures out == selector + Head(c)
  {
    var headSize := 32 * 7;
    var jwtAt := headSize;
    var sigAt := jwtAt + 32 + PaddedLen(|c.jwt|);
    var claimAt := sigAt + 32 + PaddedLen(|c.signature|);
    FitsU128(jwtAt);
    FitsU128(sigAt);
    FitsU128(claimAt);
    var w0 := U256Be(jwtAt);
    out := selector + w0;
    var w1 := U256Be(sigAt);
    out := out + w1;
    out := out + c.kid;
    var w2 := U256Be(claimAt);
    out := out + w2;
    out := out + c.gpu;
    out := out + c.model;
    out := out + c.nras;
    SevenWords(selector, w0, w1, c.kid, w2, c.gpu, c.model, c.nras);
  }

  lemma SevenWords(s: Bytes, a: Bytes, b: Bytes, c: Bytes, d: Bytes, e: Bytes, f: Bytes, g: Bytes)
    ensures s + a + b + c + d + e + f + g == s + (a + b + c + d + e + f + g)
  {
  }

  method AppendBlocks(head: Bytes, c: StrictBound) returns (out: Bytes)
    requires c.Valid()
    ensures out == head + (Block(c.jwt) + Block(c.signature) + Block(c.claim))
  {
    out := AppendBlock(head, c.jwt);
    out := AppendBlock(out, c.signature);
    out := AppendBlock(out, c.claim);
  }

  /** `encode_bytes_call`: `f(bytes)`. */
  method EncodeBytesCall(selector: Bytes, data: Bytes) returns (out: Bytes)
    requires |selector| == 4 && |data| <= MAX64
    ensures out == selector + Word(0x20) + Block(data)
    ensures exists tail :: IsTail(tail, data) && |tail| % 32 == 0 && out == selector + Word(0x20) + tail
  {
    BlockIsTail(data);
    BeOfSmallWord(0x20, 1);
    BeOfSmallWord(|data|, 8);
    var w := Zeros(31) + [0x20];
    var len := Zeros(24) + Be(|data|, 8);
    out := selector + w;
    out := out + len;
    out := out + data;
    out := Resize(out, 4 + 64 + PaddedLen(|data|));
    CallParts(selector, w, len, data, Zeros(PaddedLen(|data|) - |data|), out);
  }

  lemma CallParts(selector: Bytes, w: Bytes, len: Bytes, data: Bytes, pad: Bytes, out: Bytes)
    requires out == selector + w + len + data + pad
    ensures out == selector + w + (len + data + pad)
  {
  }

  /** `Vec::resize` with zeros, when growing. */
  method Resize(xs: Bytes, n: nat) returns (r: Bytes)
    requires |xs| <= n
    ensures r == xs + Zeros(n - |xs|)
  {
    r := xs + Zeros(n - |xs|);
  }

  lemma BeOfSmallWord(v: nat, n: nat)
    requires (n == 1 && v < 256) || (n == 8 && v <= MAX64)
    ensures Word(v) == Zeros(32 - n) + Be(v, n)
    ensures n == 1 ==> Be(v, n) == [v]
  {
    Eight();
    assert Pow256(1) == 256;
    BeOfSmall(v, 32 - n, n);
    if n == 1 {
      assert Be(v, 1) == Be(0, 0) + [v];
    }
  }
}
