/** The ABI decoders against the layout of the encoding, offset, length and data, and round trips across
    the three files that encode and decode. */
module AbiTheorems {
  import opened Base
  import opened Abi

  /** `data` is encoded in `buf` as a dynamic value whose offset word is at `pos`: the word there is the
      offset, at the offset is the length, and the data follow. What pads them to the next word is not
      examined. */
  ghost predicate Located(buf: Bytes, pos: nat, offset: nat, data: Bytes) {
    && pos + 32 <= |buf| && offset + 32 + |data| <= |buf|
    && buf[pos..pos + 32] == Word(offset)
    && buf[offset..offset + 32] == Word(|data|)
    && buf[offset + 32..offset + 32 + |data|] == data
  }

  ghost predicate Encodes(buf: Bytes, pos: nat, data: Bytes) {
    exists offset: nat :: Located(buf, pos, offset, data)
  }

  lemma LocatedDecodes(buf: Bytes, pos: nat, offset: nat, data: Bytes)
    requires |buf| <= MAX64 && Located(buf, pos, offset, data)
    ensures DecodeDynamicBytes(buf, pos) == Ok(data)
  {
    WordIffNum(buf[pos..pos + 32], offset);
    WordIffNum(buf[offset..offset + 32], |data|);
  }

  lemma DecodedIsLocated(buf: Bytes, pos: nat, data: Bytes)
    requires |buf| <= MAX64 && DecodeDynamicBytes(buf, pos) == Ok(data)
    ensures Located(buf, pos, Num(buf[pos..pos + 32]), data)
  {
    var offset := Num(buf[pos..pos + 32]);
    WordIffNum(buf[pos..pos + 32], offset);
    WordIffNum(buf[offset..offset + 32], |data|);
  }

  /** The checked decoder answers a byte string exactly when the buffer encodes it there: no word,
      however hostile, makes it read anything else. */
  lemma DecodesExactlyTheEncoded(buf: Bytes, pos: nat, data: Bytes)
    requires |buf| <= MAX64
    ensures DecodeDynamicBytes(buf, pos) == Ok(data) <==> Encodes(buf, pos, data)
  {
    if offset: nat :| Located(buf, pos, offset, data) {
      LocatedDecodes(buf, pos, offset, data);
    }
    if DecodeDynamicBytes(buf, pos) == Ok(data) {
      DecodedIsLocated(buf, pos, data);
    }
  }

  /** And it refuses by exactly what is wrong: the offset word is not there, a word is more than a machine word, an
      end is past the address space, the length word is not there, or the data are not all there. */
  lemma RefusalNamesTheFault(buf: Bytes, pos: nat, e: AbiError)
    ensures DecodeDynamicBytes(buf, pos) == Err(e) <==>
              if pos + 32 > |buf| then e == OffsetWordOutOfRange
              else
                var offset := Num(buf[pos..pos + 32]);
                if offset + 32 > Min(|buf|, MAX64) then
                  e == if offset > MAX64 then WordTooLarge else if offset + 32 > MAX64 then Overflow else LengthWordOutOfRange
                else
                  var end := offset + 32 + Num(buf[offset..offset + 32]);
                  end > Min(|buf|, MAX64)
                  && e == if end - offset - 32 > MAX64 then WordTooLarge else if end > MAX64 then Overflow else Truncated
  {
  }

  // ---- the other decoder ----------------------------------------------------------------------

  lemma {:induction false} NumOfZeros(n: nat)
    ensures Num(Zeros(n)) == 0
  {
    if n > 0 {
      NumOfZeros(n - 1);
      assert Zeros(n)[..n - 1] == Zeros(n - 1);
    }
  }

  /** A word's first 24 bytes are zero exactly when its number fits 64 bits. */
  lemma TopBytesZero(w: Bytes)
    requires |w| == 32
    ensures (forall k | 0 <= k < 24 :: w[k] == 0) <==> Num(w) <= MAX64
    ensures Num(w) <= MAX64 ==> Num(w[24..]) == Num(w)
  {
    Eight();
    BeOfNum(w);
    BeOfNum(w[24..]);
    if forall k | 0 <= k < 24 :: w[k] == 0 {
      BeOfSmall(Num(w[24..]), 24, 8);
      assert w == Zeros(24) + w[24..];
      WordIffNum(w, Num(w[24..]));
    }
    if Num(w) <= MAX64 {
      BeOfSmall(Num(w), 24, 8);
      assert w == Zeros(24) + Be(Num(w), 8);
      assert w[24..] == Be(Num(w), 8);
      NumOfBe(Num(w), 8);
    }
  }

  lemma WordsAgree(ret: Bytes, i: u64)
    requires i + 32 <= |ret|
    ensures WordAt(ret, i) == ToUsize(ret[i..i + 32]) || i + 32 > MAX64
  {
    var w := ret[i..i + 32];
    TopBytesZero(w);
    assert w[24..] == ret[i + 24..i + 32];
    assert forall k | 0 <= k < 24 :: w[k] == ret[i + k];
    if exists k | i <= k < i + 24 :: ret[k] != 0 {
      var k :| i <= k < i + 24 && ret[k] != 0;
      assert w[k - i] != 0;
    }
  }

  /** The two decoders accept the same buffers and read the same bytes from them. */
  lemma DecodersAgree(ret: Bytes, data: Bytes)
    requires |ret| <= MAX64
    ensures DecodeBytesReturn(ret) == Ok(data) <==> DecodeDynamicBytes(ret, 0) == Ok(data)
  {
    if |ret| >= 32 {
      WordsAgree(ret, 0);
      if WordAt(ret, 0).Ok? && WordAt(ret, 0).value + 32 <= |ret| {
        WordsAgree(ret, WordAt(ret, 0).value);
      }
    }
  }

  // ---- round trips ----------------------------------------------------------------------------

  lemma BlockLocated(buf: Bytes, pos: nat, pre: Bytes, data: Bytes, post: Bytes)
    requires buf == pre + Block(data) + post && pos + 32 <= |buf| && buf[pos..pos + 32] == Word(|pre|)
    ensures Located(buf, pos, |pre|, data)
  {
    assert buf[|pre|..|pre| + 32] == Word(|data|);
    assert buf[|pre| + 32..|pre| + 32 + |data|] == data;
  }

  lemma SevenSlices(a: Bytes, b: Bytes, c: Bytes, d: Bytes, e: Bytes, f: Bytes, g: Bytes, h: Bytes)
    requires |a| == |b| == |c| == |d| == |e| == |f| == |g| == 32 && h == a + b + c + d + e + f + g
    ensures |h| == 224 && h[0..32] == a && h[32..64] == b && h[64..96] == c && h[96..128] == d
            && h[128..160] == e && h[160..192] == f && h[192..224] == g
  {
  }

  lemma SliceOfPrefix(h: Bytes, buf: Bytes, i: nat, j: nat)
    requires i <= j <= |h| && h <= buf
    ensures buf[i..j] == h[i..j]
  {
  }

  lemma SelectorDropped(selector: Bytes, args: Bytes)
    requires |selector| == 4
    ensures (selector + args)[4..] == args
  {
  }

  lemma HeadWords(c: StrictBound, h: Bytes)
    requires c.Valid() && h == Head(c)
    ensures |h| == 224 && h[0..32] == Word(224)
    ensures h[32..64] == Word(|h + Block(c.jwt)|) && h[96..128] == Word(|h + Block(c.jwt) + Block(c.signature)|)
    ensures h[64..96] == c.kid && h[128..160] == c.gpu && h[160..192] == c.model && h[192..224] == c.nras
  {
    var sigAt := 256 + PaddedLen(|c.jwt|);
    var claimAt := sigAt + 32 + PaddedLen(|c.signature|);
    SevenSlices(Word(224), Word(sigAt), c.kid, Word(claimAt), c.gpu, c.model, c.nras, h);
  }

  /** A byte string in its block, at the offset its head slot names. */
  lemma BlockDecodes(head: Bytes, pos: nat, pre: Bytes, data: Bytes, post: Bytes, buf: Bytes)
    requires pos + 32 <= |head| && head <= buf && head[pos..pos + 32] == Word(|pre|)
    requires |buf| <= MAX64 && buf == pre + Block(data) + post
    ensures DecodeDynamicBytes(buf, pos) == Ok(data)
  {
    SliceOfPrefix(head, buf, pos, pos + 32);
    BlockLocated(buf, pos, pre, data, post);
    LocatedDecodes(buf, pos, |pre|, data);
  }

  lemma FourParts(h: Bytes, x: Bytes, y: Bytes, z: Bytes, args: Bytes)
    requires args == h + x + y + z
    ensures args == h + x + (y + z) && args == h + x + y + z + [] && h <= args
  {
  }

  lemma ThreeBlocksDecode(h: Bytes, x: Bytes, y: Bytes, z: Bytes, args: Bytes)
    requires args == h + Block(x) + Block(y) + Block(z) && |args| <= MAX64 && |h| == 224
    requires h[0..32] == Word(|h|) && h[32..64] == Word(|h + Block(x)|) && h[96..128] == Word(|h + Block(x) + Block(y)|)
    ensures DecodeDynamicBytes(args, 0) == Ok(x) && DecodeDynamicBytes(args, 32) == Ok(y)
    ensures DecodeDynamicBytes(args, 96) == Ok(z) && h <= args
  {
    FourParts(h, Block(x), Block(y), Block(z), args);
    BlockDecodes(h, 0, h, x, Block(y) + Block(z), args);
    BlockDecodes(h, 32, h + Block(x), y, Block(z), args);
    BlockDecodes(h, 96, h + Block(x) + Block(y), z, [], args);
  }

  /** What the worker encodes in one file the coordinator's decoder recovers in another: all three
      dynamic arguments, at head slots 0, 32 and 96 after the selector; the static words are between. */
  lemma StrictBoundRoundTrip(c: StrictBound, selector: Bytes)
    requires c.Valid() && |selector| == 4
    ensures var args := (selector + Arguments(c))[4..];
            && DecodeDynamicBytes(args, 0) == Ok(c.jwt)
            && DecodeDynamicBytes(args, 32) == Ok(c.signature)
            && DecodeDynamicBytes(args, 96) == Ok(c.claim)
            && |args| >= 224 && args[64..96] == c.kid && args[128..160] == c.gpu && args[160..192] == c.model
            && args[192..224] == c.nras
  {
    var args, h := Arguments(c), Head(c);
    SelectorDropped(selector, args);
    HeadWords(c, h);
    ThreeBlocksDecode(h, c.jwt, c.signature, c.claim, args);
    StaticWords(h, args);
  }

  lemma StaticWords(h: Bytes, args: Bytes)
    requires h <= args && |h| == 224
    ensures args[64..96] == h[64..96] && args[128..160] == h[128..160] && args[160..192] == h[160..192] && args[192..224] == h[192..224]
  {
    SliceOfPrefix(h, args, 64, 96);
    SliceOfPrefix(h, args, 128, 160);
    SliceOfPrefix(h, args, 160, 192);
    SliceOfPrefix(h, args, 192, 224);
  }

  /** `decode_bytes_return` inverts `encode_bytes_call`, past the selector. */
  lemma BytesCallRoundTrip(selector: Bytes, data: Bytes)
    requires |selector| == 4 && 64 + PaddedLen(|data|) <= MAX64
    ensures DecodeBytesReturn((selector + Word(0x20) + Block(data))[4..]) == Ok(data)
  {
    var head := Word(0x20);
    var buf := head + Block(data);
    assert selector + head + Block(data) == selector + buf;
    SelectorDropped(selector, buf);
    assert buf == head + Block(data) + [] && head[0..32] == head;
    BlockDecodes(head, 0, head, data, [], buf);
    DecodersAgree(buf, data);
  }

  /** A pool job as the chain lays it out: eight head words, the third the offset of the job spec. */
  function EncodeJob(poolId: nat, requester: nat, spec: Bytes, payment: nat, status: nat, createdAt: nat,
                     dispatchBlock: nat, dispatchedBy: nat): Bytes
  {
    Word(poolId) + Word(requester) + Word(256) + Word(payment) + Word(status) + Word(createdAt) + Word(dispatchBlock)
    + Word(dispatchedBy) + Block(spec)
  }

  /** A job spec: seven head words, the fourth the offset of the input, the fifth the token limit. */
  function EncodeSpec(version: nat, mode: nat, modelHash: nat, input: Bytes, maxTokens: nat, tier: nat, batchSize: nat): Bytes {
    Word(version) + Word(mode) + Word(modelHash) + Word(224) + Word(maxTokens) + Word(tier) + Word(batchSize) + Block(input)
  }

  lemma SpecParts(spec: Bytes, v: nat, m: nat, h: nat, input: Bytes, maxTokens: nat, t: nat, b: nat)
    requires spec == EncodeSpec(v, m, h, input, maxTokens, t, b)
    ensures |spec| == 256 + PaddedLen(|input|)
    ensures spec[128..160] == Word(maxTokens) && Located(spec, 96, 224, input)
  {
    var head := Word(v) + Word(m) + Word(h) + Word(224) + Word(maxTokens) + Word(t) + Word(b);
    assert spec == head + Block(input) + [];
    assert head[96..128] == Word(224) && head[128..160] == Word(maxTokens);
    assert spec[96..128] == head[96..128] && spec[128..160] == head[128..160];
    BlockLocated(spec, 96, head, input, []);
  }

  lemma JobParts(job: Bytes, p: nat, r: nat, spec: Bytes, pay: nat, s: nat, c: nat, d: nat, db: nat)
    requires job == EncodeJob(p, r, spec, pay, s, c, d, db)
    ensures |job| == 288 + PaddedLen(|spec|) && Located(job, 64, 256, spec)
  {
    var head := Word(p) + Word(r) + Word(256) + Word(pay) + Word(s) + Word(c) + Word(d) + Word(db);
    assert job == head + Block(spec) + [];
    assert head[64..96] == Word(256);
    assert job[64..96] == head[64..96];
    BlockLocated(job, 64, head, spec, []);
  }

  /** The two-level decode recovers the input and the token limit, a zero limit read as the default
      and one over 32 bits as the largest, whatever the other fields hold. */
  lemma JobSpecRoundTrip(p: nat, r: nat, pay: nat, s: nat, c: nat, d: nat, db: nat,
                         v: nat, m: nat, h: nat, input: Bytes, maxTokens: nat, t: nat, b: nat)
    requires maxTokens < Pow256(32) && 1024 + PaddedLen(|input|) <= MAX64
    ensures FetchJobSpec(EncodeJob(p, r, EncodeSpec(v, m, h, input, maxTokens, t, b), pay, s, c, d, db))
            == Ok((input, if maxTokens == 0 then DEFAULT_MAX_TOKENS else Min(maxTokens, MAX32)))
  {
    var spec := EncodeSpec(v, m, h, input, maxTokens, t, b);
    var job := EncodeJob(p, r, spec, pay, s, c, d, db);
    SpecParts(spec, v, m, h, input, maxTokens, t, b);
    JobParts(job, p, r, spec, pay, s, c, d, db);
    LocatedDecodes(job, 64, 256, spec);
    LocatedDecodes(spec, 96, 224, input);
    NumOfBe(maxTokens, 32);
  }

  /** A job stored without a spec is dispatched with an empty prompt and the default limit. */
  lemma LegacyJobDefaults(p: nat, r: nat, pay: nat, s: nat, c: nat, d: nat, db: nat)
    ensures FetchJobSpec(EncodeJob(p, r, [], pay, s, c, d, db)) == Ok(([], DEFAULT_MAX_TOKENS))
  {
    var job := EncodeJob(p, r, [], pay, s, c, d, db);
    JobParts(job, p, r, [], pay, s, c, d, db);
    LocatedDecodes(job, 64, 256, []);
  }

  function AddressWords(xs: seq<Bytes>): Bytes
    requires forall i | 0 <= i < |xs| :: |xs[i]| == 20
  {
    if xs == [] then [] else AddressWords(xs[..|xs| - 1]) + Zeros(12) + xs[|xs| - 1]
  }

  lemma {:induction false} AddressWordsDecode(pre: Bytes, xs: seq<Bytes>, post: Bytes)
    requires forall i | 0 <= i < |xs| :: |xs[i]| == 20
    ensures |AddressWords(xs)| == 32 * |xs|
    ensures Addresses(pre + AddressWords(xs) + post, |pre|, |xs|) == xs
    decreases |xs|
  {
    if xs != [] {
      var n := |xs| - 1;
      AddressWordsDecode(pre, xs[..n], Zeros(12) + xs[n] + post);
      LastAddress(pre, AddressWords(xs[..n]), xs[n], post, n);
      assert xs == xs[..n] + [xs[n]];
    }
  }

  lemma LastAddress(pre: Bytes, words: Bytes, x: Bytes, post: Bytes, n: nat)
    requires |words| == 32 * n && |x| == 20
    ensures var buf := pre + (words + Zeros(12) + x) + post;
            && buf == pre + words + (Zeros(12) + x + post)
            && |buf| >= |pre| + 32 * (n + 1) && buf[|pre| + 32 * n + 12..|pre| + 32 * (n + 1)] == x
  {
  }

  /** An encoded list of addresses decodes to itself. */
  lemma AddressArrayRoundTrip(xs: seq<Bytes>, buf: Bytes)
    requires (forall i | 0 <= i < |xs| :: |xs[i]| == 20) && buf == Word(0x20) + Word(|xs|) + AddressWords(xs)
    requires 64 + 32 * |xs| <= MAX64
    ensures |buf| == 64 + 32 * |xs| && Num(buf[32..64]) == |xs| && Addresses(buf, 64, |xs|) == xs
  {
    AddressWordsDecode(Word(0x20) + Word(|xs|), xs, []);
    assert buf == Word(0x20) + Word(|xs|) + AddressWords(xs) + [];
    assert buf[32..64] == Word(|xs|);
    WordIffNum(buf[32..64], |xs|);
  }

  /** The token limit a spec's fifth word asks for. */
  function Limit(spec: Bytes): u32
    requires |spec| >= 160
  {
    if Num(spec[128..160]) == 0 then 1000 else Min(Num(spec[128..160]), MAX32)
  }

  /** What a spec found at the third word asks for: the defaults if it is empty, else, of seven words or more, its
      limit and the prompt it encodes at its fourth. */
  ghost predicate AsksFor(spec: Bytes, prompt: Bytes, limit: u32) {
    if spec == [] then prompt == [] && limit == 1000
    else |spec| >= 224 && limit == Limit(spec) && Encodes(spec, 96, prompt)
  }

  ghost predicate Fetches(ret: Bytes, spec: Bytes, prompt: Bytes, limit: u32) {
    Encodes(ret, 64, spec) && AsksFor(spec, prompt, limit)
  }

  lemma SpecAsks(ret: Bytes, spec: Bytes, prompt: Bytes, limit: u32)
    requires 256 <= |ret| <= MAX64 && DecodeDynamicBytes(ret, 64) == Ok(spec)
    ensures FetchJobSpec(ret) == Ok((prompt, limit)) <==> AsksFor(spec, prompt, limit)
  {
    DecodesExactlyTheEncoded(spec, 96, prompt);
  }

  lemma NothingFetched(ret: Bytes)
    requires |ret| < 256 || DecodeDynamicBytes(ret, 64).Err?
    ensures FetchJobSpec(ret).Err?
  {
  }

  /** A prompt and a limit are fetched exactly from an answer of eight words or more that holds them. */
  lemma FetchesExactly(ret: Bytes, prompt: Bytes, limit: u32)
    requires |ret| <= MAX64
    ensures FetchJobSpec(ret) == Ok((prompt, limit)) <==> |ret| >= 256 && exists spec :: Fetches(ret, spec, prompt, limit)
  {
    var decoded := DecodeDynamicBytes(ret, 64);
    if |ret| < 256 || decoded.Err? {
      NothingFetched(ret);
      if spec :| Fetches(ret, spec, prompt, limit) {
        DecodesExactlyTheEncoded(ret, 64, spec);
      }
    } else {
      SpecAsks(ret, decoded.value, prompt, limit);
      FetchedIsDecoded(ret, decoded.value, prompt, limit);
    }
  }

  lemma FetchedIsDecoded(ret: Bytes, spec: Bytes, prompt: Bytes, limit: u32)
    requires |ret| <= MAX64 && DecodeDynamicBytes(ret, 64) == Ok(spec)
    ensures (exists other :: Fetches(ret, other, prompt, limit)) <==> AsksFor(spec, prompt, limit)
  {
    DecodesExactlyTheEncoded(ret, 64, spec);
    if other :| Fetches(ret, other, prompt, limit) {
      DecodesExactlyTheEncoded(ret, 64, other);
    }
    if AsksFor(spec, prompt, limit) {
      assert Fetches(ret, spec, prompt, limit);
    }
  }
}
