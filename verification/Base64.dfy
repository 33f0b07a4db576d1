/** Base64 and base64url (sections 4 and 5 of RFC 4648, section 2 of RFC 7515) on bytes. Shifts, masks
    and disjoint ors are written as division, remainder and addition. */
module Base64 {
  import opened Base

  const PAD: byte := 61
  const PLUS: byte := 43
  const SLASH: byte := 47
  const MINUS: byte := 45
  const UNDERSCORE: byte := 95
  const UPPER: string := "ABCDEFGHIJKLMNOPQRSTUVWXYZ"
  const LOWER: string := "abcdefghijklmnopqrstuvwxyz"
  const REST: string := "0123456789+/"
  const ALPHABET: string := UPPER + LOWER + REST

  datatype Base64Error =
    | InvalidLength | NonMod4Length | InvalidChar(offset: nat) | PaddingInFront(offset: nat)
    | PaddingBeforeFinal(offset: nat) | DataAfterPadding(offset: nat)

  // ---- the alphabet -----------------------------------------------------------------------

  function Letter(v: nat): byte
    requires v < 64
  {
    if v < 26 then 65 + v else if v < 52 then 71 + v else if v < 62 then v - 4 else if v == 62 then PLUS else SLASH
  }

  /** The value of a character: -1 if it is not in the alphabet, -2 for padding. */
  function Sextet(c: byte): (v: int)
    ensures 0 <= v ==> v < 64 && Letter(v) == c
    ensures v < 0 ==> (v == -2 <==> c == PAD) && (v == -1 <==> c != PAD)
  {
    if 65 <= c <= 90 then c - 65
    else if 97 <= c <= 122 then c - 71
    else if 48 <= c <= 57 then c + 4
    else if c == PLUS then 62
    else if c == SLASH then 63
    else if c == PAD then -2
    else -1
  }

  lemma LetterSextet(v: nat)
    requires v < 64
    ensures Sextet(Letter(v)) == v && Letter(v) != PAD && Letter(v) != MINUS && Letter(v) != UNDERSCORE
  {
  }

  /** The 256-entry table, filled in letter by letter. */
  method BuildTable() returns (t: array<int>)
    ensures fresh(t) && t.Length == 256
    ensures forall c: byte :: t[c] == Sextet(c)
  {
    t := new int[256](_ => -1);
    for i := 0 to 64
      invariant forall c: byte :: t[c] == (if 0 <= Sextet(c) < i then Sextet(c) else -1)
    {
      AlphabetLetter(i);
      LetterSextet(i);
      t[ALPHABET[i] as int] := i;
    }
    t[PAD] := -2;
  }

  lemma AlphabetLetter(i: nat)
    requires i < 64
    ensures |ALPHABET| == 64 && ALPHABET[i] as int == Letter(i)
  {
    if i < 26 {
      assert UPPER[i] as int == 65 + i;
    } else if i < 52 {
      assert LOWER[i - 26] as int == 97 + (i - 26);
      assert ALPHABET[i] == LOWER[i - 26];
    } else {
      assert REST[i - 52] as int == Letter(i);
      assert ALPHABET[i] == REST[i - 52];
    }
  }

  // ---- decoding ---------------------------------------------------------------------------

  /** What four characters at `at` decode to, `last` if they are the final four. */
  function Quartet(v: seq<int>, at: nat, last: bool): Result<seq<byte>, Base64Error>
    requires |v| == 4 && forall j | 0 <= j < 4 :: -2 <= v[j] < 64
  {
    if v[0] == -1 then Err(InvalidChar(at))
    else if v[1] == -1 then Err(InvalidChar(at + 1))
    else if v[2] == -1 then Err(InvalidChar(at + 2))
    else if v[3] == -1 then Err(InvalidChar(at + 3))
    else if v[0] == -2 || v[1] == -2 then Err(PaddingInFront(at))
    else if !last && (v[2] == -2 || v[3] == -2) then Err(PaddingBeforeFinal(at))
    else if v[2] == -2 && v[3] != -2 then Err(DataAfterPadding(at))
    else
      var b0: byte := v[0] * 4 + v[1] / 16;
      if v[2] < 0 then Ok([b0])
      else
        var b1: byte := v[1] % 16 * 16 + v[2] / 4;
        if v[3] < 0 then Ok([b0, b1]) else Ok([b0, b1, v[2] % 4 * 64 + v[3]])
  }

  function Sextets(s: seq<byte>, i: nat): (v: seq<int>)
    requires i + 4 <= |s|
    ensures |v| == 4 && forall j | 0 <= j < 4 :: -2 <= v[j] < 64
  {
    [Sextet(s[i]), Sextet(s[i + 1]), Sextet(s[i + 2]), Sextet(s[i + 3])]
  }

  function Prepend(xs: seq<byte>, r: Result<seq<byte>, Base64Error>): Result<seq<byte>, Base64Error> {
    match r
    case Err(e) => Err(e)
    case Ok(ys) => Ok(xs + ys)
  }

  /** What the quartets from `i` on decode to. */
  function DecodeFrom(s: seq<byte>, i: nat): Result<seq<byte>, Base64Error>
    decreases |s| - i
  {
    if i + 4 > |s| then Ok([])
    else
      match Quartet(Sextets(s, i), i, i + 4 == |s|)
      case Err(e) => Err(e)
      case Ok(bs) => Prepend(bs, DecodeFrom(s, i + 4))
  }

  function StandardDecode(s: seq<byte>): Result<seq<byte>, Base64Error> {
    if |s| % 4 != 0 then Err(NonMod4Length) else DecodeFrom(s, 0)
  }

  /** One turn of the decoder's loop: check the quartet at `i`, then its one to three bytes. */
  method DecodeQuartet(v: seq<int>, i: nat, isFinal: bool) returns (r: Result<seq<byte>, Base64Error>)
    requires |v| == 4 && forall j | 0 <= j < 4 :: -2 <= v[j] < 64
    ensures r == Quartet(v, i, isFinal)
  {
    for j := 0 to 4
      invariant forall k | 0 <= k < j :: v[k] != -1
    {
      if v[j] == -1 { return Err(InvalidChar(i + j)); }
    }
    if v[0] == -2 || v[1] == -2 { return Err(PaddingInFront(i)); }
    if !isFinal && (v[2] == -2 || v[3] == -2) { return Err(PaddingBeforeFinal(i)); }
    if v[2] == -2 && v[3] != -2 { return Err(DataAfterPadding(i)); }
    var b0: byte := v[0] * 4 + v[1] / 16;
    var out := [b0];
    if v[2] >= 0 {
      var b1: byte := v[1] % 16 * 16 + v[2] / 4;
      out := out + [b1];
      if v[3] >= 0 {
        var b2: byte := v[2] % 4 * 64 + v[3];
        out := out + [b2];
      }
    }
    r := Ok(out);
    assert Quartet(v, i, isFinal).Ok? && out == Quartet(v, i, isFinal).value;
  }

  method Base64StandardDecode(s: seq<byte>) returns (r: Result<seq<byte>, Base64Error>)
    ensures r == StandardDecode(s)
  {
    var table := BuildTable();
    if |s| % 4 != 0 { return Err(NonMod4Length); }
    var out: seq<byte> := [];
    var i := 0;
    PrependNothing(DecodeFrom(s, 0));
    while i + 4 <= |s|
      invariant 0 <= i <= |s|
      invariant forall c: byte :: table[c] == Sextet(c)
      invariant DecodeFrom(s, 0) == Prepend(out, DecodeFrom(s, i))
    {
      var v := [table[s[i]], table[s[i + 1]], table[s[i + 2]], table[s[i + 3]]];
      assert v == Sextets(s, i);
      var bs := DecodeQuartet(v, i, i + 4 == |s|);
      Turn(s, i, out);
      if bs.Err? { return bs; }
      out := out + bs.value;
      i := i + 4;
    }
    r := Ok(out);
    assert out + [] == out;
  }

  lemma Turn(s: seq<byte>, i: nat, out: seq<byte>)
    requires i + 4 <= |s|
    ensures match Quartet(Sextets(s, i), i, i + 4 == |s|)
            case Err(e) => Prepend(out, DecodeFrom(s, i)) == Err(e)
            case Ok(bs) => Prepend(out, DecodeFrom(s, i)) == Prepend(out + bs, DecodeFrom(s, i + 4))
  {
    var q := Quartet(Sextets(s, i), i, i + 4 == |s|);
    if q.Ok? {
      PrependTwice(out, q.value, DecodeFrom(s, i + 4));
    }
  }

  lemma PrependNothing(r: Result<seq<byte>, Base64Error>)
    ensures Prepend([], r) == r
  {
    if r.Ok? {
      assert [] + r.value == r.value;
    }
  }

  lemma PrependTwice(xs: seq<byte>, ys: seq<byte>, r: Result<seq<byte>, Base64Error>)
    ensures Prepend(xs, Prepend(ys, r)) == Prepend(xs + ys, r)
  {
    if r.Ok? {
      assert xs + (ys + r.value) == xs + ys + r.value;
    }
  }

  function Standard(c: byte): byte {
    if c == MINUS then PLUS else if c == UNDERSCORE then SLASH else c
  }

  function ToStandard(s: seq<byte>): seq<byte> {
    seq(|s|, i requires 0 <= i < |s| => Standard(s[i]))
  }

  function Padded(s: seq<byte>): seq<byte> {
    if |s| % 4 == 2 then s + [PAD, PAD] else if |s| % 4 == 3 then s + [PAD] else s
  }

  function UrlDecode(s: seq<byte>): Result<seq<byte>, Base64Error> {
    if |s| % 4 == 1 then Err(InvalidLength) else StandardDecode(Padded(ToStandard(s)))
  }

  method Base64UrlDecode(s: seq<byte>) returns (r: Result<seq<byte>, Base64Error>)
    ensures r == UrlDecode(s)
  {
    var t := ToStandard(s);
    var rem := |t| % 4;
    if rem == 2 {
      t := t + [PAD, PAD];
    } else if rem == 3 {
      t := t + [PAD];
    } else if rem == 1 {
      return Err(InvalidLength);
    }
    r := Base64StandardDecode(t);
  }

  // ---- encoding ---------------------------------------------------------------------------

  /** The letters of three bytes, of two or of one: a letter for each six bits begun. */
  function Letters(g: seq<byte>): (ls: seq<byte>)
    requires 1 <= |g| <= 3
    ensures |ls| == |g| + 1
    ensures forall i | 0 <= i < |ls| :: 0 <= Sextet(ls[i])
  {
    if |g| == 1 then [Letter(g[0] / 4), Letter(g[0] % 4 * 16)]
    else if |g| == 2 then [Letter(g[0] / 4), Letter(g[0] % 4 * 16 + g[1] / 16), Letter(g[1] % 16 * 4)]
    else [Letter(g[0] / 4), Letter(g[0] % 4 * 16 + g[1] / 16), Letter(g[1] % 16 * 4 + g[2] / 64), Letter(g[2] % 64)]
  }

  function Digits(data: seq<byte>): seq<byte>
    decreases |data|
  {
    if |data| == 0 then [] else if |data| <= 3 then Letters(data) else Letters(data[..3]) + Digits(data[3..])
  }

  function Url(c: byte): byte {
    if c == PLUS then MINUS else if c == SLASH then UNDERSCORE else c
  }

  function ToUrl(s: seq<byte>): seq<byte> {
    seq(|s|, i requires 0 <= i < |s| => Url(s[i]))
  }

  function UrlEncode(data: seq<byte>): seq<byte> {
    ToUrl(Digits(data))
  }

  lemma {:induction false} DigitsShape(data: seq<byte>)
    ensures |Digits(data)| == (|data| * 4 + 2) / 3
    ensures forall i | 0 <= i < |Digits(data)| :: 0 <= Sextet(Digits(data)[i])
    decreases |data|
  {
    if |data| > 3 {
      DigitsShape(data[3..]);
    }
  }

  /** Digits of a longer string: complete triples first. */
  lemma {:induction false} DigitsAppend(a: seq<byte>, b: seq<byte>)
    requires |a| % 3 == 0
    ensures Digits(a + b) == Digits(a) + Digits(b)
    decreases |a|
  {
    if |a| == 0 {
      assert a + b == b;
    } else if b == [] {
      assert a + b == a;
    } else {
      assert (a + b)[..3] == a[..3] && (a + b)[3..] == a[3..] + b;
      DigitsAppend(a[3..], b);
      if |a| == 3 {
        assert a[..3] == a && a[3..] == [];
      }
      assert Digits(a) == Letters(a[..3]) + Digits(a[3..]);
    }
  }

  function Word24(a: int, b: int, c: int): int {
    a * 65536 + b * 256 + c
  }

  lemma Quotient(q: nat, r: nat, d: nat)
    requires r < d
    ensures (q * d + r) / d == q && (q * d + r) % d == r
  {
    var m := q * d + r;
    var x, y := m / d, m % d;
    assert (x - q) * d == r - y;
    Multiple(x - q, d);
  }

  lemma Multiple(k: int, d: nat)
    ensures k >= 1 ==> k * d >= d
    ensures k <= -1 ==> k * d + d <= 0
  {
  }

  lemma SplitHigh(a: byte, b: byte, c: byte)
    ensures Word24(a, b, c) / 262144 % 64 == a / 4
    ensures Word24(a, b, c) / 4096 % 64 == a % 4 * 16 + b / 16
  {
    Quotient(a / 4, a % 4 * 65536 + b * 256 + c, 262144);
    Quotient(a * 16 + b / 16, b % 16 * 256 + c, 4096);
    Quotient(a / 4, a % 4 * 16 + b / 16, 64);
  }

  lemma SplitLow(a: byte, b: byte, c: byte)
    ensures Word24(a, b, c) / 64 % 64 == b % 16 * 4 + c / 64 && Word24(a, b, c) % 64 == c % 64
  {
    Quotient(a * 1024 + b * 4 + c / 64, c % 64, 64);
    Quotient(a * 16 + b / 16, b % 16 * 4 + c / 64, 64);
  }

  /** The four sextets of a 24-bit word. */
  method Split(a: byte, b: byte, c: byte) returns (w: nat, x: nat, y: nat, z: nat)
    ensures w == a / 4 && x == a % 4 * 16 + b / 16 && y == b % 16 * 4 + c / 64 && z == c % 64
  {
    var n := Word24(a, b, c);
    SplitHigh(a, b, c);
    SplitLow(a, b, c);
    w, x, y, z := n / 262144 % 64, n / 4096 % 64, n / 64 % 64, n % 64;
  }

  /** The last one or two bytes, padded to four characters. */
  method EncodeRest(g: seq<byte>) returns (out: seq<byte>)
    requires |g| <= 2
    ensures Digits(g) <= out && (forall k | |Digits(g)| <= k < |out| :: out[k] == PAD)
  {
    out := [];
    if |g| == 1 {
      var w, x, _, _ := Split(g[0], 0, 0);
      out := [Letter(w), Letter(x), PAD, PAD];
      assert out[..2] == Letters(g);
    } else if |g| == 2 {
      var w, x, y, _ := Split(g[0], g[1], 0);
      out := [Letter(w), Letter(x), Letter(y), PAD];
      assert out[..3] == Letters(g);
    }
  }

  lemma DigitsNext(data: seq<byte>, i: nat)
    requires i + 3 <= |data| && i % 3 == 0
    ensures Digits(data[..i + 3]) == Digits(data[..i]) + Digits([data[i], data[i + 1], data[i + 2]])
  {
    var g := [data[i], data[i + 1], data[i + 2]];
    assert data[..i + 3] == data[..i] + g;
    DigitsAppend(data[..i], g);
  }

  method EncodeThree(a: byte, b: byte, c: byte) returns (out: seq<byte>)
    ensures out == Digits([a, b, c])
  {
    var w, x, y, z := Split(a, b, c);
    out := [Letter(w), Letter(x), Letter(y), Letter(z)];
  }

  /** Whole triples. */
  method EncodeTriples(data: seq<byte>) returns (out: seq<byte>, i: nat)
    ensures i <= |data| < i + 3 && i % 3 == 0 && out == Digits(data[..i])
  {
    out, i := [], 0;
    while i + 3 <= |data|
      invariant 0 <= i <= |data| && i % 3 == 0
      invariant out == Digits(data[..i])
    {
      var four := EncodeThree(data[i], data[i + 1], data[i + 2]);
      out := out + four;
      DigitsNext(data, i);
      i := i + 3;
    }
  }

  method Base64UrlEncode(data: seq<byte>) returns (out: seq<byte>)
    ensures out == UrlEncode(data)
  {
    var i;
    out, i := EncodeTriples(data);
    var rest := EncodeRest(data[i..]);
    out := out + rest;
    DigitsAppend(data[..i], data[i..]);
    assert data[..i] + data[i..] == data;
    DigitsShape(data);
    assert Digits(data) <= out;
    out := TrimPadding(ToUrl(out), UrlEncode(data));
  }

  /** Strip the trailing padding. */
  method TrimPadding(s: seq<byte>, ghost kept: seq<byte>) returns (out: seq<byte>)
    requires kept <= s && (forall k | |kept| <= k < |s| :: s[k] == PAD) && PAD !in kept
    ensures out == kept
  {
    out := s;
    while out != [] && out[|out| - 1] == PAD
      invariant kept <= out && forall k | |kept| <= k < |out| :: out[k] == PAD
      decreases |out|
    {
      out := out[..|out| - 1];
    }
  }
}
