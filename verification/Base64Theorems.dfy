/** What the base64url decoder promises: the encoder's inverse, exactly the well-formed texts accepted,
    and nothing cut short. */
module Base64Theorems {
  import opened Base
  import opened Base64

  // ---- round trip -----------------------------------------------------------------------------

  /** The padding `n` bytes need. */
  function Pads(n: nat): seq<byte> {
    if n % 3 == 1 then [PAD, PAD] else if n % 3 == 2 then [PAD] else []
  }

  /** The three bytes of four sextets made from them. */
  lemma Join(a: byte, b: byte, c: byte)
    ensures a / 4 * 4 + (a % 4 * 16 + b / 16) / 16 == a
    ensures (a % 4 * 16 + b / 16) % 16 * 16 + (b % 16 * 4 + c / 64) / 4 == b
    ensures (b % 16 * 4 + c / 64) % 4 * 64 + c % 64 == c
  {
    Quotient(a % 4, b / 16, 16);
    Quotient(b % 16, c / 64, 4);
  }

  lemma SextetsOf(s: seq<byte>, at: nat, q: seq<byte>)
    requires at + 4 <= |s| && s[at..at + 4] == q
    ensures Sextets(s, at) == [Sextet(q[0]), Sextet(q[1]), Sextet(q[2]), Sextet(q[3])]
  {
    assert s[at] == q[0] && s[at + 1] == q[1] && s[at + 2] == q[2] && s[at + 3] == q[3];
  }

  lemma ThreeRoundTrip(a: byte, b: byte, c: byte, at: nat, last: bool)
    ensures Quartet([a / 4, a % 4 * 16 + b / 16, b % 16 * 4 + c / 64, c % 64], at, last) == Ok([a, b, c])
  {
    Join(a, b, c);
  }

  lemma TwoRoundTrip(a: byte, b: byte, at: nat)
    ensures Quartet([a / 4, a % 4 * 16 + b / 16, b % 16 * 4, -2], at, true) == Ok([a, b])
    ensures Quartet([a / 4, a % 4 * 16, -2, -2], at, true) == Ok([a])
  {
    Join(a, b, 0);
    Join(a, 0, 0);
  }

  /** One group of three bytes, or a last shorter one, survives the trip. */
  lemma GroupRoundTrip(g: seq<byte>, s: seq<byte>, at: nat, last: bool)
    requires 1 <= |g| <= 3 && (|g| < 3 ==> last)
    requires at + 4 <= |s| && s[at..at + 4] == Letters(g) + Pads(|g|)
    ensures Quartet(Sextets(s, at), at, last) == Ok(g)
  {
    var a, b, c := g[0], if |g| > 1 then g[1] else 0, if |g| > 2 then g[2] else 0;
    SextetsOf(s, at, Letters(g) + Pads(|g|));
    LetterSextet(a / 4);
    LetterSextet(a % 4 * 16 + b / 16);
    LetterSextet(b % 16 * 4 + c / 64);
    LetterSextet(c % 64);
    if |g| == 3 {
      assert g == [a, b, c];
      ThreeRoundTrip(a, b, c, at, last);
    } else {
      assert g == if |g| == 2 then [a, b] else [a];
      TwoRoundTrip(a, b, at);
    }
  }

  lemma LastGroupDecodes(s: seq<byte>, pre: seq<byte>, ls: seq<byte>, pads: seq<byte>, g: seq<byte>)
    requires 1 <= |g| <= 3 && ls == Letters(g) && pads == Pads(|g|) && s == pre + ls + pads
    ensures DecodeFrom(s, |pre|) == Ok(g)
  {
    assert s[|pre|..|pre| + 4] == ls + pads;
    GroupRoundTrip(g, s, |pre|, true);
    LastDecodes(s, |pre|, Quartet(Sextets(s, |pre|), |pre|, true));
  }

  lemma LastDecodes(s: seq<byte>, at: nat, q: Result<seq<byte>, Base64Error>)
    requires at + 4 == |s| && q == Quartet(Sextets(s, at), at, true)
    ensures DecodeFrom(s, at) == q
  {
    assert DecodeFrom(s, at + 4) == Ok([]);
    if q.Ok? {
      assert q.value + [] == q.value;
    }
  }

  lemma FirstGroupDecodes(s: seq<byte>, pre: seq<byte>, ls: seq<byte>, g: seq<byte>, tail: seq<byte>)
    requires |g| == 3 && ls == Letters(g) && tail != [] && s == pre + ls + tail
    ensures |pre| + 4 <= |s| && DecodeFrom(s, |pre|) == Prepend(g, DecodeFrom(s, |pre| + 4))
  {
    assert s[|pre|..|pre| + 4] == ls + Pads(3);
    GroupRoundTrip(g, s, |pre|, false);
    NextDecodes(s, |pre|, g);
  }

  lemma NextDecodes(s: seq<byte>, at: nat, g: seq<byte>)
    requires at + 4 < |s| && Quartet(Sextets(s, at), at, false) == Ok(g)
    ensures DecodeFrom(s, at) == Prepend(g, DecodeFrom(s, at + 4))
  {
  }

  lemma DigitsUnfold(data: seq<byte>, g: seq<byte>, rest: seq<byte>)
    requires |data| > 3 && g == data[..3] && rest == data[3..]
    ensures Digits(data) == Letters(g) + Digits(rest)
  {
  }

  lemma DigitsLeft(rest: seq<byte>)
    requires rest != []
    ensures Digits(rest) != []
  {
    DigitsShape(rest);
  }

  lemma PadsOfRest(n: nat)
    ensures Pads(n + 3) == Pads(n)
  {
  }

  /** The letters of a string, group by group, and its padding at the end. */
  lemma {:induction false} DigitsDecode(pre: seq<byte>, data: seq<byte>, s: seq<byte>)
    requires s == pre + Digits(data) + Pads(|data|)
    ensures DecodeFrom(s, |pre|) == Ok(data)
    decreases |data|
  {
    if 0 < |data| <= 3 {
      LastGroupDecodes(s, pre, Letters(data), Pads(|data|), data);
    } else if |data| > 3 {
      var g, rest := data[..3], data[3..];
      var ls, tail := Letters(g), Digits(rest);
      DigitsUnfold(data, g, rest);
      DigitsLeft(rest);
      PadsOfRest(|rest|);
      Regrouped(pre, ls, tail, Pads(|rest|), s);
      FirstGroupDecodes(s, pre, ls, g, tail + Pads(|rest|));
      DigitsDecode(pre + ls, rest, s);
      assert data == g + rest;
    }
  }

  lemma Regrouped(pre: seq<byte>, ls: seq<byte>, tail: seq<byte>, pads: seq<byte>, s: seq<byte>)
    requires s == pre + (ls + tail) + pads
    ensures s == pre + ls + (tail + pads) && s == pre + ls + tail + pads
  {
  }

  lemma UrlAndBack(s: seq<byte>)
    requires forall i | 0 <= i < |s| :: 0 <= Sextet(s[i])
    ensures ToStandard(ToUrl(s)) == s
  {
    forall i | 0 <= i < |s| ensures Standard(Url(s[i])) == s[i] {
      LetterSextet(Sextet(s[i]));
    }
  }

  lemma LengthMod(n: nat, k: nat, r: nat)
    requires n == 3 * k + r && r < 3
    ensures n % 3 == r && (n * 4 + 2) / 3 == 4 * k + (if r == 0 then 0 else r + 1)
  {
  }

  lemma PaddedAre(ds: seq<byte>, n: nat)
    requires |ds| == (n * 4 + 2) / 3
    ensures |ds| % 4 != 1 && Padded(ds) == ds + Pads(n) && |Padded(ds)| % 4 == 0
  {
    LengthMod(n, n / 3, n % 3);
  }

  lemma DigitsPadded(data: seq<byte>)
    ensures Padded(Digits(data)) == [] + Digits(data) + Pads(|data|)
    ensures |Padded(Digits(data))| % 4 == 0 && |Digits(data)| % 4 != 1
  {
    DigitsShape(data);
    PaddedAre(Digits(data), |data|);
  }

  /** Decoding the unpadded url-safe encoding of any byte string gives the string back. */
  lemma UrlRoundTrip(data: seq<byte>)
    ensures UrlDecode(UrlEncode(data)) == Ok(data)
  {
    DigitsShape(data);
    UrlAndBack(Digits(data));
    DigitsPadded(data);
    DigitsDecode([], data, Padded(Digits(data)));
  }

  // ---- which texts are accepted ---------------------------------------------------------------

  predicate IsData(c: byte) {
    0 <= Sextet(c)
  }

  /** From `i` on: characters of the alphabet up to `n`, then at most two pads. */
  ghost predicate DataThenPads(s: seq<byte>, i: nat, n: nat) {
    && i <= n <= |s| <= n + 2
    && (forall j | i <= j < n :: IsData(s[j]))
    && (forall j | n <= j < |s| :: s[j] == PAD)
  }

  ghost predicate Decodable(s: seq<byte>, i: nat) {
    exists n: nat :: DataThenPads(s, i, n)
  }

  lemma LastQuartet(s: seq<byte>, i: nat)
    requires i + 4 == |s|
    ensures Quartet(Sextets(s, i), i, true).Ok? <==> Decodable(s, i)
    ensures forall n: nat | DataThenPads(s, i, n) :: |Quartet(Sextets(s, i), i, true).value| == n - i - 1
  {
    if Quartet(Sextets(s, i), i, true).Ok? {
      var n := if s[i + 2] == PAD then i + 2 else if s[i + 3] == PAD then i + 3 else i + 4;
      assert DataThenPads(s, i, n);
    }
  }

  lemma InnerQuartet(s: seq<byte>, i: nat)
    requires i + 4 < |s| && |s| % 4 == 0 && i % 4 == 0
    ensures Quartet(Sextets(s, i), i, false).Ok? && Decodable(s, i + 4) <==> Decodable(s, i)
    ensures Quartet(Sextets(s, i), i, false).Ok? ==> |Quartet(Sextets(s, i), i, false).value| == 3
  {
    if Decodable(s, i) {
      var n: nat :| DataThenPads(s, i, n);
      assert DataThenPads(s, i + 4, n);
    }
    if Quartet(Sextets(s, i), i, false).Ok? && Decodable(s, i + 4) {
      var n: nat :| DataThenPads(s, i + 4, n);
      assert DataThenPads(s, i, n);
    }
  }

  lemma {:induction false} DecodesIffDecodable(s: seq<byte>, i: nat)
    requires |s| % 4 == 0 && i % 4 == 0 && i < |s|
    ensures DecodeFrom(s, i).Ok? <==> Decodable(s, i)
    ensures forall n: nat | DataThenPads(s, i, n) :: |DecodeFrom(s, i).value| == (n - i) * 3 / 4
    decreases |s| - i
  {
    if i + 4 == |s| {
      LastQuartet(s, i);
      assert DecodeFrom(s, i + 4) == Ok([]);
    } else {
      InnerQuartet(s, i);
      DecodesIffDecodable(s, i + 4);
      forall n: nat | DataThenPads(s, i, n) ensures DataThenPads(s, i + 4, n) {
      }
    }
  }

  /** A text of `n` characters of the url-safe or the standard alphabet, a number not 1 mod 4, followed
      by nothing or by no more padding than completes the last four. */
  ghost predicate Readable(s: seq<byte>, n: nat) {
    && n <= |s| <= (n + 3) / 4 * 4 && n % 4 != 1
    && (forall j | 0 <= j < n :: IsData(Standard(s[j])))
    && (forall j | n <= j < |s| :: s[j] == PAD)
  }

  lemma PaddedIsData(s: seq<byte>, n: nat)
    requires |s| % 4 != 1
    ensures DataThenPads(Padded(ToStandard(s)), 0, n) ==> Readable(s, n)
    ensures Readable(s, n) ==> DataThenPads(Padded(ToStandard(s)), 0, n)
  {
    var t := ToStandard(s);
    var p := Padded(t);
    if DataThenPads(p, 0, n) {
      assert n <= |s| by {
        assert |s| < |p| ==> p[|s|] == PAD;
        assert !IsData(PAD);
      }
      forall j | 0 <= j < n ensures IsData(Standard(s[j])) {
        assert p[j] == t[j];
      }
      forall j | n <= j < |s| ensures s[j] == PAD {
        assert p[j] == t[j];
      }
    }
  }

  /** The decoder accepts exactly the readable texts, and reads them whole: any foreign character,
      misplaced or excess padding or a length of 1 mod 4 is an error, and `n` characters give
      floor(6n / 8) bytes, never fewer. */
  lemma AcceptsExactlyReadable(s: seq<byte>)
    ensures UrlDecode(s).Ok? <==> exists n: nat :: Readable(s, n)
    ensures forall n: nat | Readable(s, n) :: |UrlDecode(s).value| == n * 6 / 8
  {
    var p := Padded(ToStandard(s));
    if |s| == 0 {
      assert Readable(s, 0);
    } else if |s| % 4 != 1 {
      DecodesIffDecodable(p, 0);
      forall n: nat ensures Readable(s, n) <==> DataThenPads(p, 0, n) {
        PaddedIsData(s, n);
      }
      if Decodable(p, 0) {
        var n: nat :| DataThenPads(p, 0, n);
        assert Readable(s, n);
      }
    }
  }

  // ---- nothing but the last letter's unused bits is lost --------------------------------------

  /** Are the bits of the last letter that no byte uses zero? */
  predicate NoStrayBits(s: seq<byte>, n: nat)
    requires n <= |s|
  {
    (n % 4 == 2 ==> Sextet(s[n - 1]) % 16 == 0) && (n % 4 == 3 ==> Sextet(s[n - 1]) % 4 == 0)
  }

  /** What encoding a decoded quartet gives. */
  lemma ThreeLetters(v: seq<int>, at: nat, last: bool)
    requires |v| == 4 && forall j | 0 <= j < 4 :: 0 <= v[j] < 64
    ensures Quartet(v, at, last).Ok? && |Quartet(v, at, last).value| == 3
    ensures Letters(Quartet(v, at, last).value) == [Letter(v[0]), Letter(v[1]), Letter(v[2]), Letter(v[3])]
  {
    var q := Quartet(v, at, last).value;
    assert q == [q[0], q[1], q[2]];
    Unjoin(v[0], v[1], v[2], v[3]);
  }

  lemma TwoLetters(v: seq<int>, at: nat)
    requires |v| == 4 && (forall j | 0 <= j < 3 :: 0 <= v[j] < 64) && v[3] == -2
    ensures Quartet(v, at, true).Ok? && |Quartet(v, at, true).value| == 2
    ensures Letters(Quartet(v, at, true).value) == [Letter(v[0]), Letter(v[1]), Letter(v[2] / 4 * 4)]
  {
    var q := Quartet(v, at, true).value;
    assert q == [q[0], q[1]];
    Unjoin(v[0], v[1], v[2], 0);
  }

  lemma OneLetters(v: seq<int>, at: nat)
    requires |v| == 4 && (forall j | 0 <= j < 2 :: 0 <= v[j] < 64) && v[2] == v[3] == -2
    ensures Quartet(v, at, true).Ok? && |Quartet(v, at, true).value| == 1
    ensures Letters(Quartet(v, at, true).value) == [Letter(v[0]), Letter(v[1] / 16 * 16)]
  {
    var q := Quartet(v, at, true).value;
    assert q == [q[0]];
    Unjoin(v[0], v[1], 0, 0);
  }

  /** The four sextets of three bytes made from them. */
  lemma Unjoin(x: nat, y: nat, z: nat, w: nat)
    requires x < 64 && y < 64 && z < 64 && w < 64
    ensures var a, b, c := x * 4 + y / 16, y % 16 * 16 + z / 4, z % 4 * 64 + w;
            && a / 4 == x && a % 4 * 16 + b / 16 == y && b % 16 * 4 + c / 64 == z && c % 64 == w
            && a % 4 * 16 == y / 16 * 16 && b % 16 * 4 == z / 4 * 4
  {
    Quotient(x, y / 16, 4);
    Quotient(y % 16, z / 4, 16);
    Quotient(z % 4, w, 64);
  }

  /** A letter rounded down to its top bits is itself exactly when the others are zero. */
  lemma RoundedLetter(c: byte)
    requires IsData(c)
    ensures Letter(Sextet(c) / 16 * 16) == c <==> Sextet(c) % 16 == 0
    ensures Letter(Sextet(c) / 4 * 4) == c <==> Sextet(c) % 4 == 0
  {
    LetterSextet(Sextet(c) / 16 * 16);
    LetterSextet(Sextet(c) / 4 * 4);
  }

  /** `d` spells what `s` has from `i` to `n`, except perhaps for stray bits in the last letter. */
  ghost predicate Spells(d: seq<byte>, s: seq<byte>, i: nat, n: nat) {
    && i < n <= |s| && |d| == n - i
    && (forall j | 0 <= j < n - i - 1 :: d[j] == s[i + j])
    && (d[n - i - 1] == s[n - 1] <==> NoStrayBits(s, n))
  }

  lemma FourSpell(ls: seq<byte>, s: seq<byte>, i: nat)
    requires i + 4 <= |s| && i % 4 == 0 && ls == s[i..i + 4]
    ensures Spells(ls, s, i, i + 4) && NoStrayBits(s, i + 4)
  {
  }

  lemma FewerSpell(ls: seq<byte>, s: seq<byte>, i: nat, n: nat)
    requires i + 2 <= n <= i + 3 && n <= |s| && i % 4 == 0 && |ls| == n - i && IsData(s[n - 1])
    requires forall j | 0 <= j < n - i - 1 :: ls[j] == s[i + j]
    requires ls[n - i - 1] == Letter(if n == i + 2 then Sextet(s[n - 1]) / 16 * 16 else Sextet(s[n - 1]) / 4 * 4)
    ensures Spells(ls, s, i, n)
  {
    RoundedLetter(s[n - 1]);
  }

  /** The bytes of a quartet with `n - i` letters, and what they spell. */
  lemma WholeQuartetSpells(s: seq<byte>, i: nat, last: bool, q: Result<seq<byte>, Base64Error>)
    requires i + 4 <= |s| && i % 4 == 0 && q == Quartet(Sextets(s, i), i, last)
    requires forall j | i <= j < i + 4 :: IsData(s[j])
    ensures q.Ok? && |q.value| == 3 && Spells(Letters(q.value), s, i, i + 4) && NoStrayBits(s, i + 4)
  {
    ThreeLetters(Sextets(s, i), i, last);
    assert Letters(q.value) == s[i..i + 4];
    FourSpell(Letters(q.value), s, i);
  }

  lemma LastQuartetSpells(s: seq<byte>, i: nat, n: nat, q: Result<seq<byte>, Base64Error>)
    requires i + 4 == |s| && i % 4 == 0 && q == Quartet(Sextets(s, i), i, true) && DataThenPads(s, i, n)
    ensures q.Ok? && |q.value| == n - i - 1 && Spells(Letters(q.value), s, i, n)
  {
    if n == i + 2 {
      OneLetters(Sextets(s, i), i);
      FewerSpell(Letters(q.value), s, i, n);
    } else if n == i + 3 {
      TwoLetters(Sextets(s, i), i);
      FewerSpell(Letters(q.value), s, i, n);
    } else {
      WholeQuartetSpells(s, i, true, q);
    }
  }

  lemma SpellsMore(d: seq<byte>, rest: seq<byte>, s: seq<byte>, i: nat, n: nat)
    requires Spells(d, s, i, i + 4) && NoStrayBits(s, i + 4) && Spells(rest, s, i + 4, n)
    ensures Spells(d + rest, s, i, n)
  {
    forall j | 0 <= j < n - i - 1 ensures (d + rest)[j] == s[i + j] {
      if j >= 4 {
        assert rest[j - 4] == s[i + 4 + (j - 4)];
      }
    }
  }

  lemma {:induction false} DecodedSpells(s: seq<byte>, i: nat, n: nat)
    requires |s| % 4 == 0 && i % 4 == 0 && i < |s| && DataThenPads(s, i, n) && DecodeFrom(s, i).Ok?
    ensures Spells(Digits(DecodeFrom(s, i).value), s, i, n)
    decreases |s| - i
  {
    if i + 4 == |s| {
      var q := Quartet(Sextets(s, i), i, true);
      LastQuartetSpells(s, i, n, q);
      LastDecodes(s, i, q);
      LettersAreDigits(q.value);
    } else {
      var q := Quartet(Sextets(s, i), i, false);
      WholeQuartetSpells(s, i, false, q);
      DecodedSpells(s, i + 4, n);
      var rest := DecodeFrom(s, i + 4).value;
      InnerDigits(s, i, q.value, rest);
      SpellsMore(Letters(q.value), Digits(rest), s, i, n);
    }
  }

  lemma LettersAreDigits(g: seq<byte>)
    requires 1 <= |g| <= 3
    ensures Digits(g) == Letters(g)
  {
  }

  lemma InnerDigits(s: seq<byte>, i: nat, q: seq<byte>, rest: seq<byte>)
    requires i + 4 < |s| && Quartet(Sextets(s, i), i, false) == Ok(q) && |q| == 3 && DecodeFrom(s, i + 4) == Ok(rest)
    ensures DecodeFrom(s, i).Ok? && Digits(DecodeFrom(s, i).value) == Letters(q) + Digits(rest)
  {
    DigitsAppend(q, rest);
  }

  /** Re-encoding what a text decodes to gives the text back, in the url-safe alphabet and without
      padding, letter for letter up to the last; and the last too exactly when it has no stray bits. */
  lemma ReencodesExactlyWithoutStrayBits(s: seq<byte>, n: nat)
    requires Readable(s, n) && UrlDecode(s).Ok? && 0 < n
    ensures var again := UrlEncode(UrlDecode(s).value);
            && |again| == n && (forall j | 0 <= j < n - 1 :: again[j] == Url(Standard(s[j])))
            && (again == ToUrl(ToStandard(s[..n])) <==> NoStrayBits(ToStandard(s), n))
  {
    var t := ToStandard(s);
    PaddedIsData(s, n);
    DecodedSpells(Padded(t), 0, n);
    DigitsShape(UrlDecode(s).value);
    PaddingSpells(Digits(UrlDecode(s).value), t, n);
    SpelledInUrl(Digits(UrlDecode(s).value), s, n);
  }

  lemma PaddingSpells(d: seq<byte>, t: seq<byte>, n: nat)
    requires 0 < n <= |t| && Spells(d, Padded(t), 0, n)
    ensures Spells(d, t, 0, n)
  {
    assert forall j | 0 <= j < n :: Padded(t)[j] == t[j];
  }

  lemma SpelledInUrl(d: seq<byte>, s: seq<byte>, n: nat)
    requires 0 < n <= |s| && Spells(d, ToStandard(s), 0, n) && IsData(d[n - 1]) && IsData(Standard(s[n - 1]))
    ensures |ToUrl(d)| == n && (forall j | 0 <= j < n - 1 :: ToUrl(d)[j] == Url(Standard(s[j])))
    ensures ToUrl(d) == ToUrl(ToStandard(s[..n])) <==> NoStrayBits(ToStandard(s), n)
  {
    var want := ToUrl(ToStandard(s[..n]));
    UrlInjective(d[n - 1], Standard(s[n - 1]));
    assert want[n - 1] == Url(Standard(s[n - 1]));
    assert ToUrl(d)[n - 1] == Url(d[n - 1]);
  }

  lemma UrlInjective(a: byte, b: byte)
    requires IsData(a) && IsData(b)
    ensures Url(a) == Url(b) <==> a == b
  {
  }
}
