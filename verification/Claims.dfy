/** Cutting the measurement claim out of a token's payload, byte for byte. */
module Claims {
  import opened Base

  type Bytes = seq<byte>

  const QUOTE: byte := 34
  const COLON: byte := 58

  predicate IsSpace(b: byte) {
    b == 32 || b == 9 || b == 13 || b == 10
  }

  ghost predicate OccursAt(h: Bytes, n: Bytes, i: nat) {
    i + |n| <= |h| && h[i..i + |n|] == n
  }

  ghost predicate NotBefore(s: Bytes, name: Bytes, start: nat) {
    forall i: nat | i < start :: !OccursAt(s, name, i)
  }

  /** `find_subslice`: the first occurrence. */
  method FindSubslice(haystack: Bytes, needle: Bytes) returns (r: Option<nat>)
    ensures r.Some? ==> OccursAt(haystack, needle, r.value) && NotBefore(haystack, needle, r.value)
    ensures r.None? ==> forall i: nat :: !OccursAt(haystack, needle, i)
  {
    if needle == [] {
      assert haystack[0..0] == [];
      return Some(0);
    }
    if |needle| > |haystack| { return None; }
    var i := 0;
    while i + |needle| <= |haystack|
      invariant NotBefore(haystack, needle, i)
    {
      if haystack[i..i + |needle|] == needle {
        return Some(i);
      }
      i := i + 1;
    }
    r := None;
  }

  /** White space from `i` to `j`, and no further. */
  ghost predicate Spaces(s: Bytes, i: nat, j: nat) {
    && i <= j <= |s| && (forall k | i <= k < j :: IsSpace(s[k]))
    && (j < |s| ==> !IsSpace(s[j]))
  }

  method SkipSpaces(s: Bytes, i: nat) returns (j: nat)
    requires i <= |s|
    ensures Spaces(s, i, j)
  {
    j := i;
    while j < |s| && IsSpace(s[j])
      invariant i <= j <= |s| && forall k | i <= k < j :: IsSpace(s[k])
    {
      j := j + 1;
    }
  }

  /** From `start` through `end`: the field name, a colon with white space around it, and a quoted
      value, its closing quote the first one after its opening. */
  ghost predicate ClaimAt(s: Bytes, name: Bytes, start: nat, colon: nat, open: nat, end: nat) {
    && OccursAt(s, name, start) && start + |name| <= colon < open < end < |s|
    && (forall k | start + |name| <= k < colon :: IsSpace(s[k])) && s[colon] == COLON
    && (forall k | colon < k < open :: IsSpace(s[k])) && s[open] == QUOTE
    && (forall k | open < k < end :: s[k] != QUOTE) && s[end] == QUOTE
  }

  /** The claim that starts at the field name's first occurrence, if there is one. */
  ghost predicate FirstClaim(s: Bytes, name: Bytes, claim: Bytes) {
    exists start: nat, colon: nat, open: nat, end: nat ::
      NotBefore(s, name, start) && ClaimAt(s, name, start, colon, open, end) && claim == s[start..end + 1]
  }

  /** White space ends at the first byte that is none. */
  lemma SpacesEnd(s: Bytes, i: nat, j: nat, c: nat)
    requires Spaces(s, i, j) && i <= c < |s| && !IsSpace(s[c]) && forall k | i <= k < c :: IsSpace(s[k])
    ensures c == j
  {
  }

  lemma ClaimParts(s: Bytes, name: Bytes, start: nat, c: nat, o: nat, e: nat, colon: nat, open: nat)
    requires ClaimAt(s, name, start, c, o, e) && Spaces(s, start + |name|, colon)
    ensures c == colon && (Spaces(s, colon + 1, open) ==> o == open)
  {
    SpacesEnd(s, start + |name|, colon, c);
    if Spaces(s, colon + 1, open) {
      SpacesEnd(s, colon + 1, open, o);
    }
  }

  lemma ClaimUnique(s: Bytes, name: Bytes, start: nat, c1: nat, o1: nat, e1: nat, c2: nat, o2: nat, e2: nat)
    requires ClaimAt(s, name, start, c1, o1, e1) && ClaimAt(s, name, start, c2, o2, e2)
    ensures c1 == c2 && o1 == o2 && e1 == e2
  {
    ClaimParts(s, name, start, c2, o2, e2, c1, o1);
  }

  lemma FirstIsUnique(s: Bytes, name: Bytes, i: nat, j: nat)
    requires OccursAt(s, name, i) && NotBefore(s, name, i) && OccursAt(s, name, j) && NotBefore(s, name, j)
    ensures i == j
  {
  }

  /** The claim bytes are determined by the payload and the field name. */
  lemma FirstClaimUnique(s: Bytes, name: Bytes, x: Bytes, y: Bytes)
    requires FirstClaim(s, name, x) && FirstClaim(s, name, y)
    ensures x == y
  {
    var i: nat, c1: nat, o1: nat, e1: nat :| NotBefore(s, name, i)
                                             && ClaimAt(s, name, i, c1, o1, e1) && x == s[i..e1 + 1];
    var j: nat, c2: nat, o2: nat, e2: nat :| NotBefore(s, name, j)
                                             && ClaimAt(s, name, j, c2, o2, e2) && y == s[j..e2 + 1];
    FirstIsUnique(s, name, i, j);
    ClaimUnique(s, name, i, c1, o1, e1, c2, o2, e2);
  }

  /** A literal part of the payload that the contract's substring search finds again. */
  lemma ClaimIsSubstring(s: Bytes, name: Bytes, claim: Bytes)
    requires FirstClaim(s, name, claim)
    ensures exists i: nat :: OccursAt(s, claim, i) && OccursAt(claim, name, 0)
  {
    var i: nat, c1: nat, o1: nat, e1: nat :| NotBefore(s, name, i)
                                             && ClaimAt(s, name, i, c1, o1, e1) && claim == s[i..e1 + 1];
    assert OccursAt(s, claim, i);
    assert claim[0..|name|] == s[i..i + |name|];
  }

  /** The scan for one field name. */
  method ScanFor(s: Bytes, name: Bytes) returns (r: Option<Bytes>)
    ensures r.Some? ==> FirstClaim(s, name, r.value)
    ensures r.None? ==> forall claim :: !FirstClaim(s, name, claim)
  {
    var found := FindSubslice(s, name);
    if found.None? { return None; }
    var start := found.value;
    var i := SkipSpaces(s, start + |name|);
    if i >= |s| || s[i] != COLON {
      NoColonNoClaim(s, name, start, i);
      return None;
    }
    var open := SkipSpaces(s, i + 1);
    if open >= |s| || s[open] != QUOTE {
      NoQuoteNoClaim(s, name, start, i, open);
      return None;
    }
    var j := open + 1;
    while j < |s| && s[j] != QUOTE
      invariant open < j <= |s| && forall k | open < k < j :: s[k] != QUOTE
    {
      j := j + 1;
    }
    if j >= |s| {
      NoEndNoClaim(s, name, start, i, open);
      return None;
    }
    assert ClaimAt(s, name, start, i, open, j);
    r := Some(s[start..j + 1]);
  }

  lemma NoColonNoClaim(s: Bytes, name: Bytes, start: nat, i: nat)
    requires OccursAt(s, name, start) && NotBefore(s, name, start)
    requires Spaces(s, start + |name|, i) && (i >= |s| || s[i] != COLON)
    ensures forall claim :: !FirstClaim(s, name, claim)
  {
    forall c: nat, o: nat, e: nat ensures !ClaimAt(s, name, start, c, o, e) {
      if ClaimAt(s, name, start, c, o, e) {
        ClaimParts(s, name, start, c, o, e, i, i);
        assert false;
      }
    }
  }

  lemma NoQuoteNoClaim(s: Bytes, name: Bytes, start: nat, colon: nat, i: nat)
    requires OccursAt(s, name, start) && NotBefore(s, name, start)
    requires Spaces(s, start + |name|, colon) && colon < |s| && s[colon] == COLON
    requires Spaces(s, colon + 1, i) && (i >= |s| || s[i] != QUOTE)
    ensures forall claim :: !FirstClaim(s, name, claim)
  {
    forall c: nat, o: nat, e: nat ensures !ClaimAt(s, name, start, c, o, e) {
      if ClaimAt(s, name, start, c, o, e) {
        ClaimParts(s, name, start, c, o, e, colon, i);
        assert false;
      }
    }
  }

  lemma NoEndNoClaim(s: Bytes, name: Bytes, start: nat, colon: nat, open: nat)
    requires OccursAt(s, name, start) && NotBefore(s, name, start)
    requires Spaces(s, start + |name|, colon) && colon < |s| && s[colon] == COLON
    requires Spaces(s, colon + 1, open) && open < |s| && s[open] == QUOTE
    requires forall k | open < k < |s| :: s[k] != QUOTE
    ensures forall claim :: !FirstClaim(s, name, claim)
  {
    forall c: nat, o: nat, e: nat ensures !ClaimAt(s, name, start, c, o, e) {
      if ClaimAt(s, name, start, c, o, e) {
        ClaimParts(s, name, start, c, o, e, colon, open);
        assert false;
      }
    }
  }

  function Ascii(s: string): Bytes
    requires forall i | 0 <= i < |s| :: (s[i] as int) < 256
  {
    seq(|s|, i requires 0 <= i < |s| => s[i] as int)
  }

  const PROD_NAME: Bytes := Ascii("\"x-ms-sevsnpvm-launchmeasurement\"")
  const TEST_NAME: Bytes := Ascii("\"vm_measurement\"")

  /** `vm_measurement_claim_bytes`: the production field first, then the fallback; refused exactly
      when neither field's first occurrence starts a claim. */
  method VmMeasurementClaimBytes(payload: Bytes) returns (r: Option<Bytes>)
    ensures r.Some? ==> FirstClaim(payload, PROD_NAME, r.value) || FirstClaim(payload, TEST_NAME, r.value)
    ensures forall claim | FirstClaim(payload, PROD_NAME, claim) :: r == Some(claim)
    ensures r.None? <==> forall claim :: !FirstClaim(payload, PROD_NAME, claim) && !FirstClaim(payload, TEST_NAME, claim)
  {
    r := ScanFor(payload, PROD_NAME);
    if r.Some? {
      forall claim | FirstClaim(payload, PROD_NAME, claim) ensures r == Some(claim) {
        FirstClaimUnique(payload, PROD_NAME, claim, r.value);
      }
      return;
    }
    r := ScanFor(payload, TEST_NAME);
  }
}
