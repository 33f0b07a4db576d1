/** What the base64 decoders name when they refuse a text: its first fault, and where it is. */
module Base64Faults {
  import opened Base
  import opened Base64
  import opened Base64Theorems

  predicate Foreign(c: byte) {
    c != PAD && !IsData(c)
  }

  /** What is wrong with the four characters from `q` on. */
  ghost predicate FaultAt(s: seq<byte>, q: nat, e: Base64Error)
    requires q + 4 <= |s|
  {
    match e
    case InvalidChar(k) => q <= k < q + 4 && Foreign(s[k]) && forall j | q <= j < k :: !Foreign(s[j])
    case PaddingInFront(k) => k == q && (forall j | q <= j < q + 4 :: !Foreign(s[j])) && (s[q] == PAD || s[q + 1] == PAD)
    case PaddingBeforeFinal(k) =>
      k == q && q + 4 < |s| && IsData(s[q]) && IsData(s[q + 1]) && !Foreign(s[q + 2]) && !Foreign(s[q + 3])
      && (s[q + 2] == PAD || s[q + 3] == PAD)
    case DataAfterPadding(k) => k == q && q + 4 == |s| && IsData(s[q]) && IsData(s[q + 1]) && s[q + 2] == PAD && IsData(s[q + 3])
    case _ => false
  }

  /** The first four characters that are wrong, all before them from `i` on of the alphabet. */
  ghost predicate FirstFault(s: seq<byte>, i: nat, e: Base64Error) {
    exists q: nat :: FaultFound(s, i, q, e)
  }

  ghost predicate FaultFound(s: seq<byte>, i: nat, q: nat, e: Base64Error) {
    i <= q && q + 4 <= |s| && (q - i) % 4 == 0 && (forall j | i <= j < q :: IsData(s[j])) && FaultAt(s, q, e)
  }

  lemma QuartetFaults(s: seq<byte>, i: nat, e: Base64Error)
    requires i + 4 <= |s|
    ensures Quartet(Sextets(s, i), i, i + 4 == |s|) == Err(e) <==> FaultAt(s, i, e)
    ensures Quartet(Sextets(s, i), i, i + 4 == |s|).Ok? && i + 4 < |s| ==> forall j | i <= j < i + 4 :: IsData(s[j])
    ensures (forall j | i <= j < i + 4 :: IsData(s[j])) ==> Quartet(Sextets(s, i), i, i + 4 == |s|).Ok?
  {
  }

  lemma {:induction false} DecodeFaults(s: seq<byte>, i: nat, e: Base64Error)
    requires |s| % 4 == 0 && i % 4 == 0 && i <= |s|
    ensures DecodeFrom(s, i) == Err(e) <==> FirstFault(s, i, e)
    decreases |s| - i
  {
    if i + 4 <= |s| {
      QuartetFaults(s, i, e);
      DecodeFaults(s, i + 4, e);
      if Quartet(Sextets(s, i), i, i + 4 == |s|).Ok? {
        LaterFault(s, i, e);
      } else {
        NoLaterFault(s, i, e);
      }
    }
  }

  lemma LaterFault(s: seq<byte>, i: nat, e: Base64Error)
    requires i + 4 <= |s| && |s| % 4 == 0 && i % 4 == 0 && Quartet(Sextets(s, i), i, i + 4 == |s|).Ok?
    ensures FirstFault(s, i, e) <==> FirstFault(s, i + 4, e)
  {
    QuartetFaults(s, i, e);
    var next := i + 4;
    if q: nat :| FaultFound(s, i, q, e) {
      assert FaultFound(s, next, q, e);
    }
    if q: nat :| FaultFound(s, next, q, e) {
      assert FaultFound(s, i, q, e);
    }
  }

  lemma NoLaterFault(s: seq<byte>, i: nat, e: Base64Error)
    requires i + 4 <= |s| && |s| % 4 == 0 && i % 4 == 0 && Quartet(Sextets(s, i), i, i + 4 == |s|).Err?
    ensures FirstFault(s, i, e) <==> FaultAt(s, i, e)
  {
    QuartetFaults(s, i, e);
    if FaultAt(s, i, e) {
      assert FaultFound(s, i, i, e);
    }
    forall q: nat | FaultFound(s, i, q, e) ensures q == i {
    }
  }

  /** A text is refused for its length, or, brought to the standard alphabet and padded, with exactly the first
      fault it has and where it has it. */
  lemma RefusalNamesTheFault(s: seq<byte>, e: Base64Error)
    ensures UrlDecode(s) == Err(e)
       <==> if |s| % 4 == 1 then e == InvalidLength else FirstFault(Padded(ToStandard(s)), 0, e)
    ensures StandardDecode(s) == Err(e) <==> if |s| % 4 != 0 then e == NonMod4Length else FirstFault(s, 0, e)
  {
    if |s| % 4 != 1 {
      DecodeFaults(Padded(ToStandard(s)), 0, e);
    }
    if |s| % 4 == 0 {
      DecodeFaults(s, 0, e);
    }
  }
}
