/** Fitting a review's findings to one filing: `trim` and `fit` (crates/jkb-api/src/review.rs). */
module Filing {
  import opened Wrappers

  const MAX_SUMMARY_BYTES: nat := 2048
  const MAX_DETAIL_BYTES: nat := 32 * 1024
  const MAX_FILING_BYTES: nat := 768 * 1024
  const MIN_TRIMMED_BYTES: nat := 256

  type Byte = b: int | 0 <= b < 256

  type Text = seq<Byte>

  // ---------------------------------------------------------------------------------------
  // UTF-8, section 4 of RFC 3629
  // ---------------------------------------------------------------------------------------

  predicate IsTail(b: Byte) {
    0x80 <= b <= 0xBF
  }

  /** The length of the character `s` begins with; 0 when it begins with none. */
  function CharLength(s: Text): (n: nat)
    ensures n <= |s| && n <= 4
    ensures n > 0 ==> !IsTail(s[0]) && forall i :: 1 <= i < n ==> IsTail(s[i])
  {
    if |s| >= 1 && s[0] <= 0x7F then 1
    else if |s| >= 2 && 0xC2 <= s[0] <= 0xDF && IsTail(s[1]) then 2
    else if |s| >= 3 && ThreeByteStart(s[0], s[1]) && IsTail(s[2]) then 3
    else if |s| >= 4 && FourByteStart(s[0], s[1]) && IsTail(s[2]) && IsTail(s[3]) then 4
    else 0
  }

  predicate ThreeByteStart(a: Byte, b: Byte) {
    || (a == 0xE0 && 0xA0 <= b <= 0xBF)
    || (0xE1 <= a <= 0xEC && IsTail(b))
    || (a == 0xED && 0x80 <= b <= 0x9F)
    || (0xEE <= a <= 0xEF && IsTail(b))
  }

  predicate FourByteStart(a: Byte, b: Byte) {
    || (a == 0xF0 && 0x90 <= b <= 0xBF)
    || (0xF1 <= a <= 0xF3 && IsTail(b))
    || (a == 0xF4 && 0x80 <= b <= 0x8F)
  }

  predicate ValidUtf8(s: Text) {
    s == [] || (CharLength(s) > 0 && ValidUtf8(s[CharLength(s)..]))
  }

  /** `str::is_char_boundary`: a test of one byte. */
  predicate IsCharBoundary(s: Text, i: nat) {
    i == 0 || i == |s| || (i < |s| && !IsTail(s[i]))
  }

  lemma SameFirstChar(a: Text, b: Text)
    requires CharLength(a) > 0
    ensures CharLength(a + b) == CharLength(a)
  {
  }

  lemma {:induction false} ValidAppend(a: Text, b: Text)
    requires ValidUtf8(a) && ValidUtf8(b)
    ensures ValidUtf8(a + b)
  {
    if a == [] {
      assert a + b == b;
    } else {
      hide CharLength;
      var n := CharLength(a);
      SameFirstChar(a, b);
      assert (a + b)[n..] == a[n..] + b;
      ValidAppend(a[n..], b);
    }
  }

  /** The byte test finds the real boundaries: cutting valid text there leaves valid text. */
  lemma {:induction false} BoundaryCuts(s: Text, i: nat)
    requires ValidUtf8(s) && i <= |s| && IsCharBoundary(s, i)
    ensures ValidUtf8(s[..i]) && ValidUtf8(s[i..])
  {
    if i == 0 {
      assert s[0..] == s;
    } else {
      var n := CharLength(s);
      var rest := s[n..];
      assert i < |s| ==> rest[i - n] == s[i];
      BoundaryCuts(rest, i - n);
      assert rest[i - n..] == s[i..];
      FirstCharIsValid(s);
      assert s == s[..n] + rest;
      assert s[..i] == s[..n] + rest[..i - n];
      ValidAppend(s[..n], rest[..i - n]);
    }
  }

  lemma FirstCharIsValid(s: Text)
    ensures ValidUtf8(s[..CharLength(s)])
  {
    var n := CharLength(s);
    assert s[..n][n..] == [];
    assert CharLength(s[..n]) == n;
  }

  /** And finds all of them: where both sides are valid text, the byte test holds. */
  lemma CutsAreBoundaries(s: Text, i: nat)
    requires i <= |s| && ValidUtf8(s[i..])
    ensures IsCharBoundary(s, i)
  {
    if i < |s| {
      assert s[i..][0] == s[i];
    }
  }

  /** No character is longer than four bytes, so a boundary is never more than three bytes back. */
  lemma {:induction false} BoundaryNear(s: Text, i: nat) returns (j: nat)
    requires ValidUtf8(s) && i <= |s|
    ensures j <= i <= j + 3 && IsCharBoundary(s, j)
  {
    var n := CharLength(s);
    if i == |s| {
      j := i;
    } else if i < n {
      j := 0;
    } else {
      j := BoundaryNear(s[n..], i - n);
      assert j < |s[n..]| ==> s[n..][j] == s[n + j];
      if j == 0 && i < |s| {
        assert s[n..] != [] && s[n] == s[n..][0];
      }
      j := j + n;
    }
  }

  // ---------------------------------------------------------------------------------------
  // The marker
  // ---------------------------------------------------------------------------------------

  /** The bytes of an ASCII text; any other character would be a question mark. */
  function Ascii(s: string): (t: Text)
    ensures |t| == |s|
  {
    seq(|s|, i requires 0 <= i < |s| => if s[i] < 128 as char then s[i] as int else 0x3F)
  }

  lemma {:induction false} AsciiIsValid(s: string)
    ensures ValidUtf8(Ascii(s))
  {
    if s != [] {
      AsciiIsValid(s[1..]);
      assert Ascii(s)[1..] == Ascii(s[1..]);
    }
  }

  /** A horizontal ellipsis. */
  const ELLIPSIS: Text := [0xE2, 0x80, 0xA6]

  const CUT_NOTE: string := " (cut to fit one filing; the reviewer's result holds the rest)"

  /** What is appended to a text that was cut. */
  function Marker(): (m: Text)
    ensures |m| == 66 && ValidUtf8(m)
  {
    var m := Ascii(" ") + ELLIPSIS + Ascii(CUT_NOTE);
    assert ValidUtf8(m) by {
      AsciiIsValid(" ");
      AsciiIsValid(CUT_NOTE);
      assert ELLIPSIS[3..] == [] && CharLength(ELLIPSIS) == 3;
      ValidAppend(Ascii(" "), ELLIPSIS);
      ValidAppend(Ascii(" ") + ELLIPSIS, Ascii(CUT_NOTE));
    }
    m
  }

  const MARKER_BYTES: nat := 66

  // ---------------------------------------------------------------------------------------
  // Trimming one text
  // ---------------------------------------------------------------------------------------

  /** The last boundary at or before `end`. */
  function Floor(s: Text, end: nat): (e: nat)
    ensures e <= end && IsCharBoundary(s, e)
    ensures forall j :: e < j <= end ==> !IsCharBoundary(s, j)
  {
    if IsCharBoundary(s, end) then end else Floor(s, end - 1)
  }

  /** The bytes of original text a cut at `max` has room for. */
  function Room(max: nat): nat {
    if max < MARKER_BYTES then 0 else max - MARKER_BYTES
  }

  /** `text` cut to `max` bytes: as many whole characters as leave room for the marker, and the marker. */
  function Trimmed(text: Text, max: nat): Text {
    if |text| <= max then text else text[..Floor(text, Room(max))] + Marker()
  }

  method Trim(text: Text, max: nat) returns (r: Text, cut: bool)
    ensures r == Trimmed(text, max)
    ensures cut <==> |text| > max
  {
    if |text| <= max {
      return text, false;
    }
    var end: nat := Room(max);
    while !IsCharBoundary(text, end)
      invariant end <= Room(max)
      invariant Floor(text, end) == Floor(text, Room(max))
      decreases end
    {
      end := end - 1;
    }
    return text[..end] + Marker(), true;
  }

  /** A cut text is valid, is a prefix of the original and one marker, keeps all that fits but for three bytes, and is
      within the limit whenever the marker itself is. */
  lemma CutIsGood(text: Text, max: nat)
    requires ValidUtf8(text) && |text| > max
    ensures var r, kept := Trimmed(text, max), Floor(text, Room(max));
            && ValidUtf8(r)
            && kept <= |text| && r == text[..kept] + Marker()
            && Room(max) <= kept + 3
            && (max >= MARKER_BYTES ==> max - 3 <= |r| <= max)
            && (max < MARKER_BYTES ==> r == Marker())
  {
    var kept := Floor(text, Room(max));
    BoundaryCuts(text, kept);
    ValidAppend(text[..kept], Marker());
    var near := BoundaryNear(text, Room(max));
    assert near <= kept;
    assert max < MARKER_BYTES ==> text[..kept] == [];
    assert [] + Marker() == Marker();
  }

  lemma TrimmedIsValid(text: Text, max: nat)
    requires ValidUtf8(text)
    ensures ValidUtf8(Trimmed(text, max))
    ensures max >= MARKER_BYTES ==> |Trimmed(text, max)| <= max
    ensures max >= MARKER_BYTES ==> (Trimmed(text, max) != text <==> |text| > max)
  {
    if |text| > max {
      CutIsGood(text, max);
    }
  }

  lemma {:induction false} SameFloor(s: Text, t: Text, kept: nat, end: nat)
    requires kept <= |s| && kept <= |t| && s[..kept] == t[..kept] && (end < kept || end == 0)
    ensures Floor(s, end) == Floor(t, end)
    decreases end
  {
    if end > 0 {
      assert s[end] == s[..kept][end] == t[..kept][end] == t[end];
      SameFloor(s, t, kept, end - 1);
    }
  }

  lemma FloorIs(s: Text, end: nat, e: nat)
    requires e <= end && IsCharBoundary(s, e) && forall j :: e < j <= end ==> !IsCharBoundary(s, j)
    ensures Floor(s, end) == e
  {
  }

  /** Trimming in two steps is trimming once, at the smaller allowance: the first cut is at the last boundary before it,
      and the second either leaves that or cuts inside what was kept. */
  lemma TrimmingTwice(text: Text, a: nat, b: nat)
    requires b <= a
    ensures Trimmed(Trimmed(text, a), b) == Trimmed(text, b)
  {
    if |text| > a {
      var kept, r := Floor(text, Room(a)), Trimmed(text, a);
      assert r[..kept] == text[..kept];
      if |r| <= b {
        FloorIs(text, Room(b), kept);
      } else {
        SameFloor(r, text, kept, Room(b));
        var e := Floor(text, Room(b));
        assert r[..e] == r[..kept][..e] == text[..kept][..e] == text[..e];
      }
    }
  }

  // ---------------------------------------------------------------------------------------
  // Fitting a filing
  // ---------------------------------------------------------------------------------------

  datatype Severity = MustFix | Concern | Nit

  datatype Finding = Finding(
    severity: Severity, summary: Text, file: Option<Text>, line: Option<nat>, scenario: Option<Text>, fix: Option<Text>)

  function TrimmedIn(text: Option<Text>, max: nat): Option<Text> {
    if text.Some? then Some(Trimmed(text.value, max)) else None
  }

  /** A finding whose summary and file were each trimmed once at their limit, and its scenario and fix once at
      `allowance`. */
  function Limited(f: Finding, allowance: nat): Finding {
    f.(summary := Trimmed(f.summary, MAX_SUMMARY_BYTES),
       file := TrimmedIn(f.file, MAX_SUMMARY_BYTES),
       scenario := TrimmedIn(f.scenario, allowance),
       fix := TrimmedIn(f.fix, allowance))
  }

  function LimitAll(fs: seq<Finding>, allowance: nat): (r: seq<Finding>)
    ensures |r| == |fs|
  {
    seq(|fs|, i requires 0 <= i < |fs| => Limited(fs[i], allowance))
  }

  /** The allowances tried, in order. */
  const LADDER: seq<nat> := [32768, 16384, 8192, 4096, 2048, 1024, 512, 256]

  predicate FitsAt(fs: seq<Finding>, size: seq<Finding> -> nat, allowance: nat) {
    size(LimitAll(fs, allowance)) <= MAX_FILING_BYTES
  }

  /** The largest allowance of the ladder, from rung `k` on, at which the filing fits; the last one when none does. */
  function Settled(fs: seq<Finding>, size: seq<Finding> -> nat, k: nat): (i: nat)
    requires k < |LADDER|
    ensures k <= i < |LADDER|
    ensures FitsAt(fs, size, LADDER[i]) || i == |LADDER| - 1
    ensures forall j :: k <= j < i ==> !FitsAt(fs, size, LADDER[j])
    decreases |LADDER| - k
  {
    if FitsAt(fs, size, LADDER[k]) || k == |LADDER| - 1 then k else Settled(fs, size, k + 1)
  }

  /** What fitting a filing gives. */
  function Fitted(fs: seq<Finding>, size: seq<Finding> -> nat): seq<Finding> {
    LimitAll(fs, LADDER[Settled(fs, size, 0)])
  }

  predicate TextOver(text: Option<Text>, max: nat) {
    text.Some? && |text.value| > max
  }

  predicate DetailOver(f: Finding, allowance: nat) {
    TextOver(f.scenario, allowance) || TextOver(f.fix, allowance)
  }

  predicate Over(f: Finding, allowance: nat) {
    |f.summary| > MAX_SUMMARY_BYTES || TextOver(f.file, MAX_SUMMARY_BYTES) || DetailOver(f, allowance)
  }

  predicate SomeOver(fs: seq<Finding>, allowance: nat) {
    exists i :: 0 <= i < |fs| && Over(fs[i], allowance)
  }

  predicate ValidFinding(f: Finding) {
    && ValidUtf8(f.summary)
    && (f.file.Some? ==> ValidUtf8(f.file.value))
    && (f.scenario.Some? ==> ValidUtf8(f.scenario.value))
    && (f.fix.Some? ==> ValidUtf8(f.fix.value))
  }

  /** Trimming one finding's details further is limiting the original at the smaller allowance. */
  lemma LimitedTwice(f: Finding, a: nat, b: nat)
    requires b <= a
    ensures var g := Limited(f, a);
            && g.(scenario := TrimmedIn(g.scenario, b), fix := TrimmedIn(g.fix, b)) == Limited(f, b)
            && (Over(f, b) <==> Over(f, a) || DetailOver(g, b))
  {
    if f.scenario.Some? {
      TrimmingTwice(f.scenario.value, a, b);
    }
    if f.fix.Some? {
      TrimmingTwice(f.fix.value, a, b);
    }
  }

  method TrimIn(text: Option<Text>, max: nat) returns (r: Option<Text>, cut: bool)
    ensures r == TrimmedIn(text, max)
    ensures cut <==> TextOver(text, max)
  {
    match text {
      case None => return None, false;
      case Some(t) =>
        var u, c := Trim(t, max);
        return Some(u), c;
    }
  }

  /** The first pass: every text to its own limit. */
  method TrimAll(findings: array<Finding>) returns (cut: bool)
    modifies findings
    ensures findings[..] == LimitAll(old(findings[..]), MAX_DETAIL_BYTES)
    ensures cut <==> SomeOver(old(findings[..]), MAX_DETAIL_BYTES)
  {
    ghost var was := findings[..];
    cut := false;
    for i := 0 to findings.Length
      invariant findings[i..] == was[i..]
      invariant forall j :: 0 <= j < i ==> findings[j] == Limited(was[j], MAX_DETAIL_BYTES)
      invariant cut <==> SomeOver(was[..i], MAX_DETAIL_BYTES)
    {
      var f := findings[i];
      assert f == findings[i..][0] == was[i];
      var summary, c1 := Trim(f.summary, MAX_SUMMARY_BYTES);
      var file, c2 := TrimIn(f.file, MAX_SUMMARY_BYTES);
      var scenario, c3 := TrimIn(f.scenario, MAX_DETAIL_BYTES);
      var fix, c4 := TrimIn(f.fix, MAX_DETAIL_BYTES);
      findings[i] := f.(summary := summary, file := file, scenario := scenario, fix := fix);
      OverGrows(was, i, MAX_DETAIL_BYTES);
      cut := cut || c1 || c2 || c3 || c4;
    }
    assert was[..findings.Length] == was;
  }

  lemma OverGrows(fs: seq<Finding>, i: nat, allowance: nat)
    requires i < |fs|
    ensures SomeOver(fs[..i + 1], allowance) <==> SomeOver(fs[..i], allowance) || Over(fs[i], allowance)
  {
    if SomeOver(fs[..i], allowance) {
      var j :| 0 <= j < i && Over(fs[..i][j], allowance);
      assert fs[..i + 1][j] == fs[..i][j];
    }
    if Over(fs[i], allowance) {
      assert fs[..i + 1][i] == fs[i];
    }
    if SomeOver(fs[..i + 1], allowance) {
      var j :| 0 <= j < i + 1 && Over(fs[..i + 1][j], allowance);
      assert j < i ==> fs[..i][j] == fs[..i + 1][j];
    }
  }

  /** One round of the ladder: every scenario and fix trimmed further. */
  method TrimDetails(findings: array<Finding>, allowance: nat, ghost was: seq<Finding>, ghost a: nat)
    returns (cut: bool)
    requires findings[..] == LimitAll(was, a) && allowance <= a
    modifies findings
    ensures findings[..] == LimitAll(was, allowance)
    ensures SomeOver(was, allowance) <==> cut || SomeOver(was, a)
  {
    cut := false;
    for i := 0 to findings.Length
      invariant forall j :: 0 <= j < i ==> findings[j] == Limited(was[j], allowance)
      invariant forall j :: i <= j < findings.Length ==> findings[j] == Limited(was[j], a)
      invariant SomeOver(was[..i], allowance) <==> cut || SomeOver(was[..i], a)
    {
      var f := findings[i];
      var scenario, c1 := TrimIn(f.scenario, allowance);
      var fix, c2 := TrimIn(f.fix, allowance);
      findings[i] := f.(scenario := scenario, fix := fix);
      LimitedTwice(was[i], a, allowance);
      OverGrows(was, i, allowance);
      OverGrows(was, i, a);
      cut := cut || c1 || c2;
    }
    assert was[..findings.Length] == was;
  }

  /** Fit the findings to one filing, in place. */
  method Fit(findings: array<Finding>, size: seq<Finding> -> nat) returns (cut: bool)
    requires forall i :: 0 <= i < findings.Length ==> ValidFinding(findings[i])
    modifies findings
    ensures findings[..] == Fitted(old(findings[..]), size)
    ensures cut <==> findings[..] != old(findings[..])
  {
    ghost var was := findings[..];
    cut := TrimAll(findings);
    var allowance := MAX_DETAIL_BYTES;
    ghost var k := 0;
    while size(findings[..]) > MAX_FILING_BYTES && allowance > MIN_TRIMMED_BYTES
      invariant k < |LADDER| && allowance == LADDER[k]
      invariant findings[..] == LimitAll(was, allowance)
      invariant cut <==> SomeOver(was, allowance)
      invariant Settled(was, size, k) == Settled(was, size, 0)
      decreases allowance
    {
      ghost var a := allowance;
      allowance := allowance / 2;
      k := k + 1;
      var more := TrimDetails(findings, allowance, was, a);
      cut := cut || more;
    }
    ChangedExactlyWhenOver(was, allowance);
  }

  lemma LimitedChanges(f: Finding, allowance: nat)
    requires ValidFinding(f) && allowance >= MARKER_BYTES
    ensures Limited(f, allowance) != f <==> Over(f, allowance)
    ensures ValidFinding(Limited(f, allowance)) && !Over(Limited(f, allowance), allowance)
  {
    TrimmedIsValid(f.summary, MAX_SUMMARY_BYTES);
    if f.file.Some? {
      TrimmedIsValid(f.file.value, MAX_SUMMARY_BYTES);
    }
    if f.scenario.Some? {
      TrimmedIsValid(f.scenario.value, allowance);
    }
    if f.fix.Some? {
      TrimmedIsValid(f.fix.value, allowance);
    }
  }

  lemma ChangedExactlyWhenOver(fs: seq<Finding>, allowance: nat)
    requires allowance >= MARKER_BYTES && forall i :: 0 <= i < |fs| ==> ValidFinding(fs[i])
    ensures LimitAll(fs, allowance) != fs <==> SomeOver(fs, allowance)
  {
    forall i | 0 <= i < |fs|
      ensures LimitAll(fs, allowance)[i] != fs[i] <==> Over(fs[i], allowance)
    {
      LimitedChanges(fs[i], allowance);
    }
  }

  /** What a fitted filing keeps: valid texts, all within their limits, and either the filing is within its size or
      every scenario and fix is at the floor. */
  lemma FittedIsWithinLimits(fs: seq<Finding>, size: seq<Finding> -> nat)
    requires forall i :: 0 <= i < |fs| ==> ValidFinding(fs[i])
    ensures var r := Fitted(fs, size);
            && |r| == |fs|
            && (forall i :: 0 <= i < |r| ==> ValidFinding(r[i]) && !Over(r[i], MAX_DETAIL_BYTES))
            && (size(r) <= MAX_FILING_BYTES || forall i :: 0 <= i < |r| ==> !DetailOver(r[i], MIN_TRIMMED_BYTES))
  {
    var k := Settled(fs, size, 0);
    assert MIN_TRIMMED_BYTES <= LADDER[k] <= MAX_DETAIL_BYTES;
    forall i | 0 <= i < |fs|
      ensures ValidFinding(Limited(fs[i], LADDER[k])) && !Over(Limited(fs[i], LADDER[k]), LADDER[k])
    {
      LimitedChanges(fs[i], LADDER[k]);
    }
  }

  /** Which allowance, over sizes: the first of 32768, 16384, … 256 at which the filing is within 768 KiB, or 256. */
  lemma FittedExactly(fs: seq<Finding>, size: seq<Finding> -> nat)
    ensures exists k: nat ::
              && k < 8 && LADDER[k] == [32768, 16384, 8192, 4096, 2048, 1024, 512, 256][k]
              && Fitted(fs, size) == LimitAll(fs, LADDER[k])
              && (size(Fitted(fs, size)) <= 786432 || k == 7)
              && forall j :: 0 <= j < k ==> size(LimitAll(fs, LADDER[j])) > 786432
  {
    var k := Settled(fs, size, 0);
    assert LADDER == [32768, 16384, 8192, 4096, 2048, 1024, 512, 256];
    assert forall j :: 0 <= j < k ==> !FitsAt(fs, size, LADDER[j]);
  }

  /** Each finding of a limited filing is the original with each of its four texts trimmed once: the summary and the
      file to 2048 bytes, the scenario and the fix to the allowance. */
  lemma LimitedExactly(fs: seq<Finding>, allowance: nat, i: nat)
    requires i < |fs|
    ensures var f, r := fs[i], LimitAll(fs, allowance)[i];
            && r.severity == f.severity && r.line == f.line
            && r.summary == Trimmed(f.summary, 2048)
            && (r.file.Some? <==> f.file.Some?) && (f.file.Some? ==> r.file.value == Trimmed(f.file.value, 2048))
            && (r.scenario.Some? <==> f.scenario.Some?)
            && (f.scenario.Some? ==> r.scenario.value == Trimmed(f.scenario.value, allowance))
            && (r.fix.Some? <==> f.fix.Some?) && (f.fix.Some? ==> r.fix.value == Trimmed(f.fix.value, allowance))
  {
  }

  /** Fitting a fitted filing changes nothing. */
  lemma FittingTwice(fs: seq<Finding>, size: seq<Finding> -> nat)
    requires forall i :: 0 <= i < |fs| ==> ValidFinding(fs[i])
    ensures Fitted(Fitted(fs, size), size) == Fitted(fs, size)
  {
    var r := Fitted(fs, size);
    FittedIsWithinLimits(fs, size);
    var k := Settled(r, size, 0);
    if size(r) <= MAX_FILING_BYTES {
      Unlimited(r, MAX_DETAIL_BYTES);
    } else {
      assert forall i :: 0 <= i < |r| ==> !Over(r[i], LADDER[k]);
    }
    Unlimited(r, LADDER[k]);
  }

  lemma Unlimited(fs: seq<Finding>, allowance: nat)
    requires forall i :: 0 <= i < |fs| ==> !Over(fs[i], allowance)
    ensures LimitAll(fs, allowance) == fs
  {
  }
}
