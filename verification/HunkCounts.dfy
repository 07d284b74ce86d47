/**
 `normalizeUnifiedDiffHunkCounts` (scripts/autopilot-dispatch-retry.js): rewrite the two counts of every hunk header of
 a unified diff to what the lines below it contain, in place, and nothing else.
 */
module HunkCounts {
  import opened Prelude
  import opened Text

  // ----- Hunk headers -----

  /** `@@ -old[,count] +new[,count] @@tail`; the numbers are kept as written. */
  datatype Header = Header(oldStart: string, oldCount: Option<string>, newStart: string, newCount: Option<string>,
    tail: string)

  predicate IsNumberText(s: string) {
    |s| > 0 && AllDigits(s)
  }

  /** The `.` of the header pattern does not match a line terminator. */
  predicate IsTail(s: string) {
    forall i :: 0 <= i < |s| ==> s[i] !in {'\n', '\r', '\U{2028}', '\U{2029}'}
  }

  predicate WellFormed(h: Header) {
    && IsNumberText(h.oldStart) && (h.oldCount.Some? ==> IsNumberText(h.oldCount.value))
    && IsNumberText(h.newStart) && (h.newCount.Some? ==> IsNumberText(h.newCount.value))
    && IsTail(h.tail)
  }

  function RangeText(start: string, count: Option<string>): string {
    start + if count.Some? then "," + count.value else ""
  }

  function Render(h: Header): string {
    "@@ -" + (RangeText(h.oldStart, h.oldCount) + (" +" + (RangeText(h.newStart, h.newCount) + (" @@" + h.tail))))
  }

  datatype Range = Range(start: string, count: Option<string>, rest: string)

  /** `(\d+)(?:,\d+)?` at the start of a text. */
  function ParseRange(s: string): (r: Option<Range>)
    ensures r.Some? ==> IsNumberText(r.value.start) && (r.value.count.Some? ==> IsNumberText(r.value.count.value))
    ensures r.Some? ==> s == RangeText(r.value.start, r.value.count) + r.value.rest
  {
    var n := DigitRun(s);
    if n == 0 then None
    else if n + 1 < |s| && s[n] == ',' && DigitRun(s[n + 1..]) > 0 then
      var m := DigitRun(s[n + 1..]);
      assert s == (s[..n] + ("," + s[n + 1..][..m])) + s[n + 1..][m..];
      Some(Range(s[..n], Some(s[n + 1..][..m]), s[n + 1..][m..]))
    else
      assert s == (s[..n] + "") + s[n..];
      Some(Range(s[..n], None, s[n..]))
  }

  function ParseHeader(line: string): (h: Option<Header>)
  {
    if !StartsWith(line, "@@ -") then None
    else
      var oldRange := ParseRange(line[4..]);
      if oldRange.None? || !StartsWith(oldRange.value.rest, " +") then None
      else
        var newRange := ParseRange(oldRange.value.rest[2..]);
        if newRange.None? || !StartsWith(newRange.value.rest, " @@") || !IsTail(newRange.value.rest[3..]) then None
        else
          Some(Header(oldRange.value.start, oldRange.value.count, newRange.value.start, newRange.value.count,
            newRange.value.rest[3..]))
  }

  /** A recognised header is its fields and nothing else. */
  lemma HeaderText(line: string)
    requires ParseHeader(line).Some?
    ensures WellFormed(ParseHeader(line).value) && line == Render(ParseHeader(line).value)
  {
    hide ParseRange, RangeText;
    var oldRange := ParseRange(line[4..]).value;
    var newRange := ParseRange(oldRange.rest[2..]).value;
    assert line == "@@ -" + line[4..];
    assert oldRange.rest == " +" + oldRange.rest[2..];
    assert newRange.rest == " @@" + newRange.rest[3..];
  }

  lemma RangeRoundTrip(start: string, count: Option<string>, rest: string)
    requires IsNumberText(start) && (count.Some? ==> IsNumberText(count.value))
    requires |rest| > 0 && rest[0] == ' '
    ensures ParseRange(RangeText(start, count) + rest) == Some(Range(start, count, rest))
  {
    var s := RangeText(start, count) + rest;
    var n := |start|;
    hide DigitRun;
    if count.None? {
      assert s == start + rest;
      DigitRunStops(start, rest);
    } else {
      var after := "," + count.value + rest;
      assert s == start + after;
      DigitRunStops(start, after);
      DigitRunStops(count.value, rest);
      assert s[n + 1..] == count.value + rest;
    }
  }

  /** A rendered header is read back. */
  lemma HeaderRoundTrip(h: Header)
    requires WellFormed(h)
    ensures ParseHeader(Render(h)) == Some(h)
  {
    hide ParseRange, RangeText, IsNumberText;
    var line := Render(h);
    var third := " @@" + h.tail;
    var second := " +" + (RangeText(h.newStart, h.newCount) + third);
    RangeRoundTrip(h.oldStart, h.oldCount, second);
    RangeRoundTrip(h.newStart, h.newCount, third);
    assert line[4..] == RangeText(h.oldStart, h.oldCount) + second;
    assert second[2..] == RangeText(h.newStart, h.newCount) + third;
    assert third[3..] == h.tail;
  }

  // ----- Counting and rewriting -----

  datatype Counts = Counts(oldSide: nat, newSide: nat)

  function Plus(a: Counts, b: Counts): Counts {
    Counts(a.oldSide + b.oldSide, a.newSide + b.newSide)
  }

  predicate EndsHunk(line: string) {
    || StartsWith(line, "@@ ") || StartsWith(line, "diff --git ") || StartsWith(line, "--- ")
      || StartsWith(line, "+++ ")
    || line == ""
  }

  predicate IsNoNewlineNote(line: string) {
    StartsWith(line, "\\ No newline at end of file")
  }

  predicate IsBodyLine(line: string) {
    |line| > 0 && line[0] in {' ', '-', '+'}
  }

  /** How a body line counts: context on both sides, removals on the old side, additions on the new. */
  function LineCounts(line: string): Counts
    requires IsBodyLine(line)
  {
    Counts(if line[0] == '+' then 0 else 1, if line[0] == '-' then 0 else 1)
  }

  /** The old-side and new-side lines of the hunk body starting at `from`. */
  function BodyCounts(lines: seq<string>, from: nat): Counts
    decreases |lines| - from
  {
    if from >= |lines| || EndsHunk(lines[from]) then Counts(0, 0)
    else if IsNoNewlineNote(lines[from]) then BodyCounts(lines, from + 1)
    else if IsBodyLine(lines[from]) then Plus(LineCounts(lines[from]), BodyCounts(lines, from + 1))
    else Counts(0, 0)
  }

  /** One step of the count, whatever the line is. */
  lemma BodyStep(lines: seq<string>, from: nat)
    requires from < |lines|
    ensures BodyCounts(lines, from) ==
      if EndsHunk(lines[from]) then Counts(0, 0)
      else if IsNoNewlineNote(lines[from]) then BodyCounts(lines, from + 1)
      else if IsBodyLine(lines[from]) then Plus(LineCounts(lines[from]), BodyCounts(lines, from + 1))
      else Counts(0, 0)
  {
    hide EndsHunk, IsNoNewlineNote;
  }

  function WithCounts(h: Header, c: Counts): Header {
    h.(oldCount := Some(Decimal(c.oldSide)), newCount := Some(Decimal(c.newSide)))
  }

  function NormalizedLine(lines: seq<string>, i: nat): string
    requires i < |lines|
  {
    var h := ParseHeader(lines[i]);
    if h.None? then lines[i] else Render(WithCounts(h.value, BodyCounts(lines, i + 1)))
  }

  function NormalizeLines(lines: seq<string>): seq<string> {
    seq(|lines|, i requires 0 <= i < |lines| => NormalizedLine(lines, i))
  }

  /** The inner scan below one header. */
  method ScanBody(lines: array<string>, start: nat) returns (oldCount: nat, newCount: nat)
    requires start <= lines.Length
    ensures Counts(oldCount, newCount) == BodyCounts(lines[..], start)
  {
    hide EndsHunk, IsNoNewlineNote, BodyCounts;
    ghost var text := lines[..];
    oldCount, newCount := 0, 0;
    var cursor := start;
    while cursor < lines.Length
      invariant start <= cursor <= lines.Length
      invariant BodyCounts(text, start) == Plus(Counts(oldCount, newCount), BodyCounts(text, cursor))
    {
      var line := lines[cursor];
      BodyStep(text, cursor);
      if EndsHunk(line) { break; }
      if IsNoNewlineNote(line) {
        cursor := cursor + 1;
        continue;
      }
      if !IsBodyLine(line) { break; }
      if line[0] != '+' {
        oldCount := oldCount + 1;
      }
      if line[0] != '-' {
        newCount := newCount + 1;
      }
      cursor := cursor + 1;
    }
    if cursor == lines.Length {
      BodyPastEnd(text, cursor);
    }
  }

  lemma BodyPastEnd(lines: seq<string>, from: nat)
    requires from >= |lines|
    ensures BodyCounts(lines, from) == Counts(0, 0)
  {
  }

  /** The rewriting pass over the split lines, in place. */
  method NormalizeInPlace(lines: array<string>)
    modifies lines
    ensures lines[..] == NormalizeLines(old(lines[..]))
  {
    hide ParseHeader, Render, BodyCounts;
    ghost var original := lines[..];
    for index := 0 to lines.Length
      invariant forall k :: 0 <= k < index ==> lines[k] == NormalizedLine(original, k)
      invariant forall k :: index <= k < lines.Length ==> lines[k] == original[k]
    {
      var header := ParseHeader(lines[index]);
      if header.Some? {
        var oldCount, newCount := ScanBody(lines, index + 1);
        SameSuffixSameCounts(lines[..], original, index + 1);
        lines[index] := Render(WithCounts(header.value, Counts(oldCount, newCount)));
      }
    }
  }

  /** The counts depend only on the lines from the start of the body on. */
  lemma {:induction false} SameSuffixSameCounts(a: seq<string>, b: seq<string>, from: nat)
    requires |a| == |b| && forall k :: from <= k < |a| ==> a[k] == b[k]
    ensures BodyCounts(a, from) == BodyCounts(b, from)
    decreases |a| - from
  {
    if from < |a| {
      SameSuffixSameCounts(a, b, from + 1);
    }
  }

  // ----- Laws on lines -----

  /** A rewritten line is a header of the same hunk, differing only in its two counts. */
  lemma NormalizedHeader(lines: seq<string>, i: nat)
    requires i < |lines|
    ensures ParseHeader(NormalizedLine(lines, i)) ==
      var h := ParseHeader(lines[i]); if h.None? then None else Some(WithCounts(h.value, BodyCounts(lines, i + 1)))
  {
    var h := ParseHeader(lines[i]);
    if h.Some? {
      HeaderText(lines[i]);
      hide ParseHeader, Render, BodyCounts;
      HeaderRoundTrip(WithCounts(h.value, BodyCounts(lines, i + 1)));
    }
  }

  lemma HeadersEndHunks(h: Header)
    ensures EndsHunk(Render(h))
  {
    assert Render(h)[..3] == "@@ ";
  }

  /** Rewritten headers still end the body above them, so every count is the same before and after. */
  lemma {:induction false} CountsSurvive(lines: seq<string>, from: nat)
    ensures BodyCounts(NormalizeLines(lines), from) == BodyCounts(lines, from)
    decreases |lines| - from
  {
    if from < |lines| {
      CountsSurvive(lines, from + 1);
      var h := ParseHeader(lines[from]);
      if h.Some? {
        HeaderText(lines[from]);
        HeadersEndHunks(h.value);
        HeadersEndHunks(WithCounts(h.value, BodyCounts(lines, from + 1)));
      }
      hide ParseHeader, Render, EndsHunk;
    }
  }

  /** After the pass every header states exactly the lines of its own body. */
  lemma HeadersMatchBodies(lines: seq<string>, i: nat)
    requires i < |lines|
    ensures var after := NormalizeLines(lines); var h := ParseHeader(after[i]);
      h.Some? ==>
        && h.value.oldCount == Some(Decimal(BodyCounts(after, i + 1).oldSide))
        && h.value.newCount == Some(Decimal(BodyCounts(after, i + 1).newSide))
  {
    NormalizedHeader(lines, i);
    CountsSurvive(lines, i + 1);
    hide ParseHeader, BodyCounts;
  }

  /** Only counts change: other lines stay, and headers keep their starts and their tail. */
  lemma OnlyCountsChange(lines: seq<string>, i: nat)
    requires i < |lines|
    ensures |NormalizeLines(lines)| == |lines|
    ensures var before, after := ParseHeader(lines[i]), ParseHeader(NormalizeLines(lines)[i]);
      && (before.None? ==> NormalizeLines(lines)[i] == lines[i])
      && (before.Some? ==>
            && after.Some?
            && after.value.(oldCount := None, newCount := None) == before.value.(oldCount := None, newCount := None))
  {
    NormalizedHeader(lines, i);
  }

  /** A second pass over the lines changes nothing. */
  lemma NormalizeLinesIsIdempotent(lines: seq<string>)
    ensures NormalizeLines(NormalizeLines(lines)) == NormalizeLines(lines)
  {
    hide ParseHeader, Render, BodyCounts;
    var once := NormalizeLines(lines);
    forall i | 0 <= i < |lines| ensures NormalizedLine(once, i) == once[i] {
      NormalizedHeader(lines, i);
      CountsSurvive(lines, i + 1);
    }
  }
}
