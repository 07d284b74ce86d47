/**
 The two counts of a hunk header as numbers of lines (scripts/autopilot-dispatch-retry.js): which lines are the body of
 a hunk, and which of them are on its old and new side.
 */
module HunkMeaning {
  import opened Prelude
  import opened Text
  import opened HunkCounts

  /** A line of a body: context, removal or addition, but no file header, or the note on a missing newline. */
  predicate IsInBody(line: string) {
    && |line| > 0
    && !("--- " <= line) && !("+++ " <= line)
    && (line[0] == ' ' || line[0] == '-' || line[0] == '+' || "\\ No newline at end of file" <= line)
  }

  /** The body below a header: all lines from `from` on that are in a body, up to the first that is not. */
  ghost predicate IsBody(lines: seq<string>, from: nat, end: nat) {
    && from <= end <= |lines|
    && (forall k :: from <= k < end ==> IsInBody(lines[k]))
    && (end < |lines| ==> !IsInBody(lines[end]))
  }

  /** Context and removals are on the old side, context and additions on the new. */
  predicate IsOld(line: string) {
    |line| > 0 && (line[0] == ' ' || line[0] == '-')
  }

  predicate IsNew(line: string) {
    |line| > 0 && (line[0] == ' ' || line[0] == '+')
  }

  function OldLines(lines: seq<string>, from: nat, end: nat): set<int>
    requires end <= |lines|
  {
    set k | from <= k < end && IsOld(lines[k])
  }

  function NewLines(lines: seq<string>, from: nat, end: nat): set<int>
    requires end <= |lines|
  {
    set k | from <= k < end && IsNew(lines[k])
  }

  lemma BodyLineIff(line: string)
    ensures IsInBody(line) <==> !EndsHunk(line) && (IsNoNewlineNote(line) || IsBodyLine(line))
  {
    assert "@@ " <= line ==> line[0] == '@';
    assert "diff --git " <= line ==> line[0] == 'd';
  }

  /** What a line of a body adds to the counts. */
  function Side(line: string): Counts {
    Counts(if IsOld(line) then 1 else 0, if IsNew(line) then 1 else 0)
  }

  lemma LineSides(line: string)
    ensures IsNoNewlineNote(line) ==> Side(line) == Counts(0, 0)
    ensures IsBodyLine(line) ==> Side(line) == LineCounts(line)
  {
    assert "\\ No newline at end of file" <= line ==> line[0] == '\\';
  }

  lemma BodyUnfolds(lines: seq<string>, from: nat)
    requires from < |lines|
    ensures BodyCounts(lines, from) ==
      if IsInBody(lines[from]) then Plus(Side(lines[from]), BodyCounts(lines, from + 1)) else Counts(0, 0)
  {
    hide EndsHunk, IsNoNewlineNote, IsInBody, IsBodyLine, LineCounts, Side, BodyCounts;
    BodyStep(lines, from);
    BodyLineIff(lines[from]);
    LineSides(lines[from]);
    NothingAdded(BodyCounts(lines, from + 1));
  }

  lemma NothingAdded(c: Counts)
    ensures Plus(Counts(0, 0), c) == c
  {
  }

  /** Every hunk has one body, and its counts are the numbers of lines of the body on the old and on the new side. */
  lemma {:induction false} CountsAreLines(lines: seq<string>, from: nat) returns (end: nat)
    requires from <= |lines|
    ensures IsBody(lines, from, end)
    ensures BodyCounts(lines, from) == Counts(|OldLines(lines, from, end)|, |NewLines(lines, from, end)|)
    decreases |lines| - from
  {
    hide IsInBody, IsOld, IsNew, BodyCounts;
    if from == |lines| {
      end := from;
      BodyPastEnd(lines, from);
      NoLines(lines, from);
    } else {
      BodyUnfolds(lines, from);
      if IsInBody(lines[from]) {
        end := CountsAreLines(lines, from + 1);
        BodyGrows(lines, from, end);
      } else {
        end := from;
        NoLines(lines, from);
      }
    }
  }

  lemma NoLines(lines: seq<string>, from: nat)
    requires from <= |lines|
    ensures OldLines(lines, from, from) == {} && NewLines(lines, from, from) == {}
  {
  }

  lemma BodyGrows(lines: seq<string>, from: nat, end: nat)
    requires from < end <= |lines|
    ensures Counts(|OldLines(lines, from, end)|, |NewLines(lines, from, end)|) ==
      Plus(Side(lines[from]), Counts(|OldLines(lines, from + 1, end)|, |NewLines(lines, from + 1, end)|))
  {
    hide IsOld, IsNew;
    OldGrows(lines, from, end);
    NewGrows(lines, from, end);
  }

  lemma OldGrows(lines: seq<string>, from: nat, end: nat)
    requires from < end <= |lines|
    ensures |OldLines(lines, from, end)| == |OldLines(lines, from + 1, end)| + if IsOld(lines[from]) then 1 else 0
  {
    hide IsOld;
    assert OldLines(lines, from, end) == OldLines(lines, from + 1, end) + if IsOld(lines[from]) then {from} else {};
  }

  lemma NewGrows(lines: seq<string>, from: nat, end: nat)
    requires from < end <= |lines|
    ensures |NewLines(lines, from, end)| == |NewLines(lines, from + 1, end)| + if IsNew(lines[from]) then 1 else 0
  {
    hide IsNew;
    assert NewLines(lines, from, end) == NewLines(lines, from + 1, end) + if IsNew(lines[from]) then {from} else {};
  }

  lemma OneBody(lines: seq<string>, from: nat, a: nat, b: nat)
    requires IsBody(lines, from, a) && IsBody(lines, from, b)
    ensures a == b
  {
    hide IsInBody;
  }
}
