/**
 The hunk-count normalizer on raw text (scripts/autopilot-dispatch-retry.js): one pass that turns CRLF into LF, then the
 line rewrite. On lines it is idempotent; on text it is exactly when no carriage return precedes a CRLF.
 */
module HunkText {
  import opened Prelude
  import opened Text
  import opened HunkCounts

  function NormalizeText(text: string): string {
    JoinLines(NormalizeLines(SplitLines(ReplaceCrLf(text))))
  }

  method NormalizeUnifiedDiffHunkCounts(patch: string) returns (normalized: string)
    ensures normalized == NormalizeText(patch)
  {
    var parts := SplitLines(ReplaceCrLf(patch));
    var lines := new string[|parts|](i requires 0 <= i < |parts| => parts[i]);
    assert lines[..] == parts;
    NormalizeInPlace(lines);
    normalized := JoinLines(lines[..]);
  }

  // ----- Carriage returns -----

  /** `\r\n` occurs at position `i`. */
  predicate CrLfAt(text: string, i: nat) {
    i + 1 < |text| && text[i] == '\r' && text[i + 1] == '\n'
  }

  ghost predicate HasCrLf(text: string) {
    exists i :: CrLfAt(text, i)
  }

  ghost predicate HasCrCrLf(text: string) {
    exists i: nat :: CrLfAt(text, i + 1) && text[i] == '\r'
  }

  function CarriageReturns(text: string): nat {
    if |text| == 0 then 0 else (if text[0] == '\r' then 1 else 0) + CarriageReturns(text[1..])
  }

  lemma {:induction false} CarriageReturnsOfConcat(a: string, b: string)
    ensures CarriageReturns(a + b) == CarriageReturns(a) + CarriageReturns(b)
  {
    if |a| == 0 {
      assert a + b == b;
    } else {
      assert (a + b)[1..] == a[1..] + b;
      CarriageReturnsOfConcat(a[1..], b);
    }
  }

  lemma {:induction false} NoCarriageReturns(s: string)
    requires '\r' !in s
    ensures CarriageReturns(s) == 0
  {
    if |s| > 0 {
      NoCarriageReturns(s[1..]);
    }
  }

  lemma CrLfOfTail(text: string)
    requires |text| > 0
    ensures HasCrLf(text) <==> CrLfAt(text, 0) || HasCrLf(text[1..])
  {
    if HasCrLf(text) {
      var i: nat :| CrLfAt(text, i);
      if i > 0 {
        assert CrLfAt(text[1..], i - 1);
      }
    }
    if HasCrLf(text[1..]) {
      var i: nat :| CrLfAt(text[1..], i);
      assert CrLfAt(text, i + 1);
    }
  }

  /** The pass removes one carriage return per CRLF, so it changes exactly the texts that have one. */
  lemma {:induction false} ReplaceRemoves(text: string)
    ensures HasCrLf(text) ==> CarriageReturns(ReplaceCrLf(text)) < CarriageReturns(text)
    ensures CarriageReturns(ReplaceCrLf(text)) <= CarriageReturns(text)
    ensures !HasCrLf(text) ==> ReplaceCrLf(text) == text
    decreases |text|
  {
    if |text| > 0 {
      CrLfOfTail(text);
      if CrLfAt(text, 0) {
        ReplaceRemoves(text[2..]);
        assert ReplaceCrLf(text)[1..] == ReplaceCrLf(text[2..]);
        assert text[1..][1..] == text[2..];
        assert CarriageReturns(text[1..]) == CarriageReturns(text[2..]);
      } else {
        ReplaceRemoves(text[1..]);
        assert ReplaceCrLf(text)[1..] == ReplaceCrLf(text[1..]);
        assert text == [text[0]] + text[1..];
      }
    }
  }

  /** A leading line feed survives the pass, so CRLF is left over exactly where a carriage return preceded a CRLF. */
  lemma {:induction false} LeftoverCrLf(text: string)
    ensures HasCrLf(ReplaceCrLf(text)) <==> HasCrCrLf(text)
    decreases |text|
  {
    if |text| > 0 {
      var after := ReplaceCrLf(text);
      CrLfOfTail(after);
      CrCrLfOfTail(text);
      if CrLfAt(text, 0) {
        assert after[1..] == ReplaceCrLf(text[2..]);
        LeftoverCrLf(text[2..]);
        CrCrLfOfTail(text[1..]);
        assert text[1..][1..] == text[2..];
      } else {
        assert after[1..] == ReplaceCrLf(text[1..]);
        LeftoverCrLf(text[1..]);
        FirstOfReplaced(text[1..]);
      }
    }
  }

  lemma FirstOfReplaced(text: string)
    ensures |ReplaceCrLf(text)| > 0 && ReplaceCrLf(text)[0] == '\n' <==>
      (|text| > 0 && text[0] == '\n') || CrLfAt(text, 0)
  {
  }

  lemma CrCrLfOfTail(text: string)
    requires |text| > 0
    ensures HasCrCrLf(text) <==> (text[0] == '\r' && CrLfAt(text, 1)) || HasCrCrLf(text[1..])
  {
    if HasCrCrLf(text) {
      var i: nat :| CrLfAt(text, i + 1) && text[i] == '\r';
      if i > 0 {
        assert CrLfAt(text[1..], (i - 1) + 1) && text[1..][i - 1] == '\r';
      } else {
        assert CrLfAt(text, 1);
      }
    }
    if text[0] == '\r' && CrLfAt(text, 1) {
      assert CrLfAt(text, 0 + 1);
    }
    if HasCrCrLf(text[1..]) {
      var i: nat :| CrLfAt(text[1..], i + 1) && text[1..][i] == '\r';
      assert CrLfAt(text, (i + 1) + 1) && text[i + 1] == '\r';
    }
  }

  // ----- Lines and carriage returns -----

  predicate EndsInCr(line: string) {
    |line| > 0 && line[|line| - 1] == '\r'
  }

  /** A joined text has a CRLF exactly when a line before the last ends in a carriage return. */
  lemma {:induction false} CrLfOfJoin(lines: seq<string>)
    requires |lines| >= 1 && forall i :: 0 <= i < |lines| ==> NoNewline(lines[i])
    ensures HasCrLf(JoinLines(lines)) <==> exists i :: 0 <= i < |lines| - 1 && EndsInCr(lines[i])
  {
    if |lines| == 1 {
      CrLfNeedsNewline(lines[0]);
    } else {
      CrLfOfJoin(lines[1..]);
      CrLfOfFirstLine(lines[0], JoinLines(lines[1..]));
      if exists i :: 0 <= i < |lines[1..]| - 1 && EndsInCr(lines[1..][i]) {
        var i :| 0 <= i < |lines[1..]| - 1 && EndsInCr(lines[1..][i]);
        assert EndsInCr(lines[i + 1]);
      }
      forall i | 0 < i < |lines| - 1 && EndsInCr(lines[i]) ensures EndsInCr(lines[1..][i - 1]) {}
    }
  }

  lemma CrLfNeedsNewline(line: string)
    requires NoNewline(line)
    ensures !HasCrLf(line)
  {
    assert forall i :: 0 <= i < |line| ==> line[i] != '\n';
  }

  lemma {:induction false} CrLfOfFirstLine(line: string, rest: string)
    requires NoNewline(line)
    ensures HasCrLf(line + "\n" + rest) <==> EndsInCr(line) || HasCrLf(rest)
  {
    var text := line + "\n" + rest;
    CrLfOfTail(text);
    if |line| == 0 {
      assert text[1..] == rest;
    } else {
      assert text[1..] == line[1..] + "\n" + rest;
      CrLfOfFirstLine(line[1..], rest);
    }
  }

  /** Rewriting a header touches no carriage return and no line end. */
  lemma RewriteKeepsCarriageReturns(lines: seq<string>, i: nat)
    requires i < |lines| && NoNewline(lines[i])
    ensures NoNewline(NormalizedLine(lines, i))
    ensures EndsInCr(NormalizedLine(lines, i)) <==> EndsInCr(lines[i])
    ensures CarriageReturns(NormalizedLine(lines, i)) == CarriageReturns(lines[i])
  {
    var h := ParseHeader(lines[i]);
    if h.Some? {
      HeaderText(lines[i]);
      hide ParseHeader;
      RenderedIsClean(h.value);
      RenderedIsClean(WithCounts(h.value, BodyCounts(lines, i + 1)));
    }
  }

  lemma RenderedIsClean(h: Header)
    requires WellFormed(h)
    ensures '\r' !in Render(h) && '\n' !in Render(h) && CarriageReturns(Render(h)) == 0
  {
    RangeIsClean(h.oldStart, h.oldCount);
    RangeIsClean(h.newStart, h.newCount);
    assert '\r' !in h.tail && '\n' !in h.tail;
    hide RangeText;
    NoCarriageReturns(Render(h));
  }

  lemma RangeIsClean(start: string, count: Option<string>)
    requires IsNumberText(start) && (count.Some? ==> IsNumberText(count.value))
    ensures '\r' !in RangeText(start, count) && '\n' !in RangeText(start, count)
  {
  }

  lemma {:induction false} JoinKeepsCarriageReturns(a: seq<string>, b: seq<string>)
    requires |a| == |b| && forall i :: 0 <= i < |a| ==> CarriageReturns(a[i]) == CarriageReturns(b[i])
    ensures CarriageReturns(JoinLines(a)) == CarriageReturns(JoinLines(b))
  {
    if |a| > 1 {
      JoinKeepsCarriageReturns(a[1..], b[1..]);
      CarriageReturnsOfConcat(a[0] + "\n", JoinLines(a[1..]));
      CarriageReturnsOfConcat(b[0] + "\n", JoinLines(b[1..]));
      CarriageReturnsOfConcat(a[0], "\n");
      CarriageReturnsOfConcat(b[0], "\n");
    }
  }

  /** The line rewrite of a whole text: same lines apart from counts, same carriage returns. */
  lemma RewriteOfText(text: string)
    ensures var lines := SplitLines(text); var rewritten := JoinLines(NormalizeLines(lines));
      && SplitLines(rewritten) == NormalizeLines(lines)
      && (HasCrLf(rewritten) <==> HasCrLf(text))
      && CarriageReturns(rewritten) == CarriageReturns(text)
  {
    var lines := SplitLines(text);
    var after := NormalizeLines(lines);
    forall i | 0 <= i < |lines|
      ensures NoNewline(after[i]) && (EndsInCr(after[i]) <==> EndsInCr(lines[i]))
        && CarriageReturns(after[i]) == CarriageReturns(lines[i])
    {
      RewriteKeepsCarriageReturns(lines, i);
    }
    hide NormalizedLine, HasCrLf, SplitLines;
    SplitOfJoin(after);
    JoinOfSplit(text);
    CrLfOfJoin(lines);
    CrLfOfJoin(after);
    JoinKeepsCarriageReturns(lines, after);
  }

  /** Normalizing a normalized text changes nothing exactly when the input had no `\r\r\n`. */
  lemma NormalizeTextIsIdempotentIff(text: string)
    ensures NormalizeText(NormalizeText(text)) == NormalizeText(text) <==> !HasCrCrLf(text)
  {
    hide NormalizeLines, SplitLines, HasCrLf, HasCrCrLf;
    var once := NormalizeText(text);
    LeftoverCrLf(text);
    RewriteOfText(ReplaceCrLf(text));
    ReplaceRemoves(once);
    RewriteOfText(ReplaceCrLf(once));
    NormalizeLinesIsIdempotent(SplitLines(ReplaceCrLf(text)));
  }
}
