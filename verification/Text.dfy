/** Lines, digits, decimal numbers and white space, as the scripts use them. */
module Text {

  // ----- Lines -----

  ghost predicate NoNewline(line: string) {
    '\n' !in line
  }

  /** `split("\n")` */
  function SplitLines(text: string): (lines: seq<string>)
    ensures |lines| >= 1
    ensures forall i :: 0 <= i < |lines| ==> NoNewline(lines[i])
  {
    if |text| == 0 then [""]
    else
      var rest := SplitLines(text[1..]);
      if text[0] == '\n' then [""] + rest else [[text[0]] + rest[0]] + rest[1..]
  }

  /** `join("\n")` */
  function JoinLines(lines: seq<string>): string {
    if |lines| == 0 then ""
    else if |lines| == 1 then lines[0]
    else lines[0] + "\n" + JoinLines(lines[1..])
  }

  lemma {:induction false} JoinOfSplit(text: string)
    ensures JoinLines(SplitLines(text)) == text
  {
    if |text| > 0 {
      JoinOfSplit(text[1..]);
      var rest := SplitLines(text[1..]);
      assert text == [text[0]] + text[1..];
      if text[0] != '\n' {
        var lines := SplitLines(text);
        assert lines[1..] == rest[1..];
      }
    }
  }

  lemma {:induction false} SplitOfLine(line: string, rest: string)
    requires NoNewline(line)
    ensures SplitLines(line + "\n" + rest) == [line] + SplitLines(rest)
  {
    var text := line + "\n" + rest;
    if |line| == 0 {
      assert text[1..] == rest;
    } else {
      assert text[1..] == line[1..] + "\n" + rest;
      SplitOfLine(line[1..], rest);
      assert line == [line[0]] + line[1..];
    }
  }

  lemma {:induction false} SplitOfLast(line: string)
    requires NoNewline(line)
    ensures SplitLines(line) == [line]
  {
    if |line| > 0 {
      SplitOfLast(line[1..]);
      assert line == [line[0]] + line[1..];
    }
  }

  lemma {:induction false} SplitOfJoin(lines: seq<string>)
    requires |lines| >= 1
    requires forall i :: 0 <= i < |lines| ==> NoNewline(lines[i])
    ensures SplitLines(JoinLines(lines)) == lines
  {
    if |lines| == 1 {
      SplitOfLast(lines[0]);
    } else {
      SplitOfJoin(lines[1..]);
      SplitOfLine(lines[0], JoinLines(lines[1..]));
    }
  }

  /** `replace(/\r\n/g, "\n")` */
  function ReplaceCrLf(text: string): string {
    if |text| == 0 then ""
    else if |text| >= 2 && text[0] == '\r' && text[1] == '\n' then "\n" + ReplaceCrLf(text[2..])
    else [text[0]] + ReplaceCrLf(text[1..])
  }

  predicate StartsWith(line: string, prefix: string) {
    prefix <= line
  }

  predicate Contains(s: string, part: string) {
    |part| <= |s| && (part <= s || Contains(s[1..], part))
  }

  // ----- Digits -----

  predicate IsDigit(c: char) {
    '0' <= c <= '9'
  }

  predicate AllDigits(s: string) {
    forall i :: 0 <= i < |s| ==> IsDigit(s[i])
  }

  function NumberOf(s: string): nat
    requires AllDigits(s)
  {
    if |s| == 0 then 0 else NumberOf(s[..|s| - 1]) * 10 + (s[|s| - 1] as int - '0' as int)
  }

  function Decimal(n: nat): (s: string)
    ensures |s| > 0 && AllDigits(s)
  {
    (if n < 10 then "" else Decimal(n / 10)) + [('0' as int + n % 10) as char]
  }

  /** Decimal text reads back as the number. */
  lemma {:induction false} NumberOfDecimal(n: nat)
    ensures NumberOf(Decimal(n)) == n
  {
    var s := Decimal(n);
    if n >= 10 {
      NumberOfDecimal(n / 10);
      assert s[..|s| - 1] == Decimal(n / 10);
    } else {
      assert s[..0] == "";
    }
  }

  lemma DecimalInjective(m: nat, n: nat)
    requires Decimal(m) == Decimal(n)
    ensures m == n
  {
    NumberOfDecimal(m);
    NumberOfDecimal(n);
  }

  /** The length of the longest prefix of digits. */
  function DigitRun(s: string): (n: nat)
    ensures n <= |s| && AllDigits(s[..n]) && (n < |s| ==> !IsDigit(s[n]))
  {
    if |s| == 0 || !IsDigit(s[0]) then 0 else 1 + DigitRun(s[1..])
  }

  lemma {:induction false} DigitRunStops(digits: string, rest: string)
    requires AllDigits(digits) && (|rest| > 0 ==> !IsDigit(rest[0]))
    ensures DigitRun(digits + rest) == |digits|
  {
    if |digits| == 0 {
      assert digits + rest == rest;
    } else {
      assert (digits + rest)[1..] == digits[1..] + rest;
      DigitRunStops(digits[1..], rest);
    }
  }

  // ----- White space -----

  /** What JavaScript's `trim` and `\s` take for white space. */
  predicate IsSpace(c: char) {
    c in {' ', '\t', '\n', '\r', '\U{000B}', '\U{000C}', '\U{00A0}', '\U{1680}', '\U{2028}', '\U{2029}', '\U{202F}',
      '\U{205F}', '\U{3000}', '\U{FEFF}'}
      || '\U{2000}' <= c <= '\U{200A}'
  }

  predicate Blank(s: string) {
    forall k :: 0 <= k < |s| ==> IsSpace(s[k])
  }

  function TrimStart(s: string): (t: string)
    ensures |t| <= |s| && (Blank(t) <==> Blank(s))
    ensures t != "" ==> !IsSpace(t[0])
  {
    if |s| > 0 && IsSpace(s[0]) then
      BlankHead(s);
      TrimStart(s[1..])
    else s
  }

  function TrimEnd(s: string): (t: string)
    ensures |t| <= |s| && (Blank(t) <==> Blank(s))
    ensures t != "" ==> !IsSpace(t[|t| - 1])
  {
    if |s| > 0 && IsSpace(s[|s| - 1]) then
      BlankLast(s);
      TrimEnd(s[..|s| - 1])
    else s
  }

  lemma BlankHead(s: string)
    requires |s| > 0 && IsSpace(s[0])
    ensures Blank(s) <==> Blank(s[1..])
  {
    hide IsSpace;
    assert forall k :: 0 < k < |s| ==> s[k] == s[1..][k - 1];
  }

  lemma BlankLast(s: string)
    requires |s| > 0 && IsSpace(s[|s| - 1])
    ensures Blank(s) <==> Blank(s[..|s| - 1])
  {
    hide IsSpace;
    assert forall k :: 0 <= k < |s| - 1 ==> s[k] == s[..|s| - 1][k];
  }

  /** Trimming leaves nothing exactly of blank text, and never leaves blank text. */
  function Trim(s: string): (t: string)
    ensures t == "" <==> Blank(s)
    ensures Blank(t) ==> t == ""
  {
    TrimEnd(TrimStart(s))
  }
}
