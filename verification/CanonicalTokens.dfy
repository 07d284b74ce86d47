/**
 The marks and escapes of the canonical text (scripts/actual-paper-runtime-e2e.js) against those of JSON: which
 characters they are, and that an escape is the shortest way to write a code unit (section 7 of RFC 8259).
 */
module CanonicalTokens {
  import opened CanonicalText
  import opened CanonicalInjective

  /** The code units of a plain text. */
  function Ascii(s: string): Text
    requires forall i :: 0 <= i < |s| ==> s[i] < '\U{0080}'
  {
    seq(|s|, i requires 0 <= i < |s| => s[i] as int)
  }

  lemma MarksAreJson()
    ensures [LEFT_BRACE, QUOTE, COLON, COMMA, LEFT_BRACKET, RIGHT_BRACKET, RIGHT_BRACE, BACKSLASH] ==
      Ascii("{\":,[]}\\")
    ensures NULL_TEXT == Ascii("null") && TRUE_TEXT == Ascii("true") && FALSE_TEXT == Ascii("false")
    ensures UNDEFINED_TEXT == Ascii("undefined")
  {
  }

  /** A text that can stand in a well-formed document: no control unit and no half of a surrogate pair. */
  predicate IsWritable(t: Text) {
    forall i :: 0 <= i < |t| ==> t[i] >= 0x20 && !Leading(t[i]) && !Trailing(t[i])
  }

  /** Of all writable texts that a reader takes for a unit, its escape is the shortest; it is writable itself. */
  lemma EscapeIsShortest(u: CodeUnit, t: Text)
    requires ParseUnit(t) == Parsed(u, []) && IsWritable(t)
    ensures |EscapeUnit(u)| <= |t| && IsWritable(EscapeUnit(u))
  {
    EscapeIsWritable(u);
    hide HexValue;
  }

  lemma EscapeIsWritable(u: CodeUnit)
    ensures IsWritable(EscapeUnit(u))
  {
  }
}
