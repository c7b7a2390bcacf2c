/**
 * The two string primitives the to-do app relies on: String.prototype.trim,
 * and String.prototype.length, which counts UTF-16 code units rather than
 * characters. Dafny characters are Unicode scalar values.
 */
module Text {

  /** The characters trim removes: ECMAScript WhiteSpace (tab, vertical tab,
      form feed, space, no-break space, byte order mark and every space
      separator) and LineTerminator (line feed, carriage return, line and
      paragraph separators). */
  predicate IsWhitespace(c: char) {
    var n := c as int;
    n == 0x09 || n == 0x0A || n == 0x0B || n == 0x0C || n == 0x0D || n == 0x20
    || n == 0xA0 || n == 0x1680 || (0x2000 <= n <= 0x200A) || n == 0x2028
    || n == 0x2029 || n == 0x202F || n == 0x205F || n == 0x3000 || n == 0xFEFF
  }

  /** The number of whitespace characters s starts with. */
  function Leading(s: string): (n: nat)
    ensures n <= |s|
    ensures forall i :: 0 <= i < n ==> IsWhitespace(s[i])
    ensures n < |s| ==> !IsWhitespace(s[n])
  {
    if s != [] && IsWhitespace(s[0]) then 1 + Leading(s[1..]) else 0
  }

  /** The number of whitespace characters s ends with. */
  function Trailing(s: string): (n: nat)
    ensures n <= |s|
    ensures forall i :: |s| - n <= i < |s| ==> IsWhitespace(s[i])
    ensures n < |s| ==> !IsWhitespace(s[|s| - n - 1])
  {
    if s != [] && IsWhitespace(s[|s| - 1]) then 1 + Trailing(s[..|s| - 1]) else 0
  }

  /** Text that is not empty and neither starts nor ends with whitespace:
      what a stored task's text always is. */
  predicate IsNormalText(s: string) {
    s != [] && !IsWhitespace(s[0]) && !IsWhitespace(s[|s| - 1])
  }

  /** String.prototype.trim: blank text trims to the empty string; otherwise
      the result is the infix between the leading and the trailing
      whitespace, which neither starts nor ends with whitespace. */
  function Trim(s: string): (r: string)
    ensures r == [] ==> forall i :: 0 <= i < |s| ==> IsWhitespace(s[i])
    ensures r != [] ==>
      IsNormalText(r) && Leading(s) + |r| + Trailing(s) == |s| && r == s[Leading(s)..Leading(s) + |r|]
  {
    var lead := Leading(s);
    if lead == |s| then []
    else
      var trail := Trailing(s);
      assert lead + trail < |s| by {
        assert !IsWhitespace(s[lead]);
      }
      s[lead..|s| - trail]
  }

  /** Normal text is exactly the non-empty text that trim leaves unchanged. */
  lemma NormalTextIsTrimmed(s: string)
    ensures IsNormalText(s) <==> s != [] && Trim(s) == s
  {
    if IsNormalText(s) {
      assert Leading(s) == 0 && Trailing(s) == 0;
      assert s[0..|s|] == s;
    }
  }

  lemma TrimIdempotent(s: string)
    ensures Trim(Trim(s)) == Trim(s)
  {
    NormalTextIsTrimmed(Trim(s));
  }

  lemma TrimEmptyIff(s: string)
    ensures Trim(s) == [] <==> forall i :: 0 <= i < |s| ==> IsWhitespace(s[i])
  {
    if Trim(s) != [] {
      assert !IsWhitespace(s[Leading(s)]);
    }
  }

  /** The number of UTF-16 code units of one character. */
  function CodeUnits(c: char): nat {
    if c as int >= 0x1_0000 then 2 else 1
  }

  /** String.prototype.length: characters outside the basic multilingual
      plane count twice. */
  function Utf16Length(s: string): (n: nat)
    ensures |s| <= n <= 2 * |s|
    ensures (forall i :: 0 <= i < |s| ==> s[i] as int < 0x1_0000) ==> n == |s|
  {
    if s == [] then 0 else CodeUnits(s[0]) + Utf16Length(s[1..])
  }
}
