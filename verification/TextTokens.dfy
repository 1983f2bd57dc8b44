/** What the scanner makes of any text, character by character, printed or not. */
module TextTokens {
  import opened Common
  import opened DcLexer

  /** White space between tokens means nothing. */
  lemma SpaceIsSkipped(c: char, s: string)
    requires c in {' ', '\t', '\r', '\n'}
    ensures NextToken([c] + s) == NextToken(s) && NextToken("") == None
  {
    assert ([c] + s)[1..] == s;
  }

  /** A text is at its end when only white space is left. */
  lemma {:induction false} EndsWithSpace(s: string)
    ensures AtEnd(s) <==> forall i :: 0 <= i < |s| ==> s[i] in {' ', '\t', '\r', '\n'}
  {
    if s != "" {
      EndsWithSpace(s[1..]);
      assert forall i :: 0 <= i < |s| - 1 ==> s[1..][i] == s[i + 1];
      if AtEnd(s[1..]) && IsSpace(s[0]) {
        forall i | 0 <= i < |s| ensures s[i] in {' ', '\t', '\r', '\n'} { assert i > 0 ==> s[i] == s[1..][i - 1]; }
      }
    }
  }

  /** A quoted string goes up to the same mark; it must end, and not with the line. */
  lemma QuotedStrings(s: string, mark: char)
    requires mark in {'"', '\''}
    ensures NextToken([mark] + s) == Tokenized(Unquote(s, mark))
    ensures Unquote("", mark) == None && Unquote([mark] + s, mark) == Some(Scanned([], s)) && Unquote(['\n'] + s, mark) == None
  {
    hide Escape, Unhex, Run, Accumulate;
    var t := [mark] + s;
    assert t[1..] == s && t[0] == mark;
  }

  /** Every other character stands for itself. */
  lemma QuotedCharacters(c: char, s: string, mark: char)
    requires mark in {'"', '\''} && c != mark && c !in {'\n', '\\'} && c < 256 as char
    ensures Unquote([c] + s, mark) == Followed(c as int, Unquote(s, mark))
  {
    hide Escape;
    var t := [c] + s;
    assert t[1..] == s && t[0] == c;
    assert Unquote(t, mark) == Prepend([Code(c)], Unquote(t[1..], mark));
  }

  function Tokenized(r: Option<Scanned<Bytes>>): Option<Scanned<Token>> {
    if r.None? then None else Some(Scanned(Quoted(r.value.value), r.value.rest))
  }

  function Followed(b: Byte, r: Option<Scanned<Bytes>>): Option<Scanned<Bytes>> {
    if r.None? then None else Some(Scanned([b] + r.value.value, r.value.rest))
  }

  /** A backslash changes what some characters stand for: four control characters; two
      hexadecimal digits behind an x; and otherwise itself. */
  lemma Escapes(c: char, s: string, mark: char)
    requires c < 256 as char && mark in {'"', '\''}
    ensures Unquote("\\", mark) == None
    ensures c != 'x' && !('0' <= c <= '9') ==>
              Unquote(['\\', c] + s, mark)
              == Followed(if c == 'a' then 7 else if c == 't' then 9 else if c == 'n' then 10 else if c == 'r' then 13 else c as int,
                          Unquote(s, mark))
  {
    var t := ['\\', c] + s;
    assert t[1..] == [c] + s && t[1..][0] == c && t[2..] == s;
    if c != 'x' && !('0' <= c <= '9') { assert Escape(t[1..]).1 == 1; }
  }

  /** The value of a hexadecimal digit. */
  predicate IsHex(c: char, d: nat) {
    d < 16 && (c == "0123456789abcdef"[d] || c == "0123456789ABCDEF"[d])
  }

  lemma HexValue(c: char, d: nat)
    requires IsHex(c, d)
    ensures IsHexDigit(c) && DigitValue(c) == d
  {
  }

  lemma HexEscapes(a: char, b: char, high: nat, low: nat, s: string, mark: char)
    requires IsHex(a, high) && IsHex(b, low) && mark in {'"', '\''}
    ensures Unquote(['\\', 'x', a, b] + s, mark) == Followed(16 * high + low, Unquote(s, mark))
  {
    hide Escape, Numeral, IsHex;
    var t := ['\\', 'x', a, b] + s;
    var u := t[1..];
    assert u == ['x'] + ([a] + ([b] + s)) && t[4..] == s && t[0] == '\\' && |t| > 1;
    HexEscape(a, b, high, low, s);
    assert 1 + Escape(u).1 == 4;
    assert Unquote(t, mark) == Prepend([Escape(u).0], Unquote(t[4..], mark));
  }

  lemma HexEscape(a: char, b: char, high: nat, low: nat, s: string)
    requires IsHex(a, high) && IsHex(b, low)
    ensures high < 16 && low < 16 && Escape(['x'] + ([a] + ([b] + s))) == (16 * high + low, 3)
  {
    hide Numeral, IsHex, DigitValue, IsHexDigit, IsOctalDigit, IsDigit, Coded, Code;
    var u := ['x'] + ([a] + ([b] + s));
    assert u[0] == 'x' && u[1..] == [a] + ([b] + s);
    HexIsCoded(a, b, high, low, s);
    assert Escape(u) == Coded(Numeral(IsHexDigit, 16, 0, 2, u[1..]));
  }

  lemma HexIsCoded(a: char, b: char, high: nat, low: nat, s: string)
    requires IsHex(a, high) && IsHex(b, low)
    ensures high < 16 && low < 16 && Coded(Numeral(IsHexDigit, 16, 0, 2, [a] + ([b] + s))) == (16 * high + low, 3)
  {
    hide Numeral;
    HexValue(a, high);
    HexValue(b, low);
    HexNumeral(a, b, s);
  }

  lemma HexNumeral(a: char, b: char, s: string)
    requires IsHexDigit(a) && IsHexDigit(b)
    ensures Numeral(IsHexDigit, 16, 0, 2, [a] + ([b] + s)) == (Shift(Shift(0, 16, a), 16, b), 2)
  {
    hide Numeral, DigitValue, IsHexDigit, Shift;
    var t := [a] + ([b] + s);
    assert t[1..] == [b] + s && ([b] + s)[1..] == s && t[0] == a;
    NumeralStep(IsHexDigit, 16, 0, 2, t);
    NumeralStep(IsHexDigit, 16, Shift(0, 16, a), 1, [b] + s);
    NumeralStops(IsHexDigit, 16, Shift(Shift(0, 16, a), 16, b), 0, s);
  }

  /** A hex string is pairs of hexadecimal digits up to an angle bracket. */
  lemma HexStringsEnd(a: char, s: string)
    requires a != '>'
    ensures Unhex("") == None && Unhex([a]) == None && Unhex(['>'] + s) == Some(Scanned([], s))
    ensures NextToken(['<'] + s) == HexToken(Unhex(s))
  {
    assert (['>'] + s)[1..] == s && (['<'] + s)[1..] == s;
  }

  function HexToken(r: Option<Scanned<Bytes>>): Option<Scanned<Token>> {
    if r.None? then None else Some(Scanned(Hexed(r.value.value), r.value.rest))
  }

  lemma HexPairsAreRead(a: char, b: char, high: nat, low: nat, s: string)
    requires IsHex(a, high) && IsHex(b, low)
    ensures Unhex([a, b] + s) == Followed(16 * high + low, Unhex(s))
  {
    HexValue(a, high);
    HexValue(b, low);
    var t := [a, b] + s;
    assert t[2..] == s && t[0] == a && t[1] == b;
    assert Unhex(t) == Prepend([PairValue(a, b)], Unhex(t[2..]));
  }

  lemma OtherPairsAreNot(a: char, b: char, s: string)
    requires a != '>' && ((forall d :: !IsHex(a, d)) || (forall d :: !IsHex(b, d)))
    ensures Unhex([a, b] + s) == None
  {
    if IsHexDigit(a) { assert IsHex(a, DigitValue(a)); }
    if IsHexDigit(b) { assert IsHex(b, DigitValue(b)); }
    var t := [a, b] + s;
    assert t[0] == a && t[1] == b;
  }

  /** A word of the grammar is a keyword, and any other an identifier; it ends where no
      letter, digit or underscore follows. */
  lemma Words(word: string, rest: string)
    requires word != "" && StartsWord(word[0]) && forall i :: 0 <= i < |word| ==> InWord(word[i])
    requires rest == "" || !InWord(rest[0])
    ensures NextToken(word + rest) == Some(Scanned(if word in RESERVED then Keyword else Identifier(word), rest))
  {
    RunStops(InWord, word, rest);
    var s := word + rest;
    assert s[..|word|] == word && s[|word|..] == rest;
  }
}
