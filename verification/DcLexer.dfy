/** The tokens of a value in the syntax of a .dc file, as the lexer scans them and as
    the formatter prints them. A text is a string of characters below 256. */
module DcLexer {
  import opened Common
  import opened DcBytes

  /** `Keyword` stands for the reserved words of the grammar; `Symbol` for any other
      single character. */
  datatype Token =
    | Unsigned(n: nat)
    | Signed(i: int)
    | Quoted(text: Bytes)
    | Hexed(data: Bytes)
    | Identifier(name: string)
    | Keyword
    | Symbol(c: char)

  datatype Scanned<T> = Scanned(value: T, rest: string)

  const WORD: nat := 0x1_0000_0000_0000_0000

  /* ---- Characters ---- */

  predicate IsDigit(c: char) { '0' <= c <= '9' }

  predicate IsHexDigit(c: char) { IsDigit(c) || 'a' <= c <= 'f' || 'A' <= c <= 'F' }

  predicate IsSpace(c: char) { c == ' ' || c == '\t' || c == '\r' || c == '\n' }

  predicate StartsWord(c: char) { 'a' <= c <= 'z' || 'A' <= c <= 'Z' || c == '_' }

  predicate InWord(c: char) { StartsWord(c) || IsDigit(c) }

  function DigitValue(c: char): (d: Byte)
    ensures IsHexDigit(c) ==> d < 16
    ensures IsDigit(c) ==> d < 10
  {
    if IsDigit(c) then c as int - '0' as int
    else if 'a' <= c <= 'f' then c as int - 'a' as int + 10
    else if 'A' <= c <= 'F' then c as int - 'A' as int + 10
    else 0
  }

  function Code(c: char): Byte {
    c as int % 256
  }

  /** The length of the longest prefix whose characters all satisfy `p`. */
  function Run(p: char -> bool, s: string): (n: nat)
    ensures n <= |s| && forall i :: 0 <= i < n ==> p(s[i])
  {
    if s == "" || !p(s[0]) then 0 else 1 + Run(p, s[1..])
  }

  /* ---- Numbers ---- */

  /** The digits accumulated in 64 bits; None where the lexer notices an overflow. */
  function Accumulate(value: nat, radix: nat, digits: string): Option<nat>
    decreases |digits|
  {
    if digits == "" then Some(value)
    else
      var next := value * radix % WORD;
      if next < value then None
      else Accumulate((next + DigitValue(digits[0])) % WORD, radix, digits[1..])
  }

  function AsSigned(n: nat): int {
    if n % WORD < 0x8000_0000_0000_0000 then n % WORD else n % WORD - WORD
  }

  /** A sign in front of an accumulated value; -(-2^63) is itself. */
  function WithSign(negative: bool, n: nat): Option<int> {
    var i := AsSigned(n);
    if negative then
      var j := if i == -0x8000_0000_0000_0000 then i else -i;
      if j > 0 then None else Some(j)
    else if i < 0 then None
    else Some(i)
  }

  /* ---- Quoted strings and hex strings ---- */

  function Shift(value: nat, radix: nat, c: char): nat {
    value * radix + DigitValue(c)
  }

  /** Up to `max` characters in `p`, as digits of a number. */
  function Numeral(p: char -> bool, radix: nat, value: nat, max: nat, s: string): (nat, nat)
    decreases max
  {
    if max == 0 || s == "" || !p(s[0]) then (value, 0)
    else
      var (n, used) := Numeral(p, radix, Shift(value, radix, s[0]), max - 1, s[1..]);
      (n, used + 1)
  }

  predicate IsOctalDigit(c: char) { '0' <= c < '7' }

  /** What the characters after a backslash stand for, and how many they are. A decimal
      escape drops its first digit, and 7 is not taken for an octal one. */
  function Escape(s: string): (r: (Byte, nat))
    requires s != ""
    ensures 1 <= r.1
  {
    match s[0]
    case 'a' => (7, 1)
    case 'n' => (10, 1)
    case 'r' => (13, 1)
    case 't' => (9, 1)
    case 'x' => Coded(Numeral(IsHexDigit, 16, 0, 2, s[1..]))
    case '0' => Coded(Numeral(IsOctalDigit, 8, 0, 3, s[1..]))
    case c => if IsDigit(c) then Coded(Numeral(IsDigit, 10, 0, 3, s[1..])) else (Code(c), 1)
  }

  function Coded(n: (nat, nat)): (Byte, nat) {
    (n.0 % 256, n.1 + 1)
  }

  lemma {:induction false} NumeralFits(p: char -> bool, radix: nat, value: nat, max: nat, s: string)
    ensures Numeral(p, radix, value, max, s).1 <= |s|
    decreases max
  {
    if !(max == 0 || s == "" || !p(s[0])) {
      NumeralFits(p, radix, Shift(value, radix, s[0]), max - 1, s[1..]);
    }
  }

  lemma NumeralStep(p: char -> bool, radix: nat, value: nat, max: nat, s: string)
    requires max > 0 && s != "" && p(s[0])
    ensures var r := Numeral(p, radix, Shift(value, radix, s[0]), max - 1, s[1..]);
            Numeral(p, radix, value, max, s) == (r.0, r.1 + 1)
  {
  }

  lemma NumeralStops(p: char -> bool, radix: nat, value: nat, max: nat, s: string)
    requires max == 0 || s == "" || !p(s[0])
    ensures Numeral(p, radix, value, max, s) == (value, 0)
  {
  }

  lemma EscapeFits(s: string)
    requires s != ""
    ensures Escape(s).1 <= |s|
  {
    NumeralFits(IsHexDigit, 16, 0, 2, s[1..]);
    NumeralFits(IsOctalDigit, 8, 0, 3, s[1..]);
    NumeralFits(IsDigit, 10, 0, 3, s[1..]);
  }

  /** What digits stand for, without a bound. */
  function Read(value: nat, radix: nat, digits: string): nat
    decreases |digits|
  {
    if digits == "" then value else Read(Shift(value, radix, digits[0]), radix, digits[1..])
  }

  /** How many of at most `max` characters from the front satisfy `p`. */
  function Upto(p: char -> bool, max: nat, s: string): (n: nat)
    ensures n <= max && n <= |s|
  {
    if Run(p, s) < max then Run(p, s) else max
  }

  lemma {:induction false} NumeralReads(p: char -> bool, radix: nat, value: nat, max: nat, s: string)
    ensures Numeral(p, radix, value, max, s) == (Read(value, radix, s[..Upto(p, max, s)]), Upto(p, max, s))
    decreases max
  {
    var k := Upto(p, max, s);
    if max == 0 || s == "" || !p(s[0]) {
      assert s[..k] == "";
    } else {
      NumeralReads(p, radix, Shift(value, radix, s[0]), max - 1, s[1..]);
      assert Upto(p, max - 1, s[1..]) == k - 1;
      assert s[..k][0] == s[0] && s[..k][1..] == s[1..][..k - 1];
    }
  }

  predicate IsOctal(c: char) { '0' <= c <= '7' }

  /** An escape \0ooo stands for its octal digits exactly if none of them is 7. */
  lemma OctalEscapesIff(s: string)
    ensures var k := Upto(IsOctal, 3, s);
            Escape(['0'] + s) == (Read(0, 8, s[..k]) % 256, k + 1) <==> '7' !in s[..k]
  {
    var t := ['0'] + s;
    assert t[1..] == s;
    var k, j := Upto(IsOctal, 3, s), Upto(IsOctalDigit, 3, s);
    NumeralReads(IsOctalDigit, 8, 0, 3, s);
    RunsAgree(s);
    assert Escape(t) == (Read(0, 8, s[..j]) % 256, j + 1);
    if '7' !in s[..k] {
      assert j == k;
    } else {
      var i :| 0 <= i < k && s[..k][i] == '7';
      assert s[i] == '7';
      assert j <= i;
    }
  }

  /** The two kinds of octal digits run equally far up to the first 7. */
  lemma {:induction false} RunsAgree(s: string)
    ensures Run(IsOctalDigit, s) <= Run(IsOctal, s)
    ensures Run(IsOctalDigit, s) < Run(IsOctal, s) ==> s[Run(IsOctalDigit, s)] == '7'
  {
    if s != "" && IsOctalDigit(s[0]) { RunsAgree(s[1..]); }
  }

  /** An escape \d with d from 1 to 9 stands for the up to three digits behind d: never for
      all of the digits it takes, and never for the first three from d on. */
  lemma DecimalEscapesDropADigit(d: char, s: string)
    requires '1' <= d <= '9'
    ensures var k := Upto(IsDigit, 3, s);
            && Escape([d] + s) == (Read(0, 10, s[..k]) % 256, k + 1)
            && Read(0, 10, s[..k]) % 256 != Read(0, 10, [d] + s[..k]) % 256
    ensures var k := Upto(IsDigit, 2, s);
            Escape([d] + s) != (Read(0, 10, [d] + s[..k]) % 256, k + 1)
  {
    var t := [d] + s;
    assert t[1..] == s;
    NumeralReads(IsDigit, 10, 0, 3, s);
    var k := Upto(IsDigit, 3, s);
    assert Escape(t) == (Read(0, 10, s[..k]) % 256, k + 1);
    LeadingDigit(d, s[..k]);
  }

  /** A leading digit never counts for a multiple of 256. */
  lemma LeadingDigit(d: char, s: string)
    requires '1' <= d <= '9' && |s| <= 3
    ensures Read(0, 10, [d] + s) % 256 != Read(0, 10, s) % 256
  {
    hide Read;
    var v := DigitValue(d) as int;
    ReadOn(0, [d] + s);
    assert ([d] + s)[1..] == s;
    ReadAbove(v, s);
    var x := v * (if |s| == 0 then 1 else if |s| == 1 then 10 else if |s| == 2 then 100 else 1000);
    assert x % 256 != 0 by { NoMultiple(v); }
    NotCongruent(Read(0, 10, s), x);
  }

  lemma ReadOn(value: nat, s: string)
    requires s != ""
    ensures Read(value, 10, s) == Read(value * 10 + DigitValue(s[0]), 10, s[1..])
  {
  }

  lemma NoMultiple(v: int)
    requires 1 <= v <= 9
    ensures v % 256 != 0 && v * 10 % 256 != 0 && v * 100 % 256 != 0 && v * 1000 % 256 != 0
  {
  }

  lemma NotCongruent(n: nat, x: nat)
    requires x % 256 != 0
    ensures (x + n) % 256 != n % 256
  {
  }

  lemma {:induction false} ReadAbove(value: nat, s: string)
    requires |s| <= 3
    ensures Read(value, 10, s)
         == value * (if |s| == 0 then 1 else if |s| == 1 then 10 else if |s| == 2 then 100 else 1000) + Read(0, 10, s)
    decreases |s|
  {
    if s != "" {
      ReadAbove(value * 10 + DigitValue(s[0]), s[1..]);
      ReadAbove(DigitValue(s[0]), s[1..]);
    }
  }

  function Prepend(b: Bytes, r: Option<Scanned<Bytes>>): Option<Scanned<Bytes>> {
    if r.None? then None else Some(Scanned(b + r.value.value, r.value.rest))
  }

  /** scan_quoted_string(): what follows the opening quotation mark. */
  function Unquote(s: string, mark: char): (r: Option<Scanned<Bytes>>)
    ensures r.Some? ==> |r.value.rest| < |s|
    decreases |s|
  {
    if s == "" then None
    else if s[0] == mark then Some(Scanned([], s[1..]))
    else if s[0] == '\n' then None
    else if s[0] == '\\' then
      if |s| == 1 then None
      else
        EscapeFits(s[1..]);
        var (b, n) := Escape(s[1..]);
        Prepend([b], Unquote(s[1 + n..], mark))
    else Prepend([Code(s[0])], Unquote(s[1..], mark))
  }

  /** scan_hex_string(): what follows the opening bracket. */
  function Unhex(s: string): (r: Option<Scanned<Bytes>>)
    ensures r.Some? ==> |r.value.rest| < |s|
  {
    if s == "" then None
    else if s[0] == '>' then Some(Scanned([], s[1..]))
    else if |s| == 1 || !IsHexDigit(s[0]) || !IsHexDigit(s[1]) then None
    else Prepend([PairValue(s[0], s[1])], Unhex(s[2..]))
  }

  function PairValue(high: char, low: char): Byte
    requires IsHexDigit(high) && IsHexDigit(low)
  {
    var h: nat := DigitValue(high);
    h * 16 + DigitValue(low)
  }

  /* ---- Tokens ---- */

  const RESERVED: set<string> := {
    "dclass", "struct", "from", "import", "keyword", "typedef", "switch", "case", "default", "break",
    "int8", "int16", "int32", "int64", "uint8", "uint16", "uint32", "uint64", "float64", "string", "blob", "blob32",
    "int8array", "int16array", "int32array", "uint8array", "uint16array", "uint32array", "uint32uint8array", "char" }

  /** The next token, behind any white space. */
  function NextToken(s: string): (r: Option<Scanned<Token>>)
    ensures r.Some? ==> |r.value.rest| < |s|
    decreases |s|
  {
    if s == "" then None
    else if IsSpace(s[0]) then NextToken(s[1..])
    else ScanToken(s)
  }

  /** Floating-point numbers and comments are not modelled. */
  function ScanToken(s: string): (r: Option<Scanned<Token>>)
    requires s != ""
    ensures r.Some? ==> |r.value.rest| < |s|
  {
    var c := s[0];
    if c == '"' || c == '\'' then
      var t := Unquote(s[1..], c);
      if t.None? then None else Some(Scanned(Quoted(t.value.value), t.value.rest))
    else if c == '<' then
      var t := Unhex(s[1..]);
      if t.None? then None else Some(Scanned(Hexed(t.value.value), t.value.rest))
    else if IsDigit(c) then ScanNumber(s)
    else if (c == '+' || c == '-') && |s| > 1 && IsDigit(s[1]) then ScanSigned(s)
    else if StartsWord(c) then
      var n := Run(InWord, s);
      Some(Scanned(if s[..n] in RESERVED then Keyword else Identifier(s[..n]), s[n..]))
    else if StartsReal(s) || (|s| > 1 && c == '/' && (s[1] == '/' || s[1] == '*')) then None
    else Some(Scanned(Symbol(c), s[1..]))
  }

  predicate StartsReal(s: string) {
    s != "" && (s[0] == '.' || (|s| > 1 && (s[0] == '+' || s[0] == '-') && s[1] == '.'))
  }

  function ScanNumber(s: string): (r: Option<Scanned<Token>>)
    requires s != "" && IsDigit(s[0])
    ensures r.Some? ==> |r.value.rest| < |s|
  {
    if |s| > 1 && s[0] == '0' && s[1] == 'x' then
      var n := 2 + Run(IsHexDigit, s[2..]);
      var value := Accumulate(0, 16, s[2..n]);
      if value.None? then None else Some(Scanned(Unsigned(value.value), s[n..]))
    else
      var n := Run(IsDigit, s);
      var value := Accumulate(0, 10, s[..n]);
      if value.None? || (n < |s| && s[n] == '.') then None
      else Some(Scanned(Unsigned(value.value), s[n..]))
  }

  function ScanSigned(s: string): (r: Option<Scanned<Token>>)
    requires |s| > 1 && IsDigit(s[1])
    ensures r.Some? ==> |r.value.rest| < |s|
  {
    var n := 1 + Run(IsDigit, s[1..]);
    var value := Accumulate(0, 10, s[1..n]);
    if value.None? || (n < |s| && s[n] == '.') then None
    else
      var i := WithSign(s[0] == '-', value.value);
      if i.None? then None else Some(Scanned(Signed(i.value), s[n..]))
  }

  /** Nothing but white space is left. */
  predicate AtEnd(s: string) {
    Run(IsSpace, s) == |s|
  }

  /* ---- Printing ---- */

  function Digit(d: nat): (c: char)
    requires d < 16
    ensures IsHexDigit(c) && DigitValue(c) == d && (d < 10 ==> IsDigit(c))
  {
    "0123456789abcdef"[d]
  }

  function Decimal(n: nat): (s: string)
    ensures s != "" && forall i :: 0 <= i < |s| ==> IsDigit(s[i])
  {
    if n < 10 then [Digit(n)] else Decimal(n / 10) + [Digit(n % 10)]
  }

  function Number(i: int): string {
    if i < 0 then "-" + Decimal(-i) else Decimal(i)
  }

  function HexPair(b: Byte): string {
    [Digit(b / 16), Digit(b % 16)]
  }

  predicate IsPrintable(b: Byte) { 32 <= b <= 126 }

  function QuoteOne(b: Byte, mark: char): string {
    if b as char == mark || b as char == '\\' then ['\\', b as char]
    else if !IsPrintable(b) then "\\x" + HexPair(b)
    else [b as char]
  }

  function QuoteAll(bs: Bytes, mark: char): string {
    if bs == [] then "" else QuoteOne(bs[0], mark) + QuoteAll(bs[1..], mark)
  }

  /** enquote_string() */
  function Enquote(bs: Bytes, mark: char): string {
    [mark] + QuoteAll(bs, mark) + [mark]
  }

  function HexAll(bs: Bytes): string {
    if bs == [] then "" else HexPair(bs[0]) + HexAll(bs[1..])
  }

  /** output_hex_string() */
  function HexString(bs: Bytes): string {
    "<" + HexAll(bs) + ">"
  }

  /* ---- The scanner reads what was printed ---- */

  /** The characters that follow a printed value. */
  predicate Stops(rest: string) {
    rest == "" || rest[0] in {',', ']', ')', '}'}
  }

  /** The characters that follow a number, which may be repeated. */
  predicate EndsNumber(rest: string) {
    Stops(rest) || rest[0] in {' ', '*'}
  }

  lemma {:induction false} RunStops(p: char -> bool, s: string, rest: string)
    requires forall i :: 0 <= i < |s| ==> p(s[i])
    requires rest == "" || !p(rest[0])
    ensures Run(p, s + rest) == |s|
  {
    if s == "" {
      assert s + rest == rest;
    } else {
      assert (s + rest)[1..] == s[1..] + rest;
      RunStops(p, s[1..], rest);
    }
  }

  lemma {:induction false} AccumulateAppends(value: nat, radix: nat, a: string, b: string)
    ensures Accumulate(value, radix, a + b)
         == var n := Accumulate(value, radix, a); if n.None? then None else Accumulate(n.value, radix, b)
    decreases |a|
  {
    if a == "" {
      assert a + b == b;
    } else {
      assert (a + b)[1..] == a[1..] + b;
      AccumulateAppends((value * radix % WORD + DigitValue(a[0])) % WORD, radix, a[1..], b);
    }
  }

  /** A printed number of 64 bits is accumulated without overflow. */
  lemma {:induction false} DecimalAccumulates(n: nat)
    requires n < WORD
    ensures Accumulate(0, 10, Decimal(n)) == Some(n)
  {
    if n < 10 {
      OneDigit(0, n);
    } else {
      DecimalAccumulates(n / 10);
      AccumulateAppends(0, 10, Decimal(n / 10), [Digit(n % 10)]);
      OneDigit(n / 10, n % 10);
    }
  }

  lemma OneDigit(value: nat, d: nat)
    requires d < 10 && value * 10 + d < WORD
    ensures Accumulate(value, 10, [Digit(d)]) == Some(value * 10 + d)
  {
    var s := [Digit(d)];
    assert s[1..] == "";
    assert value * 10 % WORD == value * 10;
    assert Accumulate(value * 10 + d, 10, s[1..]) == Some(value * 10 + d);
  }

  /** The lexer's check: only the product is compared with what it was made of. */
  predicate Noticed(radix: nat, value: nat) {
    value * radix % WORD < value
  }

  /** The check fires on the 64-bit value of some proper prefix of the digits. */
  predicate NoticedIn(radix: nat, digits: string) {
    exists k :: 0 <= k < |digits| && Noticed(radix, Read(0, radix, digits[..k]) % WORD)
  }

  /** Exactly those overflowing products are noticed that exceed the multiple of 2^64 below
      them by less than their factor. */
  lemma NoticedIff(radix: nat, value: nat)
    requires radix > 0
    ensures Noticed(radix, value) <==> (radix - 1) * value < value * radix / WORD * WORD
  {
    var p := value * radix;
    assert p == p / WORD * WORD + p % WORD;
    assert (radix - 1) * value == p - value;
  }

  lemma {:induction false} ReadSnoc(value: nat, radix: nat, s: string, c: char)
    ensures Read(value, radix, s + [c]) == Shift(Read(value, radix, s), radix, c)
    decreases |s|
  {
    if s == "" {
      assert s + [c] == [c] && [c][1..] == "";
    } else {
      assert (s + [c])[1..] == s[1..] + [c];
      ReadSnoc(Shift(value, radix, s[0]), radix, s[1..], c);
    }
  }

  lemma DigitWraps(x: nat, radix: nat, c: char)
    ensures (x % WORD * radix % WORD + DigitValue(c)) % WORD == Shift(x, radix, c) % WORD
  {
    var q, y := x / WORD, x % WORD;
    assert x == q * WORD + y;
    assert x * radix == (q * radix) * WORD + y * radix by { Spread(q, y, radix); }
    var k, d := q * radix, DigitValue(c) as int;
    assert (k * WORD + y * radix + d) % WORD == (y * radix % WORD + d) % WORD;
  }

  lemma Spread(q: nat, y: nat, radix: nat)
    ensures (q * WORD + y) * radix == (q * radix) * WORD + y * radix
  {
  }

  /** What any digits are scanned as: None where the check fires, and otherwise the last 64
      bits of what they stand for. */
  lemma {:induction false} AccumulateIs(radix: nat, digits: string)
    ensures Accumulate(0, radix, digits) == if NoticedIn(radix, digits) then None else Some(Read(0, radix, digits) % WORD)
    decreases |digits|
  {
    if digits != "" {
      var n := |digits| - 1;
      var front, c := digits[..n], digits[n];
      assert digits == front + [c];
      AccumulateIs(radix, front);
      AccumulateAppends(0, radix, front, [c]);
      ReadSnoc(0, radix, front, c);
      var x := Read(0, radix, front);
      DigitWraps(x, radix, c);
      assert forall k :: 0 <= k < n ==> front[..k] == digits[..k];
      assert NoticedIn(radix, digits) <==> NoticedIn(radix, front) || Noticed(radix, x % WORD);
      LastDigit(x % WORD, radix, c);
    }
  }

  lemma LastDigit(value: nat, radix: nat, c: char)
    ensures Accumulate(value, radix, [c])
         == if Noticed(radix, value) then None else Some((value * radix % WORD + DigitValue(c)) % WORD)
  {
    assert [c][1..] == "";
    var next := value * radix % WORD;
    assert Accumulate((next + DigitValue(c)) % WORD, radix, [c][1..]) == Some((next + DigitValue(c)) % WORD);
  }

  lemma {:induction false} PrefixIsSmaller(radix: nat, digits: string, k: nat)
    requires radix > 0 && k <= |digits|
    ensures Read(0, radix, digits[..k]) <= Read(0, radix, digits)
    ensures k < |digits| ==> Read(0, radix, digits[..k]) * radix <= Read(0, radix, digits)
    decreases |digits| - k
  {
    if k == |digits| {
      assert digits[..k] == digits;
    } else {
      var x := Read(0, radix, digits[..k]);
      assert digits[..k + 1] == digits[..k] + [digits[k]];
      ReadSnoc(0, radix, digits[..k], digits[k]);
      PrefixIsSmaller(radix, digits, k + 1);
      Grows(x, radix);
    }
  }

  lemma Grows(x: nat, radix: nat)
    requires radix > 0
    ensures x * radix >= x
  {
    SmallMultiple(x, radix);
  }

  lemma {:induction false} NothingNoticed(radix: nat, digits: string)
    requires radix > 0 && Read(0, radix, digits) < WORD
    ensures !NoticedIn(radix, digits)
  {
    hide Read;
    forall k | 0 <= k < |digits| ensures !Noticed(radix, Read(0, radix, digits[..k]) % WORD) {
      PrefixIsSmaller(radix, digits, k);
      SmallIsNotNoticed(radix, Read(0, radix, digits[..k]));
    }
  }

  lemma SmallIsNotNoticed(radix: nat, x: nat)
    requires radix > 0 && x < WORD && x * radix < WORD
    ensures !Noticed(radix, x % WORD)
  {
    Grows(x, radix);
    assert x % WORD == x;
    var p := x * radix;
    assert p % WORD == p;
  }

  /** A number is scanned as what it stands for exactly when that fits 64 bits. A larger one
      is an error exactly when the check fires, and otherwise becomes another number. */
  lemma ScannedExactlyIfItFits(radix: nat, digits: string)
    requires radix > 0
    ensures Accumulate(0, radix, digits) == Some(Read(0, radix, digits)) <==> Read(0, radix, digits) < WORD
    ensures Accumulate(0, radix, digits) == None <==> NoticedIn(radix, digits)
    ensures Read(0, radix, digits) >= WORD && !NoticedIn(radix, digits) ==>
              Accumulate(0, radix, digits) == Some(Read(0, radix, digits) % WORD)
  {
    hide Read, Accumulate, NoticedIn;
    AccumulateIs(radix, digits);
    if Read(0, radix, digits) < WORD { NothingNoticed(radix, digits); }
  }

  /** The digit is added without a check: 2^64 and the three numbers behind it are scanned
      as 0 to 3. */
  lemma OverflowIsMissed(n: nat)
    requires WORD <= n && n / 10 * 10 < WORD
    ensures Accumulate(0, 10, Decimal(n)) == Some(n - WORD)
  {
    hide Accumulate, Digit, Noticed, Decimal;
    var v := n / 10;
    DecimalAccumulates(v);
    AccumulateAppends(0, 10, Decimal(v), [Digit(n % 10)]);
    DigitIsUnchecked(v, n % 10);
    LastOfDecimal(n);
  }

  lemma LastOfDecimal(n: nat)
    requires n >= 10
    ensures Decimal(n) == Decimal(n / 10) + [Digit(n % 10)]
  {
  }

  lemma DigitIsUnchecked(v: nat, d: nat)
    requires d < 10 && v * 10 < WORD <= v * 10 + d
    ensures Accumulate(v, 10, [Digit(d)]) == Some(v * 10 + d - WORD)
  {
    hide Accumulate;
    LastDigit(v, 10, Digit(d));
  }

  lemma UnsignedScans(n: nat, rest: string)
    requires n < WORD && EndsNumber(rest)
    ensures NextToken(Decimal(n) + rest) == Some(Scanned(Unsigned(n), rest))
  {
    hide Accumulate, Decimal, Run;
    var digits := Decimal(n);
    DecimalAccumulates(n);
    RunStops(IsDigit, digits, rest);
    var s := digits + rest;
    assert s[..|digits|] == digits && s[|digits|..] == rest;
    assert |s| > 1 ==> s[1] != 'x' by {
      if |digits| > 1 { assert s[1] == digits[1]; } else if rest != "" { assert s[1] == rest[0]; }
    }
    assert NextToken(s) == ScanNumber(s);
  }

  lemma NegativeScans(n: int, rest: string)
    requires 0 < n <= 0x8000_0000_0000_0000 && EndsNumber(rest)
    ensures NextToken("-" + Decimal(n) + rest) == Some(Scanned(Signed(-n), rest))
  {
    hide Accumulate, Decimal, Run;
    var digits := Decimal(n);
    DecimalAccumulates(n);
    RunStops(IsDigit, digits, rest);
    var s := "-" + digits + rest;
    assert s[1..] == digits + rest;
    assert s[1..1 + |digits|] == digits && s[1 + |digits|..] == rest;
    assert NextToken(s) == ScanSigned(s);
    assert WithSign(true, n) == Some(-n);
  }

  lemma NumberScans(i: int, rest: string)
    requires -0x8000_0000_0000_0000 <= i < WORD && EndsNumber(rest)
    ensures NextToken(Number(i) + rest) == Some(Scanned(if i < 0 then Signed(i) else Unsigned(i), rest))
  {
    if i < 0 { NegativeScans(-i, rest); } else { UnsignedScans(i, rest); }
  }

  lemma HexEscapes(b: Byte, rest: string)
    ensures Escape("x" + HexPair(b) + rest) == (b, 3)
  {
    hide Numeral, HexPair;
    var s := "x" + HexPair(b) + rest;
    assert s[0] == 'x' && s[1..] == HexPair(b) + rest;
    HexPairReads(b, rest);
  }

  lemma HexPairReads(b: Byte, rest: string)
    ensures Numeral(IsHexDigit, 16, 0, 2, HexPair(b) + rest) == (b as int, 2)
  {
    var t := HexPair(b) + rest;
    assert t[1..] == [Digit(b % 16)] + rest && t[1..][1..] == rest;
    assert Numeral(IsHexDigit, 16, b / 16 * 16 + b % 16, 0, rest) == (b as int, 0);
    assert Numeral(IsHexDigit, 16, b / 16, 1, t[1..]) == (b as int, 1);
  }

  lemma UnquoteOne(b: Byte, rest: string)
    ensures Unquote(QuoteOne(b, '"') + rest, '"') == Prepend([b], Unquote(rest, '"'))
  {
    hide Numeral, HexPair;
    var s := QuoteOne(b, '"') + rest;
    if b as char == '"' || b as char == '\\' {
      assert s[1..] == [b as char] + rest && s[2..] == rest;
    } else if !IsPrintable(b) {
      HexEscapes(b, rest);
      assert |HexPair(b)| == 2 by { PairLength(b); }
      assert s[1..] == "x" + HexPair(b) + rest && s[4..] == rest;
    } else {
      assert s[1..] == rest;
    }
  }

  lemma PairLength(b: Byte)
    ensures |HexPair(b)| == 2
  {
  }

  lemma {:induction false} UnquoteAll(bs: Bytes, rest: string)
    ensures Unquote(QuoteAll(bs, '"') + ['"'] + rest, '"') == Some(Scanned(bs, rest))
  {
    var s := QuoteAll(bs, '"') + ['"'] + rest;
    if bs == [] {
      assert s == ['"'] + rest && s[1..] == rest;
    } else {
      var tail := QuoteAll(bs[1..], '"') + ['"'] + rest;
      assert s == QuoteOne(bs[0], '"') + tail;
      UnquoteOne(bs[0], tail);
      UnquoteAll(bs[1..], rest);
      assert [bs[0]] + bs[1..] == bs;
    }
  }

  /** Quoting escapes exactly what the scanner needs escaped. */
  lemma QuotedScans(bs: Bytes, rest: string)
    ensures NextToken(Enquote(bs, '"') + rest) == Some(Scanned(Quoted(bs), rest))
  {
    var s := Enquote(bs, '"') + rest;
    assert s[1..] == QuoteAll(bs, '"') + ['"'] + rest;
    UnquoteAll(bs, rest);
  }

  lemma UnhexPair(high: char, low: char, rest: string)
    requires IsHexDigit(high) && IsHexDigit(low)
    ensures Unhex([high, low] + rest) == Prepend([PairValue(high, low)], Unhex(rest))
  {
    assert ([high, low] + rest)[2..] == rest;
  }

  lemma {:induction false} UnhexAll(bs: Bytes, rest: string)
    ensures Unhex(HexAll(bs) + ">" + rest) == Some(Scanned(bs, rest))
  {
    var s := HexAll(bs) + ">" + rest;
    if bs == [] {
      assert s == ">" + rest && s[1..] == rest;
    } else {
      var tail := HexAll(bs[1..]) + ">" + rest;
      assert s == HexPair(bs[0]) + tail && s[2..] == tail;
      UnhexAll(bs[1..], rest);
      assert [bs[0]] + bs[1..] == bs;
    }
  }

  lemma HexScans(bs: Bytes, rest: string)
    ensures NextToken(HexString(bs) + rest) == Some(Scanned(Hexed(bs), rest))
  {
    var s := HexString(bs) + rest;
    assert s[1..] == HexAll(bs) + ">" + rest;
    UnhexAll(bs, rest);
  }

  predicate IsIdentifier(name: string) {
    && name != "" && StartsWord(name[0]) && name !in RESERVED
    && forall i :: 0 <= i < |name| ==> InWord(name[i])
  }

  lemma NameScans(name: string, rest: string)
    requires IsIdentifier(name) && rest != "" && !InWord(rest[0])
    ensures NextToken(name + rest) == Some(Scanned(Identifier(name), rest))
  {
    RunStops(InWord, name, rest);
    assert (name + rest)[..|name|] == name && (name + rest)[|name|..] == rest;
  }

  lemma SymbolScans(c: char, rest: string)
    requires c in {'[', ']', '(', ')', '{', '}', ',', '='}
    ensures NextToken([c] + rest) == Some(Scanned(Symbol(c), rest))
    ensures NextToken(" " + ([c] + rest)) == Some(Scanned(Symbol(c), rest))
  {
    assert ([c] + rest)[1..] == rest;
    assert (" " + ([c] + rest))[1..] == [c] + rest;
  }

  /* ---- In place ---- */

  /** The characters of the input one by one. */
  class Lexer {
    const input: string
    var at: nat

    ghost predicate Valid()
      reads this
    {
      at <= |input|
    }

    function Left(): string
      requires Valid()
      reads this
    {
      input[at..]
    }

    /** What is left when `c` has been read and not yet used; None is the end of input. */
    function LeftWith(c: Option<char>): string
      requires Valid()
      reads this
    {
      if c.None? then "" else [c.value] + Left()
    }

    constructor (input: string)
      ensures Valid() && Left() == input
    {
      this.input := input;
      at := 0;
    }

    method ReadChar() returns (c: Option<char>)
      requires Valid()
      modifies this
      ensures Valid() && LeftWith(c) == old(Left())
      ensures c.None? ==> old(Left()) == ""
    {
      if at == |input| { return None; }
      c := Some(input[at]);
      at := at + 1;
    }

    /** The C escapes after a backslash; `next` is the character behind it. The string
        that is scanned ends, unfinished, where the input does. */
    method ScanEscape(c: char) returns (b: Byte, next: Option<char>)
      requires Valid()
      modifies this
      ensures Valid()
      ensures var r := Escape([c] + old(Left()));
              b == r.0 && r.1 <= 1 + |old(Left())| && LeftWith(next) == ([c] + old(Left()))[r.1..]
    {
      ghost var s := [c] + Left();
      EscapeFits(s);
      assert s[1..] == Left();
      var n: nat;
      match c
      case 'a' => b := 7; next := ReadChar();
      case 'n' => b := 10; next := ReadChar();
      case 'r' => b := 13; next := ReadChar();
      case 't' => b := 9; next := ReadChar();
      case 'x' => n, next := ScanNumeral(IsHexDigit, 16, 2); b := n % 256;
      case '0' => n, next := ScanNumeral(IsOctalDigit, 8, 3); b := n % 256;
      case _ =>
        if IsDigit(c) { n, next := ScanNumeral(IsDigit, 10, 3); b := n % 256; }
        else { b := Code(c); next := ReadChar(); }
    }

    method ScanNumeral(p: char -> bool, radix: nat, max: nat) returns (n: nat, next: Option<char>)
      requires Valid()
      modifies this
      ensures Valid()
      ensures var r := Numeral(p, radix, 0, max, old(Left()));
              n == r.0 && r.1 <= |old(Left())| && LeftWith(next) == old(Left())[r.1..]
    {
      hide Shift, Numeral;
      ghost var s := Left();
      NumeralFits(p, radix, 0, max, s);
      n := 0;
      next := ReadChar();
      var i := 0;
      assert s[0..] == s;
      while i < max && next.Some? && p(next.value)
        invariant Valid() && i <= max && i <= |s| && LeftWith(next) == s[i..]
        invariant Numeral(p, radix, n, max - i, s[i..]) == (Numeral(p, radix, 0, max, s).0, Numeral(p, radix, 0, max, s).1 - i)
      {
        assert s[i..][0] == next.value && s[i..][1..] == s[i + 1..];
        NumeralStep(p, radix, n, max - i, s[i..]);
        n := Shift(n, radix, next.value);
        next := ReadChar();
        i := i + 1;
      }
      NumeralStops(p, radix, n, max - i, s[i..]);
    }

    /** scan_quoted_string(), behind the opening mark. None is a reported error. */
    method ScanQuotedString(mark: char) returns (r: Option<Bytes>)
      requires Valid()
      modifies this
      ensures Valid()
      ensures var e := Unquote(old(Left()), mark);
              if e.Some? then r == Some(e.value.value) && Left() == e.value.rest else r == None
    {
      var result: Bytes := [];
      PrependNothing(Unquote(Left(), mark));
      var c := ReadChar();
      while c.Some? && c.value != mark
        invariant Valid()
        invariant Unquote(old(Left()), mark) == Prepend(result, Unquote(LeftWith(c), mark))
        decreases |LeftWith(c)|
      {
        ghost var s := LeftWith(c);
        assert s[1..] == Left();
        if c.value == '\n' {
          return None;
        } else if c.value == '\\' {
          c := ReadChar();
          if c.None? { return None; }
          EscapeFits(s[1..]);
          var b;
          b, c := ScanEscape(c.value);
          PrependTwice(result, [b], Unquote(LeftWith(c), mark));
          assert s[1..][Escape(s[1..]).1..] == s[1 + Escape(s[1..]).1..];
          result := result + [b];
        } else {
          PrependTwice(result, [Code(c.value)], Unquote(s[1..], mark));
          result := result + [Code(c.value)];
          c := ReadChar();
        }
      }
      if c.None? { return None; }
      assert LeftWith(c)[1..] == Left();
      assert result + [] == result;
      r := Some(result);
    }

    /** scan_hex_string(), behind the opening bracket. */
    method ScanHexString() returns (r: Option<Bytes>)
      requires Valid()
      modifies this
      ensures Valid()
      ensures var e := Unhex(old(Left()));
              if e.Some? then r == Some(e.value.value) && Left() == e.value.rest else r == None
    {
      hide PairValue, Prepend, Unhex, Held;
      var result: Bytes := [];
      var odd, last: char := false, '0';
      PrependNothing(Unhex(Left()));
      var c := ReadChar();
      HoldNone(last, LeftWith(c));
      while c.Some? && c.value != '>'
        invariant Valid() && IsHexDigit(last)
        invariant Unhex(old(Left())) == Prepend(result, Unhex(Held(odd, last, LeftWith(c))))
        decreases |LeftWith(c)|
      {
        ghost var rest := Left();
        if !IsHexDigit(c.value) { HexStops(odd, last, LeftWith(c)); PrependNone(result); return None; }
        odd := !odd;
        if odd {
          HoldNone(last, LeftWith(c));
          HoldOne(c.value, rest);
          last := c.value;
        } else {
          HoldTwo(last, c.value, rest);
          HoldNone(last, rest);
          UnhexPair(last, c.value, rest);
          PrependTwice(result, [PairValue(last, c.value)], Unhex(rest));
          result := result + [PairValue(last, c.value)];
        }
        c := ReadChar();
      }
      HexStops(odd, last, LeftWith(c));
      if c.None? || odd { PrependNone(result); return None; }
      assert LeftWith(c)[1..] == Left();
      PrependOnly(result, Left());
      r := Some(result);
    }
  }

  /** What is left of a hex string, with the digit that still waits for its partner. */
  function Held(odd: bool, last: char, rest: string): string {
    if odd then [last] + rest else rest
  }

  lemma HoldNone(last: char, rest: string)
    ensures Held(false, last, rest) == rest
  {
  }

  lemma HoldOne(last: char, rest: string)
    ensures Held(true, last, rest) == [last] + rest
  {
  }

  lemma HoldTwo(last: char, c: char, rest: string)
    ensures Held(true, last, [c] + rest) == [last, c] + rest
  {
  }

  /** Where the digits end. */
  lemma HexStops(odd: bool, last: char, rest: string)
    requires IsHexDigit(last) && (rest == "" || !IsHexDigit(rest[0]))
    ensures Unhex(Held(odd, last, rest)) == if rest != "" && !odd && rest[0] == '>' then Some(Scanned([], rest[1..])) else None
  {
    var s := Held(odd, last, rest);
    assert odd ==> s[0] == last && (rest != "" ==> s[1] == rest[0]);
  }

  lemma PrependNone(a: Bytes)
    ensures Prepend(a, None) == None
  {
  }

  lemma PrependOnly(a: Bytes, rest: string)
    ensures Prepend(a, Some(Scanned([], rest))) == Some(Scanned(a, rest))
  {
    assert a + [] == a;
  }

  lemma PrependNothing(r: Option<Scanned<Bytes>>)
    ensures Prepend([], r) == r
  {
    if r.Some? { assert [] + r.value.value == r.value.value; }
  }

  lemma PrependTwice(a: Bytes, b: Bytes, r: Option<Scanned<Bytes>>)
    ensures Prepend(a + b, r) == Prepend(a, Prepend(b, r))
  {
    if r.Some? { assert a + b + r.value.value == a + (b + r.value.value); }
  }

  /** The integer token actions: digit by digit, in 64 bits. */
  method ScanDigits(digits: string, radix: nat) returns (r: Option<nat>)
    ensures r == Accumulate(0, radix, digits)
  {
    var value: nat := 0;
    assert digits[0..] == digits;
    for i := 0 to |digits|
      invariant Accumulate(value, radix, digits[i..]) == Accumulate(0, radix, digits)
    {
      assert digits[i..][0] == digits[i] && digits[i..][1..] == digits[i + 1..];
      var next := value * radix % WORD;
      if next < value { return None; }
      value := (next + DigitValue(digits[i])) % WORD;
    }
    r := Some(value);
  }

  lemma Regroup(a: string, b: string, c: string)
    ensures a + (b + c) == a + b + c
  {
  }

  method EnquoteString(bs: Bytes, mark: char) returns (out: string)
    ensures out == Enquote(bs, mark)
  {
    out := [mark];
    assert bs[0..] == bs;
    for i := 0 to |bs|
      invariant out + QuoteAll(bs[i..], mark) == [mark] + QuoteAll(bs, mark)
    {
      assert bs[i..][0] == bs[i] && bs[i..][1..] == bs[i + 1..];
      var c := bs[i] as char;
      var piece := [c];
      if c == mark || c == '\\' {
        piece := ['\\', c];
      } else if !IsPrintable(bs[i]) {
        piece := "\\x" + HexPair(bs[i]);
      }
      assert piece == QuoteOne(bs[i], mark);
      Regroup(out, piece, QuoteAll(bs[i + 1..], mark));
      out := out + piece;
    }
    out := out + [mark];
  }

  method OutputHexString(bs: Bytes) returns (out: string)
    ensures out == HexString(bs)
  {
    out := "<";
    assert bs[0..] == bs;
    for i := 0 to |bs|
      invariant out + HexAll(bs[i..]) == "<" + HexAll(bs)
    {
      assert bs[i..][0] == bs[i] && bs[i..][1..] == bs[i + 1..];
      out := out + HexPair(bs[i]);
    }
    out := out + ">";
  }
}
