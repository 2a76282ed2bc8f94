/** The part of C++ lexing that the generated header relies on: narrow string
    literals with escapes (section 2.14.5 of ISO/IEC 14882:2011), where a hex
    escape takes the longest run of digits (section 2.14.3), adjacent literals
    that concatenate, and decimal numbers. A character stands for its code. */
module CxxLexer {
  import opened SharedTypes

  type Byte = c: char | c as int < 256

  // ---- Digits ---------------------------------------------------------------

  predicate IsDigit(c: char) { '0' <= c <= '9' }

  predicate IsOctal(c: char) { '0' <= c <= '7' }

  predicate IsHex(c: char) { '0' <= c <= '9' || 'a' <= c <= 'f' || 'A' <= c <= 'F' }

  function DigitValue(c: char): (n: nat)
    requires IsHex(c)
    ensures n < 16
  {
    if c <= '9' then c as int - '0' as int
    else if c <= 'F' then c as int - 'A' as int + 10
    else c as int - 'a' as int + 10
  }

  function ValueOf(digits: string, base: nat): (n: nat)
    requires forall c :: c in digits ==> IsHex(c)
  {
    if digits == "" then 0
    else ValueOf(digits[..|digits| - 1], base) * base + DigitValue(digits[|digits| - 1])
  }

  /** Length of the longest prefix of hex digits. */
  function HexRun(s: string): (n: nat)
    ensures n <= |s|
    ensures forall i :: 0 <= i < n ==> IsHex(s[i])
    ensures n < |s| ==> !IsHex(s[n])
  {
    if s != "" && IsHex(s[0]) then 1 + HexRun(s[1..]) else 0
  }

  /** Length of the longest prefix of octal digits, at most `limit`. */
  function OctalRun(s: string, limit: nat): (n: nat)
    ensures n <= |s| && n <= limit
    ensures forall i :: 0 <= i < n ==> IsOctal(s[i])
  {
    if limit > 0 && s != "" && IsOctal(s[0]) then 1 + OctalRun(s[1..], limit - 1) else 0
  }

  /** Length of the longest prefix of decimal digits. */
  function DigitRun(s: string): (n: nat)
    ensures n <= |s|
    ensures forall i :: 0 <= i < n ==> IsDigit(s[i])
    ensures n < |s| ==> !IsDigit(s[n])
  {
    if s != "" && IsDigit(s[0]) then 1 + DigitRun(s[1..]) else 0
  }

  // ---- Literals ---------------------------------------------------------------

  datatype Lexed<+T> = Lexed(value: T, rest: string)

  function SimpleEscape(c: char): (r: Option<char>) {
    if c == '\'' || c == '\"' || c == '?' || c == '\\' then Some(c)
    else if c == 'a' then Some(7 as char)
    else if c == 'b' then Some(8 as char)
    else if c == 't' then Some(9 as char)
    else if c == 'n' then Some(10 as char)
    else if c == 'v' then Some(11 as char)
    else if c == 'f' then Some(12 as char)
    else if c == 'r' then Some(13 as char)
    else None
  }

  function AsByte(n: nat, rest: string): (r: Option<Lexed<char>>) {
    if n < 256 then Some(Lexed(n as char, rest)) else None
  }

  /** An escape, without its backslash. */
  function LexEscape(s: string): (r: Option<Lexed<char>>)
    ensures r.Some? ==> |r.value.rest| < |s|
  {
    if s == "" then None
    else if SimpleEscape(s[0]).Some? then Some(Lexed(SimpleEscape(s[0]).value, s[1..]))
    else if s[0] == 'x' then
      var n := HexRun(s[1..]);
      if n == 0 then None else AsByte(ValueOf(s[1..1 + n], 16), s[1 + n..])
    else
      var n := OctalRun(s, 3);
      if n == 0 then None else AsByte(ValueOf(s[..n], 8), s[n..])
  }

  /** The rest of a literal whose opening quote has been read. */
  function LexChars(s: string): (r: Option<Lexed<string>>)
    ensures r.Some? ==> |r.value.rest| < |s|
    decreases |s|
  {
    if s == "" || s[0] == '\n' then None
    else if s[0] == '\"' then Some(Lexed("", s[1..]))
    else if s[0] == '\\' then
      match LexEscape(s[1..])
      case None => None
      case Some(e) => Prepend(e.value, LexChars(e.rest))
    else Prepend(s[0], LexChars(s[1..]))
  }

  function Prepend(c: char, r: Option<Lexed<string>>): (q: Option<Lexed<string>>) {
    match r
    case None => None
    case Some(l) => Some(Lexed([c] + l.value, l.rest))
  }

  function SkipSpace(s: string): (r: string)
    ensures |r| <= |s|
  {
    if s != "" && (s[0] == ' ' || s[0] == '\n') then SkipSpace(s[1..]) else s
  }

  /** Adjacent literals, the opening quote of the first one already read: the
      value of each, in order. */
  function LexAdjacent(s: string): (r: Option<Lexed<seq<string>>>)
    ensures r.Some? ==> |r.value.rest| < |s| && r.value.value != []
    decreases |s|
  {
    match LexChars(s)
    case None => None
    case Some(l) =>
      var next := SkipSpace(l.rest);
      if next != "" && next[0] == '\"' then
        match LexAdjacent(next[1..])
        case None => None
        case Some(m) => Some(Lexed([l.value] + m.value, m.rest))
      else Some(Lexed([l.value], l.rest))
  }

  function Flatten(chunks: seq<string>): (s: string) {
    if chunks == [] then "" else chunks[0] + Flatten(chunks[1..])
  }

  function LexNumber(s: string): (r: Option<Lexed<nat>>)
    ensures r.Some? ==> |r.value.rest| < |s|
  {
    var n := DigitRun(s);
    if n == 0 then None else Some(Lexed(ValueOf(s[..n], 10), s[n..]))
  }

  /** A fixed piece of text. */
  function Expect(s: string, word: string): (r: Option<string>)
    ensures r.Some? ==> |r.value| == |s| - |word|
  {
    if word <= s then Some(s[|word|..]) else None
  }

  lemma ExpectOwn(word: string, rest: string)
    ensures Expect(word + rest, word) == Some(rest)
  {
    assert word <= word + rest;
  }

  // ---- Printing bytes and numbers --------------------------------------------------

  function HexDigit(n: nat): (c: char)
    requires n < 16
    ensures IsHex(c) && DigitValue(c) == n
  {
    if n < 10 then ('0' as int + n) as char else ('a' as int + n - 10) as char
  }

  /** A byte as the format "\x%02x" prints it. */
  function HexByte(b: Byte): (s: string) {
    ['\\', 'x', HexDigit(b as int / 16), HexDigit(b as int % 16)]
  }

  /** A number as the format "%d" prints it. */
  function Decimal(n: nat): (s: string)
    ensures s != "" && forall c :: c in s ==> IsDigit(c)
  {
    if n < 10 then [HexDigit(n)] else Decimal(n / 10) + [HexDigit(n % 10)]
  }

  lemma {:induction false} HexRunExact(digits: string, rest: string)
    requires forall c :: c in digits ==> IsHex(c)
    requires rest != "" && !IsHex(rest[0])
    ensures HexRun(digits + rest) == |digits|
  {
    if digits != "" {
      assert (digits + rest)[1..] == digits[1..] + rest;
      HexRunExact(digits[1..], rest);
    }
  }

  lemma {:induction false} DigitRunExact(digits: string, rest: string)
    requires forall c :: c in digits ==> IsDigit(c)
    requires rest != "" && !IsDigit(rest[0])
    ensures DigitRun(digits + rest) == |digits|
  {
    if digits != "" {
      assert (digits + rest)[1..] == digits[1..] + rest;
      DigitRunExact(digits[1..], rest);
    }
  }

  /** A printed byte is read back whole and alone: what follows is no hex digit. */
  lemma LexHexByte(b: Byte, rest: string)
    requires rest != "" && !IsHex(rest[0])
    ensures LexChars(HexByte(b) + rest) == Prepend(b, LexChars(rest))
  {
    var h, l := HexDigit(b as int / 16), HexDigit(b as int % 16);
    var s := HexByte(b) + rest;
    var digits := [h, l];
    assert s[1..] == ['x'] + (digits + rest);
    assert s[1..][1..] == digits + rest;
    HexRunExact(digits, rest);
    assert s[1..][1..3] == digits && s[1..][3..] == rest;
    TwoDigits(h, l);
    assert LexEscape(s[1..]) == Some(Lexed(b, rest));
  }

  lemma TwoDigits(h: char, l: char)
    requires IsHex(h) && IsHex(l)
    ensures ValueOf([h, l], 16) == DigitValue(h) * 16 + DigitValue(l)
  {
    assert [h, l][..1] == [h] && [h][..0] == [];
    assert ValueOf([h], 16) == DigitValue(h);
  }

  lemma {:induction false} DecimalValue(n: nat)
    ensures ValueOf(Decimal(n), 10) == n
  {
    if n < 10 {
      assert [HexDigit(n)][..0] == [];
    } else {
      DecimalValue(n / 10);
      assert Decimal(n)[..|Decimal(n)| - 1] == Decimal(n / 10);
    }
  }

  /** A printed number is read back when no digit follows. */
  lemma LexDecimal(n: nat, rest: string)
    requires rest != "" && !IsDigit(rest[0])
    ensures LexNumber(Decimal(n) + rest) == Some(Lexed(n, rest))
  {
    DigitRunExact(Decimal(n), rest);
    DecimalValue(n);
    var s := Decimal(n) + rest;
    assert s[..|Decimal(n)|] == Decimal(n) && s[|Decimal(n)|..] == rest;
  }
}
