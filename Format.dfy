/** The .NET value types and text primitives the program relies on: fixed-width
    integer ranges, decimal formatting of integers (string interpolation),
    decimal parsing (`byte.TryParse`, `int.TryParse`) and
    `string.IsNullOrWhiteSpace`. */
module Format {
  import opened Wrappers

  /** C# `byte`. */
  type byte = x: int | 0 <= x < 0x100
  /** C# `uint`, the type of a process identifier. */
  type uint32 = x: int | 0 <= x < 0x1_0000_0000

  const INT32_MIN: int := -0x8000_0000
  const INT32_MAX: int := 0x7FFF_FFFF

  // ---------------------------------------------------------------------------
  // Decimal digits

  predicate IsDigit(c: char) {
    '0' <= c <= '9'
  }

  predicate AllDigits(s: string) {
    forall i :: 0 <= i < |s| ==> IsDigit(s[i])
  }

  function DigitChar(d: nat): (c: char)
    requires d < 10
    ensures IsDigit(c) && c as int - '0' as int == d
  {
    (('0' as int) + d) as char
  }

  function DigitValue(c: char): (d: nat)
    requires IsDigit(c)
    ensures d < 10 && DigitChar(d) == c
  {
    c as int - '0' as int
  }

  /** The decimal rendering of a non-negative integer, as `$"{n}"` produces it
      for an unsigned integer: ASCII digits, most significant first, no
      leading zero except for zero itself. */
  function NatToDecimal(n: nat): (s: string)
    ensures |s| >= 1 && AllDigits(s)
    ensures s[0] == '0' ==> n == 0
    decreases n
  {
    if n < 10 then [DigitChar(n)] else NatToDecimal(n / 10) + [DigitChar(n % 10)]
  }

  /** The value of a string of decimal digits (zero for the empty string). */
  function DecimalValue(s: string): nat
    requires AllDigits(s)
  {
    if s == [] then 0 else DecimalValue(s[..|s| - 1]) * 10 + DigitValue(s[|s| - 1])
  }

  /** Reading back a rendered number gives the number. */
  lemma {:induction false} DecimalRoundTrip(n: nat)
    ensures DecimalValue(NatToDecimal(n)) == n
    decreases n
  {
    if n >= 10 {
      var s := NatToDecimal(n);
      DecimalRoundTrip(n / 10);
      assert s[..|s| - 1] == NatToDecimal(n / 10);
    }
  }

  /** Distinct numbers have distinct renderings. */
  lemma NatToDecimalInjective(a: nat, b: nat)
    requires NatToDecimal(a) == NatToDecimal(b)
    ensures a == b
  {
    DecimalRoundTrip(a);
    DecimalRoundTrip(b);
  }

  /** The decimal rendering of a signed integer, as `$"{n}"` produces it. */
  function IntToDecimal(n: int): string {
    if n < 0 then "-" + NatToDecimal(-n) else NatToDecimal(n)
  }

  // ---------------------------------------------------------------------------
  // Parsing

  /** The white space `NumberStyles.AllowLeadingWhite` and
      `AllowTrailingWhite` admit: U+0009 to U+000D and the space. */
  predicate IsNumberWhite(c: char) {
    c == ' ' || '\t' <= c <= '\r'
  }

  /** The length of the run of number white space that starts `s`. */
  function LeadingWhite(s: string): (n: nat)
    ensures n <= |s|
    ensures forall k :: 0 <= k < n ==> IsNumberWhite(s[k])
    ensures n < |s| ==> !IsNumberWhite(s[n])
  {
    if s == [] || !IsNumberWhite(s[0]) then 0 else 1 + LeadingWhite(s[1..])
  }

  /** The length of the run of number white space that ends `s`. */
  function TrailingWhite(s: string): (n: nat)
    ensures n <= |s|
    ensures forall k :: |s| - n <= k < |s| ==> IsNumberWhite(s[k])
    ensures n < |s| ==> !IsNumberWhite(s[|s| - n - 1])
  {
    if s == [] || !IsNumberWhite(s[|s| - 1]) then 0 else 1 + TrailingWhite(s[..|s| - 1])
  }

  /** `s` without its leading and trailing number white space. */
  function TrimNumberWhite(s: string): string {
    var body := s[LeadingWhite(s)..];
    body[..|body| - TrailingWhite(body)]
  }

  /** A string in `NumberStyles.Integer`, read as an unbounded integer:
      optional white space, an optional `+` or `-`, one or more ASCII
      digits, optional white space. */
  function ParseInteger(s: string): Option<int> {
    var t := TrimNumberWhite(s);
    if |t| > 0 && (t[0] == '+' || t[0] == '-') then
      var digits := t[1..];
      if |digits| > 0 && AllDigits(digits)
      then Some(if t[0] == '-' then 0 - DecimalValue(digits) else DecimalValue(digits))
      else None
    else if |t| > 0 && AllDigits(t) then Some(DecimalValue(t))
    else None
  }

  /** `byte.TryParse`: an integer string whose value lies in 0..255. */
  function ParseByte(s: string): (r: Option<byte>)
    ensures r.Some? ==> ParseInteger(s) == Some(r.value as int)
    ensures r.None? ==> ParseInteger(s).None? || !(0 <= ParseInteger(s).value <= 255)
  {
    match ParseInteger(s)
    case Some(v) => if 0 <= v <= 255 then Some(v) else None
    case None => None
  }

  /** `int.TryParse`: an integer string whose value lies in the 32-bit
      signed range. */
  function ParseInt32(s: string): (r: Option<int>)
    ensures r.Some? ==> INT32_MIN <= r.value <= INT32_MAX && ParseInteger(s) == r
    ensures r.None? ==> ParseInteger(s).None? || !(INT32_MIN <= ParseInteger(s).value <= INT32_MAX)
    ensures |s| == 0 ==> r.None?
  {
    match ParseInteger(s)
    case Some(v) => if INT32_MIN <= v <= INT32_MAX then Some(v) else None
    case None => None
  }

  /** Every character of a string that parses is a digit, a sign or number
      white space. */
  lemma ParseIntegerChars(s: string, i: nat)
    requires ParseInteger(s).Some? && i < |s|
    ensures IsDigit(s[i]) || IsNumberWhite(s[i]) || s[i] == '+' || s[i] == '-'
  {
    var lead := LeadingWhite(s);
    var body := s[lead..];
    var t := TrimNumberWhite(s);
    if lead <= i < lead + |t| {
      assert s[i] == t[i - lead];
      if i - lead > 0 {
        assert t[1..][i - lead - 1] == t[i - lead];
      }
    } else if i >= lead + |t| {
      assert s[i] == body[i - lead];
    }
  }

  /** Every byte typed in decimal is read back as itself. */
  lemma ParseByteRoundTrip(b: byte)
    ensures ParseByte(NatToDecimal(b)) == Some(b)
  {
    DecimalRoundTrip(b);
    NoWhiteAtEnds(NatToDecimal(b));
  }

  /** Every 32-bit integer typed in decimal is read back as itself; in
      particular `-1` and `0`, the menu's exit and refresh choices. */
  lemma ParseInt32RoundTrip(n: int)
    requires INT32_MIN <= n <= INT32_MAX
    ensures ParseInt32(IntToDecimal(n)) == Some(n)
  {
    NoWhiteAtEnds(IntToDecimal(n));
    if n < 0 {
      DecimalRoundTrip(-n);
      assert IntToDecimal(n)[1..] == NatToDecimal(-n);
    } else {
      DecimalRoundTrip(n);
    }
  }

  /** A string that neither starts nor ends with white space is its own
      trimmed form. */
  lemma NoWhiteAtEnds(s: string)
    requires |s| > 0 && !IsNumberWhite(s[0]) && !IsNumberWhite(s[|s| - 1])
    ensures TrimNumberWhite(s) == s
  {
    assert s[0..] == s;
  }

  // ---------------------------------------------------------------------------
  // Whitespace

  /** `char.IsWhiteSpace`: the Unicode space, line and paragraph separators
      and the control characters U+0009 to U+000D and U+0085. */
  predicate IsWhiteSpace(c: char) {
    var k := c as int;
    (0x09 <= k <= 0x0D) || k == 0x20 || k == 0x85 || k == 0xA0 || k == 0x1680
    || (0x2000 <= k <= 0x200A) || k == 0x2028 || k == 0x2029 || k == 0x202F
    || k == 0x205F || k == 0x3000
  }

  /** `string.IsNullOrWhiteSpace`: absent, empty, or white space only. */
  predicate IsNullOrWhiteSpace(s: Option<string>) {
    s.None? || forall i :: 0 <= i < |s.value| ==> IsWhiteSpace(s.value[i])
  }
}
