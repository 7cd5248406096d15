/** The decisions of the two prompts: what a typed answer (None when the
    console has no more input) turns into. Writing the prompt and the
    "invalid input" message is not modelled. */
module UIHelper {
  import opened Wrappers
  import opened Format

  /** `PromptForByte`: a blank answer keeps the default, an answer that
      parses as a byte gives that byte, anything else keeps the default. */
  function PromptForByte(input: Option<string>, defaultValue: byte): (r: byte)
    ensures IsNullOrWhiteSpace(input) ==> r == defaultValue
    ensures !IsNullOrWhiteSpace(input) && ParseByte(input.value).Some? ==> r == ParseByte(input.value).value
    ensures r != defaultValue ==> input.Some? && !IsNullOrWhiteSpace(input) && ParseByte(input.value) == Some(r)
  {
    if IsNullOrWhiteSpace(input) then defaultValue
    else
      match ParseByte(input.value)
      case Some(b) => b
      case None => defaultValue
  }

  /** A byte typed in decimal is the answer, whatever the default. */
  lemma PromptForByteTyped(b: byte, defaultValue: byte)
    ensures PromptForByte(Some(NatToDecimal(b)), defaultValue) == b
  {
    ParseByteRoundTrip(b);
    assert !IsWhiteSpace(NatToDecimal(b)[0]);
  }

  /** An answer holding a character that is neither white space, a digit
      nor a sign keeps the default. */
  lemma PromptForByteInvalid(input: string, i: nat, defaultValue: byte)
    requires i < |input| && !IsDigit(input[i]) && !IsWhiteSpace(input[i])
    requires input[i] != '+' && input[i] != '-'
    ensures PromptForByte(Some(input), defaultValue) == defaultValue
  {
    if ParseInteger(input).Some? {
      ParseIntegerChars(input, i);
    }
  }

  /** A leading sign is read as `byte.TryParse` reads it: `+7` is 7 and
      `-0` is 0. */
  lemma PromptForByteSigned(defaultValue: byte)
    ensures PromptForByte(Some("+7"), defaultValue) == 7
    ensures PromptForByte(Some("-0"), defaultValue) == 0
  {
    assert !IsWhiteSpace("+7"[0]) && !IsWhiteSpace("-0"[0]);
    NoWhiteAtEnds("+7");
    NoWhiteAtEnds("-0");
    assert "+7"[1..] == "7" && "-0"[1..] == "0";
  }

  /** Surrounding spaces and leading zeros are accepted: ` 0200 ` is 200. */
  lemma PromptForByteSpaced(defaultValue: byte)
    ensures PromptForByte(Some(" 0200 "), defaultValue) == 200
  {
    assert !IsWhiteSpace(" 0200 "[1]);
    assert TrimNumberWhite(" 0200 ") == "0200" by {
      assert LeadingWhite("0200 ") == 0;
      assert LeadingWhite(" 0200 ") == 1;
      assert " 0200 "[1..] == "0200 ";
      assert "0200 "[..4] == "0200";
      assert TrailingWhite("0200") == 0;
      assert TrailingWhite("0200 ") == 1;
    }
    assert "0200"[..3] == "020" && "020"[..2] == "02" && "02"[..1] == "0";
    assert DecimalValue("0200") == 200;
    assert ParseInteger(" 0200 ") == Some(200);
    assert ParseByte(" 0200 ") == Some(200);
  }

  /** A number outside 0..255 keeps the default. */
  lemma PromptForByteOutOfRange(defaultValue: byte)
    ensures PromptForByte(Some("-1"), defaultValue) == defaultValue
    ensures PromptForByte(Some("256"), defaultValue) == defaultValue
  {
    assert !IsWhiteSpace("-1"[0]) && !IsWhiteSpace("256"[0]);
    NoWhiteAtEnds("-1");
    NoWhiteAtEnds("256");
    assert "-1"[1..] == "1";
    assert "256"[..2] == "25" && "25"[..1] == "2";
  }

  /** Ordinal case-insensitive comparison: equal lengths, and equal
      characters once ASCII letters are upper-cased. */
  predicate EqualsOrdinalIgnoreCase(a: string, b: string) {
    |a| == |b| && forall i :: 0 <= i < |a| ==> ToUpperAscii(a[i]) == ToUpperAscii(b[i])
  }

  function ToUpperAscii(c: char): char {
    if 'a' <= c <= 'z' then (c as int - 32) as char else c
  }

  /** Compared ordinally ignoring case, the strings equal to `y` are `y`
      and `Y` alone. */
  lemma EqualsIgnoreCaseY(s: string)
    ensures EqualsOrdinalIgnoreCase(s, "y") <==> s == "y" || s == "Y"
  {
    if EqualsOrdinalIgnoreCase(s, "y") {
      assert |s| == 1 && ToUpperAscii(s[0]) == 'Y';
      assert s == [s[0]];
    }
  }

  /** `PromptForBool`: a blank answer keeps the default; any other answer
      means yes exactly when it is `y` or `Y`, so `yes` and ` y` mean no. */
  function PromptForBool(input: Option<string>, defaultValue: bool): (r: bool)
    ensures IsNullOrWhiteSpace(input) ==> r == defaultValue
    ensures !IsNullOrWhiteSpace(input) ==> (r <==> input.value == "y" || input.value == "Y")
  {
    if IsNullOrWhiteSpace(input) then defaultValue
    else
      EqualsIgnoreCaseY(input.value);
      EqualsOrdinalIgnoreCase(input.value, "y")
  }
}
