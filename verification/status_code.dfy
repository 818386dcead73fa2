/**
 * Rust's `u16::from_str` on response keys, and the status-code class the
 * Responses visitors accept: a value in 100..=599, the key kept verbatim.
 */
module StatusCode {
  import opened Wrappers
  import opened Strings

  const U16Max := 65535

  predicate AllDigits(s: string)
  {
    forall i :: 0 <= i < |s| ==> '0' <= s[i] <= '9'
  }

  /** The decimal value of a digit string. */
  function DecimalValue(s: string): nat
    requires AllDigits(s)
  {
    if |s| == 0 then 0 else DecimalValue(s[..|s| - 1]) * 10 + (s[|s| - 1] as int - '0' as int)
  }

  /**
   * `u16::from_str`: an optional leading `+` (not alone), then one or more
   * ASCII digits, and a value that fits in 16 bits. Leading zeros are allowed.
   */
  function ParseU16(s: string): (r: Option<nat>)
    ensures r.Some? ==> r.value <= U16Max
    ensures r.Some? ==> |s| > 0 && (s[0] == '+' || '0' <= s[0] <= '9')
    ensures s == "" || s == "+" ==> r.None?
    ensures |s| > 0 && s[0] != '+' ==>
      (r.Some? <==> AllDigits(s) && DecimalValue(s) <= U16Max) && (r.Some? ==> r.value == DecimalValue(s))
    ensures |s| > 1 && s[0] == '+' ==>
      (r.Some? <==> AllDigits(s[1..]) && DecimalValue(s[1..]) <= U16Max) && (r.Some? ==> r.value == DecimalValue(s[1..]))
  {
    var digits := if |s| > 0 && s[0] == '+' then s[1..] else s;
    if |digits| == 0 || !AllDigits(digits) then None
    else if DecimalValue(digits) > U16Max then None
    else Some(DecimalValue(digits))
  }

  /** A key the Responses visitors store as a status code. */
  predicate IsStatusCode(k: string)
  {
    var v := ParseU16(k);
    v.Some? && 100 <= v.value <= 599
  }

  /** Decimal printing and `ParseU16` agree: every 16-bit number's rendering parses back. */
  lemma ParsePrinted(n: nat)
    requires n <= U16Max
    ensures ParseU16(NatToString(n)) == Some(n)
    ensures ParseU16("+" + NatToString(n)) == Some(n)
  {
    PrintedValue(n);
    assert ("+" + NatToString(n))[1..] == NatToString(n);
  }

  lemma {:induction false} PrintedValue(n: nat)
    ensures AllDigits(NatToString(n)) && DecimalValue(NatToString(n)) == n
    decreases n
  {
    if n >= 10 {
      PrintedValue(n / 10);
      var s := NatToString(n);
      assert s[..|s| - 1] == NatToString(n / 10);
    }
  }

  /** A leading zero does not change the value, so "0200" is a status code just as "200" is. */
  lemma {:induction false} LeadingZero(s: string)
    requires AllDigits(s)
    ensures AllDigits("0" + s) && DecimalValue("0" + s) == DecimalValue(s)
    decreases |s|
  {
    if |s| > 0 {
      var t := "0" + s;
      assert t[..|t| - 1] == "0" + s[..|s| - 1];
      LeadingZero(s[..|s| - 1]);
    }
  }

  /** The wildcard ranges of the standard and out-of-range numbers are not status codes; padded ones are. */
  lemma Examples()
    ensures !IsStatusCode("2XX") && !IsStatusCode("600") && !IsStatusCode("42") && !IsStatusCode("foo")
    ensures !IsStatusCode("") && !IsStatusCode("-200")
    ensures IsStatusCode("200") && IsStatusCode("0200") && IsStatusCode("+404") && "0200" != "200"
  {
    NotDigits();
    OutOfRange();
    InRange();
    Padded();
  }

  lemma NotDigits()
    ensures !IsStatusCode("2XX") && !IsStatusCode("foo") && !IsStatusCode("-200")
  {
    assert !AllDigits("2XX") by { assert "2XX"[1] == 'X'; }
    assert !AllDigits("foo") by { assert "foo"[0] == 'f'; }
    assert !AllDigits("-200") by { assert "-200"[0] == '-'; }
  }

  lemma OutOfRange()
    ensures !IsStatusCode("600") && !IsStatusCode("42")
  {
    assert DecimalValue("600") == 600 by { DigitsValue3('6', '0', '0'); }
    assert DecimalValue("42") == 42 by {
      assert "42"[..1] == "4";
      assert "4"[..0] == "";
    }
  }

  lemma InRange()
    ensures IsStatusCode("200") && IsStatusCode("+404")
  {
    assert DecimalValue("200") == 200 by { DigitsValue3('2', '0', '0'); }
    assert DecimalValue("404") == 404 by { DigitsValue3('4', '0', '4'); }
    assert ("+404")[1..] == "404";
  }

  lemma Padded()
    ensures IsStatusCode("0200") && "0200" != "200"
  {
    DigitsValue3('2', '0', '0');
    LeadingZero("200");
    assert "0" + "200" == "0200";
  }

  lemma DigitsValue3(a: char, b: char, c: char)
    requires '0' <= a <= '9' && '0' <= b <= '9' && '0' <= c <= '9'
    ensures AllDigits([a, b, c])
    ensures DecimalValue([a, b, c]) == (a as int - '0' as int) * 100 + (b as int - '0' as int) * 10 + (c as int - '0' as int)
  {
    assert [a, b, c][..2] == [a, b];
    assert [a, b][..1] == [a];
    assert [a][..0] == [];
    assert DecimalValue([a]) == a as int - '0' as int;
    assert DecimalValue([a, b]) == (a as int - '0' as int) * 10 + (b as int - '0' as int);
  }
}
