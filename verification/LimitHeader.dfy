/** The text forms of a rate limit: a window such as `15m`, a limit such as `150/15m`. */
module LimitHeader {
  import opened Prelude
  import opened Text

  const U32_BOUND: nat := 0x1_0000_0000
  const U64_BOUND: nat := 0x1_0000_0000_0000_0000

  function UnitSeconds(unit: string): Option<nat> {
    if unit == "s" then Some(1)
    else if unit == "m" then Some(60)
    else if unit == "h" then Some(3600)
    else None
  }

  function ParseWindowSize(value: string): Option<nat> {
    var v := Trim(value);
    var unitAt := FirstNonDigit(v);
    if unitAt.None? then None else
    var count := ParseUnsigned(v[..unitAt.value], U64_BOUND);
    if count.None? then None else
    var unit := UnitSeconds(v[unitAt.value..]);
    if unit.None? then None else
    var secs := count.value * unit.value;
    if 0 < secs < U64_BOUND then Some(secs) else None
  }

  /** Tokens and window seconds of an `X-Ratelimit-Limit` value. */
  function ParseLimit(value: string): Option<(nat, nat)> {
    var slash := IndexOf(value, '/');
    if slash.None? then None else
    var tokens := ParseUnsigned(Trim(value[..slash.value]), U32_BOUND);
    if tokens.None? then None else
    var secs := ParseWindowSize(value[slash.value + 1..]);
    if secs.None? then None else Some((tokens.value, secs.value))
  }

  /** Seconds, minutes and hours parse to so many seconds, and to nothing exactly
      when that is zero or does not fit 64 bits; no other unit parses. */
  lemma {:induction false} WindowSizeExactly(before: string, count: string, unit: string, after: string)
    requires AllSpace(before) && AllSpace(after)
    requires count != [] && AllDigits(count)
    requires unit != [] && !IsDigit(unit[0]) && !IsSpace(unit[|unit| - 1])
    ensures var seconds := match unit case "s" => 1 case "m" => 60 case "h" => 3600 case _ => 0;
            var secs := Value(count) * seconds;
            ParseWindowSize(before + count + unit + after)
            == if 0 < secs < 0x1_0000_0000_0000_0000 then Some(secs) else None
  {
    var v := count + unit;
    assert before + count + unit + after == before + v + after;
    assert IsDigit(v[0]);
    TrimInner(before, v, after);
    FirstNonDigitAfter(count, unit);
    assert v[..|count|] == count && v[|count|..] == unit;
    assert IsDigit(count[0]);
  }

  /** Nothing else parses as a window. */
  lemma {:induction false} OnlyCountsWithUnits(value: string)
    ensures ParseWindowSize(value).Some? ==> exists count, unit ::
              && Trim(value) == count + unit && count != [] && AllDigits(count) && unit in {"s", "m", "h"}
    ensures ParseWindowSize(value).Some? ==> ParseWindowSize(value).value > 0
  {
    if ParseWindowSize(value).Some? {
      var v := Trim(value);
      FirstNonDigitSplits(v);
      var at := FirstNonDigit(v).value;
      var count, unit := v[..at], v[at..];
      assert v == count + unit;
      assert count[0] == v[0];
    }
  }

  /** Printing a limit and parsing it gives the limit back, whatever the spacing. */
  lemma {:induction false} LimitRoundTrip(tokens: nat, count: nat, unit: string, s1: string, s2: string, s3: string,
                                          s4: string)
    requires AllSpace(s1) && AllSpace(s2) && AllSpace(s3) && AllSpace(s4)
    requires tokens < 0x1_0000_0000 && unit in {"s", "m", "h"}
    ensures var secs := count * match unit case "s" => 1 case "m" => 60 case _ => 3600;
            ParseLimit(s1 + Print(tokens) + s2 + "/" + (s3 + Print(count) + unit + s4))
            == if 0 < secs < 0x1_0000_0000_0000_0000 then Some((tokens, secs)) else None
  {
    var left := s1 + Print(tokens) + s2;
    var right := s3 + Print(count) + unit + s4;
    assert '/' !in left;
    IndexOfAfter(left, '/', right);
    var value := left + "/" + right;
    assert value[..|left|] == left && value[|left| + 1..] == right;
    assert IsDigit(Print(tokens)[0]) && IsDigit(Print(tokens)[|Print(tokens)| - 1]);
    TrimInner(s1, Print(tokens), s2);
    ParsePrinted(tokens, U32_BOUND);
    PrintedValue(count);
    WindowSizeExactly(s3, Print(count), unit, s4);
  }
}
