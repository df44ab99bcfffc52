/** Decimal numbers, trimming and splitting, as Rust's standard library does them. */
module Text {
  import opened Prelude

  predicate IsDigit(c: char) {
    '0' <= c <= '9'
  }

  /** The characters `str::trim` removes: Unicode's White_Space property. */
  predicate IsSpace(c: char) {
    || '\U{9}' <= c <= '\U{D}' || c == ' ' || c == '\U{85}' || c == '\U{A0}' || c == '\U{1680}'
    || '\U{2000}' <= c <= '\U{200A}' || c == '\U{2028}' || c == '\U{2029}' || c == '\U{202F}'
    || c == '\U{205F}' || c == '\U{3000}'
  }

  predicate AllDigits(s: string) {
    forall i :: 0 <= i < |s| ==> IsDigit(s[i])
  }

  predicate AllSpace(s: string) {
    forall i :: 0 <= i < |s| ==> IsSpace(s[i])
  }

  // ----- numbers -----

  function Digit(d: nat): char
    requires d < 10
  {
    '0' + d as char
  }

  function Print(n: nat): (s: string)
    ensures s != [] && AllDigits(s)
  {
    if n < 10 then [Digit(n)] else Print(n / 10) + [Digit(n % 10)]
  }

  function Value(s: string): nat
    requires AllDigits(s)
  {
    if s == [] then 0 else Value(s[..|s| - 1]) * 10 + (s[|s| - 1] - '0') as nat
  }

  /** `str::parse` for an unsigned type holding the numbers below `bound`. */
  function ParseUnsigned(s: string, bound: nat): Option<nat> {
    var digits := if s != [] && s[0] == '+' then s[1..] else s;
    if digits == [] || !AllDigits(digits) || Value(digits) >= bound then None else Some(Value(digits))
  }

  lemma {:induction false} PrintedValue(n: nat)
    ensures Value(Print(n)) == n
    ensures n > 0 ==> Print(n)[0] != '0'
  {
    if n >= 10 {
      PrintedValue(n / 10);
      assert Print(n)[..|Print(n)| - 1] == Print(n / 10);
    }
  }

  /** Digits without a leading zero are printed as they were read. */
  lemma {:induction false} ValuePrints(s: string)
    requires s != [] && AllDigits(s) && (s[0] == '0' ==> |s| == 1)
    ensures Print(Value(s)) == s
    ensures s[0] != '0' ==> Value(s) > 0
  {
    var front, last := s[..|s| - 1], (s[|s| - 1] - '0') as nat;
    if front == [] {
      assert s == [Digit(last)];
    } else {
      ValuePrints(front);
      assert Value(s) / 10 == Value(front) && Value(s) % 10 == last;
      assert s == front + [Digit(last)];
    }
  }

  lemma {:induction false} ParsePrinted(n: nat, bound: nat)
    requires n < bound
    ensures ParseUnsigned(Print(n), bound) == Some(n)
    ensures ParseUnsigned("+" + Print(n), bound) == Some(n)
  {
    PrintedValue(n);
    assert IsDigit(Print(n)[0]);
    assert ("+" + Print(n))[1..] == Print(n);
  }

  // ----- trimming -----

  function TrimStart(s: string): string {
    if s != [] && IsSpace(s[0]) then TrimStart(s[1..]) else s
  }

  function TrimEnd(s: string): string {
    if s != [] && IsSpace(s[|s| - 1]) then TrimEnd(s[..|s| - 1]) else s
  }

  function Trim(s: string): string {
    TrimEnd(TrimStart(s))
  }

  /** Surrounding space goes, the rest stays. */
  lemma {:induction false} TrimInner(before: string, inner: string, after: string)
    requires AllSpace(before) && AllSpace(after)
    requires inner != [] && !IsSpace(inner[0]) && !IsSpace(inner[|inner| - 1])
    ensures Trim(before + inner + after) == inner
    decreases |before| + |after|
  {
    if before != [] {
      assert (before + inner + after)[1..] == before[1..] + inner + after;
      TrimInner(before[1..], inner, after);
    } else {
      assert before + inner + after == inner + after;
      TrimEndInner(inner, after);
    }
  }

  lemma {:induction false} TrimEndInner(inner: string, after: string)
    requires AllSpace(after) && inner != [] && !IsSpace(inner[|inner| - 1])
    ensures TrimEnd(inner + after) == inner
  {
    if after == [] {
      assert inner + after == inner;
    } else {
      assert (inner + after)[..|inner + after| - 1] == inner + after[..|after| - 1];
      TrimEndInner(inner, after[..|after| - 1]);
    }
  }

  // ----- searching -----

  function FirstNonDigit(s: string): (at: Option<nat>)
    ensures at.Some? ==> at.value < |s|
  {
    if s == [] then None
    else if !IsDigit(s[0]) then Some(0)
    else var rest := FirstNonDigit(s[1..]); if rest.Some? then Some(rest.value + 1) else None
  }

  function IndexOf(s: string, c: char): (at: Option<nat>)
    ensures at.Some? ==> at.value < |s|
  {
    if s == [] then None
    else if s[0] == c then Some(0)
    else var rest := IndexOf(s[1..], c); if rest.Some? then Some(rest.value + 1) else None
  }

  lemma {:induction false} FirstNonDigitAfter(digits: string, rest: string)
    requires AllDigits(digits) && rest != [] && !IsDigit(rest[0])
    ensures FirstNonDigit(digits + rest) == Some(|digits|)
  {
    if digits == [] {
      assert digits + rest == rest;
    } else {
      assert (digits + rest)[1..] == digits[1..] + rest;
      FirstNonDigitAfter(digits[1..], rest);
    }
  }

  lemma {:induction false} FirstNonDigitSplits(s: string)
    ensures FirstNonDigit(s).Some? ==>
              && FirstNonDigit(s).value < |s|
              && AllDigits(s[..FirstNonDigit(s).value]) && !IsDigit(s[FirstNonDigit(s).value])
    ensures FirstNonDigit(s).None? ==> AllDigits(s)
  {
    if s != [] && IsDigit(s[0]) {
      FirstNonDigitSplits(s[1..]);
    }
  }

  lemma {:induction false} IndexOfAfter(before: string, c: char, rest: string)
    requires c !in before
    ensures IndexOf(before + [c] + rest, c) == Some(|before|)
  {
    if before == [] {
      assert before + [c] + rest == [c] + rest;
    } else {
      assert (before + [c] + rest)[1..] == before[1..] + [c] + rest;
      IndexOfAfter(before[1..], c, rest);
    }
  }
}
