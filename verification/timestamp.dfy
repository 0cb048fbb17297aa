// Minute-resolution time of day (Timestamp.h / Timestamp.cpp).
module Timestamps {

  /** A time of day; the default one is 8:00. */
  datatype Timestamp = Timestamp(hour: int, minute: int)

  const DefaultTime: Timestamp := Timestamp(8, 0)

  /** Minutes since midnight. */
  function ToMinutes(t: Timestamp): (m: int)
    ensures 0 <= t.hour && 0 <= t.minute < 60 ==> m >= 0 && m / 60 == t.hour && m % 60 == t.minute
  {
    t.hour * 60 + t.minute
  }

  /** The ordering: strictly earlier in minutes since midnight, which for minutes within an hour is hour first, then minute. */
  predicate Less(a: Timestamp, b: Timestamp)
    ensures Less(a, b) ==> a != b
    ensures 0 <= a.minute < 60 && 0 <= b.minute < 60 ==>
      (Less(a, b) <==> a.hour < b.hour || (a.hour == b.hour && a.minute < b.minute))
  {
    ToMinutes(a) < ToMinutes(b)
  }

  lemma LessIsMinutes(a: Timestamp, b: Timestamp)
    ensures Less(a, b) <==> a.hour * 60 + a.minute < b.hour * 60 + b.minute
  {}

  lemma LessIrreflexive(a: Timestamp)
    ensures !Less(a, a)
  {}

  lemma LessTransitive(a: Timestamp, b: Timestamp, c: Timestamp)
    ensures Less(a, b) && Less(b, c) ==> Less(a, c)
  {}

  /** Two times naming the same minute are incomparable; otherwise one is earlier. */
  lemma LessTrichotomy(a: Timestamp, b: Timestamp)
    ensures ToMinutes(a) == ToMinutes(b) <==> !Less(a, b) && !Less(b, a)
    ensures ToMinutes(a) != ToMinutes(b) ==> Less(a, b) != Less(b, a)
  {}

  // ---------------------------------------------------------------------
  // Decimal rendering, as std::to_string renders an int.

  function DigitChar(d: int): char
    requires 0 <= d < 10
  {
    "0123456789"[d]
  }

  function DigitValue(c: char): int { (c as int) - ('0' as int) }

  predicate IsDigit(c: char) { '0' <= c <= '9' }

  /** Decimal digits of a natural number, most significant first, no leading zero. */
  function NatToString(n: nat): (s: string)
    ensures |s| >= 1 && forall i :: 0 <= i < |s| ==> IsDigit(s[i])
    ensures n >= 10 <==> |s| >= 2
  {
    if n < 10 then [DigitChar(n)] else NatToString(n / 10) + [DigitChar(n % 10)]
  }

  function IntToString(n: int): string {
    if n < 0 then "-" + NatToString(-n) else NatToString(n)
  }

  /** `hour ":" minute`, the minute padded with one "0" when it is below 10. */
  function ToString(t: Timestamp): (s: string)
    ensures t.hour >= 0 && t.minute >= 0 ==>
      var i := |NatToString(t.hour)|;
      i + 3 <= |s| && s[i] == ':' && forall k :: 0 <= k < |s| && k != i ==> IsDigit(s[k])
  {
    IntToString(t.hour) + ":" + (if t.minute < 10 then "0" else "") + IntToString(t.minute)
  }

  // ---------------------------------------------------------------------
  // Reading a rendering back: the partner of ToString.

  /** Value of a string of decimal digits (leading zeros allowed). */
  function DigitsValue(s: string): int {
    if s == [] then 0 else 10 * DigitsValue(s[..|s| - 1]) + DigitValue(s[|s| - 1])
  }

  function IndexOfColon(s: string): (i: int)
    ensures -1 <= i < |s|
    ensures i >= 0 ==> s[i] == ':' && forall k :: 0 <= k < i ==> s[k] != ':'
    ensures i == -1 ==> forall k :: 0 <= k < |s| ==> s[k] != ':'
  {
    if s == [] then -1
    else if s[0] == ':' then 0
    else var j := IndexOfColon(s[1..]); if j == -1 then -1 else j + 1
  }

  lemma {:induction false} IndexOfFirstColon(s: string, i: nat)
    requires i < |s| && s[i] == ':' && forall k :: 0 <= k < i ==> s[k] != ':'
    ensures IndexOfColon(s) == i
  {
    if i > 0 {
      IndexOfFirstColon(s[1..], i - 1);
    }
  }

  /** Reads `digits ":" digits`; None for anything else. */
  function Parse(s: string): (r: Option)
  {
    var i := IndexOfColon(s);
    if i <= 0 || i == |s| - 1 then None
    else if !(forall k :: 0 <= k < |s| && k != i ==> IsDigit(s[k])) then None
    else Some(Timestamp(DigitsValue(s[..i]), DigitsValue(s[i + 1..])))
  }

  datatype Option = None | Some(value: Timestamp)

  lemma DigitRoundTrip(d: int)
    requires 0 <= d < 10
    ensures IsDigit(DigitChar(d)) && DigitValue(DigitChar(d)) == d
  {}

  lemma {:induction false} DigitsValueOfNat(n: nat)
    ensures DigitsValue(NatToString(n)) == n
  {
    var s := NatToString(n);
    if n < 10 {
      DigitRoundTrip(n);
    } else {
      DigitsValueOfNat(n / 10);
      DigitRoundTrip(n % 10);
      assert s[..|s| - 1] == NatToString(n / 10);
      assert s[|s| - 1] == DigitChar(n % 10);
    }
  }

  lemma DigitsValueLeadingZero(s: string)
    ensures DigitsValue("0" + s) == DigitsValue(s)
  {
    if s != [] {
      var z := "0" + s;
      assert z[..|z| - 1] == "0" + s[..|s| - 1];
      DigitsValueLeadingZero(s[..|s| - 1]);
    }
  }

  /** Two non-empty runs of digits around a colon read back as the two values. */
  lemma ParseJoin(h: string, m: string)
    requires |h| >= 1 && |m| >= 1
    requires forall k :: 0 <= k < |h| ==> IsDigit(h[k])
    requires forall k :: 0 <= k < |m| ==> IsDigit(m[k])
    ensures Parse(h + ":" + m) == Some(Timestamp(DigitsValue(h), DigitsValue(m)))
  {
    var s := h + ":" + m;
    assert s[..|h|] == h;
    assert s[|h| + 1..] == m;
    IndexOfFirstColon(s, |h|);
    assert forall k :: 0 <= k < |s| && k != |h| ==> IsDigit(s[k]) by {
      forall k | 0 <= k < |s| && k != |h| ensures IsDigit(s[k]) {
        if k > |h| { assert s[k] == m[k - |h| - 1]; }
      }
    }
  }

  /** Rendering a time of non-negative fields and reading it back gives the time. */
  lemma {:induction false} ParseToString(t: Timestamp)
    requires t.hour >= 0 && t.minute >= 0
    ensures Parse(ToString(t)) == Some(t)
  {
    var h := NatToString(t.hour);
    var pad: string := if t.minute < 10 then "0" else "";
    var m := pad + NatToString(t.minute);
    assert ToString(t) == h + ":" + m;
    assert forall k :: 0 <= k < |m| ==> IsDigit(m[k]);
    ParseJoin(h, m);
    DigitsValueOfNat(t.hour);
    DigitsValueOfNat(t.minute);
    if t.minute < 10 {
      DigitsValueLeadingZero(NatToString(t.minute));
    }
  }

  /** Distinct times of non-negative fields render differently. */
  lemma ToStringInjective(a: Timestamp, b: Timestamp)
    requires a.hour >= 0 && a.minute >= 0 && b.hour >= 0 && b.minute >= 0
    requires ToString(a) == ToString(b)
    ensures a == b
  {
    ParseToString(a);
    ParseToString(b);
  }

  /** The padding "0" appears exactly when the minute is below 10. */
  lemma {:induction false} ToStringPadding(t: Timestamp)
    requires t.hour >= 0 && 0 <= t.minute < 60
    ensures var s := ToString(t); var i := |NatToString(t.hour)|;
      s[i] == ':' && |s| == i + 3 && (t.minute < 10 <==> s[i + 1] == '0')
  {
    var h := NatToString(t.hour);
    var s := ToString(t);
    assert s == h + ":" + (if t.minute < 10 then "0" else "") + NatToString(t.minute);
    if t.minute >= 10 {
      var m := NatToString(t.minute);
      assert m == NatToString(t.minute / 10) + [DigitChar(t.minute % 10)];
      assert m[0] == DigitChar(t.minute / 10);
      assert t.minute / 10 >= 1;
    }
  }
}
