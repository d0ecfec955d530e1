/**
 * Python's `int(text)` on a message text (bot.py:285), restricted to base 10:
 * surrounding whitespace is stripped, an optional `+` or `-` sign is followed
 * by one or more ASCII digits, and anything else fails. `ShowInt` is the
 * inverse rendering (Python's `str` of an int), used to state the round trip.
 */
module Decimal {
  import opened Wrappers

  /** The ASCII whitespace Python's `int` strips: tab, line feed, vertical tab, form feed, carriage return, space. */
  predicate IsSpace(c: char)
  {
    c == ' ' || ('\t' <= c <= '\r')
  }

  predicate IsDigit(c: char)
  {
    '0' <= c <= '9'
  }

  predicate AllDigits(s: string)
  {
    forall i :: 0 <= i < |s| ==> IsDigit(s[i])
  }

  /** `s` with its leading whitespace removed. */
  function StripLeft(s: string): (r: string)
    ensures |r| <= |s| && r == s[|s| - |r|..]
    ensures r == [] || !IsSpace(r[0])
    ensures forall i :: 0 <= i < |s| - |r| ==> IsSpace(s[i])
  {
    if s != [] && IsSpace(s[0]) then StripLeft(s[1..]) else s
  }

  /** `s` with its trailing whitespace removed. */
  function StripRight(s: string): (r: string)
    ensures |r| <= |s| && r == s[..|r|]
    ensures r == [] || !IsSpace(r[|r| - 1])
    ensures forall i :: |r| <= i < |s| ==> IsSpace(s[i])
  {
    if s != [] && IsSpace(s[|s| - 1]) then StripRight(s[..|s| - 1]) else s
  }

  function Strip(s: string): string
  {
    StripRight(StripLeft(s))
  }

  function DigitValue(c: char): nat
    requires IsDigit(c)
  {
    (c as int) - ('0' as int)
  }

  /** The number a non-empty string of decimal digits denotes, most significant first. */
  function DigitsValue(ds: string): nat
    requires AllDigits(ds)
  {
    if ds == [] then 0
    else DigitsValue(ds[..|ds| - 1]) * 10 + DigitValue(ds[|ds| - 1])
  }

  /** The integer `int(text)` returns, or None where it raises `ValueError`. */
  function ParseInt(text: string): (r: Option<int>)
    ensures r.Some? ==> Strip(text) != [] && !IsSpace(Strip(text)[0])
    ensures r.Some? <==>
      var t := Strip(text);
      (|t| > 1 && (t[0] == '+' || t[0] == '-') && AllDigits(t[1..])) || (t != [] && AllDigits(t))
    ensures r.Some? && r.value < 0 ==> Strip(text)[0] == '-'
  {
    var t := Strip(text);
    if |t| > 1 && (t[0] == '+' || t[0] == '-') && AllDigits(t[1..]) then
      var n: int := DigitsValue(t[1..]);
      Some(if t[0] == '-' then -n else n)
    else if t != [] && AllDigits(t) then
      Some(DigitsValue(t))
    else
      None
  }

  /** The shortest decimal rendering of `n`. */
  function ShowNat(n: nat): (s: string)
    ensures s != [] && AllDigits(s)
  {
    if n < 10 then [('0' as int + n) as char]
    else ShowNat(n / 10) + [('0' as int + n % 10) as char]
  }

  /** Python's `str(n)`: a `-` sign before the digits of a negative number. */
  function ShowInt(n: int): (s: string)
    ensures s != []
  {
    if n < 0 then "-" + ShowNat(-n) else ShowNat(n)
  }

  lemma {:induction false} DigitsOfShowNat(n: nat)
    ensures DigitsValue(ShowNat(n)) == n
  {
    if n >= 10 {
      DigitsOfShowNat(n / 10);
      var s := ShowNat(n);
      assert s[..|s| - 1] == ShowNat(n / 10);
    }
  }

  /** A string that starts and ends with a non-space is its own strip. */
  lemma StripUnpadded(s: string)
    requires s != [] && !IsSpace(s[0]) && !IsSpace(s[|s| - 1])
    ensures Strip(s) == s
  {
  }

  /** Parsing what `ShowInt` renders gives the number back. */
  lemma ParseShowInt(n: int)
    ensures ParseInt(ShowInt(n)) == Some(n)
  {
    var s := ShowInt(n);
    StripUnpadded(s);
    if n < 0 {
      DigitsOfShowNat(-n);
      assert s[1..] == ShowNat(-n);
    } else {
      DigitsOfShowNat(n);
    }
  }

  /** Surrounding whitespace does not change what `int` returns. */
  lemma ParseIgnoresPadding(pre: string, s: string, post: string)
    requires forall i :: 0 <= i < |pre| ==> IsSpace(pre[i])
    requires forall i :: 0 <= i < |post| ==> IsSpace(post[i])
    ensures ParseInt(pre + s + post) == ParseInt(s)
  {
    StripPadded(pre, s, post);
  }

  lemma {:induction false} StripLeftSpaces(pre: string, s: string)
    requires forall i :: 0 <= i < |pre| ==> IsSpace(pre[i])
    ensures StripLeft(pre + s) == StripLeft(s)
  {
    if pre != [] {
      assert (pre + s)[0] == pre[0];
      assert (pre + s)[1..] == pre[1..] + s;
      StripLeftSpaces(pre[1..], s);
    } else {
      assert pre + s == s;
    }
  }

  lemma {:induction false} StripRightSpaces(s: string, post: string)
    requires forall i :: 0 <= i < |post| ==> IsSpace(post[i])
    ensures StripRight(s + post) == StripRight(s)
  {
    if post != [] {
      var p := post[..|post| - 1];
      assert (s + post)[|s + post| - 1] == post[|post| - 1];
      assert (s + post)[..|s + post| - 1] == s + p;
      StripRightSpaces(s, p);
    } else {
      assert s + post == s;
    }
  }

  lemma StripPadded(pre: string, s: string, post: string)
    requires forall i :: 0 <= i < |pre| ==> IsSpace(pre[i])
    requires forall i :: 0 <= i < |post| ==> IsSpace(post[i])
    ensures Strip(pre + s + post) == Strip(s)
  {
    assert pre + s + post == pre + (s + post);
    StripLeftSpaces(pre, s + post);
    StripLeftThenRight(s, post);
  }

  /** Trailing spaces survive a left strip unless everything is space. */
  lemma {:induction false} StripLeftThenRight(s: string, post: string)
    requires forall i :: 0 <= i < |post| ==> IsSpace(post[i])
    ensures StripRight(StripLeft(s + post)) == StripRight(StripLeft(s))
  {
    if s == [] {
      assert s + post == post;
      StripRightSpaces([], post);
      assert StripLeft(post) == post[|post| - |StripLeft(post)|..];
      assert StripLeft(post) == [];
    } else if IsSpace(s[0]) {
      assert (s + post)[1..] == s[1..] + post;
      StripLeftThenRight(s[1..], post);
    } else {
      StripRightSpaces(s, post);
    }
  }
}
