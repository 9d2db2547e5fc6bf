/**
 * Python's `int(s)` on a string in base 10, the conversion the room listing
 * applies to its `smart_home` query parameter, and `str(n)`, its inverse on
 * canonical strings. Surrounding whitespace is skipped, one sign is allowed,
 * and single underscores may separate digits; anything else raises
 * `ValueError`, modelled as `None`.
 */
module PyInt {
  import opened Results

  /** The whitespace `int()` skips, restricted to ASCII. */
  predicate IsSpace(c: char) {
    c == ' ' || (9 <= c as int <= 13) || (28 <= c as int <= 31)
  }

  predicate IsDigit(c: char) {
    '0' <= c <= '9'
  }

  function DigitValue(c: char): (v: nat)
    requires IsDigit(c)
    ensures v < 10
  {
    c as int - '0' as int
  }

  function DigitChar(v: nat): (c: char)
    requires v < 10
    ensures IsDigit(c) && DigitValue(c) == v
  {
    ('0' as int + v) as char
  }

  /** `s` with its leading whitespace removed. */
  function TrimStart(s: string): (r: string)
    ensures |r| <= |s| && r == s[|s| - |r|..]
    ensures |r| > 0 ==> !IsSpace(r[0])
    ensures forall i :: 0 <= i < |s| - |r| ==> IsSpace(s[i])
  {
    if |s| > 0 && IsSpace(s[0]) then TrimStart(s[1..]) else s
  }

  /** `s` with its trailing whitespace removed. */
  function TrimEnd(s: string): (r: string)
    ensures |r| <= |s| && r == s[..|r|]
    ensures |r| > 0 ==> !IsSpace(r[|r| - 1])
    ensures forall i :: |r| <= i < |s| ==> IsSpace(s[i])
  {
    if |s| > 0 && IsSpace(s[|s| - 1]) then TrimEnd(s[..|s| - 1]) else s
  }

  function Strip(s: string): string {
    TrimEnd(TrimStart(s))
  }

  /** Digits, possibly grouped by single underscores, neither leading nor trailing. */
  predicate ValidDigits(s: string) {
    |s| > 0 && forall i :: 0 <= i < |s| ==> DigitOrSeparator(s, i)
  }

  /** Position `i` holds a digit, or an underscore between two digits. */
  predicate DigitOrSeparator(s: string, i: int)
    requires 0 <= i < |s|
  {
    IsDigit(s[i]) || (s[i] == '_' && 0 < i < |s| - 1 && IsDigit(s[i - 1]) && IsDigit(s[i + 1]))
  }

  lemma ValidDigitsChars(s: string)
    requires ValidDigits(s)
    ensures forall i :: 0 <= i < |s| ==> IsDigit(s[i]) || s[i] == '_'
  {
    forall i | 0 <= i < |s| ensures IsDigit(s[i]) || s[i] == '_' {
      assert DigitOrSeparator(s, i);
    }
  }

  /** The value of a digit string, underscores skipped. */
  function DigitsValue(s: string): nat
    requires forall i :: 0 <= i < |s| ==> IsDigit(s[i]) || s[i] == '_'
  {
    if |s| == 0 then 0
    else
      var last := s[|s| - 1];
      if last == '_' then DigitsValue(s[..|s| - 1])
      else DigitsValue(s[..|s| - 1]) * 10 + DigitValue(last)
  }

  /** `int(s)`: `Some` of the value, or `None` where Python raises `ValueError`. */
  function ParseInt(s: string): (r: Option<int>)
    ensures r.Some? ==> |Strip(s)| > 0 && IsDigit(Strip(s)[|Strip(s)| - 1])
    ensures r.Some? && r.value < 0 ==> Strip(s)[0] == '-'
    ensures |Strip(s)| == 0 ==> r.None?
  {
    ParseDigits(Strip(s))
  }

  /** The conversion proper, on an already stripped string `t`. */
  function ParseDigits(t: string): (r: Option<int>)
    ensures r.Some? ==> |t| > 0 && IsDigit(t[|t| - 1])
    ensures r.Some? && r.value < 0 ==> t[0] == '-'
    ensures |t| == 0 ==> r.None?
  {
    if |t| > 0 && (t[0] == '-' || t[0] == '+') then
      var body := t[1..];
      if ValidDigits(body) then
        assert body[|body| - 1] == t[|t| - 1];
        ValidDigitsChars(body);
        assert DigitOrSeparator(body, |body| - 1);
        Some(if t[0] == '-' then 0 - DigitsValue(body) else DigitsValue(body) as int)
      else None
    else if ValidDigits(t) then
      ValidDigitsChars(t);
      assert DigitOrSeparator(t, |t| - 1);
      Some(DigitsValue(t))
    else None
  }

  /** `str(n)` for a natural number: its decimal digits, most significant first. */
  function NatDigits(n: nat): (s: string)
    ensures |s| > 0
    ensures forall i :: 0 <= i < |s| ==> IsDigit(s[i])
    decreases n
  {
    if n < 10 then [DigitChar(n)] else NatDigits(n / 10) + [DigitChar(n % 10)]
  }

  /** `str(n)`. */
  function FormatInt(n: int): string {
    if n < 0 then "-" + NatDigits(-n) else NatDigits(n)
  }

  lemma {:induction false} NatDigitsValue(n: nat)
    ensures DigitsValue(NatDigits(n)) == n
    decreases n
  {
    if n >= 10 {
      var s := NatDigits(n);
      NatDigitsValue(n / 10);
      assert s[..|s| - 1] == NatDigits(n / 10);
    }
  }

  /** A string with no whitespace at either end is its own strip. */
  lemma StripUnspaced(s: string)
    requires |s| > 0 && !IsSpace(s[0]) && !IsSpace(s[|s| - 1])
    ensures Strip(s) == s
  {
  }

  /** `int(str(n)) == n`. */
  lemma ParseFormat(n: int)
    ensures ParseInt(FormatInt(n)) == Some(n)
  {
    var s := FormatInt(n);
    var d := NatDigits(if n < 0 then -n else n);
    StripUnspaced(s);
    NatDigitsValue(if n < 0 then -n else n);
    if n < 0 {
      assert s[1..] == d;
    }
  }

  /** `int()` ignores whitespace around its argument. */
  lemma ParseIgnoresSpace(pre: string, s: string, post: string)
    requires forall i :: 0 <= i < |pre| ==> IsSpace(pre[i])
    requires forall i :: 0 <= i < |post| ==> IsSpace(post[i])
    ensures ParseInt(pre + s + post) == ParseInt(s)
  {
    assert Strip(pre + s + post) == Strip(s) by {
      assert pre + s + post == pre + (s + post);
      TrimStartSpaces(pre, s + post);
      StripAppendSpaces(s, post);
    }
    ParseStripped(pre + s + post);
    ParseStripped(s);
  }

  /** `int()` looks only at the stripped argument. */
  lemma ParseStripped(s: string)
    ensures ParseInt(s) == ParseDigits(Strip(s))
  {
  }

  lemma {:induction false} TrimStartSpaces(pre: string, s: string)
    requires forall i :: 0 <= i < |pre| ==> IsSpace(pre[i])
    ensures TrimStart(pre + s) == TrimStart(s)
  {
    if |pre| > 0 {
      assert (pre + s)[1..] == pre[1..] + s;
      TrimStartSpaces(pre[1..], s);
    } else {
      assert pre + s == s;
    }
  }

  /** Trailing whitespace does not change the strip. */
  lemma {:induction false} StripAppendSpaces(s: string, post: string)
    requires forall i :: 0 <= i < |post| ==> IsSpace(post[i])
    ensures Strip(s + post) == Strip(s)
  {
    if |s| == 0 {
      assert s + post == post;
      var r := TrimStart(post);
      assert forall i :: 0 <= i < |r| ==> r[i] == post[|post| - |r| + i];
      TrimEndAllSpace(r);
    } else if IsSpace(s[0]) {
      assert (s + post)[1..] == s[1..] + post;
      assert TrimStart(s + post) == TrimStart(s[1..] + post);
      assert TrimStart(s) == TrimStart(s[1..]);
      StripAppendSpaces(s[1..], post);
    } else {
      assert TrimStart(s + post) == s + post;
      assert TrimStart(s) == s;
      TrimEndSpaces(s, post);
    }
  }

  lemma {:induction false} TrimEndAllSpace(s: string)
    requires forall i :: 0 <= i < |s| ==> IsSpace(s[i])
    ensures TrimEnd(s) == []
  {
    if |s| > 0 {
      TrimEndAllSpace(s[..|s| - 1]);
    }
  }

  lemma {:induction false} TrimEndSpaces(s: string, post: string)
    requires forall i :: 0 <= i < |post| ==> IsSpace(post[i])
    ensures TrimEnd(s + post) == TrimEnd(s)
  {
    if |post| > 0 {
      assert (s + post)[..|s + post| - 1] == s + post[..|post| - 1];
      TrimEndSpaces(s, post[..|post| - 1]);
    } else {
      assert s + post == s;
    }
  }
}
