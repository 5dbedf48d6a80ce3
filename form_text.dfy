/**
 * The two Python built-ins the registration handler applies to form text:
 * `str.strip()` with no argument, and `int()` on a decimal string.
 */
module FormText {
  import opened Wrappers

  /** The code points for which Python's `str.isspace()` holds. */
  predicate IsSpace(c: char) {
    var n := c as int;
    || 0x09 <= n <= 0x0D
    || 0x1C <= n <= 0x20
    || n == 0x85 || n == 0xA0 || n == 0x1680
    || 0x2000 <= n <= 0x200A
    || n == 0x2028 || n == 0x2029 || n == 0x202F || n == 0x205F || n == 0x3000
  }

  /** Every character of `s` from index `lo` up to (not including) `hi` is whitespace. */
  predicate SpaceBetween(s: string, lo: int, hi: int)
    requires 0 <= lo <= hi <= |s|
  {
    forall k :: lo <= k < hi ==> IsSpace(s[k])
  }

  /** Drops leading whitespace: what remains is a suffix of `s`. */
  function TrimStart(s: string): (r: string)
    ensures |r| <= |s| && r == s[|s| - |r|..]
    ensures SpaceBetween(s, 0, |s| - |r|)
    ensures r == [] || !IsSpace(r[0])
  {
    if s != [] && IsSpace(s[0]) then TrimStart(s[1..]) else s
  }

  /** Drops trailing whitespace: what remains is a prefix of `s`. */
  function TrimEnd(s: string): (r: string)
    ensures |r| <= |s| && r == s[..|r|]
    ensures SpaceBetween(s, |r|, |s|)
    ensures r == [] || !IsSpace(r[|r| - 1])
  {
    if s != [] && IsSpace(s[|s| - 1]) then TrimEnd(s[..|s| - 1]) else s
  }

  /**
   * Python's `s.strip()`: whitespace cut from both ends. The result is a
   * slice of `s` with only whitespace around it, it neither starts nor ends
   * with whitespace, and it is blank exactly when `s` held whitespace only.
   */
  function Strip(s: string): (r: string)
    ensures exists i :: 0 <= i <= |s| - |r| && r == s[i..i + |r|] && SpaceBetween(s, 0, i) && SpaceBetween(s, i + |r|, |s|)
    ensures r == [] || (!IsSpace(r[0]) && !IsSpace(r[|r| - 1]))
    ensures r == [] <==> SpaceBetween(s, 0, |s|)
  {
    var t := TrimStart(s);
    var r := TrimEnd(t);
    SpaceAroundSlice(s, t, r);
    TrimmedEnds(t, r);
    BlankOnlyWhenAllSpace(s, t, r);
    r
  }

  /** Cutting a whitespace prefix and then a whitespace suffix leaves a slice with whitespace around it. */
  lemma SpaceAroundSlice(s: string, t: string, r: string)
    requires |t| <= |s| && t == s[|s| - |t|..] && SpaceBetween(s, 0, |s| - |t|)
    requires |r| <= |t| && r == t[..|r|] && SpaceBetween(t, |r|, |t|)
    ensures var i := |s| - |t|;
      && i + |r| <= |s| && r == s[i..i + |r|]
      && SpaceBetween(s, 0, i) && SpaceBetween(s, i + |r|, |s|)
  {
  }

  /** Text with no whitespace at either end is left as it is. */
  lemma StripKeepsTrimmed(s: string)
    requires s == [] || (!IsSpace(s[0]) && !IsSpace(s[|s| - 1]))
    ensures Strip(s) == s
  {
  }

  /** Stripping twice is stripping once. */
  lemma StripIdempotent(s: string)
    ensures Strip(Strip(s)) == Strip(s)
  {
    StripKeepsTrimmed(Strip(s));
  }

  /** A prefix of text that starts with non-whitespace, and itself ends with non-whitespace, has clean ends. */
  lemma TrimmedEnds(t: string, r: string)
    requires |r| <= |t| && r == t[..|r|]
    requires t == [] || !IsSpace(t[0])
    requires r == [] || !IsSpace(r[|r| - 1])
    ensures r == [] || (!IsSpace(r[0]) && !IsSpace(r[|r| - 1]))
  {
  }

  /** After both cuts nothing is left exactly when every character was whitespace. */
  lemma BlankOnlyWhenAllSpace(s: string, t: string, r: string)
    requires |t| <= |s| && t == s[|s| - |t|..] && SpaceBetween(s, 0, |s| - |t|)
    requires |r| <= |t| && r == t[..|r|] && SpaceBetween(t, |r|, |t|)
    requires t == [] || !IsSpace(t[0])
    ensures r == [] <==> SpaceBetween(s, 0, |s|)
  {
  }

  predicate IsDigit(c: char) {
    '0' <= c <= '9'
  }

  predicate AllDigits(s: string) {
    forall k :: 0 <= k < |s| ==> IsDigit(s[k])
  }

  /** The number a string of ASCII decimal digits denotes (leading zeros allowed). */
  function DigitsValue(s: string): nat
    requires AllDigits(s)
  {
    if s == [] then 0 else DigitsValue(s[..|s| - 1]) * 10 + (s[|s| - 1] as int - '0' as int)
  }

  /** The most digits Python's `int()` reads from text before raising `ValueError` (its default limit). */
  const MaxStrDigits: nat := 4300

  /**
   * Python's `int(s)` on text that has already been stripped: an optional
   * `+` or `-` and then one to 4300 ASCII digits; anything else raises
   * `ValueError`, modelled as `None`.
   */
  function ParseInt(s: string): (r: Option<int>)
    ensures r.Some? <==>
      && |s| > 0
      && (IsDigit(s[0]) || (|s| > 1 && (s[0] == '+' || s[0] == '-')))
      && (forall k :: 1 <= k < |s| ==> IsDigit(s[k]))
      && (if IsDigit(s[0]) then |s| else |s| - 1) <= MaxStrDigits
    ensures r.Some? && s[0] == '-' ==> r.value <= 0
    ensures r.Some? && s[0] != '-' ==> r.value >= 0
  {
    if s == [] then None
    else if s[0] == '+' || s[0] == '-' then
      var digits := s[1..];
      if digits != [] && AllDigits(digits) && |digits| <= MaxStrDigits then
        var v: int := DigitsValue(digits);
        Some(if s[0] == '-' then -v else v)
      else
        None
    else if AllDigits(s) && |s| <= MaxStrDigits then Some(DigitsValue(s))
    else None
  }

  /** A leading zero does not change the number a digit string denotes. */
  lemma {:induction false} LeadingZero(d: string)
    requires AllDigits(d)
    ensures AllDigits("0" + d) && DigitsValue("0" + d) == DigitsValue(d)
    decreases |d|
  {
    if d != [] {
      assert ("0" + d)[..|"0" + d| - 1] == "0" + d[..|d| - 1];
      LeadingZero(d[..|d| - 1]);
    }
  }

  /**
   * How `int()` reads a sign or a leading zero: `+` keeps the value of the
   * digits, `-` negates it, and a leading zero changes nothing as long as the
   * text stays within the digit limit.
   */
  lemma ParseIntPrefixes(d: string)
    requires d != [] && AllDigits(d)
    ensures ParseInt("0" + d) == if |d| < MaxStrDigits then ParseInt(d) else None
    ensures ParseInt("+" + d) == ParseInt(d)
    ensures ParseInt("-" + d) == match ParseInt(d) case Some(v) => Some(-v) case None => None
  {
    LeadingZero(d);
    assert ("+" + d)[1..] == d;
    assert ("-" + d)[1..] == d;
  }

  function DigitChar(d: nat): (c: char)
    requires d < 10
    ensures IsDigit(c) && c as int - '0' as int == d
  {
    ('0' as int + d) as char
  }

  /** Python's `str(n)` for `n >= 0`: decimal digits with no leading zero. */
  function FormatNat(n: nat): (r: string)
    ensures r != [] && AllDigits(r) && DigitsValue(r) == n
    ensures r[0] == '0' ==> r == "0"
  {
    if n < 10 then
      [DigitChar(n)]
    else
      var p := FormatNat(n / 10);
      var r := p + [DigitChar(n % 10)];
      assert r[..|r| - 1] == p;
      r
  }

  /**
   * Python's `str(n)`: the inverse partner of `ParseInt`; its text reads back
   * as `n` whenever it has no more digits than `int()` accepts.
   */
  function FormatInt(n: int): (r: string)
    ensures r != [] && (r[0] == '-' <==> n < 0)
    ensures (if n < 0 then |r| - 1 else |r|) <= MaxStrDigits ==> ParseInt(r) == Some(n)
  {
    if n < 0 then
      var p := FormatNat(-n);
      assert ("-" + p)[1..] == p;
      "-" + p
    else
      FormatNat(n)
  }
}
