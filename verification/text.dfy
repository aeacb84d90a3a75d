/** Character classes, decimal digit strings and white-space trimming. */
module Text {

  predicate IsDigit(c: char) { '0' <= c <= '9' }

  predicate IsAsciiLetter(c: char) { 'a' <= c <= 'z' || 'A' <= c <= 'Z' }

  /** The regular-expression class [a-zA-Z0-9]. */
  predicate IsAlnum(c: char) { IsAsciiLetter(c) || IsDigit(c) }

  /** The ASCII white space that strings.TrimSpace removes: tab, newline,
      vertical tab, form feed, carriage return and space. */
  predicate IsSpace(c: char) {
    c == ' ' || c == '\t' || c == '\n' || c == '\U{000B}' || c == '\U{000C}' || c == '\r'
  }

  predicate AllDigits(s: string) { forall i :: 0 <= i < |s| ==> IsDigit(s[i]) }

  predicate AllSpace(s: string) { forall i :: 0 <= i < |s| ==> IsSpace(s[i]) }

  function DigitValue(c: char): (d: nat)
    requires IsDigit(c)
    ensures d < 10
  {
    c as int - '0' as int
  }

  function DigitChar(d: nat): (c: char)
    requires d < 10
    ensures IsDigit(c) && DigitValue(c) == d
  {
    ('0' as int + d) as char
  }

  /** The value of a string of decimal digits, most significant first. */
  function DigitsValue(s: string): nat
    requires AllDigits(s)
  {
    if s == [] then 0 else DigitsValue(s[..|s| - 1]) * 10 + DigitValue(s[|s| - 1])
  }

  /** The shortest decimal rendering of n. */
  function NatToDigits(n: nat): (s: string)
    ensures |s| > 0 && AllDigits(s)
    ensures DigitsValue(s) == n
  {
    if n < 10 then [DigitChar(n)]
    else
      var p := NatToDigits(n / 10);
      var s := p + [DigitChar(n % 10)];
      assert s[..|s| - 1] == p;
      s
  }

  /** Exactly two digits, zero-padded: the "01" and "04" layout elements. */
  function Pad2(n: nat): (s: string)
    requires n < 100
    ensures |s| == 2 && AllDigits(s) && DigitsValue(s) == n
  {
    var s := [DigitChar(n / 10), DigitChar(n % 10)];
    DigitsValueSnoc([], s[0]);
    DigitsValueSnoc([s[0]], s[1]);
    assert s == [s[0]] + [s[1]];
    s
  }

  /** Exactly four digits, zero-padded: the "2006" layout element. */
  function Pad4(n: nat): (s: string)
    requires n < 10000
    ensures |s| == 4 && AllDigits(s) && DigitsValue(s) == n
  {
    var hi := Pad2(n / 100);
    var s := hi + Pad2(n % 100);
    DigitsValueAppend(hi, Pad2(n % 100));
    s
  }

  lemma {:induction false} DigitsValueSnoc(p: string, c: char)
    requires AllDigits(p) && IsDigit(c)
    ensures AllDigits(p + [c])
    ensures DigitsValue(p + [c]) == DigitsValue(p) * 10 + DigitValue(c)
  {
    assert (p + [c])[..|p|] == p;
  }

  lemma {:induction false} DigitsValueAppend(a: string, b: string)
    requires AllDigits(a) && AllDigits(b) && |b| == 2
    ensures AllDigits(a + b)
    ensures DigitsValue(a + b) == DigitsValue(a) * 100 + DigitsValue(b)
  {
    var x, d0, d1 := DigitsValue(a), DigitValue(b[0]), DigitValue(b[1]);
    DigitsValueSnoc(a, b[0]);
    DigitsValueSnoc(a + [b[0]], b[1]);
    assert a + b == a + [b[0]] + [b[1]];
    assert DigitsValue(a + b) == (x * 10 + d0) * 10 + d1;
    DigitsValueSnoc([], b[0]);
    DigitsValueSnoc([b[0]], b[1]);
    assert b == [b[0]] + [b[1]];
    assert DigitsValue(b) == d0 * 10 + d1;
  }

  /** Digit strings of one length are told apart by their values. */
  lemma {:induction false} DigitsInjective(a: string, b: string)
    requires AllDigits(a) && AllDigits(b) && |a| == |b|
    requires DigitsValue(a) == DigitsValue(b)
    ensures a == b
  {
    if a != [] {
      var a', b' := a[..|a| - 1], b[..|b| - 1];
      var x, y := DigitValue(a[|a| - 1]), DigitValue(b[|b| - 1]);
      assert DigitsValue(a) == DigitsValue(a') * 10 + x;
      assert DigitsValue(b) == DigitsValue(b') * 10 + y;
      assert x == y && DigitsValue(a') == DigitsValue(b');
      DigitsInjective(a', b');
      assert a == a' + [a[|a| - 1]];
      assert b == b' + [b[|b| - 1]];
    }
  }

  /** The string with every character outside [a-zA-Z0-9] deleted, as
      ReplaceAllString with the pattern [^a-zA-Z0-9] and "" does. */
  function KeepAlnum(s: string): (r: string)
    ensures |r| <= |s|
    ensures forall i :: 0 <= i < |r| ==> IsAlnum(r[i])
  {
    if s == [] then []
    else
      var r' := KeepAlnum(s[..|s| - 1]);
      if IsAlnum(s[|s| - 1]) then r' + [s[|s| - 1]] else r'
  }

  /** Every alphanumeric character survives the deletion as often as it
      occurs in the input. */
  lemma {:induction false} KeepAlnumKeepsAlnum(s: string, c: char)
    requires IsAlnum(c)
    ensures multiset(KeepAlnum(s))[c] == multiset(s)[c]
  {
    if s != [] {
      var p := s[..|s| - 1];
      assert s == p + [s[|s| - 1]];
      KeepAlnumKeepsAlnum(p, c);
    }
  }

  /** Text made only of [a-zA-Z0-9] loses nothing. */
  lemma {:induction false} KeepAlnumOfAlnum(s: string)
    requires forall i :: 0 <= i < |s| ==> IsAlnum(s[i])
    ensures KeepAlnum(s) == s
  {
    if s != [] {
      KeepAlnumOfAlnum(s[..|s| - 1]);
      assert s == s[..|s| - 1] + [s[|s| - 1]];
    }
  }

  /** Deleting characters commutes with concatenation. */
  lemma {:induction false} KeepAlnumAppend(a: string, b: string)
    ensures KeepAlnum(a + b) == KeepAlnum(a) + KeepAlnum(b)
    decreases |b|
  {
    if b == [] {
      assert a + b == a;
    } else {
      var b' := b[..|b| - 1];
      assert (a + b)[..|a + b| - 1] == a + b';
      KeepAlnumAppend(a, b');
    }
  }

  /** The positions of s that hold a character of [a-zA-Z0-9]. */
  function AlnumPositions(s: string): set<int>
  {
    set i | 0 <= i < |s| && IsAlnum(s[i])
  }

  /** Deleting the non-alphanumeric characters leaves exactly one character
      per alphanumeric position of the input. */
  lemma {:induction false} KeepAlnumLength(s: string)
    ensures |KeepAlnum(s)| == |AlnumPositions(s)|
  {
    if s == [] {
      assert AlnumPositions(s) == {};
    } else {
      var p := s[..|s| - 1];
      var last := s[|s| - 1];
      KeepAlnumLength(p);
      var extra: set<int> := if IsAlnum(last) then {|p|} else {};
      forall i | i in AlnumPositions(s)
        ensures i in AlnumPositions(p) + extra
      {
        if i < |p| { assert s[i] == p[i]; }
      }
      forall i | i in AlnumPositions(p) + extra
        ensures i in AlnumPositions(s)
      {
        if i < |p| { assert s[i] == p[i]; }
      }
      assert AlnumPositions(s) == AlnumPositions(p) + extra;
      assert |AlnumPositions(p) + extra| == |AlnumPositions(p)| + |extra|;
    }
  }

  /** The first index at or after i that does not hold white space, or |s|. */
  function SkipSpaceForward(s: string, i: nat): (k: nat)
    requires i <= |s|
    ensures i <= k <= |s|
    ensures forall j :: i <= j < k ==> IsSpace(s[j])
    ensures k == |s| || !IsSpace(s[k])
    decreases |s| - i
  {
    if i < |s| && IsSpace(s[i]) then SkipSpaceForward(s, i + 1) else i
  }

  /** Moving down from j but not below lo, the index just past the last
      character that is not white space, or lo. */
  function SkipSpaceBackward(s: string, lo: nat, j: nat): (k: nat)
    requires lo <= j <= |s|
    ensures lo <= k <= j
    ensures forall m :: k <= m < j ==> IsSpace(s[m])
    ensures k == lo || !IsSpace(s[k - 1])
  {
    if j > lo && IsSpace(s[j - 1]) then SkipSpaceBackward(s, lo, j - 1) else j
  }

  /** strings.TrimSpace on ASCII white space: find the first character that is
      not space, then, without passing it, the last one, and keep the run
      between them. */
  function TrimSpace(s: string): (r: string)
    ensures |r| <= |s|
    ensures r == [] || (!IsSpace(r[0]) && !IsSpace(r[|r| - 1]))
    ensures r == [] <==> AllSpace(s)
  {
    var start := SkipSpaceForward(s, 0);
    var stop := SkipSpaceBackward(s, start, |s|);
    s[start..stop]
  }

  lemma {:induction false} SkipSpaceForwardStops(s: string, i: nat, k: nat)
    requires i <= k <= |s|
    requires forall j :: i <= j < k ==> IsSpace(s[j])
    requires k == |s| || !IsSpace(s[k])
    ensures SkipSpaceForward(s, i) == k
    decreases k - i
  {
    if i < k {
      SkipSpaceForwardStops(s, i + 1, k);
    }
  }

  lemma {:induction false} SkipSpaceBackwardStops(s: string, lo: nat, j: nat, k: nat)
    requires lo < k <= j <= |s|
    requires forall m :: k <= m < j ==> IsSpace(s[m])
    requires !IsSpace(s[k - 1])
    ensures SkipSpaceBackward(s, lo, j) == k
    decreases j - k
  {
    if k < j {
      SkipSpaceBackwardStops(s, lo, j - 1, k);
    }
  }

  /** Trimming a core that neither starts nor ends with white space, padded
      with white space on both sides, gives the core back. */
  lemma {:induction false} TrimSpacePadded(pre: string, core: string, post: string)
    requires AllSpace(pre) && AllSpace(post)
    requires core == [] || (!IsSpace(core[0]) && !IsSpace(core[|core| - 1]))
    ensures TrimSpace(pre + core + post) == core
  {
    var s := pre + core + post;
    if core == [] {
      assert AllSpace(s);
    } else {
      var a, b := |pre|, |pre| + |core|;
      SkipSpaceForwardStops(s, 0, a);
      SkipSpaceBackwardStops(s, a, |s|, b);
      assert s[a..b] == core;
    }
  }

  /** Text that neither starts nor ends with white space is its own trim. */
  lemma {:induction false} TrimSpaceTrimmed(core: string)
    requires core == [] || (!IsSpace(core[0]) && !IsSpace(core[|core| - 1]))
    ensures TrimSpace(core) == core
  {
    TrimSpacePadded([], core, []);
    assert [] + core + [] == core;
  }

  /** Trimming twice is the same as trimming once. */
  lemma {:induction false} TrimSpaceIdempotent(s: string)
    ensures TrimSpace(TrimSpace(s)) == TrimSpace(s)
  {
    TrimSpaceTrimmed(TrimSpace(s));
  }
}
