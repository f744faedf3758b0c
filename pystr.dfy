/** The few Python string operations that the pipeline relies on, with their
    exact edge cases: `sep.join`, slicing with clamped bounds, `str.zfill`
    (which keeps a leading sign in front of the padding) and `str.strip`
    (which removes every character Python counts as whitespace). */
module PyStr {

  function Min(a: int, b: int): int { if a <= b then a else b }
  function Max(a: int, b: int): int { if a >= b then a else b }

  predicate StartsWith(s: string, p: string) {
    |p| <= |s| && s[..|p|] == p
  }

  predicate EndsWith(s: string, p: string) {
    |p| <= |s| && s[|s| - |p|..] == p
  }

  /** `sep.join(xs)` */
  function Join(sep: string, xs: seq<string>): string {
    if |xs| == 0 then "" else if |xs| == 1 then xs[0] else xs[0] + sep + Join(sep, xs[1..])
  }

  lemma {:induction false} JoinAppend(sep: string, xs: seq<string>, ys: seq<string>)
    requires xs != [] && ys != []
    ensures Join(sep, xs + ys) == Join(sep, xs) + sep + Join(sep, ys)
  {
    if |xs| == 1 {
      assert (xs + ys)[0] == xs[0];
      assert (xs + ys)[1..] == ys;
    } else {
      assert (xs + ys)[0] == xs[0];
      assert (xs + ys)[1..] == xs[1..] + ys;
      JoinAppend(sep, xs[1..], ys);
    }
  }

  /** `s[:n]` for `n >= 0` */
  function Take(s: string, n: nat): (r: string)
    ensures |r| == Min(n, |s|)
    ensures StartsWith(s, r)
  {
    if n <= |s| then s[..n] else s
  }

  /** `s[n:]` for `n >= 0` */
  function Drop(s: string, n: nat): (r: string)
    ensures |r| == |s| - Min(n, |s|)
    ensures Take(s, n) + r == s
  {
    if n <= |s| then s[n..] else ""
  }

  function Zeros(n: nat): (z: string)
    ensures |z| == n
    ensures forall i :: 0 <= i < n ==> z[i] == '0'
  {
    if n == 0 then "" else "0" + Zeros(n - 1)
  }

  /** `s.zfill(width)`: pads with '0' on the left up to `width`; a leading
      '+' or '-' stays in front of the padding. */
  function ZFill(s: string, width: nat): string {
    if |s| >= width then s
    else if |s| > 0 && (s[0] == '+' || s[0] == '-') then [s[0]] + Zeros(width - |s|) + s[1..]
    else Zeros(width - |s|) + s
  }

  lemma ZFillLength(s: string, width: nat)
    ensures |ZFill(s, width)| == Max(width, |s|)
  {
  }

  lemma ZFillLong(s: string, width: nat)
    requires |s| >= width
    ensures ZFill(s, width) == s
  {
  }

  lemma ZFillIdempotent(s: string, width: nat)
    ensures ZFill(ZFill(s, width), width) == ZFill(s, width)
  {
    ZFillLength(s, width);
  }

  /** Without a sign, the padding is a run of zeros in front of `s`. */
  lemma ZFillUnsigned(s: string, width: nat)
    requires s == [] || (s[0] != '+' && s[0] != '-')
    ensures ZFill(s, width) == Zeros(Max(width, |s|) - |s|) + s
  {
  }

  /** The characters for which Python's `str.isspace()` holds; `str.strip()`
      removes exactly these. */
  predicate IsSpace(c: char) {
    var n := c as int;
    (9 <= n <= 13) || (28 <= n <= 32) || n == 0x85 || n == 0xA0 || n == 0x1680
    || (0x2000 <= n <= 0x200A) || n == 0x2028 || n == 0x2029 || n == 0x202F
    || n == 0x205F || n == 0x3000
  }

  function StripLeft(s: string): (r: string)
    ensures |r| <= |s|
    ensures r != [] ==> !IsSpace(r[0])
  {
    if s != [] && IsSpace(s[0]) then StripLeft(s[1..]) else s
  }

  function StripRight(s: string): (r: string)
    ensures |r| <= |s|
    ensures r != [] ==> !IsSpace(r[|r| - 1])
    ensures StartsWith(s, r)
  {
    if s != [] && IsSpace(s[|s| - 1]) then StripRight(s[..|s| - 1]) else s
  }

  /** `s.strip()` */
  function Strip(s: string): (r: string)
    ensures |r| <= |s|
  {
    StripRight(StripLeft(s))
  }

  lemma {:induction false} StripLeftIsSuffix(s: string)
    ensures EndsWith(s, StripLeft(s))
    ensures forall i :: 0 <= i < |s| - |StripLeft(s)| ==> IsSpace(s[i])
  {
    if s != [] && IsSpace(s[0]) {
      StripLeftIsSuffix(s[1..]);
    }
  }

  lemma {:induction false} StripRightIsPrefix(s: string)
    ensures forall i :: |StripRight(s)| <= i < |s| ==> IsSpace(s[i])
  {
    if s != [] && IsSpace(s[|s| - 1]) {
      StripRightIsPrefix(s[..|s| - 1]);
    }
  }

  /** The stripped string has no whitespace at either end and is what remains
      of `s` once a run of whitespace is cut from each end. */
  lemma StripSpec(s: string)
    ensures Strip(s) != [] ==> !IsSpace(Strip(s)[0]) && !IsSpace(Strip(s)[|Strip(s)| - 1])
    ensures exists i, j :: 0 <= i <= j <= |s| && Strip(s) == s[i..j]
                           && (forall k :: 0 <= k < i ==> IsSpace(s[k]))
                           && (forall k :: j <= k < |s| ==> IsSpace(s[k]))
  {
    var l := StripLeft(s);
    StripLeftIsSuffix(s);
    StripRightIsPrefix(l);
    var i := |s| - |l|;
    var j := i + |Strip(s)|;
    assert l == s[i..];
    assert Strip(s) == l[..|Strip(s)|];
    assert Strip(s) == s[i..j];
    forall k | j <= k < |s|
      ensures IsSpace(s[k])
    {
      assert s[k] == l[k - i];
    }
    var r := Strip(s);
    if r != [] {
      assert r[0] == StripRight(l)[0];
      assert l[0] == r[0];
    }
  }

  lemma {:induction false} StripIdempotent(s: string)
    ensures Strip(Strip(s)) == Strip(s)
  {
    var r := Strip(s);
    StripLeftNoop(r);
    StripRightNoop(r);
  }

  lemma StripLeftNoop(s: string)
    requires s == [] || !IsSpace(s[0])
    ensures StripLeft(s) == s
  {
  }

  lemma StripRightNoop(s: string)
    requires s == [] || !IsSpace(s[|s| - 1])
    ensures StripRight(s) == s
  {
  }
}
