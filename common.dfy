/** Small value types and sequence/string helpers shared by the editor model. */
module Common {

  datatype Option<+T> = None | Some(value: T)

  /** The value of `Number(v)` for some JavaScript input `v`: a finite number or one of the non-finite ones. */
  datatype JsNumber = Finite(value: real) | NaN | PosInfinity | NegInfinity

  function Abs(x: real): real { if x < 0.0 then -x else x }

  function Min(a: real, b: real): real { if a <= b then a else b }

  function Max(a: real, b: real): real { if a >= b then a else b }

  function MinInt(a: int, b: int): int { if a <= b then a else b }

  function MaxInt(a: int, b: int): int { if a >= b then a else b }

  /** The last element, or None for the empty sequence (the source's `arr.length ? arr[arr.length - 1] : null`). */
  function LastOrNone<T>(s: seq<T>): Option<T>
  {
    if |s| == 0 then None else Some(s[|s| - 1])
  }

  /** A decimal digit. */
  function Digit(d: nat): (c: char)
    requires d < 10
    ensures '0' <= c <= '9'
  {
    ['0', '1', '2', '3', '4', '5', '6', '7', '8', '9'][d]
  }

  /** The decimal rendering of a number, as template-string interpolation gives it. */
  function DecimalString(n: nat): (r: string)
    ensures |r| >= 1 && forall i :: 0 <= i < |r| ==> '0' <= r[i] <= '9'
    ensures (n < 10) == (|r| == 1)
  {
    if n < 10 then [Digit(n)] else DecimalString(n / 10) + [Digit(n % 10)]
  }

  ghost predicate Distinct<T>(s: seq<T>)
  {
    forall i, j :: 0 <= i < j < |s| ==> s[i] != s[j]
  }

  /** `a` is `b` with some elements deleted: the elements of `a` occur in `b` in the same order. */
  ghost predicate Subseq<T>(a: seq<T>, b: seq<T>)
    decreases |b|
  {
    || |a| == 0
    || (|b| > 0 && ((a[0] == b[0] && Subseq(a[1..], b[1..])) || Subseq(a, b[1..])))
  }

  /** `s.startsWith(prefix)` */
  predicate StartsWith(s: string, prefix: string)
  {
    |prefix| <= |s| && s[..|prefix|] == prefix
  }

  /** ASCII lower-casing, standing in for `String.prototype.toLowerCase`. */
  function ToLower(s: string): (r: string)
    ensures |r| == |s|
    ensures forall i :: 0 <= i < |s| ==> ('A' <= s[i] <= 'Z' ==> r[i] as int == s[i] as int + 32)
    ensures forall i :: 0 <= i < |s| ==> (!('A' <= s[i] <= 'Z') ==> r[i] == s[i])
  {
    seq(|s|, i requires 0 <= i < |s| => if 'A' <= s[i] <= 'Z' then (s[i] as int + 32) as char else s[i])
  }

  /** The characters `String.prototype.trim` strips: ECMAScript white space and line terminators. */
  predicate IsSpace(c: char)
  {
    || c == '\t' || c == '\n' || c == '\U{000B}' || c == '\U{000C}' || c == '\r' || c == ' '
    || c == '\U{00A0}' || c == '\U{1680}' || ('\U{2000}' <= c <= '\U{200A}')
    || c == '\U{2028}' || c == '\U{2029}' || c == '\U{202F}' || c == '\U{205F}'
    || c == '\U{3000}' || c == '\U{FEFF}'
  }

  /** `r` is `s[i..j]`, and everything of `s` outside `i..j` is white space. */
  ghost predicate StripsTo(s: string, r: string, i: int, j: int)
  {
    && 0 <= i <= j <= |s| && r == s[i..j]
    && (forall k :: 0 <= k < i ==> IsSpace(s[k]))
    && (forall k :: j <= k < |s| ==> IsSpace(s[k]))
  }

  /** `String.prototype.trim`: `s` with its leading and trailing white space removed. */
  function Trim(s: string): (r: string)
    ensures |r| <= |s|
    ensures |r| > 0 ==> !IsSpace(r[0]) && !IsSpace(r[|r| - 1])
    ensures (forall i :: 0 <= i < |s| ==> IsSpace(s[i])) <==> r == []
    ensures exists i, j :: StripsTo(s, r, i, j)
    decreases |s|
  {
    if |s| == 0 then
      assert StripsTo(s, s, 0, 0);
      s
    else if IsSpace(s[0]) then
      var r := Trim(s[1..]);
      StripsFront(s, s[1..], r);
      r
    else if IsSpace(s[|s| - 1]) then
      var r := Trim(s[..|s| - 1]);
      assert s[..|s| - 1][0] == s[0];
      StripsBack(s, s[..|s| - 1], r);
      r
    else
      assert StripsTo(s, s, 0, |s|);
      s
  }

  /** Stripping the rest of `s` strips `s`, when `s` starts with white space. */
  lemma {:induction false} StripsFront(s: string, t: string, r: string)
    requires |s| > 0 && IsSpace(s[0]) && t == s[1..] && exists i, j :: StripsTo(t, r, i, j)
    ensures exists i, j :: StripsTo(s, r, i, j)
  {
    var i, j :| StripsTo(t, r, i, j);
    assert r == s[i + 1..j + 1];
    forall k | 0 <= k < i + 1 ensures IsSpace(s[k]) {
      if k > 0 { assert s[k] == s[1..][k - 1]; }
    }
    forall k | j + 1 <= k < |s| ensures IsSpace(s[k]) {
      assert s[k] == s[1..][k - 1];
    }
    assert StripsTo(s, r, i + 1, j + 1);
  }

  /** Stripping all of `s` but its last character strips `s`, when that character is white space. */
  lemma {:induction false} StripsBack(s: string, t: string, r: string)
    requires |s| > 0 && IsSpace(s[|s| - 1]) && t == s[..|s| - 1] && exists i, j :: StripsTo(t, r, i, j)
    ensures exists i, j :: StripsTo(s, r, i, j)
  {
    var i, j :| StripsTo(t, r, i, j);
    assert r == s[i..j];
    forall k | 0 <= k < i ensures IsSpace(s[k]) {
      assert s[k] == s[..|s| - 1][k];
    }
    forall k | j <= k < |s| ensures IsSpace(s[k]) {
      if k < |s| - 1 { assert s[k] == s[..|s| - 1][k]; }
    }
    assert StripsTo(s, r, i, j);
  }

  /** Concatenation regroups freely. */
  lemma {:induction false} SeqAssoc<T>(a: seq<T>, b: seq<T>, c: seq<T>)
    ensures a + (b + c) == a + b + c
  {
  }
}
