/**
  The parts of Go's `strings` and `unicode` packages the core relies on:
  `TrimSpace`, `ToLower`, `ToUpper`, `HasPrefix` and `EqualFold`.
  Strings are sequences of Unicode scalar values, so `len([]rune(s))` is `|s|`.
  Case mapping covers the ASCII letters and the four non-ASCII letters that
  map onto them, so it is exact wherever the result is compared with ASCII
  text; white space is exactly `unicode.IsSpace`.
*/
module Strings {

  /** How many code points `unicode.IsSpace` accepts. */
  const SpaceCount: nat := 25

  /**
    The `k`-th code point `unicode.IsSpace` accepts: the Latin-1 spaces, then
    the other White_Space code points.
  */
  function SpaceCode(k: nat): int
    requires k < SpaceCount
  {
    if k < 6 then [0x09, 0x0A, 0x0B, 0x0C, 0x0D, 0x20][k]
    else if k < 9 then [0x85, 0xA0, 0x1680][k - 6]
    else if k < 20 then 0x2000 + (k - 9)
    else [0x2028, 0x2029, 0x202F, 0x205F, 0x3000][k - 20]
  }

  /** `n` is one of the accepted code points from the `k`-th on. */
  predicate SpaceFrom(n: int, k: nat)
    decreases SpaceCount - k
  {
    k < SpaceCount && (SpaceCode(k) == n || SpaceFrom(n, k + 1))
  }

  /** `unicode.IsSpace`. */
  predicate IsSpace(c: char) {
    SpaceFrom(c as int, 0)
  }

  /** No printable ASCII character is white space. */
  lemma PrintableIsNotSpace(c: char)
    requires 0x21 <= c as int <= 0x7E
    ensures !IsSpace(c)
  {
    var n := c as int;
    var k: nat := SpaceCount;
    while 0 < k
      invariant k <= SpaceCount
      invariant !SpaceFrom(n, k)
    {
      k := k - 1;
      assert SpaceCode(k) != n;
    }
  }

  /** Drops leading white space. */
  function TrimLeadingSpace(s: string): string
    decreases |s|
  {
    if s != [] && IsSpace(s[0]) then TrimLeadingSpace(s[1..]) else s
  }

  /** Drops trailing white space. */
  function TrimTrailingSpace(s: string): string
    decreases |s|
  {
    if s != [] && IsSpace(s[|s| - 1]) then TrimTrailingSpace(s[..|s| - 1]) else s
  }

  /** What the leading trim leaves is a suffix of `s` not starting with space, and what it drops is all space. */
  lemma {:induction false} TrimLeadingSpaceDropsSpace(s: string)
    ensures var r := TrimLeadingSpace(s);
      && |r| <= |s| && r == s[|s| - |r|..]
      && (forall i :: 0 <= i < |s| - |r| ==> IsSpace(s[i]))
      && (r == [] || !IsSpace(r[0]))
    decreases |s|
  {
    if s != [] && IsSpace(s[0]) {
      var r := TrimLeadingSpace(s[1..]);
      assert TrimLeadingSpace(s) == r;
      TrimLeadingSpaceDropsSpace(s[1..]);
      assert s[1..][|s| - 1 - |r|..] == s[|s| - |r|..];
      forall i | 0 <= i < |s| - |r| ensures IsSpace(s[i]) {
        if 0 < i { assert s[i] == s[1..][i - 1]; }
      }
    }
  }

  /** What the trailing trim leaves is a prefix of `s` not ending with space, and what it drops is all space. */
  lemma {:induction false} TrimTrailingSpaceDropsSpace(s: string)
    ensures var r := TrimTrailingSpace(s);
      && |r| <= |s| && r == s[..|r|]
      && (forall i :: |r| <= i < |s| ==> IsSpace(s[i]))
      && (r == [] || !IsSpace(r[|r| - 1]))
    decreases |s|
  {
    if s != [] && IsSpace(s[|s| - 1]) {
      var r := TrimTrailingSpace(s[..|s| - 1]);
      assert TrimTrailingSpace(s) == r;
      TrimTrailingSpaceDropsSpace(s[..|s| - 1]);
      assert s[..|s| - 1][..|r|] == s[..|r|];
      forall i | |r| <= i < |s| ensures IsSpace(s[i]) {
        if i < |s| - 1 { assert s[i] == s[..|s| - 1][i]; }
      }
    }
  }

  /** A string with no white space at either end. */
  predicate IsTrimmed(s: string) {
    s == [] || (!IsSpace(s[0]) && !IsSpace(s[|s| - 1]))
  }

  /**
    `strings.TrimSpace`: never longer than its input. What it keeps and
    drops is stated by `TrimSpaceIsTrimmed` and `TrimSpaceIsInfix`.
  */
  function TrimSpace(s: string): (r: string)
    ensures |r| <= |s|
  {
    TrimLeadingSpaceDropsSpace(s);
    TrimTrailingSpaceDropsSpace(TrimLeadingSpace(s));
    TrimTrailingSpace(TrimLeadingSpace(s))
  }

  /** `TrimSpace` leaves no white space at either end. */
  lemma TrimSpaceIsTrimmed(s: string)
    ensures IsTrimmed(TrimSpace(s))
  {
    var t := TrimLeadingSpace(s);
    var r := TrimTrailingSpace(t);
    TrimLeadingSpaceDropsSpace(s);
    TrimTrailingSpaceDropsSpace(t);
    if r != [] {
      assert r[0] == t[0] && !IsSpace(t[0]);
      assert !IsSpace(r[|r| - 1]);
    }
  }

  /**
    `TrimSpace` leaves an infix of `s`: it starts where the leading white
    space ends, and everything dropped at either end is white space.
  */
  lemma TrimSpaceIsInfix(s: string)
    ensures var i, r := |s| - |TrimLeadingSpace(s)|, TrimSpace(s);
      && 0 <= i && i + |r| <= |s| && r == s[i..i + |r|]
      && (forall k :: 0 <= k < i ==> IsSpace(s[k]))
      && (forall k :: i + |r| <= k < |s| ==> IsSpace(s[k]))
  {
    var t := TrimLeadingSpace(s);
    var r := TrimTrailingSpace(t);
    TrimLeadingSpaceDropsSpace(s);
    TrimTrailingSpaceDropsSpace(t);
    var i := |s| - |t|;
    forall j | 0 <= j < |r| ensures r[j] == s[i + j] {
      assert r[j] == t[j];
    }
    forall k | i + |r| <= k < |s| ensures IsSpace(s[k]) {
      assert s[k] == t[k - i];
    }
  }

  /** A trimmed string is its own trim. */
  lemma TrimSpaceOfTrimmed(s: string)
    requires IsTrimmed(s)
    ensures TrimSpace(s) == s
  {
  }

  /** Trimming twice is trimming once. */
  lemma TrimSpaceIdempotent(s: string)
    ensures TrimSpace(TrimSpace(s)) == TrimSpace(s)
  {
    TrimSpaceIsTrimmed(s);
    TrimSpaceOfTrimmed(TrimSpace(s));
  }

  /**
    `unicode.ToLower` on one character: the ASCII capitals, and the two
    non-ASCII letters whose lower case is ASCII, the dotted capital I
    (U+0130) and the Kelvin sign (U+212A). Every other character is kept.
  */
  function LowerChar(c: char): char {
    if 'A' <= c <= 'Z' then (c as int + 32) as char
    else if c == '\U{0130}' then 'i'
    else if c == '\U{212A}' then 'k'
    else c
  }

  /**
    `unicode.ToUpper` on one character: the ASCII small letters, and the two
    non-ASCII letters whose upper case is ASCII, the dotless small i
    (U+0131) and the long s (U+017F). Every other character is kept.
  */
  function UpperChar(c: char): char {
    if 'a' <= c <= 'z' then (c as int - 32) as char
    else if c == '\U{0131}' then 'I'
    else if c == '\U{017F}' then 'S'
    else c
  }

  /** `strings.ToLower`: each character through `LowerChar`. */
  function ToLower(s: string): (r: string)
    ensures |r| == |s|
  {
    seq(|s|, i requires 0 <= i < |s| => LowerChar(s[i]))
  }

  /** `strings.ToUpper`: each character through `UpperChar`. */
  function ToUpper(s: string): (r: string)
    ensures |r| == |s|
  {
    seq(|s|, i requires 0 <= i < |s| => UpperChar(s[i]))
  }

  /** Every character is already in lower case. */
  predicate IsLowered(s: string) {
    forall i :: 0 <= i < |s| ==> LowerChar(s[i]) == s[i]
  }

  lemma ToLowerIsLowered(s: string)
    ensures IsLowered(ToLower(s))
  {
  }

  lemma ToLowerOfLowered(s: string)
    requires IsLowered(s)
    ensures ToLower(s) == s
  {
  }

  lemma TrimSpaceKeepsLowered(s: string)
    requires IsLowered(s)
    ensures IsLowered(TrimSpace(s))
  {
    TrimSpaceIsInfix(s);
    var i := |s| - |TrimLeadingSpace(s)|;
    var r := TrimSpace(s);
    forall k | 0 <= k < |r| ensures LowerChar(r[k]) == r[k] {
      assert r[k] == s[i + k];
    }
  }

  /** Go's `strings.TrimSpace(strings.ToLower(x))`: the canonical form of an enumeration field. */
  function LowerTrim(s: string): string {
    TrimSpace(ToLower(s))
  }

  /** The canonical form is trimmed and in lower case. */
  lemma LowerTrimIsCanonical(s: string)
    ensures IsTrimmed(LowerTrim(s)) && IsLowered(LowerTrim(s))
  {
    ToLowerIsLowered(s);
    TrimSpaceKeepsLowered(ToLower(s));
    TrimSpaceIsTrimmed(ToLower(s));
  }

  /** Lower-casing then trimming is idempotent. */
  lemma LowerTrimIdempotent(s: string)
    ensures LowerTrim(LowerTrim(s)) == LowerTrim(s)
  {
    LowerTrimIsCanonical(s);
    var t := LowerTrim(s);
    ToLowerOfLowered(t);
    TrimSpaceOfTrimmed(t);
  }

  /** `strings.HasPrefix`. */
  predicate HasPrefix(s: string, prefix: string) {
    |prefix| <= |s| && s[..|prefix|] == prefix
  }

  /**
    The representative of a character's case-folding class, for the classes
    that hold an ASCII letter: the capital goes to the small letter, and the
    Kelvin sign (U+212A) and the long s (U+017F), which fold together with
    `k` and `s`, go to those.
  */
  function FoldChar(c: char): char {
    if 'A' <= c <= 'Z' then (c as int + 32) as char
    else if c == '\U{212A}' then 'k'
    else if c == '\U{017F}' then 's'
    else c
  }

  /**
    `strings.EqualFold`: same length, and characters that fold alike,
    position by position. Equal strings are equal under folding.
  */
  predicate EqualFold(a: string, b: string): (eq: bool)
    ensures eq ==> |a| == |b|
    ensures a == b ==> eq
  {
    |a| == |b| && forall i :: 0 <= i < |a| ==> FoldChar(a[i]) == FoldChar(b[i])
  }

  /** A string folds to `closed` exactly when each of its six characters is that letter in either case (or the long s). */
  lemma EqualFoldClosed(s: string)
    ensures EqualFold(s, "closed") <==>
      && |s| == 6
      && s[0] in {'c', 'C'} && s[1] in {'l', 'L'} && s[2] in {'o', 'O'}
      && s[3] in {'s', 'S', '\U{017F}'} && s[4] in {'e', 'E'} && s[5] in {'d', 'D'}
  {
    var t: string := "closed";
    if EqualFold(s, t) {
      assert FoldChar(s[0]) == FoldChar(t[0]) && FoldChar(s[1]) == FoldChar(t[1]) && FoldChar(s[2]) == FoldChar(t[2]);
      assert FoldChar(s[3]) == FoldChar(t[3]) && FoldChar(s[4]) == FoldChar(t[4]) && FoldChar(s[5]) == FoldChar(t[5]);
    }
  }
}
