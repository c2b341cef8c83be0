/**
 * The handful of Python string operations the counter relies on:
 * `str.strip()`, `str.startswith`, substring `in`, `str.lower()` and
 * the ordering `<` that `sorted` uses on strings.
 */
module Text {

  /** Python's `str.isspace` on one character: the characters `str.strip()` removes. */
  predicate IsSpace(c: char)
  {
    || ('\U{9}' <= c <= '\U{D}')
    || ('\U{1C}' <= c <= '\U{20}')
    || c == '\U{85}' || c == '\U{A0}' || c == '\U{1680}'
    || ('\U{2000}' <= c <= '\U{200A}')
    || c == '\U{2028}' || c == '\U{2029}' || c == '\U{202F}' || c == '\U{205F}' || c == '\U{3000}'
  }

  predicate AllSpace(s: string)
  {
    forall i :: 0 <= i < |s| ==> IsSpace(s[i])
  }

  /** `s.lstrip()`: drops the leading whitespace. */
  function TrimLeft(s: string): (r: string)
    ensures |r| <= |s| && r == s[|s| - |r|..]
  {
    if s != [] && IsSpace(s[0]) then TrimLeft(s[1..]) else s
  }

  /** `s.rstrip()`: drops the trailing whitespace. */
  function TrimRight(s: string): (r: string)
    ensures |r| <= |s| && r == s[..|r|]
  {
    if s != [] && IsSpace(s[|s| - 1]) then TrimRight(s[..|s| - 1]) else s
  }

  /** `s.strip()`: drops the leading, then the trailing whitespace. */
  function Strip(s: string): (r: string)
    ensures |r| <= |s|
  {
    TrimRight(TrimLeft(s))
  }

  /** What `lstrip` drops is whitespace, and what it keeps does not start with any. */
  lemma {:induction false} TrimLeftSpec(s: string)
    ensures AllSpace(s[..|s| - |TrimLeft(s)|])
    ensures TrimLeft(s) != [] ==> !IsSpace(TrimLeft(s)[0])
  {
    if s != [] && IsSpace(s[0]) {
      var t := s[1..];
      TrimLeftSpec(t);
      var k := |s| - |TrimLeft(s)|;
      forall i | 0 <= i < k ensures IsSpace(s[..k][i]) {
        if i > 0 {
          assert s[..k][i] == t[..k - 1][i - 1];
        }
      }
    }
  }

  /** What `rstrip` drops is whitespace, and what it keeps does not end with any. */
  lemma {:induction false} TrimRightSpec(s: string)
    ensures AllSpace(s[|TrimRight(s)|..])
    ensures TrimRight(s) != [] ==> !IsSpace(TrimRight(s)[|TrimRight(s)| - 1])
  {
    if s != [] && IsSpace(s[|s| - 1]) {
      var t := s[..|s| - 1];
      TrimRightSpec(t);
      var k := |TrimRight(s)|;
      forall i | 0 <= i < |s| - k ensures IsSpace(s[k..][i]) {
        if i < |s| - 1 - k {
          assert s[k..][i] == t[k..][i];
        }
      }
    }
  }

  /** The result of `strip` neither begins nor ends with whitespace. */
  lemma StripEdges(s: string)
    requires Strip(s) != []
    ensures !IsSpace(Strip(s)[0]) && !IsSpace(Strip(s)[|Strip(s)| - 1])
  {
    var l := TrimLeft(s);
    TrimLeftSpec(s);
    TrimRightSpec(l);
    assert Strip(s)[0] == l[0];
  }

  /** A line strips to nothing exactly when it is all whitespace. */
  lemma StripEmptyIffAllSpace(s: string)
    ensures Strip(s) == [] <==> AllSpace(s)
  {
    var l := TrimLeft(s);
    TrimLeftSpec(s);
    TrimRightSpec(l);
    if Strip(s) == [] {
      assert l == [];
      assert s == s[..|s| - |l|];
    }
  }

  /** `lstrip` removes exactly a whitespace prefix that ends where non-whitespace begins. */
  lemma {:induction false} TrimLeftPad(pad: string, rest: string)
    requires AllSpace(pad)
    requires rest != [] && !IsSpace(rest[0])
    ensures TrimLeft(pad + rest) == rest
  {
    if pad != [] {
      assert (pad + rest)[1..] == pad[1..] + rest;
      TrimLeftPad(pad[1..], rest);
    } else {
      assert pad + rest == rest;
    }
  }

  /** `rstrip` never cuts into a stretch that ends with non-whitespace. */
  lemma {:induction false} TrimRightKeeps(core: string, tail: string)
    requires core != [] && !IsSpace(core[|core| - 1])
    ensures |core| <= |TrimRight(core + tail)| && TrimRight(core + tail)[..|core|] == core
  {
    if tail != [] {
      var n := |tail| - 1;
      assert (core + tail)[..|core + tail| - 1] == core + tail[..n];
      TrimRightKeeps(core, tail[..n]);
    } else {
      assert core + tail == core;
    }
  }

  /**
   * Stripping a line made of whitespace, then a stretch that begins and ends
   * with non-whitespace, then anything, keeps that stretch at the front.
   */
  lemma StripKeepsCore(pad: string, core: string, tail: string)
    requires AllSpace(pad)
    requires core != [] && !IsSpace(core[0]) && !IsSpace(core[|core| - 1])
    ensures |core| <= |Strip(pad + core + tail)| && Strip(pad + core + tail)[..|core|] == core
  {
    assert pad + core + tail == pad + (core + tail);
    TrimLeftPad(pad, core + tail);
    TrimRightKeeps(core, tail);
  }

  /** `s.startswith(p)`. */
  predicate StartsWith(s: string, p: string)
  {
    |p| <= |s| && s[..|p|] == p
  }

  /** Python's `t in s` on strings: `t` occurs as a contiguous slice of `s`. */
  predicate Contains(s: string, t: string)
  {
    StartsWith(s, t) || (s != [] && Contains(s[1..], t))
  }

  /** A slice of `s` at position `i` is an occurrence. */
  lemma {:induction false} ContainsAt(s: string, t: string, i: nat)
    requires i + |t| <= |s| && s[i..i + |t|] == t
    ensures Contains(s, t)
  {
    if i > 0 {
      assert s[1..][i - 1..i - 1 + |t|] == s[i..i + |t|];
      ContainsAt(s[1..], t, i - 1);
    }
  }

  /** `str.lower()` on one character, restricted to ASCII letters. */
  function LowerChar(c: char): (d: char)
  {
    if 'A' <= c <= 'Z' then (c as int + 32) as char else c
  }

  /** `str.lower()`, character by character. */
  function Lower(s: string): (r: string)
    ensures |r| == |s|
    ensures forall i :: 0 <= i < |s| ==> r[i] == LowerChar(s[i])
  {
    if s == [] then [] else [LowerChar(s[0])] + Lower(s[1..])
  }

  /** A string without upper-case ASCII letters is its own lower-case form. */
  lemma LowerNoUpper(s: string)
    requires forall i :: 0 <= i < |s| ==> !('A' <= s[i] <= 'Z')
    ensures Lower(s) == s
  {
  }

  /** Lowering never creates or removes a dot, so it keeps every dot in place. */
  lemma LowerKeepsDots(s: string, i: int)
    requires 0 <= i < |s|
    ensures Lower(s)[i] == '.' <==> s[i] == '.'
  {
  }

  /**
   * Python's `a < b` on strings: the first differing code point decides, and a
   * proper prefix comes first.
   */
  predicate LexLess(a: string, b: string)
  {
    if a == [] then b != []
    else if b == [] then false
    else a[0] < b[0] || (a[0] == b[0] && LexLess(a[1..], b[1..]))
  }

  lemma {:induction false} LexLessIrreflexive(a: string)
    ensures !LexLess(a, a)
  {
    if a != [] {
      LexLessIrreflexive(a[1..]);
    }
  }

  lemma {:induction false} LexLessTransitive(a: string, b: string, c: string)
    requires LexLess(a, b) && LexLess(b, c)
    ensures LexLess(a, c)
  {
    if a != [] && b != [] && c != [] && a[0] == b[0] && b[0] == c[0] {
      LexLessTransitive(a[1..], b[1..], c[1..]);
    }
  }

  /** Any two distinct strings are ordered one way or the other. */
  lemma {:induction false} LexLessTotal(a: string, b: string)
    requires a != b
    ensures LexLess(a, b) || LexLess(b, a)
  {
    if a != [] && b != [] && a[0] == b[0] {
      assert a == [a[0]] + a[1..] && b == [b[0]] + b[1..];
      LexLessTotal(a[1..], b[1..]);
    }
  }

  lemma LexLessAsymmetric(a: string, b: string)
    requires LexLess(a, b)
    ensures !LexLess(b, a)
  {
    if LexLess(b, a) {
      LexLessTransitive(a, b, a);
      LexLessIrreflexive(a);
    }
  }
}
