/**
 * The parts of java.lang the admin handler relies on: the fixed-width
 * integer types, `Long.intValue()` and `String.trim()`.
 */
module JavaLang {

  /** A Java `int`. */
  type int32 = x: int | -0x8000_0000 <= x < 0x8000_0000

  /** A Java `long`. */
  type int64 = x: int | -0x8000_0000_0000_0000 <= x < 0x8000_0000_0000_0000

  /**
   * `Long.intValue()`: a narrowing conversion that keeps the low 32 bits and
   * reads them back as a signed (two's complement) `int`.
   */
  function IntValue(x: int64): (r: int32)
    ensures (x - r) % 0x1_0000_0000 == 0
    ensures -0x8000_0000 <= x < 0x8000_0000 ==> r == x
  {
    var y := x + 0x8000_0000;
    assert y == 0x1_0000_0000 * (y / 0x1_0000_0000) + y % 0x1_0000_0000;
    y % 0x1_0000_0000 - 0x8000_0000
  }

  /** The characters `String.trim()` strips: every code point up to U+0020. */
  predicate IsTrimSpace(c: char) {
    c <= ' '
  }

  /** Every character of s in [lo, hi) would be stripped by `trim()`. */
  predicate SpaceBetween(s: string, lo: nat, hi: nat)
    requires lo <= hi <= |s|
  {
    forall k :: lo <= k < hi ==> IsTrimSpace(s[k])
  }

  /** Neither the first nor the last character would be stripped by `trim()`. */
  predicate NoEdgeSpace(s: string) {
    s != [] ==> !IsTrimSpace(s[0]) && !IsTrimSpace(s[|s| - 1])
  }

  /** s[i..j] is what is left of s once a run of strippable characters before i and after j is cut away. */
  predicate Frames(s: string, i: nat, j: nat) {
    && i <= j <= |s|
    && SpaceBetween(s, 0, i)
    && SpaceBetween(s, j, |s|)
    && (i < j ==> !IsTrimSpace(s[i]) && !IsTrimSpace(s[j - 1]))
  }

  /** A run of n blanks. */
  function Spaces(n: nat): (s: string)
    ensures |s| == n
  {
    if n == 0 then [] else [' '] + Spaces(n - 1)
  }

  lemma {:induction false} SpacesAreBlank(n: nat)
    ensures forall k :: 0 <= k < n ==> Spaces(n)[k] == ' '
  {
    if n > 0 {
      SpacesAreBlank(n - 1);
      assert forall k :: 1 <= k < n ==> Spaces(n)[k] == Spaces(n - 1)[k - 1];
    }
  }

  /** `s` without its leading strippable characters (the first loop of `trim()`). */
  function TrimStart(s: string): (r: string)
    ensures |r| <= |s| && r == s[|s| - |r|..]
    ensures r != [] ==> !IsTrimSpace(r[0])
    decreases |s|
  {
    if s != [] && IsTrimSpace(s[0]) then TrimStart(s[1..]) else s
  }

  /** `s` without its trailing strippable characters (the second loop of `trim()`). */
  function TrimEnd(s: string): (r: string)
    ensures |r| <= |s| && r == s[..|r|]
    ensures r != [] ==> !IsTrimSpace(r[|r| - 1])
    decreases |s|
  {
    if s != [] && IsTrimSpace(s[|s| - 1]) then TrimEnd(s[..|s| - 1]) else s
  }

  /**
   * `String.trim()`: the string without its leading and trailing characters
   * up to U+0020. `TrimExact` characterises the result.
   */
  function Trim(s: string): (r: string)
    ensures |r| <= |s|
    ensures NoEdgeSpace(r)
  {
    TrimEnd(TrimStart(s))
  }

  /** Cutting a strippable prefix that ends before a kept character. */
  lemma {:induction false} TrimStartExact(s: string, i: nat)
    requires i <= |s| && SpaceBetween(s, 0, i)
    requires i < |s| ==> !IsTrimSpace(s[i])
    ensures TrimStart(s) == s[i..]
    decreases i
  {
    if i > 0 {
      assert SpaceBetween(s[1..], 0, i - 1) by {
        assert forall k :: 0 <= k < i - 1 ==> s[1..][k] == s[k + 1];
      }
      TrimStartExact(s[1..], i - 1);
      assert s[1..][i - 1..] == s[i..];
    }
  }

  /** Cutting a strippable suffix that starts after a kept character. */
  lemma {:induction false} TrimEndExact(s: string, j: nat)
    requires j <= |s| && SpaceBetween(s, j, |s|)
    requires j > 0 ==> !IsTrimSpace(s[j - 1])
    ensures TrimEnd(s) == s[..j]
    decreases |s| - j
  {
    if j < |s| {
      var p := s[..|s| - 1];
      assert SpaceBetween(p, j, |p|) by {
        assert forall k :: j <= k < |p| ==> p[k] == s[k];
      }
      TrimEndExact(p, j);
      assert p[..j] == s[..j];
    }
  }

  lemma SpaceBetweenJoin(s: string, a: nat, b: nat, c: nat)
    requires a <= b <= c <= |s| && SpaceBetween(s, a, b) && SpaceBetween(s, b, c)
    ensures SpaceBetween(s, a, c)
  {
    forall k | a <= k < c ensures IsTrimSpace(s[k]) {
      if k < b { assert SpaceBetween(s, a, b); } else { assert SpaceBetween(s, b, c); }
    }
  }

  /** Whenever `s[i..j]` is framed by strippable characters, `trim()` returns exactly it. */
  lemma TrimExact(s: string, i: nat, j: nat)
    requires Frames(s, i, j)
    ensures Trim(s) == s[i..j]
  {
    if i < j {
      TrimStartExact(s, i);
      TrimTail(s, i, j);
    } else {
      SpaceBetweenJoin(s, 0, i, |s|);
      TrimStartExact(s, |s|);
    }
  }

  lemma TrimTail(s: string, i: nat, j: nat)
    requires i < j <= |s| && SpaceBetween(s, j, |s|) && !IsTrimSpace(s[j - 1])
    ensures TrimEnd(s[i..]) == s[i..j]
  {
    var t := s[i..];
    forall k | j - i <= k < |t| ensures IsTrimSpace(t[k]) {
      assert t[k] == s[k + i];
    }
    TrimEndExact(t, j - i);
    assert t[..j - i] == s[i..j];
  }

  /** Trimming a string left-padded with spaces gives the unpadded string back. */
  lemma TrimPadded(s: string, n: nat)
    requires NoEdgeSpace(s)
    ensures Trim(Spaces(n) + s) == s
  {
    var p := Spaces(n) + s;
    SpacesAreBlank(n);
    forall k | 0 <= k < n ensures IsTrimSpace(p[k]) {
      assert p[k] == Spaces(n)[k];
    }
    if s != [] {
      assert p[n] == s[0] && p[n + |s| - 1] == s[|s| - 1];
    }
    assert p[n..n + |s|] == s;
    TrimExact(p, n, n + |s|);
  }

  /** A string with no strippable edge is left unchanged by `trim()`. */
  lemma TrimClean(s: string)
    requires NoEdgeSpace(s)
    ensures Trim(s) == s
  {
    TrimPadded(s, 0);
    assert Spaces(0) + s == s;
  }

  /** Pads on the left with spaces up to `width`, as a right-justified format field does. */
  function PadLeft(s: string, width: nat): (r: string)
    ensures |r| == if |s| < width then width else |s|
    ensures r == Spaces(|r| - |s|) + s
  {
    if |s| < width then Spaces(width - |s|) + s else assert Spaces(0) + s == s; s
  }
}
