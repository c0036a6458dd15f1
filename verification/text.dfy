/**
 * Python's `str.strip()` with no argument: removes leading and trailing
 * whitespace, where whitespace is every code point for which `str.isspace()`
 * holds. Answers are compared after this trimming, case-sensitively.
 */
module Text {

  /** The code points Python treats as whitespace. */
  predicate IsSpace(c: char) {
    var n := c as int;
    || 9 <= n <= 13          // \t \n \v \f \r
    || 28 <= n <= 32         // file, group, record and unit separators; space
    || n == 0x85 || n == 0xA0 || n == 0x1680
    || 0x2000 <= n <= 0x200A
    || n == 0x2028 || n == 0x2029 || n == 0x202F || n == 0x205F || n == 0x3000
  }

  predicate AllSpace(s: string) {
    forall i :: 0 <= i < |s| ==> IsSpace(s[i])
  }

  /** `s` without its leading whitespace. */
  function TrimStart(s: string): string {
    if s != [] && IsSpace(s[0]) then TrimStart(s[1..]) else s
  }

  /** `s` without its trailing whitespace. */
  function TrimEnd(s: string): string {
    if s != [] && IsSpace(s[|s| - 1]) then TrimEnd(s[..|s| - 1]) else s
  }

  /** TrimStart keeps a suffix that is empty or starts with a non-space, and drops only whitespace. */
  lemma {:induction false} TrimStartSpec(s: string)
    ensures var r := TrimStart(s);
      && |r| <= |s| && r == s[|s| - |r|..]
      && AllSpace(s[..|s| - |r|])
      && (r != [] ==> !IsSpace(r[0]))
  {
    if s != [] && IsSpace(s[0]) {
      TrimStartSpec(s[1..]);
      var r := TrimStart(s);
      assert s[1..][|s[1..]| - |r|..] == s[|s| - |r|..];
      assert s[..|s| - |r|] == [s[0]] + s[1..][..|s[1..]| - |r|];
    }
  }

  /** TrimEnd keeps a prefix that is empty or ends with a non-space, and drops only whitespace. */
  lemma {:induction false} TrimEndSpec(s: string)
    ensures var r := TrimEnd(s);
      && |r| <= |s| && r == s[..|r|]
      && AllSpace(s[|r|..])
      && (r != [] ==> !IsSpace(r[|r| - 1]))
  {
    if s != [] && IsSpace(s[|s| - 1]) {
      var init := s[..|s| - 1];
      TrimEndSpec(init);
      var r := TrimEnd(s);
      assert init[..|r|] == s[..|r|];
      assert s[|r|..] == init[|r|..] + [s[|s| - 1]];
    }
  }

  /** Python's `s.strip()`. */
  function Trim(s: string): string {
    TrimEnd(TrimStart(s))
  }

  /** The text left after cutting off `s`'s whitespace on both sides. */
  predicate IsCore(c: string) {
    c == [] || (!IsSpace(c[0]) && !IsSpace(c[|c| - 1]))
  }

  lemma {:induction false} TrimStartOfPadded(p: string, t: string)
    requires AllSpace(p)
    requires t == [] || !IsSpace(t[0])
    ensures TrimStart(p + t) == t
  {
    if p == [] {
      assert p + t == t;
    } else {
      assert (p + t)[0] == p[0];
      assert (p + t)[1..] == p[1..] + t;
      TrimStartOfPadded(p[1..], t);
    }
  }

  lemma {:induction false} TrimEndOfPadded(t: string, q: string)
    requires AllSpace(q)
    requires t == [] || !IsSpace(t[|t| - 1])
    ensures TrimEnd(t + q) == t
  {
    if q == [] {
      assert t + q == t;
    } else {
      var n := |t + q|;
      assert (t + q)[n - 1] == q[|q| - 1];
      assert (t + q)[..n - 1] == t + q[..|q| - 1];
      TrimEndOfPadded(t, q[..|q| - 1]);
    }
  }

  /** Trim characterised: surrounding whitespace is removed and the core is kept intact. */
  lemma TrimOfPadded(p: string, c: string, q: string)
    requires AllSpace(p) && AllSpace(q)
    requires IsCore(c)
    ensures Trim(p + c + q) == c
  {
    if c == [] {
      assert p + c + q == p + q;
      TrimStartOfPadded(p + q, []);
      assert p + q + [] == p + q;
      assert TrimStart(p + q) == [];
    } else {
      assert p + c + q == p + (c + q);
      TrimStartOfPadded(p, c + q);
      TrimEndOfPadded(c, q);
    }
  }

  /** Every string is its core padded with whitespace on both sides. */
  lemma TrimDecomposes(s: string) returns (p: string, q: string)
    ensures AllSpace(p) && AllSpace(q) && IsCore(Trim(s))
    ensures s == p + Trim(s) + q
  {
    var u := TrimStart(s);
    var c := TrimEnd(u);
    TrimStartSpec(s);
    TrimEndSpec(u);
    p, q := s[..|s| - |u|], u[|c|..];
    assert s == s[..|s| - |u|] + s[|s| - |u|..];
    assert u == u[..|c|] + u[|c|..];
  }

  /** Trimming twice is trimming once: a stored, already trimmed answer compares the same. */
  lemma TrimIdempotent(s: string)
    ensures Trim(Trim(s)) == Trim(s)
  {
    var c := Trim(s);
    var _, _ := TrimDecomposes(s);
    TrimOfPadded([], c, []);
    assert [] + c + [] == c;
  }

  lemma AllSpaceConcat(a: string, b: string)
    requires AllSpace(a) && AllSpace(b)
    ensures AllSpace(a + b)
  {
    forall i | 0 <= i < |a + b| ensures IsSpace((a + b)[i]) {
      if i < |a| {
        assert (a + b)[i] == a[i];
      } else {
        assert (a + b)[i] == b[i - |a|];
      }
    }
  }

  lemma Regroup(a: string, b: string, c: string, d: string, e: string)
    ensures a + (b + c + d) + e == (a + b) + c + (d + e)
  {
  }

  /** Whitespace around a string does not change its trimmed form. */
  lemma TrimIgnoresPadding(p: string, s: string, q: string)
    requires AllSpace(p) && AllSpace(q)
    ensures Trim(p + s + q) == Trim(s)
  {
    var p', q' := TrimDecomposes(s);
    var c := Trim(s);
    AllSpaceConcat(p, p');
    AllSpaceConcat(q', q);
    Regroup(p, p', c, q', q);
    TrimOfPadded(p + p', c, q' + q);
  }
}
