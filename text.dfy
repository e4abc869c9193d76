/**
 * The string and path operations of the Python standard library that the
 * tools rely on, each written out with the semantics of its built-in:
 * `str.upper`/`str.lower` (on ASCII letters), `str.split` with a one-character
 * separator, `sep.join`, the `in` substring test, space padding, `os.path.basename` and
 * POSIX `os.path.join`.
 */
module Text {

  // ---------------------------------------------------------------------------
  // Case mapping
  // ---------------------------------------------------------------------------

  function UpperChar(c: char): char {
    if 'a' <= c <= 'z' then (c as int - 32) as char else c
  }

  function LowerChar(c: char): char {
    if 'A' <= c <= 'Z' then (c as int + 32) as char else c
  }

  /** `s.upper()` on ASCII letters; every other character is kept. */
  function Upper(s: string): string {
    seq(|s|, i requires 0 <= i < |s| => UpperChar(s[i]))
  }

  /** `s.lower()` on ASCII letters; every other character is kept. */
  function Lower(s: string): string {
    seq(|s|, i requires 0 <= i < |s| => LowerChar(s[i]))
  }

  /** Lower-casing twice is lower-casing once, so every lower-cased name is its own lower case. */
  lemma LowerIdempotent(s: string)
    ensures Lower(Lower(s)) == Lower(s)
  {
    assert forall i :: 0 <= i < |s| ==> LowerChar(LowerChar(s[i])) == LowerChar(s[i]);
  }

  // ---------------------------------------------------------------------------
  // Splitting and joining
  // ---------------------------------------------------------------------------

  /**
   * `s.split(c)`: the pieces between the occurrences of `c`, in order. There
   * is always at least one piece; the empty string splits into `[""]`.
   */
  function Split(s: string, c: char): (r: seq<string>)
    ensures |r| >= 1
  {
    if s == [] then [[]]
    else
      var rest := Split(s[1..], c);
      if s[0] == c then [[]] + rest else [[s[0]] + rest[0]] + rest[1..]
  }

  /** `sep.join(xs)`: the pieces with `sep` between consecutive ones. */
  function Join(xs: seq<string>, sep: string): string {
    if xs == [] then []
    else if |xs| == 1 then xs[0]
    else xs[0] + sep + Join(xs[1..], sep)
  }

  /** A string with `k` occurrences of `c` splits into `k + 1` pieces, none holding `c`. */
  lemma {:induction false} SplitCount(s: string, c: char)
    ensures |Split(s, c)| == multiset(s)[c] + 1
    ensures forall p :: p in Split(s, c) ==> c !in p
  {
    if s != [] {
      SplitCount(s[1..], c);
      assert s == [s[0]] + s[1..];
      assert multiset(s) == multiset{s[0]} + multiset(s[1..]);
    }
  }

  /** Joining the pieces again with the separator gives back the string. */
  lemma {:induction false} JoinSplit(s: string, c: char)
    ensures Join(Split(s, c), [c]) == s
  {
    if s != [] {
      var rest := Split(s[1..], c);
      JoinSplit(s[1..], c);
      if s[0] == c {
        assert Split(s, c) == [[]] + rest;
        assert s == [] + [c] + Join(rest, [c]);
      } else if |rest| == 1 {
        assert Split(s, c) == [[s[0]] + rest[0]];
      } else {
        var tail := rest[1..];
        assert Split(s, c) == [[s[0]] + rest[0]] + tail;
        assert Join(rest, [c]) == rest[0] + [c] + Join(tail, [c]);
        assert ([[s[0]] + rest[0]] + tail)[1..] == tail;
      }
    }
  }

  /** A string without the separator is a single piece. */
  lemma {:induction false} SplitNoSeparator(s: string, c: char)
    requires c !in s
    ensures Split(s, c) == [s]
  {
    if s != [] {
      SplitNoSeparator(s[1..], c);
      assert s == [s[0]] + s[1..];
    }
  }

  /** A leading piece without the separator, then the separator, splits off as the first piece. */
  lemma {:induction false} SplitAfterPiece(x: string, c: char, t: string)
    requires c !in x
    ensures Split(x + [c] + t, c) == [x] + Split(t, c)
  {
    if x == [] {
      assert x + [c] + t == [c] + t;
      assert ([c] + t)[1..] == t;
    } else {
      var s := x + [c] + t;
      assert s[0] == x[0] && s[1..] == x[1..] + [c] + t;
      SplitAfterPiece(x[1..], c, t);
      assert [x[0]] + x[1..] == x;
    }
  }

  /** Splitting a join of separator-free pieces gives the pieces back. */
  lemma {:induction false} SplitJoin(xs: seq<string>, c: char)
    requires |xs| >= 1
    requires forall x :: x in xs ==> c !in x
    ensures Split(Join(xs, [c]), c) == xs
  {
    if |xs| == 1 {
      SplitNoSeparator(xs[0], c);
    } else {
      SplitJoin(xs[1..], c);
      SplitAfterPiece(xs[0], c, Join(xs[1..], [c]));
      assert xs == [xs[0]] + xs[1..];
    }
  }

  // ---------------------------------------------------------------------------
  // Substrings, prefixes, padding
  // ---------------------------------------------------------------------------

  /** Python's `t in s` for strings: `t` occurs somewhere in `s`. */
  predicate HasSubstring(s: string, t: string)
    decreases |s|
  {
    if |s| < |t| then false else s[..|t|] == t || HasSubstring(s[1..], t)
  }

  /** `t` occurs in `s` starting at position `i`. */
  predicate OccursAt(s: string, t: string, i: int) {
    0 <= i <= |s| - |t| && s[i..i + |t|] == t
  }

  /** The recursive test agrees with "there is a position where `t` starts". */
  lemma {:induction false} HasSubstringIff(s: string, t: string)
    ensures HasSubstring(s, t) <==> exists i :: OccursAt(s, t, i)
    decreases |s|
  {
    if |s| >= |t| {
      if s[..|t|] == t {
        assert OccursAt(s, t, 0);
      }
      if |s| > 0 {
        HasSubstringIff(s[1..], t);
        if HasSubstring(s[1..], t) {
          var j :| OccursAt(s[1..], t, j);
          assert s[j + 1..j + 1 + |t|] == s[1..][j..j + |t|];
          assert OccursAt(s, t, j + 1);
        }
        if exists i :: OccursAt(s, t, i) {
          var i :| OccursAt(s, t, i);
          if i > 0 {
            assert s[1..][i - 1..i - 1 + |t|] == s[i..i + |t|];
            assert OccursAt(s[1..], t, i - 1);
          }
        }
      }
    } else {
      assert forall i :: !OccursAt(s, t, i);
    }
  }

  /**
   * Wrapping a string in brackets neither adds nor hides a `--`: the brackets
   * are not dashes, so `"--" in "[" + o + "]"` exactly when `"--" in o`.
   */
  lemma BracketsKeepDoubleDash(o: string)
    ensures HasSubstring("[" + o + "]", "--") <==> HasSubstring(o, "--")
  {
    var b := "[" + o + "]";
    HasSubstringIff(b, "--");
    HasSubstringIff(o, "--");
    if exists i :: OccursAt(b, "--", i) {
      var i :| OccursAt(b, "--", i);
      assert b[i] == b[i..i + 2][0] == '-';
      assert b[i + 1] == b[i..i + 2][1] == '-';
      assert 1 <= i && i + 2 <= |b| - 1;
      assert o[i - 1..i + 1] == b[i..i + 2];
      assert OccursAt(o, "--", i - 1);
    }
    if exists i :: OccursAt(o, "--", i) {
      var i :| OccursAt(o, "--", i);
      assert b[i + 1..i + 3] == o[i..i + 2];
      assert OccursAt(b, "--", i + 1);
    }
  }

  /** `s.startswith(p)`. */
  predicate StartsWith(s: string, p: string) {
    |p| <= |s| && s[..|p|] == p
  }

  /** A string of `n` spaces. */
  function Spaces(n: nat): (r: string)
    ensures |r| == n
    ensures forall i :: 0 <= i < n ==> r[i] == ' '
  {
    seq(n, _ => ' ')
  }

  // ---------------------------------------------------------------------------
  // POSIX paths
  // ---------------------------------------------------------------------------

  /** `os.path.basename(p)`: everything after the last '/', all of `p` when it has none. */
  function Basename(p: string): (r: string)
    ensures |r| <= |p| && '/' !in r
  {
    if p == [] || p[|p| - 1] == '/' then []
    else Basename(p[..|p| - 1]) + [p[|p| - 1]]
  }

  /**
   * The base name is the longest suffix without a '/': it is a suffix of the
   * path, and the character just before it, if any, is a '/'.
   */
  lemma {:induction false} BasenameIsLastComponent(p: string)
    ensures Basename(p) == p[|p| - |Basename(p)|..]
    ensures |Basename(p)| < |p| ==> p[|p| - |Basename(p)| - 1] == '/'
  {
    if p != [] && p[|p| - 1] != '/' {
      var init := p[..|p| - 1];
      BasenameIsLastComponent(init);
      var b := Basename(init);
      assert init[|init| - |b|..] + [p[|p| - 1]] == p[|p| - |b| - 1..];
    }
  }

  /**
   * `os.path.join(a, b)` on POSIX: an absolute `b` replaces `a`; otherwise
   * `b` is appended, with a '/' in between unless `a` is empty or already
   * ends with one.
   */
  function PathJoin(a: string, b: string): string {
    if StartsWith(b, "/") then b
    else if a == [] || a[|a| - 1] == '/' then a + b
    else a + "/" + b
  }
}
