/**
 * The handful of Go `strings` operations the chat client relies on, over
 * `string` (a sequence of Unicode scalar values):
 *  - `TrimSpace` (used on every input line and every prompt answer),
 *  - `Split` on a one-character separator (used to split `/config` lines),
 *  - `Contains` (used by the warning check),
 *  - `ToLower`, restricted to ASCII letters.
 */
module GoStrings {

  /** Go's `unicode.IsSpace`: the Latin-1 spaces plus the Unicode White_Space
      code points above Latin-1. */
  predicate IsSpace(c: char)
  {
    c in SpaceChars
  }

  /** The white-space characters of `unicode.IsSpace`, one by one. */
  const SpaceChars: set<char> :=
    {' ', '\t', '\n', '\r', '\U{0B}', '\U{0C}', '\U{85}', '\U{A0}', '\U{1680}',
     '\U{2000}', '\U{2001}', '\U{2002}', '\U{2003}', '\U{2004}', '\U{2005}',
     '\U{2006}', '\U{2007}', '\U{2008}', '\U{2009}', '\U{200A}',
     '\U{2028}', '\U{2029}', '\U{202F}', '\U{205F}', '\U{3000}'}

  /** True when every character of `s` is white space (so `TrimSpace(s)` is empty). */
  predicate Blank(s: string)
  {
    forall k :: 0 <= k < |s| ==> IsSpace(s[k])
  }

  /** The end of the run of white space that starts at `i`. */
  function SpaceRunFrom(s: string, i: nat): (n: nat)
    requires i <= |s|
    ensures i <= n <= |s|
    ensures forall k :: i <= k < n ==> IsSpace(s[k])
    ensures n == |s| || !IsSpace(s[n])
    decreases |s| - i
  {
    if i < |s| && IsSpace(s[i]) then SpaceRunFrom(s, i + 1) else i
  }

  /** The start of the run of white space that ends at `j`, going back no
      further than `lo`. */
  function SpaceRunBefore(s: string, lo: nat, j: nat): (m: nat)
    requires lo <= j <= |s|
    ensures lo <= m <= j
    ensures forall k :: m <= k < j ==> IsSpace(s[k])
    ensures m == lo || !IsSpace(s[m - 1])
    decreases j
  {
    if lo < j && IsSpace(s[j - 1]) then SpaceRunBefore(s, lo, j - 1) else j
  }

  /** Go's `strings.TrimSpace`: the slice of `s` left once the white space at
      both ends is removed. What is removed is all white space, the result
      neither starts nor ends with white space, and it is empty exactly when
      `s` is all white space. */
  function TrimSpace(s: string): (r: string)
    ensures var l := SpaceRunFrom(s, 0);
      l + |r| <= |s| && r == s[l..l + |r|]
      && (forall k :: 0 <= k < l ==> IsSpace(s[k]))
      && (forall k :: l + |r| <= k < |s| ==> IsSpace(s[k]))
    ensures r == [] || (!IsSpace(r[0]) && !IsSpace(r[|r| - 1]))
    ensures r == [] <==> Blank(s)
  {
    var l := SpaceRunFrom(s, 0);
    s[l..SpaceRunBefore(s, l, |s|)]
  }

  /** A string with no white space at either end is its own trimming. */
  lemma TrimSpaceOfTrimmed(s: string)
    requires s == [] || (!IsSpace(s[0]) && !IsSpace(s[|s| - 1]))
    ensures TrimSpace(s) == s
  {
    assert SpaceRunFrom(s, 0) == 0;
    assert SpaceRunBefore(s, 0, |s|) == |s|;
  }

  /** Trimming twice is trimming once. */
  lemma TrimSpaceIdempotent(s: string)
    ensures TrimSpace(TrimSpace(s)) == TrimSpace(s)
  {
    TrimSpaceOfTrimmed(TrimSpace(s));
  }

  /** Go's `strings.TrimPrefix`. */
  function TrimPrefix(s: string, prefix: string): (r: string)
    ensures prefix <= s ==> s == prefix + r
    ensures !(prefix <= s) ==> r == s
  {
    if prefix <= s then s[|prefix|..] else s
  }

  /** Go's `strings.Split(s, string(sep))`: the pieces of `s` between the
      occurrences of `sep`, always at least one piece, none containing `sep`. */
  function Split(s: string, sep: char): (r: seq<string>)
    ensures |r| >= 1
    ensures forall i :: 0 <= i < |r| ==> sep !in r[i]
    decreases |s|
  {
    if s == [] then [[]]
    else if s[0] == sep then [[]] + Split(s[1..], sep)
    else
      var rest := Split(s[1..], sep);
      [[s[0]] + rest[0]] + rest[1..]
  }

  /** Go's `strings.Join(parts, string(sep))`. */
  function Join(parts: seq<string>, sep: char): string
    requires |parts| >= 1
    decreases |parts|
  {
    if |parts| == 1 then parts[0] else parts[0] + [sep] + Join(parts[1..], sep)
  }

  /** Joining the pieces back with the separator gives the original string. */
  lemma {:induction false} JoinSplit(s: string, sep: char)
    ensures Join(Split(s, sep), sep) == s
    decreases |s|
  {
    if s == [] {
    } else if s[0] == sep {
      JoinSplit(s[1..], sep);
      assert s == [sep] + s[1..];
    } else {
      var rest := Split(s[1..], sep);
      JoinSplit(s[1..], sep);
      if |rest| == 1 {
        assert Split(s, sep) == [[s[0]] + rest[0]];
      } else {
        assert Split(s, sep) == [[s[0]] + rest[0]] + rest[1..];
        assert Join(rest, sep) == rest[0] + [sep] + Join(rest[1..], sep);
        assert ([[s[0]] + rest[0]] + rest[1..])[1..] == rest[1..];
      }
      assert s == [s[0]] + s[1..];
    }
  }

  /** A string without the separator is a single piece. */
  lemma {:induction false} SplitWithoutSeparator(w: string, sep: char)
    requires sep !in w
    ensures Split(w, sep) == [w]
    decreases |w|
  {
    if w != [] {
      SplitWithoutSeparator(w[1..], sep);
      assert w == [w[0]] + w[1..];
    }
  }

  /** A leading piece free of the separator, then the separator, splits off. */
  lemma {:induction false} SplitAtSeparator(w: string, sep: char, t: string)
    requires sep !in w
    ensures Split(w + [sep] + t, sep) == [w] + Split(t, sep)
    decreases |w|
  {
    if w == [] {
      assert [] + [sep] + t == [sep] + t;
      assert ([sep] + t)[1..] == t;
    } else {
      SplitAtSeparator(w[1..], sep, t);
      assert (w + [sep] + t)[1..] == w[1..] + [sep] + t;
      assert w == [w[0]] + w[1..];
    }
  }

  /** Splitting a join of separator-free pieces gives the pieces back. */
  lemma {:induction false} SplitJoin(parts: seq<string>, sep: char)
    requires |parts| >= 1
    requires forall i :: 0 <= i < |parts| ==> sep !in parts[i]
    ensures Split(Join(parts, sep), sep) == parts
    decreases |parts|
  {
    if |parts| == 1 {
      SplitWithoutSeparator(parts[0], sep);
    } else {
      SplitJoin(parts[1..], sep);
      SplitAtSeparator(parts[0], sep, Join(parts[1..], sep));
      assert parts == [parts[0]] + parts[1..];
    }
  }

  /** Go's `strings.Contains`: `sub` occurs somewhere in `s`. */
  predicate Contains(s: string, sub: string)
    decreases |s|
  {
    sub <= s || (s != [] && Contains(s[1..], sub))
  }

  /** `sub` sits in `s` starting at position `i`. */
  predicate OccursAt(s: string, sub: string, i: int)
  {
    0 <= i && i + |sub| <= |s| && s[i..i + |sub|] == sub
  }

  /** `Contains` holds exactly when `sub` sits at some position of `s`. */
  lemma {:induction false} ContainsAt(s: string, sub: string)
    ensures Contains(s, sub) <==> exists i :: OccursAt(s, sub, i)
    decreases |s|
  {
    if s == [] {
      if Contains(s, sub) {
        assert OccursAt(s, sub, 0);
      }
    } else {
      ContainsAt(s[1..], sub);
      if sub <= s {
        assert OccursAt(s, sub, 0);
      } else if Contains(s[1..], sub) {
        var i :| OccursAt(s[1..], sub, i);
        assert OccursAt(s, sub, i + 1);
      }
      if i :| OccursAt(s, sub, i) {
        if i == 0 {
          assert sub <= s;
        } else {
          assert OccursAt(s[1..], sub, i - 1);
        }
      }
    }
  }

  /** ASCII lower-casing of one character; every other character is kept. */
  function LowerChar(c: char): char
  {
    if 'A' <= c <= 'Z' then (c as int + 32) as char else c
  }

  /** `strings.ToLower`, restricted to ASCII letters: character by character. */
  function ToLower(s: string): (r: string)
    ensures |r| == |s|
    ensures forall i :: 0 <= i < |s| ==> r[i] == LowerChar(s[i])
  {
    seq(|s|, i requires 0 <= i < |s| => LowerChar(s[i]))
  }

  /** Lower-casing commutes with taking a slice. */
  lemma ToLowerSlice(s: string, i: int, j: int)
    requires 0 <= i <= j <= |s|
    ensures ToLower(s)[i..j] == ToLower(s[i..j])
  {
    var a := ToLower(s)[i..j];
    var b := ToLower(s[i..j]);
    assert |a| == |b| == j - i;
    forall k | 0 <= k < j - i
      ensures a[k] == b[k]
    {
      assert a[k] == ToLower(s)[i + k] == LowerChar(s[i + k]);
      assert b[k] == LowerChar(s[i..j][k]);
    }
    assert a == b;
  }

  /** `ToLower(s)` contains `sub` exactly when some slice of `s` lower-cases to `sub`. */
  lemma ContainsLower(s: string, sub: string)
    ensures Contains(ToLower(s), sub) <==> exists i :: LowersTo(s, sub, i)
  {
    ContainsAt(ToLower(s), sub);
    if Contains(ToLower(s), sub) {
      var i :| OccursAt(ToLower(s), sub, i);
      ToLowerSlice(s, i, i + |sub|);
      assert LowersTo(s, sub, i);
    }
    if i :| LowersTo(s, sub, i) {
      ToLowerSlice(s, i, i + |sub|);
      assert OccursAt(ToLower(s), sub, i);
    }
  }

  /** The slice of `s` at position `i` of the length of `sub` lower-cases to `sub`. */
  predicate LowersTo(s: string, sub: string, i: int)
  {
    0 <= i && i + |sub| <= |s| && ToLower(s[i..i + |sub|]) == sub
  }
}
