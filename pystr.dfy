/**
 * The handful of Python `str` operations the two engines rely on, stated on
 * `seq<char>`: ASCII lower-casing, `startswith`, substring membership (`in`),
 * slicing from an index, `split` on one character, `join`, and one-character
 * `replace`.
 */
module PyStr {

  predicate IsUpperChar(c: char) {
    'A' <= c <= 'Z'
  }

  /** `c.lower()` for the ASCII letters; every other character is left alone. */
  function LowerChar(c: char): (r: char)
    ensures !IsUpperChar(r)
    ensures IsUpperChar(c) ==> r as int == c as int + 32
    ensures !IsUpperChar(c) ==> r == c
  {
    if IsUpperChar(c) then (c as int - 'A' as int + 'a' as int) as char else c
  }

  predicate HasNoUpper(s: string) {
    forall i :: 0 <= i < |s| ==> !IsUpperChar(s[i])
  }

  /** `s.lower()`, character by character. */
  function Lower(s: string): (r: string)
    ensures |r| == |s| && HasNoUpper(r)
    ensures forall i :: 0 <= i < |s| ==> r[i] == LowerChar(s[i])
  {
    seq(|s|, i requires 0 <= i < |s| => LowerChar(s[i]))
  }

  /** The extension of camera output lower-cases to the one both tools test for. */
  lemma LowerUpperJpg()
    ensures Lower(".JPG") == ".jpg"
  {
    assert Lower(".JPG")[1] == 'j' && Lower(".JPG")[2] == 'p' && Lower(".JPG")[3] == 'g';
  }

  /** Lower-casing a string that has no upper-case letter changes nothing. */
  lemma LowerOfLower(s: string)
    requires HasNoUpper(s)
    ensures Lower(s) == s
  {
    assert forall i :: 0 <= i < |s| ==> Lower(s)[i] == s[i];
  }

  /** `s.startswith(p)` */
  predicate StartsWith(s: string, p: string) {
    |p| <= |s| && s[..|p|] == p
  }

  /** `sub in s`: `sub` occurs in `s` at some position (the empty string occurs in every string). */
  predicate Contains(s: string, sub: string)
    decreases |s|
  {
    StartsWith(s, sub) || (s != [] && Contains(s[1..], sub))
  }

  /** Whatever occurs in `a` still occurs once something is appended to `a`. */
  lemma {:induction false} ContainsExtend(a: string, b: string, sub: string)
    requires Contains(a, sub)
    ensures Contains(a + b, sub)
  {
    if StartsWith(a, sub) {
      assert (a + b)[..|sub|] == a[..|sub|];
    } else {
      ContainsExtend(a[1..], b, sub);
      assert (a + b)[1..] == a[1..] + b;
    }
  }

  /** A string that `s` starts with occurs in `s`. */
  lemma StartsWithContains(s: string, p: string)
    requires StartsWith(s, p)
    ensures Contains(s, p)
  {
  }

  /** `s[n:]` for a non-negative `n`: past the end Python gives the empty string. */
  function Drop(s: string, n: nat): (r: string)
    ensures |r| == if n <= |s| then |s| - n else 0
    ensures forall i :: 0 <= i < |r| ==> r[i] == s[n + i]
  {
    if n <= |s| then s[n..] else []
  }

  /** `s.split(c)` for a one-character separator: the pieces between the separators, never an empty list. */
  function Split(s: string, c: char): (r: seq<string>)
    ensures |r| >= 1
  {
    if s == [] then [[]]
    else
      var rest := Split(s[1..], c);
      if s[0] == c then [[]] + rest else [[s[0]] + rest[0]] + rest[1..]
  }

  /** `sep.join(parts)` */
  function Join(sep: string, parts: seq<string>): string
  {
    if |parts| == 0 then []
    else if |parts| == 1 then parts[0]
    else parts[0] + sep + Join(sep, parts[1..])
  }

  /** `s.replace(c, d)` for one-character strings `c` and `d`. */
  function Replace(s: string, c: char, d: char): (r: string)
    ensures |r| == |s|
    ensures forall i :: 0 <= i < |s| ==> r[i] == (if s[i] == c then d else s[i])
  {
    seq(|s|, i requires 0 <= i < |s| => if s[i] == c then d else s[i])
  }

  /** Replacing distributes over concatenation. */
  lemma ReplaceAppend(x: string, y: string, c: char, d: char)
    ensures Replace(x + y, c, d) == Replace(x, c, d) + Replace(y, c, d)
  {
    var r := Replace(x, c, d) + Replace(y, c, d);
    assert forall i :: 0 <= i < |x + y| ==> Replace(x + y, c, d)[i] == r[i];
  }

  /** A string without `c` is left alone. */
  lemma ReplaceAbsent(s: string, c: char, d: char)
    requires c !in s
    ensures Replace(s, c, d) == s
  {
    assert forall i :: 0 <= i < |s| ==> Replace(s, c, d)[i] == s[i];
  }

  /** Replace can be computed from the front: one character, then the rest. */
  lemma ReplaceCons(s: string, c: char, d: char)
    requires s != []
    ensures Replace(s, c, d) == [if s[0] == c then d else s[0]] + Replace(s[1..], c, d)
  {
    var r := [if s[0] == c then d else s[0]] + Replace(s[1..], c, d);
    assert forall i :: 0 <= i < |s| ==> Replace(s, c, d)[i] == r[i];
  }

  /** Prepending to the first piece prepends to the joined string. */
  lemma JoinPrependFirst(sep: string, x: string, parts: seq<string>)
    requires |parts| >= 1
    ensures Join(sep, [x + parts[0]] + parts[1..]) == x + Join(sep, parts)
  {
    var ps := [x + parts[0]] + parts[1..];
    if |parts| > 1 {
      assert ps[1..] == parts[1..];
    }
  }

  /** Splitting on `c` and joining with `d` replaces every `c` by `d`. */
  lemma {:induction false} JoinSplitIsReplace(s: string, c: char, d: char)
    ensures Join([d], Split(s, c)) == Replace(s, c, d)
    decreases |s|
  {
    if s != [] {
      var rest := Split(s[1..], c);
      JoinSplitIsReplace(s[1..], c, d);
      ReplaceCons(s, c, d);
      if s[0] == c {
        assert Split(s, c) == [[]] + rest;
        assert ([[]] + rest)[1..] == rest;
      } else {
        JoinPrependFirst([d], [s[0]], rest);
      }
    }
  }

  /** Joining the pieces of a split with the separator gives back the string. */
  lemma SplitJoinRoundTrip(s: string, c: char)
    ensures Join([c], Split(s, c)) == s
  {
    JoinSplitIsReplace(s, c, c);
    assert Replace(s, c, c) == s;
  }

  /** Every character of a join comes from a part or from the separator. */
  lemma {:induction false} JoinKeeps(sep: string, parts: seq<string>, p: char -> bool)
    requires forall i :: 0 <= i < |sep| ==> p(sep[i])
    requires forall k, i :: 0 <= k < |parts| && 0 <= i < |parts[k]| ==> p(parts[k][i])
    ensures forall i :: 0 <= i < |Join(sep, parts)| ==> p(Join(sep, parts)[i])
    decreases |parts|
  {
    if |parts| > 1 {
      JoinKeeps(sep, parts[1..], p);
      var tail := Join(sep, parts[1..]);
      assert Join(sep, parts) == parts[0] + sep + tail;
      forall i | 0 <= i < |Join(sep, parts)|
        ensures p(Join(sep, parts)[i])
      {
        if i < |parts[0]| {
          assert Join(sep, parts)[i] == parts[0][i];
        } else if i < |parts[0]| + |sep| {
          assert Join(sep, parts)[i] == sep[i - |parts[0]|];
        } else {
          assert Join(sep, parts)[i] == tail[i - |parts[0]| - |sep|];
        }
      }
    } else if |parts| == 1 {
      assert Join(sep, parts) == parts[0];
    }
  }

  /** A piece without the separator, then the separator, then `y`: the piece comes first, then the pieces of `y`. */
  lemma {:induction false} SplitAfterPiece(x: string, y: string, c: char)
    requires c !in x
    ensures Split(x + [c] + y, c) == [x] + Split(y, c)
    decreases |x|
  {
    var z := x + [c] + y;
    if x == [] {
      assert z == [c] + y;
      assert z[1..] == y;
    } else {
      assert z[0] == x[0];
      assert z[1..] == x[1..] + [c] + y;
      assert c !in x[1..] by {
        forall i | 0 <= i < |x[1..]| ensures x[1..][i] != c { assert x[1..][i] == x[i + 1]; }
      }
      SplitAfterPiece(x[1..], y, c);
      var rest := Split(z[1..], c);
      assert rest == [x[1..]] + Split(y, c);
      assert Split(z, c) == [[x[0]] + rest[0]] + rest[1..];
      assert [x[0]] + x[1..] == x;
    }
  }

  /** A string without the separator is a single piece. */
  lemma {:induction false} SplitWithoutSeparator(s: string, c: char)
    requires c !in s
    ensures Split(s, c) == [s]
    decreases |s|
  {
    if s != [] {
      assert c !in s[1..] by {
        forall i | 0 <= i < |s[1..]| ensures s[1..][i] != c { assert s[1..][i] == s[i + 1]; }
      }
      SplitWithoutSeparator(s[1..], c);
      assert [s[0]] + s[1..] == s;
    }
  }
}
