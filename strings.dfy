/**
 * The string operations the uploader is built from: JavaScript's
 * `String.prototype.split` with a one-character separator and
 * `Array.prototype.join`, together with two reference definitions
 * (`RemoveAll`, `Before`) that say what `split`/`join` chains compute.
 */
module Strings {

  /** `s.split(sep)` for a one-character `sep`: the maximal runs between separators, in order.
      Like JavaScript, the result is never empty (`"".split(sep)` is `[""]`). */
  function Split(s: string, sep: char): (pieces: seq<string>)
    ensures |pieces| >= 1
    ensures forall i :: 0 <= i < |pieces| ==> sep !in pieces[i]
    decreases |s|
  {
    if s == [] then [[]]
    else
      var rest := Split(s[1..], sep);
      if s[0] == sep then [[]] + rest
      else [[s[0]] + rest[0]] + rest[1..]
  }

  /** `pieces.join(sep)`: the pieces with `sep` between each consecutive pair. */
  function Join(pieces: seq<string>, sep: string): (r: string)
    ensures |pieces| >= 1 ==> pieces[0] <= r
  {
    if |pieces| == 0 then []
    else if |pieces| == 1 then pieces[0]
    else pieces[0] + sep + Join(pieces[1..], sep)
  }

  /** The joined string ends with the last piece, and with the separator before it when there
      are at least two pieces. */
  lemma {:induction false} JoinLast(pieces: seq<string>, sep: string)
    requires |pieces| >= 1
    ensures Join(pieces, sep) == Join(pieces[..|pieces| - 1], sep) + (if |pieces| == 1 then [] else sep) + pieces[|pieces| - 1]
    decreases |pieces|
  {
    if |pieces| > 2 {
      JoinLast(pieces[1..], sep);
      assert pieces[1..][..|pieces| - 2] == pieces[..|pieces| - 1][1..];
    } else if |pieces| == 2 {
      assert pieces[..1][0] == pieces[0];
    }
  }

  /** Reference definition: `s` with every occurrence of `c` deleted, the rest kept in order. */
  function RemoveAll(s: string, c: char): (r: string)
    ensures c !in r
    ensures |r| <= |s|
  {
    if s == [] then []
    else (if s[0] == c then [] else [s[0]]) + RemoveAll(s[1..], c)
  }

  /** Reference definition: the longest prefix of `s` that does not contain `c`. */
  function Before(s: string, c: char): (r: string)
    ensures r <= s && c !in r
    ensures |r| < |s| ==> s[|r|] == c
  {
    if s == [] || s[0] == c then [] else [s[0]] + Before(s[1..], c)
  }

  /** Joining onto a first piece that starts with `x` puts `x` in front of the joined rest. */
  lemma JoinConsFirst(x: char, pieces: seq<string>, sep: string)
    requires |pieces| >= 1
    ensures Join([[x] + pieces[0]] + pieces[1..], sep) == [x] + Join(pieces, sep)
  {
    var lhs := [[x] + pieces[0]] + pieces[1..];
    assert lhs[1..] == pieces[1..];
  }

  /** Round trip: joining the pieces of a split with the same separator gives back the input. */
  lemma {:induction false} JoinSplit(s: string, sep: char)
    ensures Join(Split(s, sep), [sep]) == s
    decreases |s|
  {
    if s != [] {
      var rest := Split(s[1..], sep);
      JoinSplit(s[1..], sep);
      if s[0] == sep {
        assert ([[]] + rest)[1..] == rest;
      } else {
        JoinConsFirst(s[0], rest, [sep]);
      }
    }
  }

  /** `s.split(c).join('')` deletes every `c` from `s` and keeps everything else in order. */
  lemma {:induction false} JoinSplitRemovesAll(s: string, c: char)
    ensures Join(Split(s, c), []) == RemoveAll(s, c)
    decreases |s|
  {
    if s != [] {
      var rest := Split(s[1..], c);
      JoinSplitRemovesAll(s[1..], c);
      if s[0] == c {
        assert ([[]] + rest)[1..] == rest;
      } else {
        JoinConsFirst(s[0], rest, []);
      }
    }
  }

  /** `s.split(c)[0]` is the part of `s` before the first `c` (all of `s` if there is none). */
  lemma {:induction false} SplitFirstIsBefore(s: string, c: char)
    ensures Split(s, c)[0] == Before(s, c)
    decreases |s|
  {
    if s != [] && s[0] != c {
      SplitFirstIsBefore(s[1..], c);
    }
  }

  /** The three facts that characterise `Before` determine it. */
  lemma {:induction false} BeforeUnique(s: string, c: char, p: string)
    requires p <= s && c !in p
    requires |p| < |s| ==> s[|p|] == c
    ensures Before(s, c) == p
    decreases |s|
  {
    if s != [] && s[0] != c {
      assert p != [] && p[0] == s[0];
      BeforeUnique(s[1..], c, p[1..]);
    }
  }

  /** Deleting distributes over concatenation, so the order of the kept characters is unchanged. */
  lemma {:induction false} RemoveAllConcat(a: string, b: string, c: char)
    ensures RemoveAll(a + b, c) == RemoveAll(a, c) + RemoveAll(b, c)
    decreases |a|
  {
    if a != [] {
      assert (a + b)[1..] == a[1..] + b;
      RemoveAllConcat(a[1..], b, c);
    } else {
      assert a + b == b;
    }
  }

  /** A string without `c` is left as it is. */
  lemma {:induction false} RemoveAllAbsent(s: string, c: char)
    requires c !in s
    ensures RemoveAll(s, c) == s
    decreases |s|
  {
    if s != [] {
      RemoveAllAbsent(s[1..], c);
    }
  }

  /** Deleting never introduces a character. */
  lemma {:induction false} RemoveAllKeepsAbsent(s: string, c: char, x: char)
    requires x !in s
    ensures x !in RemoveAll(s, c)
    decreases |s|
  {
    if s != [] {
      RemoveAllKeepsAbsent(s[1..], c, x);
    }
  }

  /** Every character other than `c` occurs as often after the deletion as before. */
  lemma {:induction false} RemoveAllCounts(s: string, c: char, x: char)
    requires x != c
    ensures multiset(RemoveAll(s, c))[x] == multiset(s)[x]
    decreases |s|
  {
    if s != [] {
      RemoveAllCounts(s[1..], c, x);
      assert s == [s[0]] + s[1..];
      assert multiset(s) == multiset([s[0]]) + multiset(s[1..]);
    }
  }

  /** Taking the part before `c` and deleting another character `d` can be done in either order. */
  lemma {:induction false} BeforeRemoveAllCommute(s: string, c: char, d: char)
    requires c != d
    ensures Before(RemoveAll(s, d), c) == RemoveAll(Before(s, c), d)
    decreases |s|
  {
    if s != [] {
      BeforeRemoveAllCommute(s[1..], c, d);
      if s[0] == d {
        assert RemoveAll(s, d) == RemoveAll(s[1..], d);
      } else if s[0] == c {
        assert RemoveAll(s, d) == [s[0]] + RemoveAll(s[1..], d);
      } else {
        assert RemoveAll(s, d) == [s[0]] + RemoveAll(s[1..], d);
        assert ([s[0]] + RemoveAll(s[1..], d))[1..] == RemoveAll(s[1..], d);
      }
    }
  }
}
