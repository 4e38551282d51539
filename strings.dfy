/** The few operations of Rust's `str` that the builder relies on, over `seq<char>`:
    `starts_with`, `contains`, `replace` and ASCII lower-casing. */
module Strings {

  /** `s.starts_with(p)` */
  predicate StartsWith(s: string, p: string) {
    |p| <= |s| && s[..|p|] == p
  }

  /** `s.contains(p)`: `p` occurs at some position of `s`. */
  predicate Occurs(s: string, p: string)
    decreases |s|
  {
    StartsWith(s, p) || (|s| > 0 && Occurs(s[1..], p))
  }

  /** `p` is the slice of `s` that starts at index `i`. */
  predicate SliceAt(s: string, p: string, i: int) {
    0 <= i && i + |p| <= |s| && s[i..i + |p|] == p
  }

  /** `contains` by position: `p` occurs in `s` exactly when it is the slice of
      `s` at some index. */
  lemma OccursAt(s: string, p: string)
    ensures Occurs(s, p) <==> exists i :: SliceAt(s, p, i)
  {
    if Occurs(s, p) {
      var i := OccursIndex(s, p);
    }
    forall i | SliceAt(s, p, i)
      ensures Occurs(s, p)
    {
      IndexOccurs(s, p, i);
    }
  }

  lemma {:induction false} OccursIndex(s: string, p: string) returns (i: nat)
    requires Occurs(s, p)
    ensures SliceAt(s, p, i)
    decreases |s|
  {
    if StartsWith(s, p) {
      i := 0;
      assert s[0..|p|] == s[..|p|];
    } else {
      var j := OccursIndex(s[1..], p);
      i := j + 1;
      assert s[1..][j..j + |p|] == s[i..i + |p|];
    }
  }

  lemma {:induction false} IndexOccurs(s: string, p: string, i: int)
    requires SliceAt(s, p, i)
    ensures Occurs(s, p)
    decreases i
  {
    if i == 0 {
      assert s[..|p|] == s[0..|p|];
    } else {
      assert s[1..][i - 1..i - 1 + |p|] == s[i..i + |p|];
      IndexOccurs(s[1..], p, i - 1);
    }
  }

  /** `s.replace(p, r)`: scans left to right and replaces every non-overlapping
      occurrence of the (non-empty) pattern `p` by `r`, in one pass; text produced
      by a replacement is never scanned again. */
  function ReplaceAll(s: string, p: string, r: string): (res: string)
    requires |p| > 0
    ensures !Occurs(s, p) ==> res == s
    decreases |s|
  {
    if |s| == 0 then []
    else if StartsWith(s, p) then r + ReplaceAll(s[|p|..], p, r)
    else [s[0]] + ReplaceAll(s[1..], p, r)
  }

  /** ASCII lower-casing of one character (`char::to_ascii_lowercase`). */
  function LowerChar(c: char): (d: char)
    ensures ('A' <= c <= 'Z') == (d != c)
    ensures 'A' <= c <= 'Z' ==> 'a' <= d <= 'z'
  {
    if 'A' <= c <= 'Z' then (c as int - 'A' as int + 'a' as int) as char else c
  }

  /** ASCII lower-casing of a string, character by character. */
  function Lower(s: string): (t: string)
    ensures |t| == |s|
    ensures forall i :: 0 <= i < |s| ==> t[i] == LowerChar(s[i])
  {
    seq(|s|, i requires 0 <= i < |s| => LowerChar(s[i]))
  }

  /** A string that occurs in `s` is no longer than `s`. */
  lemma {:induction false} OccursLength(s: string, p: string)
    ensures Occurs(s, p) ==> |p| <= |s|
    decreases |s|
  {
    if |s| > 0 { OccursLength(s[1..], p); }
  }

  /** A string that occurs in `s` starts with a character of `s`. */
  lemma {:induction false} OccursFirstChar(s: string, p: string)
    requires |p| > 0 && Occurs(s, p)
    ensures p[0] in s
    decreases |s|
  {
    if StartsWith(s, p) {
      assert s[0] == s[..|p|][0];
    } else {
      OccursFirstChar(s[1..], p);
    }
  }

  /** A one-character pattern occurs exactly when the character is present. */
  lemma {:induction false} OccursChar(s: string, c: char)
    ensures Occurs(s, [c]) <==> c in s
    decreases |s|
  {
    if |s| > 0 {
      OccursChar(s[1..], c);
      assert s == [s[0]] + s[1..];
    }
  }

  /** A prefix none of whose characters can start the pattern passes through
      `replace` untouched. */
  lemma {:induction false} ReplacePassesPrefix(a: string, x: string, p: string, r: string)
    requires |p| > 0 && p[0] !in a
    ensures ReplaceAll(a + x, p, r) == a + ReplaceAll(x, p, r)
    decreases |a|
  {
    if |a| > 0 {
      assert (a + x)[0] == a[0];
      assert (a + x)[1..] == a[1..] + x;
      ReplacePassesPrefix(a[1..], x, p, r);
    } else {
      assert a + x == x;
    }
  }

  /** A character that is neither in the text nor in the replacement does not
      appear in the result of `replace`. */
  lemma {:induction false} ReplaceKeepsAbsent(s: string, p: string, r: string, c: char)
    requires |p| > 0 && c !in s && c !in r
    ensures c !in ReplaceAll(s, p, r)
    decreases |s|
  {
    if |s| > 0 {
      if StartsWith(s, p) {
        ReplaceKeepsAbsent(s[|p|..], p, r, c);
      } else {
        ReplaceKeepsAbsent(s[1..], p, r, c);
      }
    }
  }

  /** Replacing a one-character pattern by a string without that character
      removes every occurrence of it. */
  lemma {:induction false} ReplaceCharRemoves(s: string, c: char, r: string)
    requires c !in r
    ensures c !in ReplaceAll(s, [c], r)
    decreases |s|
  {
    if |s| > 0 {
      if StartsWith(s, [c]) {
        ReplaceCharRemoves(s[1..], c, r);
      } else {
        assert s[0] != c;
        ReplaceCharRemoves(s[1..], c, r);
      }
    }
  }

  /** With a one-character pattern no occurrence can straddle a cut, so
      `replace` distributes over concatenation. */
  lemma {:induction false} ReplaceCharConcat(a: string, b: string, c: char, r: string)
    ensures ReplaceAll(a + b, [c], r) == ReplaceAll(a, [c], r) + ReplaceAll(b, [c], r)
    decreases |a|
  {
    if |a| == 0 {
      assert a + b == b;
    } else {
      var head := if a[0] == c then r else [a[0]];
      ReplaceCharHead(a + b, c, r);
      ReplaceCharHead(a, c, r);
      assert (a + b)[1..] == a[1..] + b;
      ReplaceCharConcat(a[1..], b, c, r);
      Assoc(head, ReplaceAll(a[1..], [c], r), ReplaceAll(b, [c], r));
    }
  }

  /** Concatenation is associative; stated once so that callers need not
      prove it element by element. */
  lemma Assoc(x: string, y: string, z: string)
    ensures x + (y + z) == x + y + z
  {
  }

  /** A text is its first character followed by the rest. */
  lemma SplitHead(s: string)
    requires |s| > 0
    ensures s == [s[0]] + s[1..]
  {
  }

  lemma AppendEmpty(s: string)
    ensures s + [] == s
  {
  }

  /** A text is its prefix followed by the rest. */
  lemma SplitAt(s: string, n: nat)
    requires n <= |s|
    ensures s == s[..n] + s[n..]
  {
  }

  /** `replace` skips a first character at which the pattern does not start. */
  lemma ReplaceSkip(c: char, y: string, p: string, r: string)
    requires |p| > 0 && !StartsWith([c] + y, p)
    ensures ReplaceAll([c] + y, p, r) == [c] + ReplaceAll(y, p, r)
  {
    assert ([c] + y)[1..] == y;
  }

  /** `replace` with a one-character pattern, on its first character. */
  lemma ReplaceCharHead(s: string, c: char, r: string)
    requires |s| > 0
    ensures ReplaceAll(s, [c], r) == (if s[0] == c then r else [s[0]]) + ReplaceAll(s[1..], [c], r)
  {
    assert StartsWith(s, [c]) <==> s[0] == c;
  }

  /** A text that starts with `p` starts with every prefix of `p`. */
  lemma StartsWithPrefix(s: string, p: string, q: string)
    requires StartsWith(s, p) && StartsWith(p, q)
    ensures StartsWith(s, q)
  {
    assert s[..|q|] == s[..|p|][..|q|];
  }

  /** Appending keeps a prefix. */
  lemma StartsWithAppend(a: string, b: string, q: string)
    requires StartsWith(a, q)
    ensures StartsWith(a + b, q)
  {
    assert (a + b)[..|q|] == a[..|q|];
  }

  /** A text ending in `p` contains `p`. */
  lemma {:induction false} OccursSuffix(a: string, p: string)
    ensures Occurs(a + p, p)
    decreases |a|
  {
    if |a| == 0 {
      assert a + p == p;
      assert StartsWith(p, p);
    } else {
      assert (a + p)[1..] == a[1..] + p;
      OccursSuffix(a[1..], p);
    }
  }

  /** Whatever contains `p` contains every prefix of `p`. */
  lemma {:induction false} OccursPrefix(s: string, p: string, q: string)
    requires Occurs(s, p) && StartsWith(p, q)
    ensures Occurs(s, q)
    decreases |s|
  {
    if StartsWith(s, p) {
      assert s[..|q|] == s[..|p|][..|q|];
    } else {
      OccursPrefix(s[1..], p, q);
    }
  }

  /** The number of occurrences of `c` in `s`. */
  function Count(s: string, c: char): nat
    decreases |s|
  {
    if |s| == 0 then 0 else (if s[0] == c then 1 else 0) + Count(s[1..], c)
  }

  lemma {:induction false} CountConcat(a: string, b: string, c: char)
    ensures Count(a + b, c) == Count(a, c) + Count(b, c)
    decreases |a|
  {
    if |a| == 0 {
      assert a + b == b;
    } else {
      assert (a + b)[1..] == a[1..] + b;
      CountConcat(a[1..], b, c);
    }
  }

  lemma {:induction false} CountAbsent(s: string, c: char)
    requires c !in s
    ensures Count(s, c) == 0
    decreases |s|
  {
    if |s| > 0 {
      assert s[0] != c;
      assert forall i :: 0 <= i < |s| - 1 ==> s[1..][i] == s[i + 1];
      CountAbsent(s[1..], c);
    }
  }

  /** When the pattern starts with `c` and the replacement lacks it, `replace`
      never adds a `c`, and removes at least one whenever the pattern occurs. */
  lemma {:induction false} ReplaceReducesCount(x: string, p: string, r: string, c: char)
    requires |p| > 0 && p[0] == c && c !in r
    ensures Count(ReplaceAll(x, p, r), c) <= Count(x, c)
    ensures Occurs(x, p) ==> Count(ReplaceAll(x, p, r), c) < Count(x, c)
    decreases |x|
  {
    if |x| > 0 {
      if StartsWith(x, p) {
        var rest := x[|p|..];
        var y := ReplaceAll(rest, p, r);
        ReplaceReducesCount(rest, p, r, c);
        assert ReplaceAll(x, p, r) == r + y;
        CountConcat(r, y, c);
        CountAbsent(r, c);
        assert x[0] == c;
        assert x[1..] == x[1..|p|] + rest;
        CountConcat(x[1..|p|], rest, c);
      } else {
        var y := ReplaceAll(x[1..], p, r);
        ReplaceReducesCount(x[1..], p, r, c);
        assert ReplaceAll(x, p, r) == [x[0]] + y;
        assert ([x[0]] + y)[1..] == y;
      }
    }
  }

  /** ASCII lower-casing is idempotent. */
  lemma LowerIdempotent(s: string)
    ensures Lower(Lower(s)) == Lower(s)
  {
  }

  /** ASCII lower-casing distributes over concatenation. */
  lemma LowerConcat(a: string, b: string)
    ensures Lower(a + b) == Lower(a) + Lower(b)
  {
  }

  /** ASCII lower-casing never creates or removes a character outside 'A'..'Z'
      and 'a'..'z'. */
  lemma LowerKeepsNonLetter(s: string, c: char)
    requires !('A' <= c <= 'Z') && !('a' <= c <= 'z')
    ensures c in Lower(s) <==> c in s
  {
    if c in s {
      var i :| 0 <= i < |s| && s[i] == c;
      assert Lower(s)[i] == c;
    }
    if c in Lower(s) {
      var i :| 0 <= i < |s| && Lower(s)[i] == c;
      assert s[i] == c;
    }
  }
}
