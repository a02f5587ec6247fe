/**
 * Case-insensitive substring search, the `icontains` lookup the buyer
 * dashboard uses. Case folding is ASCII only: `A`-`Z` map to `a`-`z` and
 * every other character is left as it is.
 */
module Text {

  function LowerChar(c: char): char {
    if 'A' <= c <= 'Z' then (c as int - 'A' as int + 'a' as int) as char else c
  }

  predicate IsUpper(c: char) {
    'A' <= c <= 'Z'
  }

  /** `s` with every ASCII capital replaced by its small letter. */
  function Lower(s: string): (r: string)
    ensures |r| == |s|
    ensures forall i :: 0 <= i < |s| ==> r[i] == LowerChar(s[i])
    ensures forall i :: 0 <= i < |r| ==> !IsUpper(r[i])
  {
    seq(|s|, i requires 0 <= i < |s| => LowerChar(s[i]))
  }

  /** `n` occurs in `h` starting at position `i`. */
  ghost predicate OccursAt(n: string, h: string, i: int) {
    0 <= i && i + |n| <= |h| && h[i..i + |n|] == n
  }

  /** `n` occurs somewhere in `h`. */
  ghost predicate Occurs(n: string, h: string) {
    exists i :: OccursAt(n, h, i)
  }

  /** Case-sensitive substring test by scanning every start position. */
  function Contains(h: string, n: string): (b: bool)
    ensures b <==> Occurs(n, h)
    decreases |h|
  {
    if |n| <= |h| && h[..|n|] == n then
      assert OccursAt(n, h, 0);
      true
    else if |h| == 0 then
      assert forall i :: !OccursAt(n, h, i);
      false
    else
      var tail := Contains(h[1..], n);
      assert tail ==> Occurs(n, h) by {
        if tail {
          var i :| OccursAt(n, h[1..], i);
          assert h[1..][i..i + |n|] == h[i + 1..i + 1 + |n|];
          assert OccursAt(n, h, i + 1);
        }
      }
      assert Occurs(n, h) ==> tail by {
        if Occurs(n, h) {
          var i :| OccursAt(n, h, i);
          assert i != 0;
          assert h[1..][i - 1..i - 1 + |n|] == h[i..i + |n|];
          assert OccursAt(n, h[1..], i - 1);
        }
      }
      tail
  }

  /** Substring test ignoring ASCII case, as `icontains` does. */
  function IContains(h: string, n: string): bool {
    Contains(Lower(h), Lower(n))
  }

  lemma LowerIdempotent(s: string)
    ensures Lower(Lower(s)) == Lower(s)
  {
  }

  /**
   * Matching ignores the case of both the text and the query: folding either
   * of them first gives the same answer.
   */
  lemma IContainsIgnoresCase(h: string, n: string)
    ensures IContains(Lower(h), n) == IContains(h, n)
    ensures IContains(h, Lower(n)) == IContains(h, n)
  {
    LowerIdempotent(h);
    LowerIdempotent(n);
  }

  /** Every string contains the empty query. */
  lemma EmptyQueryMatches(h: string)
    ensures IContains(h, "")
  {
  }

  /** Code-point lexicographic order: `a` is a prefix of `b` or is smaller at the first difference. */
  predicate LexLe(a: string, b: string)
    decreases |a|
  {
    |a| == 0 || (|b| > 0 && (a[0] < b[0] || (a[0] == b[0] && LexLe(a[1..], b[1..]))))
  }

  lemma {:induction false} LexLeTotal(a: string, b: string)
    ensures LexLe(a, b) || LexLe(b, a)
    decreases |a|
  {
    if |a| > 0 && |b| > 0 && a[0] == b[0] {
      LexLeTotal(a[1..], b[1..]);
    }
  }

  lemma {:induction false} LexLeTransitive(a: string, b: string, c: string)
    requires LexLe(a, b) && LexLe(b, c)
    ensures LexLe(a, c)
    decreases |a|
  {
    if |a| > 0 && a[0] == b[0] && b[0] == c[0] {
      LexLeTransitive(a[1..], b[1..], c[1..]);
    }
  }
}
