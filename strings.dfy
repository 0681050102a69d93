/** JavaScript string operations the site's code relies on. */
module Strings {

  /** `haystack.includes(needle)`. */
  function Includes(haystack: string, needle: string): bool
    decreases |haystack|
  {
    if |needle| > |haystack| then false
    else haystack[..|needle|] == needle || Includes(haystack[1..], needle)
  }

  /** `needle` occurs in `haystack` starting at position i. */
  predicate OccursAt(haystack: string, needle: string, i: int)
  {
    0 <= i && i + |needle| <= |haystack| && haystack[i..i + |needle|] == needle
  }

  /** `includes` holds exactly when the needle occurs at some position. */
  lemma {:induction false} IncludesIffOccurs(haystack: string, needle: string)
    ensures Includes(haystack, needle) <==> exists i :: OccursAt(haystack, needle, i)
    decreases |haystack|
  {
    if |needle| > |haystack| {
      assert forall i :: !OccursAt(haystack, needle, i);
    } else if haystack[..|needle|] == needle {
      assert OccursAt(haystack, needle, 0);
    } else {
      var tail := haystack[1..];
      if |needle| <= |tail| {
        IncludesIffOccurs(tail, needle);
      } else {
        assert !Includes(tail, needle);
      }
      if exists i :: OccursAt(haystack, needle, i) {
        var i :| OccursAt(haystack, needle, i);
        assert i > 0;
        assert tail[i - 1..i - 1 + |needle|] == haystack[i..i + |needle|];
        assert OccursAt(tail, needle, i - 1);
      }
      if exists i :: OccursAt(tail, needle, i) {
        var i :| OccursAt(tail, needle, i);
        assert tail[i..i + |needle|] == haystack[i + 1..i + 1 + |needle|];
        assert OccursAt(haystack, needle, i + 1);
      }
    }
  }

  /** A piece placed at a known position of a concatenation occurs there. */
  lemma OccursInMiddle(before: string, piece: string, after: string)
    ensures OccursAt(before + piece + after, piece, |before|)
    ensures Includes(before + piece + after, piece)
  {
    var whole := before + piece + after;
    assert whole[|before|..|before| + |piece|] == piece;
    assert OccursAt(whole, piece, |before|);
    IncludesIffOccurs(whole, piece);
  }

  /** `s.replace(/\n/g, "<br>")`: every newline becomes a line-break tag. */
  function ReplaceNewlines(s: string): (r: string)
    ensures '\n' !in r
    ensures '\n' !in s ==> r == s
  {
    if s == [] then [] else Replaced(s[0]) + ReplaceNewlines(s[1..])
  }

  /** What one character becomes: a newline turns into `<br>`, anything else stays. */
  function Replaced(c: char): (r: string)
    ensures '\n' !in r
    ensures c != '\n' ==> r == [c]
  {
    if c == '\n' then "<br>" else [c]
  }

  /** The number of newlines in s. */
  function CountNewlines(s: string): nat
  {
    if s == [] then 0 else (if s[0] == '\n' then 1 else 0) + CountNewlines(s[1..])
  }

  /** The rewriting works piece by piece: it commutes with concatenation. */
  lemma {:induction false} ReplaceNewlinesConcat(a: string, b: string)
    ensures ReplaceNewlines(a + b) == ReplaceNewlines(a) + ReplaceNewlines(b)
    decreases |a|
  {
    if a == [] {
      assert a + b == b;
    } else {
      assert (a + b)[1..] == a[1..] + b;
      ReplaceNewlinesConcat(a[1..], b);
    }
  }

  /** Each newline grows by three characters ("\n" becomes "<br>"); nothing else changes length. */
  lemma {:induction false} ReplaceNewlinesLength(s: string)
    ensures |ReplaceNewlines(s)| == |s| + 3 * CountNewlines(s)
    decreases |s|
  {
    if s != [] {
      ReplaceNewlinesLength(s[1..]);
    }
  }
}
