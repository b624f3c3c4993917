/** Python's `needle in haystack` on two `str` values: substring containment.
    The health check uses it both to drop the internal "stats" listeners and,
    because its exclusion setting stays a plain string, to exclude services. */
module PyStrings {

  /** `s` begins with `prefix`. */
  predicate StartsWith(s: string, prefix: string)
  {
    |prefix| <= |s| && s[..|prefix|] == prefix
  }

  /** Python's `needle in haystack` for strings, scanning the start positions
      of `haystack` from the left. */
  predicate Occurs(needle: string, haystack: string)
    decreases |haystack|
  {
    StartsWith(haystack, needle) || (|haystack| > 0 && Occurs(needle, haystack[1..]))
  }

  /** `needle` is the slice of `haystack` that starts at `i`. */
  predicate OccursAt(needle: string, haystack: string, i: int)
  {
    0 <= i && i + |needle| <= |haystack| && haystack[i..i + |needle|] == needle
  }

  /** The scan agrees with the usual definition of a substring: some start
      position of `haystack` holds `needle`. */
  lemma {:induction false} OccursIffSomePosition(needle: string, haystack: string)
    ensures Occurs(needle, haystack) <==> exists i :: OccursAt(needle, haystack, i)
    decreases |haystack|
  {
    if Occurs(needle, haystack) {
      if StartsWith(haystack, needle) {
        assert OccursAt(needle, haystack, 0);
      } else {
        OccursIffSomePosition(needle, haystack[1..]);
        var j :| OccursAt(needle, haystack[1..], j);
        assert haystack[1..][j..j + |needle|] == haystack[j + 1..j + 1 + |needle|];
        assert OccursAt(needle, haystack, j + 1);
      }
    }
    if exists i :: OccursAt(needle, haystack, i) {
      var i :| OccursAt(needle, haystack, i);
      if i == 0 {
        assert StartsWith(haystack, needle);
      } else {
        assert haystack[1..][i - 1..i - 1 + |needle|] == haystack[i..i + |needle|];
        assert OccursAt(needle, haystack[1..], i - 1);
        OccursIffSomePosition(needle, haystack[1..]);
      }
    }
  }

  /** A string that occurs in another is no longer than it. */
  lemma {:induction false} OccursNoLonger(needle: string, haystack: string)
    ensures Occurs(needle, haystack) ==> |needle| <= |haystack|
    decreases |haystack|
  {
    if |haystack| > 0 {
      OccursNoLonger(needle, haystack[1..]);
    }
  }

  /** Every character of a string that occurs in another is a character of
      that other string. */
  lemma OccursCharacters(needle: string, haystack: string)
    ensures Occurs(needle, haystack) ==> forall c :: c in needle ==> c in haystack
  {
    OccursIffSomePosition(needle, haystack);
    if Occurs(needle, haystack) {
      var i :| OccursAt(needle, haystack, i);
      forall c | c in needle
        ensures c in haystack
      {
        var j :| 0 <= j < |needle| && needle[j] == c;
        assert haystack[i..i + |needle|][j] == haystack[i + j];
      }
    }
  }

  /** Python's `"" in s` is true for every `s`, and `n in ""` only for `n == ""`. */
  lemma EmptyString(s: string)
    ensures Occurs("", s)
    ensures Occurs(s, "") <==> s == ""
  {
    assert StartsWith(s, "");
    OccursNoLonger(s, "");
  }

  /** Whatever surrounds it, a string occurs in a concatenation that holds it. */
  lemma OccursInside(before: string, needle: string, after: string)
    ensures Occurs(needle, before + needle + after)
  {
    var h := before + needle + after;
    assert h[|before|..|before| + |needle|] == needle;
    assert OccursAt(needle, h, |before|);
    OccursIffSomePosition(needle, h);
  }
}
