/** The JavaScript string tests the crawler relies on: `startsWith` and
    `includes`, over strings modelled as sequences of characters. */
module Strings {

  /** `s.startsWith(prefix)`: `prefix` is the first |prefix| characters of `s`.
      Every string starts with the empty string. */
  predicate StartsWith(s: string, prefix: string): (b: bool)
    ensures b <==> |prefix| <= |s| && forall k :: 0 <= k < |prefix| ==> s[k] == prefix[k]
  {
    |prefix| <= |s| && s[..|prefix|] == prefix
  }

  /** `sub` occurs somewhere in `s` as a contiguous substring. */
  ghost predicate Occurs(sub: string, s: string)
  {
    exists i, j :: 0 <= i <= j <= |s| && s[i..j] == sub
  }

  /** `s.includes(sub)`, computed by trying every start position in turn. */
  function Contains(s: string, sub: string): (r: bool)
    ensures r <==> Occurs(sub, s)
    decreases |s|
  {
    if |s| < |sub| then
      assert !Occurs(sub, s) by {
        forall i, j | 0 <= i <= j <= |s| ensures s[i..j] != sub {
          assert |s[i..j]| < |sub|;
        }
      }
      false
    else if s[..|sub|] == sub then
      assert s[0..|sub|] == sub;
      true
    else
      var rest := Contains(s[1..], sub);
      assert rest ==> Occurs(sub, s) by {
        if rest {
          var i, j :| 0 <= i <= j <= |s[1..]| && s[1..][i..j] == sub;
          assert s[i + 1..j + 1] == sub;
        }
      }
      assert Occurs(sub, s) ==> rest by {
        if Occurs(sub, s) {
          var i, j :| 0 <= i <= j <= |s| && s[i..j] == sub;
          // i == 0 is the case the previous branch already took
          if i != 0 {
            assert s[1..][i - 1..j - 1] == sub;
          }
        }
      }
      rest
  }

  /** Prefixes compose: a string that starts with `b`, where `b` starts with
      `a`, also starts with `a`. */
  lemma StartsWithTransitive(s: string, b: string, a: string)
    requires StartsWith(s, b) && StartsWith(b, a)
    ensures StartsWith(s, a)
  {
    assert s[..|a|] == s[..|b|][..|a|];
  }

}
