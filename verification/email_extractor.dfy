/** The email extractor of the crawler: the global match of the pattern
    `[a-zA-Z0-9._%+-]+@[a-zA-Z0-9.-]+\.[a-zA-Z]{2,}` against a page's text.

    For this pattern the regular-expression engine's leftmost, greedy,
    backtracking search has a direct deterministic reading, which `MatchAt`
    computes:
    - the local part can only end where its character run ends, because `@` is
      not a local character, so the run must be followed by `@`;
    - the greedy domain run backtracks to the LAST `.` inside it that is
      followed by two letters, and the top-level label then takes every letter
      after that `.`.
    When no match starts at a position the search moves one character on; after
    a match it resumes at the match's end. */
module EmailExtractor {

  import opened Wrappers
  import opened Strings

  predicate IsAsciiLetter(c: char)
  {
    'a' <= c <= 'z' || 'A' <= c <= 'Z'
  }

  predicate IsAsciiAlnum(c: char)
  {
    IsAsciiLetter(c) || '0' <= c <= '9'
  }

  /** The class `[a-zA-Z0-9._%+-]` of the part before `@`. */
  predicate IsLocalChar(c: char)
  {
    IsAsciiAlnum(c) || c == '.' || c == '_' || c == '%' || c == '+' || c == '-'
  }

  /** The class `[a-zA-Z0-9.-]` of the part after `@`. */
  predicate IsDomainChar(c: char)
  {
    IsAsciiAlnum(c) || c == '.' || c == '-'
  }

  predicate All(p: char -> bool, s: string)
  {
    forall k :: 0 <= k < |s| ==> p(s[k])
  }

  /** `e` is a non-empty local part, `@` at index `at`, a non-empty domain, `.`
      at index `dot`, and two or more letters. */
  predicate SplitsAsEmail(e: string, at: int, dot: int)
  {
    && 0 < at && at + 1 < dot && dot + 3 <= |e|
    && e[at] == '@' && e[dot] == '.'
    && All(IsLocalChar, e[..at])
    && All(IsDomainChar, e[at + 1..dot])
    && All(IsAsciiLetter, e[dot + 1..])
  }

  /** The shape of a string the pattern matches in full. */
  ghost predicate IsEmail(e: string)
  {
    exists at, dot :: SplitsAsEmail(e, at, dot)
  }

  /** The end of the longest run of characters satisfying `p` that starts at
      index `i` (a greedy `p+` or `p*`). */
  function Span(p: char -> bool, s: string, i: nat): (j: nat)
    requires i <= |s|
    ensures i <= j <= |s|
    ensures j == |s| || !p(s[j])
    decreases |s| - i
  {
    if i == |s| || !p(s[i]) then i else Span(p, s, i + 1)
  }

  /** Every character the span passes over satisfies `p`. */
  lemma {:induction false} SpanAll(p: char -> bool, s: string, i: nat)
    requires i <= |s|
    ensures forall k :: i <= k < Span(p, s, i) ==> p(s[k])
    decreases |s| - i
  {
    if i < |s| && p(s[i]) {
      SpanAll(p, s, i + 1);
    }
  }

  /** A `.` at index `d` that the top-level label `[a-zA-Z]{2,}` can follow. */
  predicate IsTldDot(s: string, d: int)
  {
    0 <= d && d + 2 < |s| && s[d] == '.' && IsAsciiLetter(s[d + 1]) && IsAsciiLetter(s[d + 2])
  }

  /** The greatest index in [lo, hi) that is a top-level-label dot. */
  function LastTldDot(s: string, lo: nat, hi: nat): (r: Option<nat>)
    requires lo <= hi <= |s|
    ensures r.Some? ==> lo <= r.value < hi && IsTldDot(s, r.value)
    ensures r.Some? ==> forall d :: r.value < d < hi ==> !IsTldDot(s, d)
    ensures r.None? ==> forall d :: lo <= d < hi ==> !IsTldDot(s, d)
    decreases hi - lo
  {
    if hi == lo then None
    else if IsTldDot(s, hi - 1) then Some(hi - 1)
    else LastTldDot(s, lo, hi - 1)
  }

  /** The end of the match that starts at index `i`, if one does. */
  function MatchAt(s: string, i: nat): (r: Option<nat>)
    requires i <= |s|
    ensures r.Some? ==> i < r.value <= |s| && IsEmail(s[i..r.value])
  {
    var at := Span(IsLocalChar, s, i);
    if at == i || at == |s| || s[at] != '@' then None
    else
      var stop := Span(IsDomainChar, s, at + 1);
      if stop < at + 2 then None
      else match LastTldDot(s, at + 2, stop)
        case None => None
        case Some(dot) =>
          var end := Span(IsAsciiLetter, s, dot + 1);
          SpanCovers(IsAsciiLetter, s, dot + 1, dot + 3);
          SpanAll(IsLocalChar, s, i);
          SpanAll(IsDomainChar, s, at + 1);
          SpanAll(IsAsciiLetter, s, dot + 1);
          SplitFromPoints(s, i, at, dot, end);
          Some(end)
  }

  /** A run of `p`-characters over [i, n) is covered by the span from `i`. */
  lemma {:induction false} SpanCovers(p: char -> bool, s: string, i: nat, n: nat)
    requires i <= n <= |s|
    requires forall k :: i <= k < n ==> p(s[k])
    ensures Span(p, s, i) >= n
    decreases |s| - i
  {
    if i < n {
      SpanCovers(p, s, i + 1, n);
    }
  }

  /** A run of `p`-characters over [i, n) that cannot be extended is exactly
      the span from `i`. */
  lemma SpanStopsAt(p: char -> bool, s: string, i: nat, n: nat)
    requires i <= n <= |s|
    requires forall k :: i <= k < n ==> p(s[k])
    requires n == |s| || !p(s[n])
    ensures Span(p, s, i) == n
  {
    SpanCovers(p, s, i, n);
    SpanAll(p, s, i);
  }

  /** Pointwise character facts about s[i..end] make it email-shaped, split at
      `at` and `dot`. */
  lemma SplitFromPoints(s: string, i: nat, at: nat, dot: nat, end: nat)
    requires i < at && at + 1 < dot && dot + 3 <= end <= |s|
    requires s[at] == '@' && s[dot] == '.'
    requires forall k :: i <= k < at ==> IsLocalChar(s[k])
    requires forall k :: at < k < dot ==> IsDomainChar(s[k])
    requires forall k :: dot < k < end ==> IsAsciiLetter(s[k])
    ensures SplitsAsEmail(s[i..end], at - i, dot - i)
    ensures IsEmail(s[i..end])
  {
    var e := s[i..end];
    var local, domain, tld := e[..at - i], e[at - i + 1..dot - i], e[dot - i + 1..];
    forall k | 0 <= k < |local| ensures IsLocalChar(local[k]) {
      assert local[k] == s[i + k];
    }
    forall k | 0 <= k < |domain| ensures IsDomainChar(domain[k]) {
      assert domain[k] == s[at + 1 + k];
    }
    forall k | 0 <= k < |tld| ensures IsAsciiLetter(tld[k]) {
      assert tld[k] == s[dot + 1 + k];
    }
    assert SplitsAsEmail(e, at - i, dot - i);
  }

  /** The converse: an email-shaped s[i..] gives pointwise facts about `s`. */
  lemma PointsFromSplit(s: string, i: nat, at: int, dot: int)
    requires i <= |s| && SplitsAsEmail(s[i..], at, dot)
    ensures i + dot + 3 <= |s|
    ensures s[i + at] == '@' && s[i + dot] == '.'
    ensures forall k :: i <= k < i + at ==> IsLocalChar(s[k])
    ensures forall k :: i + at < k < i + dot ==> IsDomainChar(s[k])
    ensures forall k :: i + dot < k < |s| ==> IsAsciiLetter(s[k])
  {
    var e := s[i..];
    forall k | i <= k < i + at ensures IsLocalChar(s[k]) {
      assert e[..at][k - i] == s[k];
    }
    forall k | i + at < k < i + dot ensures IsDomainChar(s[k]) {
      assert e[at + 1..dot][k - i - at - 1] == s[k];
    }
    forall k | i + dot < k < |s| ensures IsAsciiLetter(s[k]) {
      assert e[dot + 1..][k - i - dot - 1] == s[k];
    }
  }

  /** All matches at or after index `i`, in text order. */
  function ScanFrom(s: string, i: nat): (r: seq<string>)
    requires i <= |s|
    ensures forall e :: e in r ==> IsEmail(e) && Occurs(e, s)
    decreases |s| - i
  {
    if i == |s| then []
    else match MatchAt(s, i)
      case Some(end) => [s[i..end]] + ScanFrom(s, end)
      case None => ScanFrom(s, i + 1)
  }

  /** `text.match(pattern) || []`: every match, in text order, duplicates
      included. Each is an email-shaped substring of `text`. */
  function ExtractEmails(text: string): (emails: seq<string>)
    ensures forall e :: e in emails ==> IsEmail(e) && Occurs(e, text)
  {
    ScanFrom(text, 0)
  }

  /** Scanning across a stretch with no `@` whose last character cannot
      continue a local part finds nothing there. */
  lemma {:induction false} ScanSkipsStretchWithoutAt(s: string, i: nat, n: nat)
    requires i <= n <= |s|
    requires forall k :: i <= k < n ==> s[k] != '@'
    requires i < n ==> !IsLocalChar(s[n - 1])
    ensures ScanFrom(s, i) == ScanFrom(s, n)
    decreases n - i
  {
    if i < n {
      NoMatchBeforeNonLocal(s, i, n);
      ScanSkipsStretchWithoutAt(s, i + 1, n);
    }
  }

  /** No match starts inside a stretch with no `@` that ends in a character
      that cannot continue a local part: the local run stops inside it. */
  lemma NoMatchBeforeNonLocal(s: string, i: nat, n: nat)
    requires i < n <= |s|
    requires forall k :: i <= k < n ==> s[k] != '@'
    requires !IsLocalChar(s[n - 1])
    ensures MatchAt(s, i).None?
  {
    var at := Span(IsLocalChar, s, i);
    SpanAll(IsLocalChar, s, i);
    assert at < n;
  }

  /** An email-shaped suffix starting at index `i` is matched whole, and is the
      only match from `i` on. */
  lemma MatchesWholeSuffix(s: string, i: nat)
    requires i <= |s| && IsEmail(s[i..])
    ensures ScanFrom(s, i) == [s[i..]]
  {
    MatchAtWholeSuffix(s, i);
    assert s[i..|s|] == s[i..];
  }

  lemma MatchAtWholeSuffix(s: string, i: nat)
    requires i <= |s| && IsEmail(s[i..])
    ensures MatchAt(s, i) == Some(|s|)
  {
    var at, dot :| SplitsAsEmail(s[i..], at, dot);
    PointsFromSplit(s, i, at, dot);
    SpanStopsAt(IsLocalChar, s, i, i + at);
    DomainRunsTo(s, i + at, i + dot, |s|);
    SpanStopsAt(IsDomainChar, s, i + at + 1, |s|);
    LastTldDotIsLastDot(s, i + at + 2, i + dot);
    SpanStopsAt(IsAsciiLetter, s, i + dot + 1, |s|);
  }

  /** After `@`, a domain run, a `.` and letters form one run of domain
      characters up to index `n`. */
  lemma DomainRunsTo(s: string, at: nat, dot: nat, n: nat)
    requires at < dot < n <= |s| && s[dot] == '.'
    requires forall k :: at < k < dot ==> IsDomainChar(s[k])
    requires forall k :: dot < k < n ==> IsAsciiLetter(s[k])
    ensures forall k :: at < k < n ==> IsDomainChar(s[k])
  {
  }

  /** Completeness of one match: whenever an email-shaped token starts at
      `i`, the match from `i` exists and reaches at least as far. With the
      soundness of `MatchAt`, the match is the longest email-shaped token
      starting at `i`. */
  lemma MatchAtComplete(s: string, i: nat, j: nat)
    requires i <= j <= |s| && IsEmail(s[i..j])
    ensures MatchAt(s, i).Some? && j <= MatchAt(s, i).value
  {
    var at, dot :| SplitsAsEmail(s[i..j], at, dot);
    var t := s[..j];
    assert t[i..] == s[i..j];
    PointsFromSplit(t, i, at, dot);
    var a, d := i + at, i + dot;
    assert forall k :: i <= k < j ==> t[k] == s[k];
    // the local run stops at the `@`
    SpanStopsAt(IsLocalChar, s, i, a);
    // the domain run covers the whole token after the `@`
    DomainRunsTo(s, a, d, j);
    SpanCovers(IsDomainChar, s, a + 1, j);
    var stop := Span(IsDomainChar, s, a + 1);
    // the token's own dot is a top-level-label dot inside the domain run
    assert IsTldDot(s, d);
    var last := LastTldDot(s, a + 2, stop);
    assert last.Some? && d <= last.value;
    if last.value == d {
      SpanCovers(IsAsciiLetter, s, d + 1, j);
    } else {
      // a later dot inside the token would have to be a letter
      assert j <= last.value;
    }
  }

  /** The scan, reaching a position where an email-shaped token starts,
      reports a match there that contains that token. */
  lemma ScanFindsTokenAt(s: string, i: nat, j: nat)
    requires i <= j <= |s| && IsEmail(s[i..j])
    ensures var r := ScanFrom(s, i);
      r != [] && exists end :: j <= end <= |s| && r[0] == s[i..end]
  {
    MatchAtComplete(s, i, j);
    var end := MatchAt(s, i).value;
    assert ScanFrom(s, i)[0] == s[i..end];
  }

  /** A top-level-label dot followed only by letters is the last one. */
  lemma LastTldDotIsLastDot(s: string, lo: nat, dot: nat)
    requires lo <= dot && IsTldDot(s, dot)
    requires forall k :: dot < k < |s| ==> IsAsciiLetter(s[k])
    ensures LastTldDot(s, lo, |s|) == Some(dot)
  {
    assert forall d :: dot < d < |s| ==> !IsTldDot(s, d);
  }

  /** Completeness on whole strings: a text that is exactly one email-shaped
      token yields exactly that token. */
  lemma ExtractsWholeEmail(t: string)
    requires IsEmail(t)
    ensures ExtractEmails(t) == [t]
  {
    assert t[0..] == t;
    MatchesWholeSuffix(t, 0);
  }

  /** An email-shaped token at the end of the text, after a stretch with no
      `@` that does not end in a local-part character (a space, a colon, ...),
      is the one and only match. */
  lemma ExtractsEmailAfterSeparator(prefix: string, e: string)
    requires '@' !in prefix
    requires prefix != [] ==> !IsLocalChar(prefix[|prefix| - 1])
    requires IsEmail(e)
    ensures ExtractEmails(prefix + e) == [e]
  {
    var s := prefix + e;
    assert s[|prefix|..] == e;
    assert forall k :: 0 <= k < |prefix| ==> s[k] == prefix[k];
    ScanSkipsStretchWithoutAt(s, 0, |prefix|);
    MatchesWholeSuffix(s, |prefix|);
  }

}
