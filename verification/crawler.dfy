/** The crawl engine `crawlDomain`: a breadth-first traversal from a start URL,
    bounded by a page budget, that collects email-shaped text and tracker
    requests from every page it renders.

    The browser is an oracle `render(n, url)` giving the outcome of the n-th
    navigation of the session; it may answer differently for the same URL on
    different navigations (a page that timed out once may load later). */
module Crawler {

  import opened Strings
  import opened Sequences
  import opened OrderedSets
  import opened EmailExtractor
  import opened TrackerClassifier

  /** The outcome of one navigation. `requests` are the request URLs the
      page issued; the request listener sees them whether or not the
      navigation succeeded.
      - Loaded: the page loaded and both its text and its links were read;
      - LinksFailed: the text was read (so its emails were recorded) but
        reading the links threw, which abandons the page;
      - Failed: navigating or reading the text threw. */
  datatype PageResult =
    | Loaded(text: string, hrefs: seq<string>, requests: seq<string>)
    | LinksFailed(text: string, requests: seq<string>)
    | Failed(requests: seq<string>)

  /** The headless browser: the outcome of the n-th navigation, to `url`. */
  type Renderer = (nat, string) -> PageResult

  /** The mutable state of one crawl: the FIFO frontier `toVisit`, the set of
      successfully rendered URLs, the email and tracker sets in insertion
      order, and how many navigations the session has made. */
  datatype Session = Session(
    frontier: seq<string>,
    visited: set<string>,
    emails: seq<string>,
    trackers: seq<string>,
    navigations: nat)

  /** What the crawl returns: `Array.from` of the two sets. */
  datatype CrawlResult = CrawlResult(emails: seq<string>, trackers: seq<string>)

  /** One navigation of the session, as a log entry: the navigation's number
      in the session, its URL and its outcome. */
  datatype Attempt = Attempt(index: nat, url: string, page: PageResult)

  /** The page budget when the caller gives none. */
  const DefaultMaxPages: nat := 5

  /** The scope policy: a literal prefix test against the start URL, not an
      origin comparison (`https://example.com2` is in scope of
      `https://example.com`). */
  predicate InScope(startUrl: string, url: string): (b: bool)
    // the URL is the start URL with anything appended, host part included
    ensures b <==> |startUrl| <= |url| && url == startUrl + url[|startUrl|..]
  {
    StartsWith(url, startUrl)
  }

  function Init(startUrl: string): Session
  {
    Session([startUrl], {}, [], [], 0)
  }

  function Report(s: Session): CrawlResult
  {
    CrawlResult(s.emails, s.trackers)
  }

  /** The links the page script returns: anchor targets starting with `http`. */
  function HttpLinks(hrefs: seq<string>): (links: seq<string>)
    ensures forall l :: l in links <==> l in hrefs && StartsWith(l, "http")
    // an anchor listed several times is returned as many times
    ensures forall l {:trigger multiset(links)[l]} ::
      multiset(links)[l] == if StartsWith(l, "http") then multiset(hrefs)[l] else 0
  {
    Filter(h => StartsWith(h, "http"), hrefs)
  }

  /** The request URLs the listener adds to the tracker set, in order. */
  function TrackerRequests(requests: seq<string>): (ts: seq<string>)
    ensures forall u :: u in ts <==> u in requests && IsTracker(u)
  {
    Filter(IsTracker, requests)
  }

  /** Pushes, in order, every link that is in scope and not yet visited. The
      frontier is NOT consulted: a link already waiting in it is pushed
      again. */
  function Enqueue(startUrl: string, visited: set<string>, frontier: seq<string>, links: seq<string>): (r: seq<string>)
    ensures IsPrefix(frontier, r)
    ensures forall u :: u in r <==> u in frontier || (u in links && InScope(startUrl, u) && u !in visited)
    // every occurrence of a pushable link is pushed, whatever is already queued
    ensures forall u {:trigger multiset(r)[u]} ::
      multiset(r)[u] == multiset(frontier)[u] + (if InScope(startUrl, u) && u !in visited then multiset(links)[u] else 0)
  {
    frontier + Filter(l => InScope(startUrl, l) && l !in visited, links)
  }

  /** Links are pushed in the order the page lists them, and the page's `http`
      links in the order of its anchors. */
  lemma PushedInPageOrder(startUrl: string, visited: set<string>, frontier: seq<string>, hrefs: seq<string>)
    ensures IsSubsequence(HttpLinks(hrefs), hrefs)
    ensures var links := HttpLinks(hrefs);
      IsSubsequence(Enqueue(startUrl, visited, frontier, links)[|frontier|..], links)
  {
    FilterIsSubsequence(h => StartsWith(h, "http"), hrefs);
    var links := HttpLinks(hrefs);
    FilterIsSubsequence(l => InScope(startUrl, l) && l !in visited, links);
    assert Enqueue(startUrl, visited, frontier, links)[|frontier|..]
      == Filter(l => InScope(startUrl, l) && l !in visited, links);
  }

  /** Everything queued or visited is in scope. */
  ghost predicate ScopeSound(startUrl: string, s: Session)
  {
    && (forall u :: u in s.frontier ==> InScope(startUrl, u))
    && (forall u :: u in s.visited ==> InScope(startUrl, u))
  }

  /** The loop invariant: scope soundness and the budget bound. */
  ghost predicate Valid(startUrl: string, maxPages: nat, s: Session)
  {
    ScopeSound(startUrl, s) && |s.visited| <= maxPages
  }

  /** The result sets hold distinct email-shaped tokens and distinct tracker
      URLs. */
  ghost predicate ResultsWellFormed(s: Session)
  {
    && NoDups(s.emails) && (forall e :: e in s.emails ==> IsEmail(e))
    && NoDups(s.trackers) && (forall t :: t in s.trackers ==> IsTracker(t))
  }

  /** The loop condition `toVisit.length && visited.size < maxPages`. */
  predicate Continues(maxPages: nat, s: Session)
  {
    s.frontier != [] && |s.visited| < maxPages
  }

  /** The effect of navigating to `url` (already shifted off the frontier of
      `s`): tracker requests first (the listener fires during navigation),
      then the page's emails if its text was read, then, only if the links
      were read too, the pushes and finally `visited.add(url)`. */
  function Visit(startUrl: string, s: Session, url: string, page: PageResult): (r: Session)
    ensures r.navigations == s.navigations + 1
    // the URL counts as visited only once text and links were both read
    ensures r.visited == if page.Loaded? then s.visited + {url} else s.visited
    // every navigation reports its requests, whatever happens to the page
    ensures forall t :: t in r.trackers <==> t in s.trackers || (t in page.requests && IsTracker(t))
    // a page whose text was read contributes its emails, even if its links fail
    ensures forall e :: e in r.emails <==> e in s.emails || (!page.Failed? && e in ExtractEmails(page.text))
    ensures IsPrefix(s.emails, r.emails) && IsPrefix(s.trackers, r.trackers)
    // only a loaded page pushes, and only links in scope and not yet visited
    ensures IsPrefix(s.frontier, r.frontier)
    ensures forall u :: u in r.frontier <==>
      (u in s.frontier || (page.Loaded? && u in HttpLinks(page.hrefs) && InScope(startUrl, u) && u !in s.visited))
  {
    var trackers := AddAll(s.trackers, TrackerRequests(page.requests));
    var emails := if page.Failed? then s.emails else AddAll(s.emails, ExtractEmails(page.text));
    var s' := s.(trackers := trackers, emails := emails, navigations := s.navigations + 1);
    if page.Loaded? then
      s'.(frontier := Enqueue(startUrl, s.visited, s.frontier, HttpLinks(page.hrefs)),
          visited := s.visited + {url})
    else s'
  }

  /** One iteration of the loop body. */
  function Next(startUrl: string, render: Renderer, s: Session): (r: Session)
    requires s.frontier != []
    // a URL already visited is dropped without navigating or using budget
    ensures s.frontier[0] in s.visited ==> r == s.(frontier := s.frontier[1..])
    // visited grows by at most the dequeued URL
    ensures s.visited <= r.visited <= s.visited + {s.frontier[0]}
    // the loop measure decreases lexicographically
    ensures |r.visited| == |s.visited| + 1 || (r.visited == s.visited && |r.frontier| < |s.frontier|)
    // the result sets only grow, keeping insertion order
    ensures IsPrefix(s.emails, r.emails) && IsPrefix(s.trackers, r.trackers)
    ensures ScopeSound(startUrl, s) ==> ScopeSound(startUrl, r)
  {
    var url := s.frontier[0];
    var rest := s.(frontier := s.frontier[1..]);
    if url in s.visited then rest
    else
      var page := render(s.navigations, url);
      var r := Visit(startUrl, rest, url, page);
      assert ScopeSound(startUrl, s) ==> InScope(startUrl, url);
      r
  }

  /** What one iteration does with the dequeued URL when it is new: it uses
      the session's next navigation, marks the URL visited exactly when the
      page loaded, and records no email when the page failed. */
  lemma NextNavigates(startUrl: string, render: Renderer, s: Session)
    requires s.frontier != []
    ensures var r, url := Next(startUrl, render, s), s.frontier[0];
      && (url !in s.visited ==> r.navigations == s.navigations + 1)
      && (url in r.visited - s.visited <==> url !in s.visited && render(s.navigations, url).Loaded?)
      && (render(s.navigations, url).Failed? ==> r.emails == s.emails)
  {
  }

  /** What one iteration does to the queue: the rest of it keeps its order
      (FIFO), a new page that loaded appends its in-scope links that were not
      visited before it, and any other page appends nothing. */
  lemma NextQueues(startUrl: string, render: Renderer, s: Session)
    requires s.frontier != []
    ensures var r, url := Next(startUrl, render, s), s.frontier[0];
      && IsPrefix(s.frontier[1..], r.frontier)
      && (url !in s.visited && render(s.navigations, url).Loaded? ==>
            r.frontier == Enqueue(startUrl, s.visited, s.frontier[1..], HttpLinks(render(s.navigations, url).hrefs)))
      && (!render(s.navigations, url).Loaded? ==> r.frontier == s.frontier[1..])
  {
  }

  /** The current URL is added to `visited` only after its links are pushed,
      so a page that links to itself queues itself once more, even though it
      ends the iteration visited. */
  lemma SelfLinkIsQueuedAgain(startUrl: string, render: Renderer, s: Session)
    requires s.frontier != [] && s.frontier[0] !in s.visited
    requires var url := s.frontier[0]; var page := render(s.navigations, url);
      page.Loaded? && url in HttpLinks(page.hrefs) && InScope(startUrl, url)
    ensures var r := Next(startUrl, render, s);
      s.frontier[0] in r.visited && s.frontier[0] in r.frontier
  {
  }

  /** Pushing consults `visited` only: an in-scope link that is already
      waiting in the queue is appended once more behind the rest of it. */
  lemma WaitingLinkIsQueuedAgain(startUrl: string, render: Renderer, s: Session, link: string)
    requires s.frontier != [] && s.frontier[0] !in s.visited
    requires var page := render(s.navigations, s.frontier[0]);
      page.Loaded? && link in HttpLinks(page.hrefs) && InScope(startUrl, link) && link !in s.visited
    requires link in s.frontier[1..]
    ensures var r := Next(startUrl, render, s);
      IsPrefix(s.frontier[1..], r.frontier) && link in r.frontier[|s.frontier| - 1..]
  {
    var url, tail := s.frontier[0], s.frontier[1..];
    var links := HttpLinks(render(s.navigations, url).hrefs);
    var r := Next(startUrl, render, s);
    assert r.frontier == Enqueue(startUrl, s.visited, tail, links);
    assert r.frontier[|tail|..] == Filter(l => InScope(startUrl, l) && l !in s.visited, links);
  }

  /** A loop iteration adds only email-shaped tokens and tracker URLs, each
      at most once. */
  lemma NextKeepsResultsWellFormed(startUrl: string, render: Renderer, s: Session)
    requires s.frontier != [] && ResultsWellFormed(s)
    ensures ResultsWellFormed(Next(startUrl, render, s))
  {
  }

  /** The whole loop, from session `s` until the loop condition fails. */
  function Run(startUrl: string, maxPages: nat, render: Renderer, s: Session): (r: Session)
    requires Valid(startUrl, maxPages, s)
    ensures Valid(startUrl, maxPages, r)
    ensures !Continues(maxPages, r)
    ensures r.frontier == [] || |r.visited| == maxPages
    ensures s.visited <= r.visited
    ensures IsPrefix(s.emails, r.emails) && IsPrefix(s.trackers, r.trackers)
    decreases maxPages - |s.visited|, |s.frontier|
  {
    if !Continues(maxPages, s) then s
    else Run(startUrl, maxPages, render, Next(startUrl, render, s))
  }

  /** The whole loop adds only email-shaped tokens and tracker URLs, each at
      most once. */
  lemma {:induction false} RunKeepsResultsWellFormed(startUrl: string, maxPages: nat, render: Renderer, s: Session)
    requires Valid(startUrl, maxPages, s) && ResultsWellFormed(s)
    ensures ResultsWellFormed(Run(startUrl, maxPages, render, s))
    decreases maxPages - |s.visited|, |s.frontier|
  {
    if Continues(maxPages, s) {
      NextKeepsResultsWellFormed(startUrl, render, s);
      RunKeepsResultsWellFormed(startUrl, maxPages, render, Next(startUrl, render, s));
    }
  }

  /** The loop stops exactly when its condition fails: while the frontier is
      non-empty and the budget is not reached, the loop makes progress, either
      visiting a new URL or leaving a shorter frontier, so the session it ends
      in differs from the one it started from. This follows from the exit
      condition and the growth of `visited` that `Run` guarantees. */
  lemma RunHaltsExactlyWhenConditionFails(startUrl: string, maxPages: nat, render: Renderer, s: Session)
    requires Valid(startUrl, maxPages, s)
    ensures var r := Run(startUrl, maxPages, render, s);
      && (r.visited == s.visited ==> |r.frontier| <= |s.frontier|)
      && (Continues(maxPages, s) ==> s.visited < r.visited || |r.frontier| < |s.frontier|)
      && (r == s <==> !Continues(maxPages, s))
  {
  }

  /** The navigations the loop makes from session `s`, in order. */
  function Attempts(startUrl: string, maxPages: nat, render: Renderer, s: Session): seq<Attempt>
    requires Valid(startUrl, maxPages, s)
    decreases maxPages - |s.visited|, |s.frontier|
  {
    if !Continues(maxPages, s) then []
    else
      var url := s.frontier[0];
      var here := if url in s.visited then [] else [Attempt(s.navigations, url, render(s.navigations, url))];
      here + Attempts(startUrl, maxPages, render, Next(startUrl, render, s))
  }

  /** `ys.forEach(y => set.add(y))`, one element at a time. */
  method AddEach(xs: seq<string>, ys: seq<string>) returns (r: seq<string>)
    ensures r == AddAll(xs, ys)
  {
    r := xs;
    var k := 0;
    while k < |ys|
      invariant k <= |ys|
      invariant r == AddAll(xs, ys[..k])
    {
      assert ys[..k + 1][..k] == ys[..k];
      if ys[k] !in r {
        r := r + [ys[k]];
      }
      k := k + 1;
    }
    assert ys[..|ys|] == ys;
  }

  /** The request listener over the requests of one navigation: every
      request URL the classifier flags is added to the tracker set. */
  method ObserveRequests(trackers: seq<string>, requests: seq<string>) returns (r: seq<string>)
    ensures r == AddAll(trackers, TrackerRequests(requests))
  {
    r := trackers;
    var k := 0;
    while k < |requests|
      invariant k <= |requests|
      invariant r == AddAll(trackers, TrackerRequests(requests[..k]))
    {
      assert requests[..k + 1][..k] == requests[..k];
      if IsTracker(requests[k]) && requests[k] !in r {
        r := r + [requests[k]];
      }
      k := k + 1;
    }
    assert requests[..|requests|] == requests;
  }

  /** `links.forEach(...)`: pushes every in-scope link that is not visited. */
  method PushLinks(startUrl: string, visited: set<string>, toVisit: seq<string>, links: seq<string>)
    returns (r: seq<string>)
    ensures r == Enqueue(startUrl, visited, toVisit, links)
  {
    r := toVisit;
    var k := 0;
    while k < |links|
      invariant k <= |links|
      invariant r == Enqueue(startUrl, visited, toVisit, links[..k])
    {
      assert links[..k + 1][..k] == links[..k];
      if StartsWith(links[k], startUrl) && links[k] !in visited {
        r := r + [links[k]];
      }
      k := k + 1;
    }
    assert links[..|links|] == links;
  }

  /** The body of one iteration for a URL that is not visited yet, once the
      browser has answered with `page`: it refines `Visit`. */
  method VisitPage(startUrl: string, url: string, page: PageResult, ghost navigations: nat,
                   toVisit: seq<string>, visited: set<string>, allEmails: seq<string>, trackers: seq<string>)
    returns (toVisit': seq<string>, visited': set<string>, allEmails': seq<string>, trackers': seq<string>)
    ensures Session(toVisit', visited', allEmails', trackers', navigations + 1)
         == Visit(startUrl, Session(toVisit, visited, allEmails, trackers, navigations), url, page)
  {
    toVisit', visited', allEmails' := toVisit, visited, allEmails;
    trackers' := ObserveRequests(trackers, page.requests);
    if !page.Failed? {
      var emails := ExtractEmails(page.text);
      allEmails' := AddEach(allEmails, emails);
    }
    if page.Loaded? {
      var links := HttpLinks(page.hrefs);
      toVisit' := PushLinks(startUrl, visited, toVisit, links);
      visited' := visited + {url};
    }
  }

  /** Unfolding one loop iteration of `Run`. */
  lemma RunUnfolds(startUrl: string, maxPages: nat, render: Renderer, s: Session)
    requires Valid(startUrl, maxPages, s) && Continues(maxPages, s)
    ensures Valid(startUrl, maxPages, Next(startUrl, render, s))
    ensures Run(startUrl, maxPages, render, s) == Run(startUrl, maxPages, render, Next(startUrl, render, s))
    ensures var url := s.frontier[0];
      Next(startUrl, render, s) == if url in s.visited then s.(frontier := s.frontier[1..])
        else Visit(startUrl, s.(frontier := s.frontier[1..]), url, render(s.navigations, url))
  {
  }

  /** `crawlDomain(startUrl, maxPages)`: the loop over the frontier, with the
      browser as `render`. Its result is the final state of `Run` from the
      initial session, with distinct email-shaped tokens and distinct tracker
      URLs. */
  method CrawlDomain(startUrl: string, maxPages: nat, render: Renderer) returns (result: CrawlResult)
    ensures result == Report(Run(startUrl, maxPages, render, Init(startUrl)))
    ensures NoDups(result.emails) && forall e :: e in result.emails ==> IsEmail(e)
    ensures NoDups(result.trackers) && forall t :: t in result.trackers ==> IsTracker(t)
  {
    var visited: set<string> := {};
    var toVisit := [startUrl];
    var allEmails: seq<string> := [];
    var trackers: seq<string> := [];
    var navigations: nat := 0;
    assert StartsWith(startUrl, startUrl);
    RunKeepsResultsWellFormed(startUrl, maxPages, render, Init(startUrl));
    while toVisit != [] && |visited| < maxPages
      invariant Valid(startUrl, maxPages, Session(toVisit, visited, allEmails, trackers, navigations))
      invariant Run(startUrl, maxPages, render, Session(toVisit, visited, allEmails, trackers, navigations))
        == Run(startUrl, maxPages, render, Init(startUrl))
      decreases maxPages - |visited|, |toVisit|
    {
      ghost var before := Session(toVisit, visited, allEmails, trackers, navigations);
      RunUnfolds(startUrl, maxPages, render, before);
      var url := toVisit[0];
      toVisit := toVisit[1..];
      if url in visited {
        continue;
      }
      var page := render(navigations, url);
      toVisit, visited, allEmails, trackers :=
        VisitPage(startUrl, url, page, navigations, toVisit, visited, allEmails, trackers);
      navigations := navigations + 1;
    }
    result := CrawlResult(allEmails, trackers);
  }

}
