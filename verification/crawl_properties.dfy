/** What a whole crawl guarantees, stated against the log of navigations it
    made (`Attempts`): which URLs end up visited, where every email and
    tracker came from, that no successfully rendered URL is rendered twice,
    and that a crawl which ran out of frontier tried every in-scope link it
    found. */
module CrawlProperties {

  import opened Strings
  import opened OrderedSets
  import opened EmailExtractor
  import opened TrackerClassifier
  import opened Crawler

  /** The log from `s` is the navigation of its first iteration, if it
      navigated, followed by the log of the rest of the loop. */
  lemma AttemptsUnfold(startUrl: string, maxPages: nat, render: Renderer, s: Session)
    requires Valid(startUrl, maxPages, s) && Continues(maxPages, s)
    ensures var url := s.frontier[0];
      Attempts(startUrl, maxPages, render, s)
        == (if url in s.visited then [] else [Attempt(s.navigations, url, render(s.navigations, url))])
           + Attempts(startUrl, maxPages, render, Next(startUrl, render, s))
  {
  }

  /** The positional half of one step of `LoadedUrlNeverRetried`, over plain
      values: a loaded first entry is not repeated in the tail, and the tail
      repeats no loaded URL of its own. */
  lemma NeverRetriedStep(log: seq<Attempt>, a: Attempt, tail: seq<Attempt>)
    requires log == [a] + tail
    requires a.page.Loaded? ==> forall b :: b in tail ==> b.url != a.url
    requires forall i, j :: 0 <= i < j < |tail| && tail[i].page.Loaded? ==> tail[i].url != tail[j].url
    ensures forall i, j :: 0 <= i < j < |log| && log[i].page.Loaded? ==> log[i].url != log[j].url
  {
    forall i, j | 0 <= i < j < |log| && log[i].page.Loaded?
      ensures log[i].url != log[j].url
    {
      assert log[j] == tail[j - 1];
      if i > 0 {
        assert log[i] == tail[i - 1];
      }
    }
  }

  /** The log's entries carry consecutive navigation numbers, starting from
      the session's count: the i-th navigation of the run is the session's
      navigation number `s.navigations + i`. With `AttemptsAreFreshRenders`
      (`a.page == render(a.index, a.url)`), the i-th entry holds the browser's
      answer to that navigation. */
  lemma {:induction false} AttemptsNumbered(startUrl: string, maxPages: nat, render: Renderer, s: Session)
    requires Valid(startUrl, maxPages, s)
    ensures var log := Attempts(startUrl, maxPages, render, s);
      forall i :: 0 <= i < |log| ==> log[i].index == s.navigations + i
    decreases maxPages - |s.visited|, |s.frontier|
  {
    var log := Attempts(startUrl, maxPages, render, s);
    if !Continues(maxPages, s) {
      assert log == [];
    } else {
      var n := Next(startUrl, render, s);
      RunUnfolds(startUrl, maxPages, render, s);
      AttemptsUnfold(startUrl, maxPages, render, s);
      AttemptsNumbered(startUrl, maxPages, render, n);
      NextNavigates(startUrl, render, s);
      var url := s.frontier[0];
      if url in s.visited {
        assert log == Attempts(startUrl, maxPages, render, n);
      } else {
        var a := Attempt(s.navigations, url, render(s.navigations, url));
        IndexStep(log, a, Attempts(startUrl, maxPages, render, n), s.navigations, n.navigations);
      }
    }
  }

  /** The numbering half of one step of `AttemptsNumbered`, over plain
      values. */
  lemma IndexStep(log: seq<Attempt>, a: Attempt, tail: seq<Attempt>, first: nat, next: nat)
    requires log == [a] + tail && a.index == first && next == first + 1
    requires forall i :: 0 <= i < |tail| ==> tail[i].index == next + i
    ensures forall i :: 0 <= i < |log| ==> log[i].index == first + i
  {
    forall i | 0 <= i < |log|
      ensures log[i].index == first + i
    {
      if i > 0 {
        assert log[i] == tail[i - 1];
      }
    }
  }

  /** Every navigation goes to an in-scope URL that was not visited when the
      run started, and reports what the browser answered for that navigation
      of the session. */
  lemma {:induction false} AttemptsAreFreshRenders(startUrl: string, maxPages: nat, render: Renderer, s: Session)
    requires Valid(startUrl, maxPages, s)
    ensures forall a :: a in Attempts(startUrl, maxPages, render, s) ==>
      && a.url !in s.visited
      && InScope(startUrl, a.url)
      && s.navigations <= a.index
      && a.page == render(a.index, a.url)
    decreases maxPages - |s.visited|, |s.frontier|
  {
    if Continues(maxPages, s) {
      var n := Next(startUrl, render, s);
      RunUnfolds(startUrl, maxPages, render, s);
      AttemptsUnfold(startUrl, maxPages, render, s);
      AttemptsAreFreshRenders(startUrl, maxPages, render, n);
      NextNavigates(startUrl, render, s);
      var url := s.frontier[0];
      if url !in s.visited {
        var a := Attempt(s.navigations, url, render(s.navigations, url));
        assert Attempts(startUrl, maxPages, render, s) == [a] + Attempts(startUrl, maxPages, render, n);
      }
    }
  }

  /** A URL whose navigation loaded is never navigated to again: no later
      entry of the log, by position or by navigation number, goes to it. */
  lemma {:induction false} LoadedUrlNeverRetried(startUrl: string, maxPages: nat, render: Renderer, s: Session)
    requires Valid(startUrl, maxPages, s)
    ensures var log := Attempts(startUrl, maxPages, render, s);
      forall a, b :: a in log && b in log && a.page.Loaded? && a.index < b.index ==> a.url != b.url
    ensures var log := Attempts(startUrl, maxPages, render, s);
      forall i, j :: 0 <= i < j < |log| && log[i].page.Loaded? ==> log[i].url != log[j].url
    decreases maxPages - |s.visited|, |s.frontier|
  {
    if Continues(maxPages, s) {
      var n := Next(startUrl, render, s);
      RunUnfolds(startUrl, maxPages, render, s);
      AttemptsUnfold(startUrl, maxPages, render, s);
      LoadedUrlNeverRetried(startUrl, maxPages, render, n);
      NextNavigates(startUrl, render, s);
      var url := s.frontier[0];
      if url !in s.visited {
        AttemptsAreFreshRenders(startUrl, maxPages, render, n);
        var first := Attempt(s.navigations, url, render(s.navigations, url));
        assert Attempts(startUrl, maxPages, render, s) == [first] + Attempts(startUrl, maxPages, render, n);
        if first.page.Loaded? {
          assert url in n.visited;
        }
        NeverRetriedStep(Attempts(startUrl, maxPages, render, s), first, Attempts(startUrl, maxPages, render, n));
      }
    }
  }

  /** A URL is visited at the end exactly when it was visited at the start or
      one of the crawl's navigations to it loaded. */
  lemma {:induction false} RunVisitedExactly(startUrl: string, maxPages: nat, render: Renderer, s: Session)
    requires Valid(startUrl, maxPages, s)
    ensures var r, log := Run(startUrl, maxPages, render, s), Attempts(startUrl, maxPages, render, s);
      forall u :: u in r.visited <==> u in s.visited || exists a :: a in log && a.url == u && a.page.Loaded?
    decreases maxPages - |s.visited|, |s.frontier|
  {
    if Continues(maxPages, s) {
      var n := Next(startUrl, render, s);
      RunUnfolds(startUrl, maxPages, render, s);
      AttemptsUnfold(startUrl, maxPages, render, s);
      RunVisitedExactly(startUrl, maxPages, render, n);
      var url := s.frontier[0];
      if url !in s.visited {
        var a := Attempt(s.navigations, url, render(s.navigations, url));
        assert Attempts(startUrl, maxPages, render, s) == [a] + Attempts(startUrl, maxPages, render, n);
      }
    }
  }

  /** The tracker set ends up holding exactly the tracker-classified request
      URLs of the navigations, failed ones included, besides what it held. */
  lemma {:induction false} RunTrackersExactly(startUrl: string, maxPages: nat, render: Renderer, s: Session)
    requires Valid(startUrl, maxPages, s)
    ensures var r, log := Run(startUrl, maxPages, render, s), Attempts(startUrl, maxPages, render, s);
      forall u :: u in r.trackers <==> u in s.trackers || (IsTracker(u) && exists a :: a in log && u in a.page.requests)
    decreases maxPages - |s.visited|, |s.frontier|
  {
    if Continues(maxPages, s) {
      var n := Next(startUrl, render, s);
      RunUnfolds(startUrl, maxPages, render, s);
      AttemptsUnfold(startUrl, maxPages, render, s);
      RunTrackersExactly(startUrl, maxPages, render, n);
      var url := s.frontier[0];
      if url !in s.visited {
        var a := Attempt(s.navigations, url, render(s.navigations, url));
        assert Attempts(startUrl, maxPages, render, s) == [a] + Attempts(startUrl, maxPages, render, n);
        assert forall u :: u in n.trackers <==> u in s.trackers || (u in a.page.requests && IsTracker(u));
      }
    }
  }

  /** The email set ends up holding exactly the matches in the text of every
      navigation whose text was read, besides what it held. */
  lemma {:induction false} RunEmailsExactly(startUrl: string, maxPages: nat, render: Renderer, s: Session)
    requires Valid(startUrl, maxPages, s)
    ensures var r, log := Run(startUrl, maxPages, render, s), Attempts(startUrl, maxPages, render, s);
      forall e :: e in r.emails <==> e in s.emails || exists a :: a in log && !a.page.Failed? && e in ExtractEmails(a.page.text)
    decreases maxPages - |s.visited|, |s.frontier|
  {
    if Continues(maxPages, s) {
      var n := Next(startUrl, render, s);
      RunUnfolds(startUrl, maxPages, render, s);
      AttemptsUnfold(startUrl, maxPages, render, s);
      RunEmailsExactly(startUrl, maxPages, render, n);
      var url := s.frontier[0];
      if url !in s.visited {
        var a := Attempt(s.navigations, url, render(s.navigations, url));
        assert Attempts(startUrl, maxPages, render, s) == [a] + Attempts(startUrl, maxPages, render, n);
        assert forall e :: e in n.emails <==> e in s.emails || (!a.page.Failed? && e in ExtractEmails(a.page.text));
      }
    }
  }

  /** The email tokens the crawl reads, in log order: the matches of every
      page text that was read, navigation after navigation. */
  function EmailsRead(log: seq<Attempt>): seq<string>
    decreases |log|
  {
    if log == [] then []
    else (if log[0].page.Failed? then [] else ExtractEmails(log[0].page.text)) + EmailsRead(log[1..])
  }

  /** The tracker URLs the listener flags, in log order: the flagged requests
      of every navigation, failed ones included. */
  function RequestsFlagged(log: seq<Attempt>): seq<string>
    decreases |log|
  {
    if log == [] then [] else TrackerRequests(log[0].page.requests) + RequestsFlagged(log[1..])
  }

  /** Reading one more navigation's emails first. */
  lemma EmailsReadCons(a: Attempt, tail: seq<Attempt>)
    ensures EmailsRead([a] + tail) == (if a.page.Failed? then [] else ExtractEmails(a.page.text)) + EmailsRead(tail)
  {
  }

  /** Reading one more navigation's requests first. */
  lemma RequestsFlaggedCons(a: Attempt, tail: seq<Attempt>)
    ensures RequestsFlagged([a] + tail) == TrackerRequests(a.page.requests) + RequestsFlagged(tail)
  {
  }

  /** The whole loop adds the emails it reads to the set in the order it
      reads them: one `forEach(add)` over the log's emails. */
  lemma {:induction false} RunEmailsInOrder(startUrl: string, maxPages: nat, render: Renderer, s: Session)
    requires Valid(startUrl, maxPages, s)
    ensures Run(startUrl, maxPages, render, s).emails
      == AddAll(s.emails, EmailsRead(Attempts(startUrl, maxPages, render, s)))
    decreases maxPages - |s.visited|, |s.frontier|
  {
    var log := Attempts(startUrl, maxPages, render, s);
    if !Continues(maxPages, s) {
      assert log == [];
      assert AddAll(s.emails, EmailsRead(log)) == s.emails;
    } else {
      var n := Next(startUrl, render, s);
      RunUnfolds(startUrl, maxPages, render, s);
      AttemptsUnfold(startUrl, maxPages, render, s);
      RunEmailsInOrder(startUrl, maxPages, render, n);
      var tail := Attempts(startUrl, maxPages, render, n);
      var url := s.frontier[0];
      if url in s.visited {
        assert log == [] + tail == tail;
        assert n.emails == s.emails;
      } else {
        var a := Attempt(s.navigations, url, render(s.navigations, url));
        assert log == [a] + tail;
        EmailsReadCons(a, tail);
        var mine := if a.page.Failed? then [] else ExtractEmails(a.page.text);
        assert n.emails == AddAll(s.emails, mine);
        AddAllConcat(s.emails, mine, EmailsRead(tail));
      }
    }
  }

  /** The whole loop adds the flagged requests to the tracker set in the
      order the listener sees them. */
  lemma {:induction false} RunTrackersInOrder(startUrl: string, maxPages: nat, render: Renderer, s: Session)
    requires Valid(startUrl, maxPages, s)
    ensures Run(startUrl, maxPages, render, s).trackers
      == AddAll(s.trackers, RequestsFlagged(Attempts(startUrl, maxPages, render, s)))
    decreases maxPages - |s.visited|, |s.frontier|
  {
    var log := Attempts(startUrl, maxPages, render, s);
    if !Continues(maxPages, s) {
      assert log == [];
      assert AddAll(s.trackers, RequestsFlagged(log)) == s.trackers;
    } else {
      var n := Next(startUrl, render, s);
      RunUnfolds(startUrl, maxPages, render, s);
      AttemptsUnfold(startUrl, maxPages, render, s);
      RunTrackersInOrder(startUrl, maxPages, render, n);
      var tail := Attempts(startUrl, maxPages, render, n);
      var url := s.frontier[0];
      if url in s.visited {
        assert log == [] + tail == tail;
        assert n.trackers == s.trackers;
      } else {
        var a := Attempt(s.navigations, url, render(s.navigations, url));
        assert log == [a] + tail;
        RequestsFlaggedCons(a, tail);
        var mine := TrackerRequests(a.page.requests);
        assert n.trackers == AddAll(s.trackers, mine);
        AddAllConcat(s.trackers, mine, RequestsFlagged(tail));
      }
    }
  }

  /** The two lists a crawl returns hold each email and each tracker once, in
      the order the crawl first met it: this is what `Array.from` of the two
      sets reports. */
  lemma CrawlResultOrder(startUrl: string, maxPages: nat, render: Renderer)
    ensures Valid(startUrl, maxPages, Init(startUrl))
    ensures var r, log := Run(startUrl, maxPages, render, Init(startUrl)), Attempts(startUrl, maxPages, render, Init(startUrl));
      && r.emails == AddAll([], EmailsRead(log))
      && InFirstOccurrenceOrder(r.emails, 0, EmailsRead(log))
      && r.trackers == AddAll([], RequestsFlagged(log))
      && InFirstOccurrenceOrder(r.trackers, 0, RequestsFlagged(log))
  {
    var s := Init(startUrl);
    assert StartsWith(startUrl, startUrl);
    assert Valid(startUrl, maxPages, s);
    var log := Attempts(startUrl, maxPages, render, s);
    RunEmailsInOrder(startUrl, maxPages, render, s);
    RunTrackersInOrder(startUrl, maxPages, render, s);
    AddAllKeepsFirstInsertionOrder([], EmailsRead(log));
    AddAllKeepsFirstInsertionOrder([], RequestsFlagged(log));
  }

  /** Some navigation in `log` went to `u`. */
  ghost predicate Tried(log: seq<Attempt>, u: string)
  {
    exists b :: b in log && b.url == u
  }

  /** The frontier half of one step of `DrainedCrawlTriedFrontier`, over
      plain values: the head of the frontier was either visited already or
      navigated to, and the rest of it survives into the next frontier. */
  lemma FrontierStep(log: seq<Attempt>, here: seq<Attempt>, tail: seq<Attempt>,
                     frontier: seq<string>, visited: set<string>, next: seq<string>, final: set<string>)
    requires log == here + tail && frontier != []
    requires frontier[0] in visited || (here != [] && here[0].url == frontier[0])
    requires IsPrefix(frontier[1..], next) && visited <= final
    requires forall u :: u in next ==> u in final || Tried(tail, u)
    ensures forall u :: u in frontier ==> u in final || Tried(log, u)
  {
    forall u | u in frontier
      ensures u in final || Tried(log, u)
    {
      if u == frontier[0] {
        if u !in visited {
          assert here[0] in log;
        }
      } else {
        assert u in frontier[1..];
        assert u in next;
        if !(u in final) {
          var b :| b in tail && b.url == u;
          assert b in log;
        }
      }
    }
  }

  /** When the crawl stops because the frontier ran dry (not because of the
      budget), every URL that was waiting was either visited or navigated
      to. */
  lemma {:induction false} DrainedCrawlTriedFrontier(startUrl: string, maxPages: nat, render: Renderer, s: Session)
    requires Valid(startUrl, maxPages, s)
    ensures var r, log := Run(startUrl, maxPages, render, s), Attempts(startUrl, maxPages, render, s);
      r.frontier == [] ==> forall u :: u in s.frontier ==> u in r.visited || Tried(log, u)
    decreases maxPages - |s.visited|, |s.frontier|
  {
    if Continues(maxPages, s) {
      var n := Next(startUrl, render, s);
      RunUnfolds(startUrl, maxPages, render, s);
      AttemptsUnfold(startUrl, maxPages, render, s);
      DrainedCrawlTriedFrontier(startUrl, maxPages, render, n);
      NextQueues(startUrl, render, s);
      var r := Run(startUrl, maxPages, render, n);
      if r.frontier == [] {
        var url := s.frontier[0];
        var here := if url in s.visited then [] else [Attempt(s.navigations, url, render(s.navigations, url))];
        FrontierStep(Attempts(startUrl, maxPages, render, s), here, Attempts(startUrl, maxPages, render, n),
                     s.frontier, s.visited, n.frontier, r.visited);
      }
    }
  }

  /** The in-scope links of a page that loaded, as the crawl sees them. */
  ghost predicate LinkOf(startUrl: string, a: Attempt, l: string)
  {
    a.page.Loaded? && l in HttpLinks(a.page.hrefs) && InScope(startUrl, l)
  }

  /** One step of `DrainedCrawlTriedEveryLink`, over plain values: the links
      of the page just rendered were visited or queued, and queued URLs end
      up visited or navigated to. */
  lemma EveryLinkStep(startUrl: string, log: seq<Attempt>, here: seq<Attempt>, tail: seq<Attempt>,
                      visited: set<string>, next: seq<string>, final: set<string>)
    requires log == here + tail && visited <= final
    requires forall a, l :: a in here && LinkOf(startUrl, a, l) ==> l in visited || l in next
    requires forall u :: u in next ==> u in final || Tried(tail, u)
    requires forall a, l :: a in tail && LinkOf(startUrl, a, l) ==> l in final || Tried(tail, l)
    ensures forall a, l :: a in log && LinkOf(startUrl, a, l) ==> l in final || Tried(log, l)
  {
    forall a, l | a in log && LinkOf(startUrl, a, l)
      ensures l in final || Tried(log, l)
    {
      if !(l in final) {
        assert Tried(tail, l) by {
          if a in here {
            assert l in next;
          }
        }
        var b :| b in tail && b.url == l;
        assert b in log;
      }
    }
  }

  /** When the crawl stops because the frontier ran dry, every in-scope link
      of every page that loaded was either visited or navigated to. */
  lemma {:induction false} DrainedCrawlTriedEveryLink(startUrl: string, maxPages: nat, render: Renderer, s: Session)
    requires Valid(startUrl, maxPages, s)
    ensures var r, log := Run(startUrl, maxPages, render, s), Attempts(startUrl, maxPages, render, s);
      r.frontier == [] ==> forall a, l :: a in log && LinkOf(startUrl, a, l) ==> l in r.visited || Tried(log, l)
    decreases maxPages - |s.visited|, |s.frontier|
  {
    if !Continues(maxPages, s) {
      assert Attempts(startUrl, maxPages, render, s) == [];
    } else {
      var n := Next(startUrl, render, s);
      RunUnfolds(startUrl, maxPages, render, s);
      AttemptsUnfold(startUrl, maxPages, render, s);
      DrainedCrawlTriedEveryLink(startUrl, maxPages, render, n);
      var r := Run(startUrl, maxPages, render, n);
      if r.frontier == [] {
        DrainedCrawlTriedFrontier(startUrl, maxPages, render, n);
        NextQueues(startUrl, render, s);
        var url := s.frontier[0];
        var here := if url in s.visited then [] else [Attempt(s.navigations, url, render(s.navigations, url))];
        forall a, l | a in here && LinkOf(startUrl, a, l)
          ensures l in s.visited || l in n.frontier
        {
          assert n.frontier == Enqueue(startUrl, s.visited, s.frontier[1..], HttpLinks(a.page.hrefs));
        }
        EveryLinkStep(startUrl, Attempts(startUrl, maxPages, render, s), here, Attempts(startUrl, maxPages, render, n),
                      s.visited, n.frontier, r.visited);
      }
    }
  }

  /** The guarantees of a crawl from its start URL, as `crawlDomain` runs it. */
  lemma CrawlGuarantees(startUrl: string, maxPages: nat, render: Renderer)
    ensures Valid(startUrl, maxPages, Init(startUrl))
    ensures var r, log := Run(startUrl, maxPages, render, Init(startUrl)), Attempts(startUrl, maxPages, render, Init(startUrl));
      // the budget bounds the visited set, and is reached unless the frontier ran dry
      && |r.visited| <= maxPages
      && (r.frontier == [] || |r.visited| == maxPages)
      // scope: only URLs beginning with the start URL are navigated to or visited
      && (forall a :: a in log ==> StartsWith(a.url, startUrl))
      && (forall u :: u in r.visited ==> StartsWith(u, startUrl))
      // visited means loaded
      && (forall u :: u in r.visited <==> exists a :: a in log && a.url == u && a.page.Loaded?)
      // every email is an email-shaped piece of a page text that was read
      && NoDups(r.emails)
      && (forall e :: e in r.emails ==> IsEmail(e) && exists a :: a in log && !a.page.Failed? && Occurs(e, a.page.text))
      && (forall a, e :: a in log && !a.page.Failed? && e in ExtractEmails(a.page.text) ==> e in r.emails)
      // trackers are exactly the classified requests, failed navigations included
      && NoDups(r.trackers)
      && (forall u :: u in r.trackers <==> IsTracker(u) && exists a :: a in log && u in a.page.requests)
  {
    var s := Init(startUrl);
    assert StartsWith(startUrl, startUrl);
    assert Valid(startUrl, maxPages, s);
    var log := Attempts(startUrl, maxPages, render, s);
    AttemptsAreFreshRenders(startUrl, maxPages, render, s);
    RunKeepsResultsWellFormed(startUrl, maxPages, render, s);
    RunVisitedExactly(startUrl, maxPages, render, s);
    RunEmailsExactly(startUrl, maxPages, render, s);
    RunTrackersExactly(startUrl, maxPages, render, s);
  }

}
