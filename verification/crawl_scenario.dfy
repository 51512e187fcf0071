/** A worked example: a two-page site crawled with a budget of 2.
    The home page mentions one address and links to an in-scope page and to
    another site; the second page mentions another address and links
    nowhere. */
module CrawlScenario {

  import opened Strings
  import opened OrderedSets
  import opened EmailExtractor
  import opened Crawler

  const Home := "https://example.com"
  const About := "https://example.com/about"
  const Other := "https://other.org"
  const AddressA := "a@example.com"
  const AddressB := "b@example.com"
  const HomeText := "contact me: a@example.com"

  /** The site, answering the same on every navigation. */
  function ExampleSite(n: nat, url: string): PageResult
  {
    if url == Home then Loaded(HomeText, [About, Other], [])
    else if url == About then Loaded(AddressB, [], [])
    else Failed([])
  }

  /** The home page's text holds one address, after a separator. */
  lemma HomeAddress()
    ensures ExtractEmails(HomeText) == [AddressA]
  {
    assert SplitsAsEmail(AddressA, 1, 9);
    assert HomeText == "contact me: " + AddressA;
    ExtractsEmailAfterSeparator("contact me: ", AddressA);
  }

  /** The second page's text is exactly one address. */
  lemma AboutAddress()
    ensures ExtractEmails(AddressB) == [AddressB]
  {
    assert SplitsAsEmail(AddressB, 1, 9);
    ExtractsWholeEmail(AddressB);
  }

  /** The home page's anchors are both `http` links; only one is in scope. */
  lemma ExampleLinks()
    ensures HttpLinks([About, Other]) == [About, Other]
    ensures Enqueue(Home, {}, [], [About, Other]) == [About]
  {
    assert StartsWith(About, "http") && StartsWith(Other, "http");
    assert StartsWith(About, Home);
    assert !StartsWith(Other, Home);
  }

  /** Navigation 0 renders the home page: one address, one link queued. */
  lemma ExampleFirstVisit()
    ensures Visit(Home, Session([], {}, [], [], 0), Home, ExampleSite(0, Home))
      == Session([About], {Home}, [AddressA], [], 1)
  {
    HomeAddress();
    ExampleLinks();
    assert AddAll([], ExtractEmails(HomeText)) == [AddressA];
    assert ExampleSite(0, Home) == Loaded(HomeText, [About, Other], []);
    assert TrackerRequests([]) == [];
  }

  lemma AddsOneNew(xs: seq<string>, ys: seq<string>, y: string)
    requires ys == [y] && y !in xs
    ensures AddAll(xs, ys) == xs + [y]
  {
    assert ys[..0] == [];
  }

  lemma ExampleSecondEmails()
    ensures AddAll([AddressA], ExtractEmails(AddressB)) == [AddressA, AddressB]
  {
    AboutAddress();
    assert AddressB !in [AddressA] by {
      assert AddressA[0] != AddressB[0];
    }
    AddsOneNew([AddressA], ExtractEmails(AddressB), AddressB);
  }

  /** Navigation 1 renders the second page: the other address, no links. */
  lemma ExampleSecondVisit()
    ensures Visit(Home, Session([], {Home}, [AddressA], [], 1), About, ExampleSite(1, About))
      == Session([], {Home, About}, [AddressA, AddressB], [], 2)
  {
    ExampleSecondEmails();
    assert ExampleSite(1, About) == Loaded(AddressB, [], []);
    assert TrackerRequests([]) == [];
    assert HttpLinks([]) == [];
  }

  /** Both pages are visited, both addresses found, and the other site is
      never visited. */
  lemma ExampleCrawl()
    ensures var r := Run(Home, 2, ExampleSite, Init(Home));
      && r.visited == {Home, About}
      && r.emails == [AddressA, AddressB]
      && r.trackers == []
      && Other !in r.visited
  {
    var s0 := Init(Home);
    assert StartsWith(Home, Home);
    var s1 := Session([About], {Home}, [AddressA], [], 1);
    var s2 := Session([], {Home, About}, [AddressA, AddressB], [], 2);
    RunUnfolds(Home, 2, ExampleSite, s0);
    ExampleFirstVisit();
    assert Next(Home, ExampleSite, s0) == s1;
    assert About !in {Home} by {
      assert About[8] != Home[8] || |About| != |Home|;
    }
    RunUnfolds(Home, 2, ExampleSite, s1);
    ExampleSecondVisit();
    assert Next(Home, ExampleSite, s1) == s2;
    assert Other != Home && Other != About;
  }

}
