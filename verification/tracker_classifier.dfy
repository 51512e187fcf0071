/** The tracker classifier of the request listener: a request URL is a
    tracker when it contains one of three fixed markers anywhere in it. The
    test is a plain substring test, so a URL that merely mentions a marker in
    its path or query is classified as a tracker too. */
module TrackerClassifier {

  import opened Strings

  const Google := "google"
  const Facebook := "facebook"
  const DoubleClick := "doubleclick"

  /** The markers looked for in a request URL, in the order of the source. */
  const Markers: seq<string> := [Google, Facebook, DoubleClick]

  /** `url.includes('google') || url.includes('facebook') ||
      url.includes('doubleclick')`. */
  function IsTracker(url: string): (r: bool)
    ensures r <==> exists m :: m in Markers && Occurs(m, url)
  {
    Contains(url, Google) || Contains(url, Facebook) || Contains(url, DoubleClick)
  }

  /** The classifier looks only for the markers: text around one does not
      matter, so every URL that has a marker inside it is a tracker. */
  lemma MarkerAnywhereIsTracker(before: string, m: string, after: string)
    requires m in Markers
    ensures IsTracker(before + m + after)
  {
    var url := before + m + after;
    assert url[|before|..|before| + |m|] == m;
  }

  /** A URL in which none of the markers' first letters appears is not a
      tracker. */
  lemma WithoutMarkerInitialsNotTracker(url: string)
    requires 'g' !in url && 'f' !in url && 'd' !in url
    ensures !IsTracker(url)
  {
    forall m, i, j | m in Markers && 0 <= i <= j <= |url|
      ensures url[i..j] != m
    {
      if i < j {
        assert url[i..j][0] == url[i];
      }
    }
  }

}
