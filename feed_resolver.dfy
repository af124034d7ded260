/** Turning a user-supplied podcast locator into a fetchable feed URL
    (`resolve_feed_url` in features/rss_ingest.py). A pure string classifier with three
    ordered branches: Apple Podcasts page, direct feed URL, anything else. */
module FeedResolver {
  import opened Wrappers
  import opened Strings

  /** The substring that marks an Apple Podcasts page. */
  const AppleHost := "podcasts.apple.com"
  /** The canonical Apple feed URL is this prefix, the podcast id, then `FeedSuffix`. */
  const AppleFeedPrefix := "https://podcasts.apple.com/rss/podcast/"
  const FeedSuffix := ".xml"
  /** A locator containing this substring anywhere is taken to be a feed already. */
  const RssMarker := "rss"

  /** The regular expression `id(\d+)` matches `s` at index `i`: the literal `id`
      followed by at least one digit. */
  predicate IdMatchAt(s: string, i: nat) {
    i + 2 < |s| && s[i] == 'i' && s[i + 1] == 'd' && IsDigit(s[i + 2])
  }

  /** `re.search(r'id(\d+)', s)` finds something. */
  ghost predicate HasIdMatch(s: string) {
    exists i: nat :: IdMatchAt(s, i)
  }

  /** `i` is where `re.search` reports its match: the leftmost index at which the pattern matches. */
  predicate LeftmostIdMatchAt(s: string, i: nat) {
    IdMatchAt(s, i) && forall j: nat :: j < i ==> !IdMatchAt(s, j)
  }

  /** End of the maximal run of digits that starts at `j` (what the greedy `\d+` consumes). */
  function DigitRunEnd(s: string, j: nat): (k: nat)
    requires j <= |s|
    ensures j <= k <= |s|
    ensures forall m :: j <= m < k ==> IsDigit(s[m])
    ensures k == |s| || !IsDigit(s[k])
    decreases |s| - j
  {
    if j < |s| && IsDigit(s[j]) then DigitRunEnd(s, j + 1) else j
  }

  /** Scans for the first index at or after `from` where `id(\d+)` matches. */
  function SearchId(s: string, from: nat): (r: Option<nat>)
    requires from <= |s|
    ensures r.Some? ==> from <= r.value && IdMatchAt(s, r.value)
    ensures r.Some? ==> forall j: nat :: from <= j < r.value ==> !IdMatchAt(s, j)
    ensures r.None? ==> forall j: nat :: from <= j ==> !IdMatchAt(s, j)
    decreases |s| - from
  {
    if from + 2 >= |s| then None
    else if IdMatchAt(s, from) then Some(from)
    else SearchId(s, from + 1)
  }

  /** `match.group(1)` of `re.search(r'id(\d+)', s)`: the digit run after the leftmost
      `id` that is followed by a digit, or nothing when the pattern does not occur. */
  function AppleId(s: string): (r: Option<string>)
    ensures r.Some? <==> HasIdMatch(s)
    ensures forall i: nat :: LeftmostIdMatchAt(s, i) ==> r == Some(s[i + 2..DigitRunEnd(s, i + 2)])
    ensures r.Some? ==> |r.value| > 0 && AllDigits(r.value)
  {
    match SearchId(s, 0)
    case None => None
    case Some(i) =>
      assert LeftmostIdMatchAt(s, i);
      Some(s[i + 2..DigitRunEnd(s, i + 2)])
  }

  /** The canonical feed URL of the Apple podcast with the given id. */
  function AppleFeedUrl(id: string): string {
    AppleFeedPrefix + id + FeedSuffix
  }

  /** `resolve_feed_url`: `None` where the source prints a warning and returns `None`. */
  function ResolveFeedUrl(input: string): (r: Option<string>)
    // Apple branch, checked first: the result exists exactly when an id can be extracted,
    // and then it is the canonical URL built from the leftmost id's full digit run.
    ensures Contains(input, AppleHost) ==> (r.Some? <==> HasIdMatch(input))
    ensures Contains(input, AppleHost) ==>
              forall i: nat :: LeftmostIdMatchAt(input, i) ==>
                r == Some(AppleFeedUrl(input[i + 2..DigitRunEnd(input, i + 2)]))
    // Direct-feed branch: the input itself.
    ensures !Contains(input, AppleHost) && (EndsWith(input, FeedSuffix) || Contains(input, RssMarker)) ==>
              r == Some(input)
    // Everything else is unsupported.
    ensures !Contains(input, AppleHost) && !EndsWith(input, FeedSuffix) && !Contains(input, RssMarker) ==>
              r == None
  {
    if Contains(input, AppleHost) then
      match AppleId(input)
      case Some(id) => Some(AppleFeedUrl(id))
      case None => None
    else if EndsWith(input, FeedSuffix) || Contains(input, RssMarker) then
      Some(input)
    else
      None
  }

  /** A resolved feed URL is either the unchanged input or a canonical Apple feed URL
      built from a non-empty run of digits. */
  lemma ResolvedShape(input: string)
    requires ResolveFeedUrl(input).Some?
    ensures var url := ResolveFeedUrl(input).value;
            url == input || exists id :: |id| > 0 && AllDigits(id) && url == AppleFeedUrl(id)
  {
    if Contains(input, AppleHost) {
      var id := AppleId(input).value;
      assert ResolveFeedUrl(input).value == AppleFeedUrl(id);
    }
  }

  /** A resolved URL always passes the direct-feed test itself, and is never empty
      (so the caller's truthiness test `if rss_feed:` is the same as "not None"). */
  lemma ResolvedLooksLikeFeed(input: string)
    requires ResolveFeedUrl(input).Some?
    ensures var url := ResolveFeedUrl(input).value;
            |url| > 0 && (EndsWith(url, FeedSuffix) || Contains(url, RssMarker))
  {
    var url := ResolveFeedUrl(input).value;
    if Contains(input, AppleHost) {
      var id := AppleId(input).value;
      assert url == AppleFeedPrefix + id + FeedSuffix;
      assert url[|url| - |FeedSuffix|..] == FeedSuffix;
    } else if !EndsWith(input, FeedSuffix) {
      var i: nat :| i <= |input| && OccursAt(input, RssMarker, i);
      assert |url| >= i + 3;
    }
  }

  /** A canonical Apple feed URL has no letter `i`, so it carries no `id<digits>`. */
  lemma AppleFeedUrlHasNoId(id: string)
    requires AllDigits(id)
    ensures !HasIdMatch(AppleFeedUrl(id))
  {
    var url := AppleFeedUrl(id);
    assert 'i' !in AppleFeedPrefix && 'i' !in FeedSuffix;
    forall k | 0 <= k < |url| ensures url[k] != 'i' {
      if k < |AppleFeedPrefix| {
        assert url[k] == AppleFeedPrefix[k];
      } else if k < |AppleFeedPrefix| + |id| {
        assert url[k] == id[k - |AppleFeedPrefix|];
      } else {
        assert url[k] == FeedSuffix[k - |AppleFeedPrefix| - |id|];
      }
    }
  }

  /** Because the Apple branch is tested first, the resolver rejects its own canonical
      Apple output: it contains the Apple host, ends in `.xml` and contains `rss`, yet
      resolving it again gives `None`. */
  lemma CanonicalAppleUrlNotReaccepted(id: string)
    requires |id| > 0 && AllDigits(id)
    ensures var url := AppleFeedUrl(id);
            Contains(url, AppleHost) && EndsWith(url, FeedSuffix) && Contains(url, RssMarker) &&
            ResolveFeedUrl(url) == None
  {
    var url := AppleFeedUrl(id);
    assert forall k :: 0 <= k < |AppleFeedPrefix| ==> url[k] == AppleFeedPrefix[k];
    OccursAtByChars(url, AppleHost, 8);
    OccursAtByChars(url, RssMarker, 27);
    assert url[|url| - |FeedSuffix|..] == FeedSuffix;
    AppleFeedUrlHasNoId(id);
  }

  /** A direct feed URL is a fixed point of the resolver. */
  lemma DirectFeedIsFixedPoint(input: string)
    requires !Contains(input, AppleHost)
    requires EndsWith(input, FeedSuffix) || Contains(input, RssMarker)
    ensures ResolveFeedUrl(ResolveFeedUrl(input).value) == ResolveFeedUrl(input)
  {
  }

  /** The digit run that reaches the end of `s` ends there. */
  lemma {:induction false} DigitRunToEnd(s: string, j: nat)
    requires j <= |s|
    requires forall m :: j <= m < |s| ==> IsDigit(s[m])
    ensures DigitRunEnd(s, j) == |s|
    decreases |s| - j
  {
    if j < |s| {
      DigitRunToEnd(s, j + 1);
    }
  }

  /** An Apple page whose first `id<digit>` is the `id` in front of the digits `id` resolves
      to the canonical feed of `id`: the path before it may hold any text without an
      `id<digit>` match (`/us/podcast/the-daily/` or `/idea/` included), the greedy digit run stops at the
      first non-digit, and a later `id<digits>` in `rest` is ignored. */
  lemma ApplePageResolves(page: string, id: string, rest: string)
    requires !HasIdMatch(page)
    requires |id| > 0 && AllDigits(id)
    requires rest == [] || !IsDigit(rest[0])
    ensures ResolveFeedUrl("https://" + AppleHost + page + "id" + id + rest) == Some(AppleFeedUrl(id))
  {
    var p := "https://" + AppleHost + page;
    var s := p + "id" + id + rest;
    IdFreeAfterIdFree("https://" + AppleHost, page);
    AppleHostPrefix(page, "id" + id + rest);
    assert s == p + ("id" + id + rest);
    LeftmostAtMarker(p, id, rest);
    DigitRunOfId(p + "id", id, rest);
    ResolveAtLeftmost(s, |p|);
  }

  /** The Apple host occurs in any string that starts with `https://` and the host. */
  lemma AppleHostPrefix(page: string, t: string)
    ensures Contains("https://" + AppleHost + page + t, AppleHost)
  {
    assert "https://" + AppleHost + page + t == "https://" + AppleHost + (page + t);
    ContainsInMiddle("https://", AppleHost, page + t);
  }

  /** A string without the letter `i` followed by one without an id match has no id match:
      every match starts with an `i`. */
  lemma IdFreeAfterIdFree(a: string, b: string)
    requires 'i' !in a && !HasIdMatch(b)
    ensures !HasIdMatch(a + b)
  {
    forall j: nat ensures !IdMatchAt(a + b, j) {
      if j < |a| {
        assert (a + b)[j] == a[j];
      } else {
        assert !IdMatchAt(b, j - |a|);
        assert forall m :: j <= m < |a + b| ==> (a + b)[m] == b[m - |a|];
      }
    }
  }

  /** After a prefix without an id match, `id` followed by a digit is the leftmost match:
      a match starting in the last two characters of the prefix would need the `i` of
      `id` to be a `d` or a digit. */
  lemma LeftmostAtMarker(p: string, id: string, rest: string)
    requires !HasIdMatch(p)
    requires |id| > 0 && AllDigits(id)
    ensures LeftmostIdMatchAt(p + ("id" + id + rest), |p|)
  {
    var s := p + ("id" + id + rest);
    assert s[|p|] == 'i' && s[|p| + 1] == 'd' && s[|p| + 2] == id[0];
    forall j: nat | j < |p| ensures !IdMatchAt(s, j) {
      if j + 2 < |p| {
        assert !IdMatchAt(p, j);
        assert s[j] == p[j] && s[j + 1] == p[j + 1] && s[j + 2] == p[j + 2];
      } else if j + 2 == |p| {
        assert s[j + 2] == 'i';
      } else {
        assert s[j + 1] == 'i';
      }
    }
  }

  /** The digit run that starts right before `id` and ends where `rest` starts is `id`. */
  lemma DigitRunOfId(q: string, id: string, rest: string)
    requires AllDigits(id)
    requires rest == [] || !IsDigit(rest[0])
    ensures DigitRunEnd(q + id + rest, |q|) == |q| + |id|
    ensures (q + id + rest)[|q|..|q| + |id|] == id
  {
    var s := q + id + rest;
    var e := |q| + |id|;
    assert forall m :: |q| <= m < e ==> s[m] == id[m - |q|];
    assert e == |s| || s[e] == rest[0];
  }

  /** Resolution of an Apple page at its leftmost id match. */
  lemma ResolveAtLeftmost(s: string, i: nat)
    requires Contains(s, AppleHost) && LeftmostIdMatchAt(s, i)
    ensures ResolveFeedUrl(s) == Some(AppleFeedUrl(s[i + 2..DigitRunEnd(s, i + 2)]))
  {
  }


  /** An Apple Podcasts page URL resolves to the RSS feed of its id. */
  lemma ApplePageExample()
    ensures ResolveFeedUrl("https://podcasts.apple.com/us/podcast/foo/id123456789")
         == Some("https://podcasts.apple.com/rss/podcast/123456789.xml")
  {
    var page, id := "/us/podcast/foo/", "123456789";
    assert 'i' !in page;
    ApplePageResolves(page, id, "");
    ApplePageExamplePage();
    ApplePageExampleFeed();
  }

  /** The page URL of `ApplePageExample`, read as its parts. */
  lemma ApplePageExamplePage()
    ensures "https://podcasts.apple.com/us/podcast/foo/id123456789" == "https://" + AppleHost + "/us/podcast/foo/" + "id" + "123456789" + ""
  {
    assert "https://" + AppleHost == "https://podcasts.apple.com";
    assert "https://podcasts.apple.com" + "/us/podcast/foo/" == "https://podcasts.apple.com/us/podcast/foo/";
    assert "https://podcasts.apple.com/us/podcast/foo/" + "id" == "https://podcasts.apple.com/us/podcast/foo/id";
    assert "https://podcasts.apple.com/us/podcast/foo/id" + "123456789" == "https://podcasts.apple.com/us/podcast/foo/id123456789";
  }

  /** The feed URL of `ApplePageExample`, read as its parts. */
  lemma ApplePageExampleFeed()
    ensures "https://podcasts.apple.com/rss/podcast/123456789.xml" == AppleFeedUrl("123456789")
  {
  }

  /** An `id` that is not followed by a digit, as in `/idea/`, is skipped: the first
      `id<digit>` decides. */
  lemma ApplePageIdeaExample()
    ensures ResolveFeedUrl("https://podcasts.apple.com/idea/id42")
         == Some("https://podcasts.apple.com/rss/podcast/42.xml")
  {
    var page, id := "/idea/", "42";
    forall j: nat ensures !IdMatchAt(page, j) {
      if j + 2 < |page| && page[j] == 'i' {
        assert j == 1;
      }
    }
    ApplePageResolves(page, id, "");
    ApplePageIdeaExamplePage();
    ApplePageIdeaExampleFeed();
  }

  /** The page URL of `ApplePageIdeaExample`, read as its parts. */
  lemma ApplePageIdeaExamplePage()
    ensures "https://podcasts.apple.com/idea/id42" == "https://" + AppleHost + "/idea/" + "id" + "42" + ""
  {
    assert "https://" + AppleHost == "https://podcasts.apple.com";
    assert "https://podcasts.apple.com" + "/idea/" == "https://podcasts.apple.com/idea/";
    assert "https://podcasts.apple.com/idea/" + "id" == "https://podcasts.apple.com/idea/id";
    assert "https://podcasts.apple.com/idea/id" + "42" == "https://podcasts.apple.com/idea/id42";
  }

  /** The feed URL of `ApplePageIdeaExample`, read as its parts. */
  lemma ApplePageIdeaExampleFeed()
    ensures "https://podcasts.apple.com/rss/podcast/42.xml" == AppleFeedUrl("42")
  {
  }

  /** An Apple page with no letter `i` after the host is rejected, whatever else it
      contains: `https://podcasts.apple.com/rss-feed.xml` ends in `.xml` and contains
      `rss`, yet resolves to `None`. */
  lemma AppleWithoutIdRejected(page: string)
    requires 'i' !in page
    ensures ResolveFeedUrl("https://" + AppleHost + page) == None
  {
    var s := "https://" + AppleHost + page;
    ContainsInMiddle("https://", AppleHost, page);
    assert 'i' !in s;
  }

  /** A direct `.xml` feed is returned unchanged. */
  lemma DirectFeedExample()
    ensures ResolveFeedUrl("https://example.com/feed.xml") == Some("https://example.com/feed.xml")
  {
    AbsentPairNotContained("https://example.com/feed.xml", AppleHost, 7);
  }

  /** A page that is neither an Apple page nor a feed is unsupported. */
  lemma UnsupportedExample()
    ensures ResolveFeedUrl("https://example.com/show") == None
  {
    AbsentPairNotContained("https://example.com/show", AppleHost, 2);
    AbsentFirstCharNotContained("https://example.com/show", RssMarker);
  }
}
