/** The four sources configured in config/feeds.js, and what the aggregator and
    the page make of them. */
module FeedsConfig {
  import opened JsValues
  import opened Articles
  import opened ArticleSort
  import opened Aggregator
  import opened NewsPage

  const UnitedStates := "Estados Unidos"
  const UnitedKingdom := "Reino Unido"

  const Feeds: seq<FeedSource> := [
    FeedSource("Adweek", UnitedStates, "https://www.adweek.com/feed/"),
    FeedSource("Marketing Week", UnitedKingdom, "http://www.marketingweek.co.uk/include/qbe/rss_latest_news.xml"),
    FeedSource("Marketing Tech News", UnitedKingdom, "https://marketingtechnews.net/feed/"),
    FeedSource("Social Media Today", UnitedStates, "https://www.socialmediatoday.com/feed")
  ]

  /** Each configured feed with the outcome its fetch settled to. */
  function Run(outcomes: seq<Outcome>): (fs: seq<Fetch>)
    requires |outcomes| == |Feeds|
    ensures |fs| == |Feeds|
    ensures forall i :: 0 <= i < |fs| ==> fs[i] == Fetch(Feeds[i], outcomes[i])
  {
    seq(|Feeds|, i requires 0 <= i < |Feeds| => Fetch(Feeds[i], outcomes[i]))
  }

  /** With every feed up there are two tabs in configuration order; each tab
      holds its two feeds' articles, newest first; the United States tab is
      selected at first. */
  lemma AllFeedsUp(outcomes: seq<Outcome>)
    requires |outcomes| == |Feeds|
    requires forall i :: 0 <= i < |outcomes| ==> outcomes[i].Parsed?
    ensures Aggregate(Run(outcomes)).countries == [UnitedStates, UnitedKingdom]
    ensures UnitedStates in Aggregate(Run(outcomes)).articles && UnitedKingdom in Aggregate(Run(outcomes)).articles
    ensures Aggregate(Run(outcomes)).articles[UnitedStates] ==
              SortDesc(Added(Run(outcomes)[0]) + Added(Run(outcomes)[3]))
    ensures Aggregate(Run(outcomes)).articles[UnitedKingdom] ==
              SortDesc(Added(Run(outcomes)[1]) + Added(Run(outcomes)[2]))
    ensures DefaultCountry(Some(Aggregate(Run(outcomes)))) == UnitedStates
  {
    var fs := Run(outcomes);
    assert fs[0].feed.country == UnitedStates && fs[1].feed.country == UnitedKingdom;
    assert fs[2].feed.country == UnitedKingdom && fs[3].feed.country == UnitedStates;
    assert Aggregate(fs).countries == [UnitedStates, UnitedKingdom] by {
      Countries4(fs);
    }
    AllUpContributions(fs);
    Tab(fs, UnitedStates);
    Tab(fs, UnitedKingdom);
  }

  lemma AllUpContributions(fs: seq<Fetch>)
    requires |fs| == 4 && forall i :: 0 <= i < 4 ==> fs[i].outcome.Parsed?
    requires fs[0].feed.country == UnitedStates && fs[1].feed.country == UnitedKingdom
    requires fs[2].feed.country == UnitedKingdom && fs[3].feed.country == UnitedStates
    ensures Contribution(fs, UnitedStates) == Added(fs[0]) + Added(fs[3])
    ensures Contribution(fs, UnitedKingdom) == Added(fs[1]) + Added(fs[2])
  {
    assert Contribution(fs, UnitedStates) == Added(fs[0]) + Added(fs[3]) by {
      Contributions(fs, UnitedStates);
    }
    assert Contribution(fs, UnitedKingdom) == Added(fs[1]) + Added(fs[2]) by {
      Contributions(fs, UnitedKingdom);
    }
  }

  /** With Adweek down, the United Kingdom tab comes first and is selected; the
      United States tab still holds Social Media Today. */
  lemma AdweekDown(outcomes: seq<Outcome>)
    requires |outcomes| == |Feeds|
    requires outcomes[0].Failed?
    requires forall i :: 1 <= i < |outcomes| ==> outcomes[i].Parsed?
    ensures Aggregate(Run(outcomes)).countries == [UnitedKingdom, UnitedStates]
    ensures UnitedStates in Aggregate(Run(outcomes)).articles
    ensures Aggregate(Run(outcomes)).articles[UnitedStates] == SortDesc(Added(Run(outcomes)[3]))
    ensures DefaultCountry(Some(Aggregate(Run(outcomes)))) == UnitedKingdom
  {
    var fs := Run(outcomes);
    assert fs[0].feed.country == UnitedStates && fs[1].feed.country == UnitedKingdom;
    assert fs[2].feed.country == UnitedKingdom && fs[3].feed.country == UnitedStates;
    assert Aggregate(fs).countries == [UnitedKingdom, UnitedStates] by {
      Countries4(fs);
    }
    assert Contribution(fs, UnitedStates) == Added(fs[3]) by {
      Contributions(fs, UnitedStates);
    }
    Tab(fs, UnitedStates);
  }

  /** The tab order: each feed that parses adds its country unless it is there. */
  lemma Countries4(fs: seq<Fetch>)
    requires |fs| == 4
    ensures Aggregate(fs).countries == AddKey(AddKey(AddKey(AddKey([], fs[0]), fs[1]), fs[2]), fs[3])
  {
    GroupedKeyOrder(fs);
    var p1, p2, p3 := fs[..1], fs[..2], fs[..3];
    assert KeyOrder(p1) == AddKey([], fs[0]) by {
      assert p1[..0] == [];
    }
    assert KeyOrder(p2) == AddKey(KeyOrder(p1), fs[1]) by {
      assert p2[..1] == p1;
    }
    assert KeyOrder(p3) == AddKey(KeyOrder(p2), fs[2]) by {
      assert p3[..2] == p2;
    }
    assert KeyOrder(fs) == AddKey(KeyOrder(p3), fs[3]) by {
      assert fs[..3] == p3;
    }
  }

  /** A tab's articles before sorting, feed by feed. */
  lemma Contributions(fs: seq<Fetch>, c: string)
    requires |fs| == 4
    ensures Contribution(fs, c) == Part(fs[0], c) + Part(fs[1], c) + Part(fs[2], c) + Part(fs[3], c)
  {
    var p1, p2, p3 := fs[..1], fs[..2], fs[..3];
    assert Contribution(p1, c) == Part(fs[0], c) by {
      ContributionSnoc([], fs[0], c);
      assert [] + [fs[0]] == p1;
    }
    assert Contribution(p2, c) == Contribution(p1, c) + Part(fs[1], c) by {
      ContributionSnoc(p1, fs[1], c);
      assert p1 + [fs[1]] == p2;
    }
    assert Contribution(p3, c) == Contribution(p2, c) + Part(fs[2], c) by {
      ContributionSnoc(p2, fs[2], c);
      assert p2 + [fs[2]] == p3;
    }
    assert Contribution(fs, c) == Contribution(p3, c) + Part(fs[3], c) by {
      ContributionSnoc(p3, fs[3], c);
      assert p3 + [fs[3]] == fs;
    }
  }

  /** A tab holds its contribution, sorted. */
  lemma Tab(fs: seq<Fetch>, c: string)
    requires c in Aggregate(fs).countries
    ensures c in Aggregate(fs).articles && Aggregate(fs).articles[c] == SortDesc(Contribution(fs, c))
  {
    AggregateContents(fs, c);
  }

  /** What one feed contributes to tab `c`. */
  function Part(f: Fetch, c: string): seq<Article> {
    if Succeeds(f, c) then Added(f) else []
  }
}
