/** `fetchAllFeeds` of utils/fetchFeeds.js.  The feeds are visited in order; the
    outcome `parser.parseURL(feed.url)` settles to is an input of the model.  A
    parsed feed creates its country's list if needed and appends its normalised
    items; a failed one is skipped.  Afterwards every country's list is sorted,
    newest first.

    `Grouped` specifies the results object after the loop, `Aggregate` after the
    sort; `Contribution` is an independent per-country description of the
    lists, used to state what they contain. */
module Aggregator {
  import opened JsValues
  import opened Articles
  import opened ArticleSort

  /** One configured source (config/feeds.js). */
  datatype FeedSource = FeedSource(name: string, country: string, url: string)

  /** What `parser.parseURL(feed.url)` settled to: a rejection, or a parsed feed
      whose `items` may be missing (`data.items || []`). */
  datatype Outcome = Failed | Parsed(items: Option<seq<RawItem>>)

  datatype Fetch = Fetch(feed: FeedSource, outcome: Outcome)

  /** The `results` object: its keys in insertion order, and the list under each. */
  datatype Results = Results(countries: seq<string>, articles: map<string, seq<Article>>)

  /** The key order lists each key of the map exactly once. */
  ghost predicate WellFormed(r: Results) {
    && (forall i, j :: 0 <= i < j < |r.countries| ==> r.countries[i] != r.countries[j])
    && (forall c :: c in r.articles <==> c in r.countries)
  }

  /** `data.items || []` */
  function ItemsOf(o: Outcome): (r: seq<RawItem>)
    requires o.Parsed?
    ensures o.items.Some? ==> r == o.items.value
    ensures o.items.None? ==> r == []
  {
    o.items.GetOr([])
  }

  /** The articles `items.forEach` pushes, in item order. */
  function NormaliseAll(items: seq<RawItem>, source: string): (r: seq<Article>)
    ensures |r| == |items|
    ensures forall i :: 0 <= i < |items| ==> r[i] == Normalise(items[i], source)
  {
    if items == [] then []
    else NormaliseAll(items[..|items| - 1], source) + [Normalise(items[|items| - 1], source)]
  }

  /** The articles feed `f` adds under its country. */
  function Added(f: Fetch): seq<Article>
    requires f.outcome.Parsed?
  {
    NormaliseAll(ItemsOf(f.outcome), f.feed.name)
  }

  /** Feed `f` parsed and is configured for country `c`. */
  predicate Succeeds(f: Fetch, c: string) {
    f.outcome.Parsed? && f.feed.country == c
  }

  ghost predicate HasSuccess(fs: seq<Fetch>, c: string) {
    exists i :: 0 <= i < |fs| && Succeeds(fs[i], c)
  }

  /** The results object after handling one more feed: a failed feed changes
      nothing; a parsed one creates its country's key at the end of the key order
      if it is new, then appends its articles under it, leaving other keys alone. */
  function Step(r: Results, f: Fetch): (r': Results)
    ensures f.outcome.Failed? ==> r' == r
    ensures f.outcome.Parsed? && f.feed.country in r.articles ==> r'.countries == r.countries
    ensures f.outcome.Parsed? && f.feed.country !in r.articles ==> r'.countries == r.countries + [f.feed.country]
    ensures f.outcome.Parsed? ==> f.feed.country in r'.articles
    ensures f.outcome.Parsed? ==>
              r'.articles[f.feed.country] == (if f.feed.country in r.articles then r.articles[f.feed.country] else []) + Added(f)
    ensures forall c :: c != f.feed.country ==> (c in r'.articles <==> c in r.articles)
    ensures forall c :: c != f.feed.country && c in r.articles ==> r'.articles[c] == r.articles[c]
  {
    match f.outcome
    case Failed => r
    case Parsed(_) =>
      var c := f.feed.country;
      var r1 := if c in r.articles then r else Results(r.countries + [c], r.articles[c := []]);
      Results(r1.countries, r1.articles[c := r1.articles[c] + Added(f)])
  }

  /** The results object when the loop over `fs` ends. */
  function Grouped(fs: seq<Fetch>): Results {
    if fs == [] then Results([], map[])
    else Step(Grouped(fs[..|fs| - 1]), fs[|fs| - 1])
  }

  /** The sort phase: every list sorted, the key order untouched. */
  function SortAll(r: Results): Results {
    Results(r.countries, map c | c in r.articles :: SortDesc(r.articles[c]))
  }

  /** What `fetchAllFeeds` returns. */
  function Aggregate(fs: seq<Fetch>): Results {
    SortAll(Grouped(fs))
  }

  /** Country `c`'s articles before sorting, described feed by feed: the normalised
      items of each feed that parsed for `c`, in configuration order. */
  function Contribution(fs: seq<Fetch>, c: string): seq<Article> {
    if fs == [] then []
    else (if Succeeds(fs[0], c) then Added(fs[0]) else []) + Contribution(fs[1..], c)
  }

  /** The key order described without the map: each country the first time a feed
      of it parses. */
  function KeyOrder(fs: seq<Fetch>): seq<string> {
    if fs == [] then [] else AddKey(KeyOrder(fs[..|fs| - 1]), fs[|fs| - 1])
  }

  /** The key order after feed `f`: its country is appended if it parsed and is new. */
  function AddKey(keys: seq<string>, f: Fetch): seq<string> {
    if f.outcome.Parsed? && f.feed.country !in keys then keys + [f.feed.country] else keys
  }

  // ---------------------------------------------------------------- lemmas

  lemma {:induction false} GroupedWellFormed(fs: seq<Fetch>)
    ensures WellFormed(Grouped(fs))
    decreases |fs|
  {
    if fs != [] {
      GroupedWellFormed(fs[..|fs| - 1]);
    }
  }

  /** A country key exists exactly when some feed for it parsed, even one with
      no items. */
  lemma {:induction false} GroupedKeys(fs: seq<Fetch>, c: string)
    ensures c in Grouped(fs).articles <==> HasSuccess(fs, c)
    decreases |fs|
  {
    if fs != [] {
      var init := fs[..|fs| - 1];
      GroupedKeys(init, c);
      if HasSuccess(init, c) {
        var i :| 0 <= i < |init| && Succeeds(init[i], c);
        assert Succeeds(fs[i], c);
      }
      if HasSuccess(fs, c) && !Succeeds(fs[|fs| - 1], c) {
        var i :| 0 <= i < |fs| && Succeeds(fs[i], c);
        assert Succeeds(init[i], c);
      }
    }
  }

  /** The results object's keys come in the order of `KeyOrder`. */
  lemma {:induction false} GroupedKeyOrder(fs: seq<Fetch>)
    ensures Grouped(fs).countries == KeyOrder(fs)
    decreases |fs|
  {
    if fs != [] {
      GroupedKeyOrder(fs[..|fs| - 1]);
      GroupedWellFormed(fs[..|fs| - 1]);
    }
  }

  /** A country is in the key order exactly when one of its feeds parsed. */
  lemma {:induction false} KeyOrderMembers(fs: seq<Fetch>, c: string)
    ensures c in KeyOrder(fs) <==> HasSuccess(fs, c)
    decreases |fs|
  {
    if fs != [] {
      var init := fs[..|fs| - 1];
      KeyOrderMembers(init, c);
      if HasSuccess(init, c) {
        var i :| 0 <= i < |init| && Succeeds(init[i], c);
        assert Succeeds(fs[i], c);
      }
      if HasSuccess(fs, c) && !Succeeds(fs[|fs| - 1], c) {
        var i :| 0 <= i < |fs| && Succeeds(fs[i], c);
        assert Succeeds(init[i], c);
      }
    }
  }

  /** The tab order, stated outright: whenever country `j` comes after country `i`,
      every parsed feed of `j` has a parsed feed of `i` before it. */
  lemma {:induction false} KeyOrderByFirstParse(fs: seq<Fetch>, i: int, j: int, a: int)
    requires 0 <= i < j < |KeyOrder(fs)|
    requires 0 <= a < |fs| && Succeeds(fs[a], KeyOrder(fs)[j])
    ensures exists b :: 0 <= b < a && Succeeds(fs[b], KeyOrder(fs)[i])
    decreases |fs|
  {
    var init := fs[..|fs| - 1];
    var k := KeyOrder(init);
    if j < |k| {
      assert KeyOrder(fs)[j] == k[j] && KeyOrder(fs)[i] == k[i];
      var a' := a;
      if a == |fs| - 1 {
        KeyOrderMembers(init, k[j]);
        a' :| 0 <= a' < |init| && Succeeds(init[a'], k[j]);
      }
      assert Succeeds(init[a'], k[j]);
      KeyOrderByFirstParse(init, i, j, a');
      var b :| 0 <= b < a' && Succeeds(init[b], k[i]);
      assert Succeeds(fs[b], KeyOrder(fs)[i]);
    } else {
      var c := fs[|fs| - 1].feed.country;
      assert KeyOrder(fs) == k + [c] && c !in k;
      KeyOrderMembers(init, c);
      if a < |init| {
        assert false;
      }
      KeyOrderMembers(init, k[i]);
      var b :| 0 <= b < |init| && Succeeds(init[b], k[i]);
      assert Succeeds(fs[b], KeyOrder(fs)[i]);
    }
  }

  /** The tabs of the result come in the order of their countries' first parsed feeds. */
  lemma TabOrder(fs: seq<Fetch>, i: int, j: int, a: int)
    requires 0 <= i < j < |Aggregate(fs).countries|
    requires 0 <= a < |fs| && Succeeds(fs[a], Aggregate(fs).countries[j])
    ensures exists b :: 0 <= b < a && Succeeds(fs[b], Aggregate(fs).countries[i])
  {
    GroupedKeyOrder(fs);
    KeyOrderByFirstParse(fs, i, j, a);
  }

  lemma {:induction false} ContributionSnoc(fs: seq<Fetch>, f: Fetch, c: string)
    ensures Contribution(fs + [f], c) == Contribution(fs, c) + (if Succeeds(f, c) then Added(f) else [])
    decreases |fs|
  {
    if fs == [] {
      assert ([] + [f])[1..] == [];
    } else {
      ContributionSnoc(fs[1..], f, c);
      assert (fs + [f])[1..] == fs[1..] + [f];
    }
  }

  /** Before sorting, a country's list is exactly the concatenation of its
      successful feeds' normalised items, in configuration order, then item order. */
  lemma {:induction false} GroupedContents(fs: seq<Fetch>, c: string)
    requires c in Grouped(fs).articles
    ensures Grouped(fs).articles[c] == Contribution(fs, c)
    decreases |fs|
  {
    var init, f := fs[..|fs| - 1], fs[|fs| - 1];
    assert fs == init + [f];
    ContributionSnoc(init, f, c);
    if c in Grouped(init).articles {
      GroupedContents(init, c);
    } else {
      ContributionNone(init, c);
    }
  }

  lemma {:induction false} ContributionNone(fs: seq<Fetch>, c: string)
    requires c !in Grouped(fs).articles
    ensures Contribution(fs, c) == []
    decreases |fs|
  {
    if fs != [] {
      var init, f := fs[..|fs| - 1], fs[|fs| - 1];
      assert fs == init + [f];
      ContributionSnoc(init, f, c);
      ContributionNone(init, c);
    }
  }

  lemma {:induction false} GroupedSkipsFailure(a: seq<Fetch>, f: Fetch, b: seq<Fetch>)
    requires f.outcome.Failed?
    ensures Grouped(a + [f] + b) == Grouped(a + b)
    decreases |b|
  {
    if b == [] {
      assert (a + [f] + b)[..|a| + 1 - 1] == a;
      assert a + b == a;
    } else {
      var b' := b[..|b| - 1];
      GroupedSkipsFailure(a, f, b');
      assert (a + [f] + b)[..|a + [f] + b| - 1] == a + [f] + b';
      assert (a + b)[..|a + b| - 1] == a + b';
    }
  }

  /** Failure isolation: a feed that fails to parse leaves the results exactly as
      if it were not configured. */
  lemma FailureIsolation(fs: seq<Fetch>, i: int)
    requires 0 <= i < |fs| && fs[i].outcome.Failed?
    ensures Aggregate(fs[..i] + fs[i + 1..]) == Aggregate(fs)
  {
    GroupedSkipsFailure(fs[..i], fs[i], fs[i + 1..]);
    assert fs[..i] + [fs[i]] + fs[i + 1..] == fs;
  }

  /** The first key is the country of the first feed that parsed; there is no key
      when no feed parsed. */
  lemma {:induction false} FirstCountry(fs: seq<Fetch>, i: int)
    requires 0 <= i < |fs| && fs[i].outcome.Parsed?
    requires forall j :: 0 <= j < i ==> fs[j].outcome.Failed?
    ensures Grouped(fs).countries != [] && Grouped(fs).countries[0] == fs[i].feed.country
    decreases |fs|
  {
    var init := fs[..|fs| - 1];
    if i < |init| {
      FirstCountry(init, i);
    } else {
      NoCountries(init);
      GroupedWellFormed(init);
    }
  }

  lemma {:induction false} NoCountries(fs: seq<Fetch>)
    requires forall j :: 0 <= j < |fs| ==> fs[j].outcome.Failed?
    ensures Grouped(fs).countries == []
    decreases |fs|
  {
    if fs != [] {
      NoCountries(fs[..|fs| - 1]);
    }
  }

  /** What `fetchAllFeeds` returns: the keys, in insertion order, are the countries
      with a feed that parsed, and each list is the stable newest-first sort of
      that country's contribution. */
  lemma AggregateContents(fs: seq<Fetch>, c: string)
    ensures WellFormed(Aggregate(fs))
    ensures c in Aggregate(fs).articles <==> HasSuccess(fs, c)
    ensures c in Aggregate(fs).articles ==> Aggregate(fs).articles[c] == SortDesc(Contribution(fs, c))
  {
    GroupedWellFormed(fs);
    GroupedKeys(fs, c);
    if c in Grouped(fs).articles {
      GroupedContents(fs, c);
    }
  }

  // ---------------------------------------------------------------- the loop

  /** `items.forEach(item => results[country].push(...))` */
  method PushItems(articles: map<string, seq<Article>>, country: string, items: seq<RawItem>, source: string)
    returns (out: map<string, seq<Article>>)
    requires country in articles
    ensures out == articles[country := articles[country] + NormaliseAll(items, source)]
  {
    out := articles;
    var j := 0;
    assert items[..0] == [];
    assert articles[country] + [] == articles[country];
    assert articles[country := articles[country]] == articles;
    while j < |items|
      invariant 0 <= j <= |items|
      invariant out == articles[country := articles[country] + NormaliseAll(items[..j], source)]
    {
      assert items[..j + 1][..j] == items[..j];
      ghost var pushed := NormaliseAll(items[..j], source);
      var article := Normalise(items[j], source);
      assert NormaliseAll(items[..j + 1], source) == pushed + [article];
      assert out[country] + [article] == articles[country] + (pushed + [article]);
      out := out[country := out[country] + [article]];
      j := j + 1;
    }
    assert items[..|items|] == items;
  }

  /** The body of the `for ... of` loop for one feed: on a parse, create the
      country's list if it is missing, then push the items; on a rejection, skip. */
  method AddFeed(r: Results, f: Fetch) returns (r': Results)
    ensures r' == Step(r, f)
  {
    match f.outcome {
      case Failed =>
        // the error is logged and the feed skipped
        r' := r;
      case Parsed(data) =>
        var items := data.GetOr([]);
        var countries, articles := r.countries, r.articles;
        if f.feed.country !in articles {
          countries := countries + [f.feed.country];
          articles := articles[f.feed.country := []];
        }
        articles := PushItems(articles, f.feed.country, items, f.feed.name);
        r' := Results(countries, articles);
    }
  }

  /** The lists after the sort loop has handled the first `k` keys. */
  function SortedUpTo(r: Results, k: int): map<string, seq<Article>>
    requires 0 <= k <= |r.countries|
  {
    map c | c in r.articles :: if c in r.countries[..k] then SortDesc(r.articles[c]) else r.articles[c]
  }

  lemma SortedUpToStep(r: Results, k: int)
    requires WellFormed(r) && 0 <= k < |r.countries|
    ensures r.countries[k] in SortedUpTo(r, k)
    ensures SortedUpTo(r, k)[r.countries[k]] == r.articles[r.countries[k]]
    ensures SortedUpTo(r, k + 1) == SortedUpTo(r, k)[r.countries[k] := SortDesc(r.articles[r.countries[k]])]
  {
    var c := r.countries[k];
    assert c !in r.countries[..k];
    assert r.countries[..k + 1] == r.countries[..k] + [c];
  }

  lemma SortedUpToEnds(r: Results)
    requires WellFormed(r)
    ensures SortedUpTo(r, 0) == r.articles
    ensures SortedUpTo(r, |r.countries|) == SortAll(r).articles
  {
    assert r.countries[..|r.countries|] == r.countries;
  }

  /** One country's array, sorted in place. */
  method SortList(list: seq<Article>) returns (sorted: seq<Article>)
    ensures sorted == SortDesc(list)
  {
    var a := new Article[|list|](n requires 0 <= n < |list| => list[n]);
    assert a[..] == list;
    SortByDate(a);
    sorted := a[..];
  }

  /** `Object.keys(results).forEach(country => results[country].sort(...))` */
  method SortEach(r: Results) returns (r': Results)
    requires WellFormed(r)
    ensures r' == SortAll(r)
  {
    SortedUpToEnds(r);
    var articles := r.articles;
    var k := 0;
    while k < |r.countries|
      invariant 0 <= k <= |r.countries|
      invariant articles == SortedUpTo(r, k)
    {
      SortedUpToStep(r, k);
      var c := r.countries[k];
      var list := articles[c];
      assert list == r.articles[c];
      var sorted := SortList(list);
      articles := articles[c := sorted];
      k := k + 1;
    }
    r' := Results(r.countries, articles);
  }

  /** `fetchAllFeeds()`: the loop over the feeds, then the sort of each country. */
  method FetchAllFeeds(fs: seq<Fetch>) returns (r: Results)
    ensures r == Aggregate(fs)
    ensures WellFormed(r)
    ensures r.countries == KeyOrder(fs)
    ensures forall c :: c in r.articles <==> HasSuccess(fs, c)
    ensures forall c :: c in r.articles ==> r.articles[c] == SortDesc(Contribution(fs, c))
  {
    var results := Results([], map[]);
    var i := 0;
    while i < |fs|
      invariant 0 <= i <= |fs|
      invariant results == Grouped(fs[..i])
    {
      assert fs[..i + 1][..i] == fs[..i];
      results := AddFeed(results, fs[i]);
      i := i + 1;
    }
    assert fs[..|fs|] == fs;
    GroupedWellFormed(fs);
    r := SortEach(results);
    forall c ensures c in r.articles <==> HasSuccess(fs, c)
      ensures c in r.articles ==> r.articles[c] == SortDesc(Contribution(fs, c))
    {
      AggregateContents(fs, c);
    }
    AggregateContents(fs, "");
    GroupedKeyOrder(fs);
  }
}
