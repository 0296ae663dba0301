/** The data logic of the home page (pages/index.js): the country tabs, the tab
    selected at first, and the list of articles shown for the selected tab and
    the search box.  `data` is the aggregator's results object, or None while
    there is none (`data ? … : …`). */
module NewsPage {
  import opened JsValues
  import opened Articles
  import opened ArticleSort
  import opened Aggregator

  /** The filter callback: the title or the snippet, when non-empty, contains the
      query, both lower-cased. */
  function Shown(item: Article, query: string): (r: bool)
    ensures r <==>
              || (item.title != "" && exists i :: OccursAt(Lower(item.title), Lower(query), i))
              || (item.snippet != "" && exists i :: OccursAt(Lower(item.snippet), Lower(query), i))
  {
    || (item.title != "" && Includes(Lower(item.title), Lower(query)))
    || (item.snippet != "" && Includes(Lower(item.snippet), Lower(query)))
  }

  /** `list.filter(item => Shown(item, query))`, element by element. */
  function KeepMatching(list: seq<Article>, query: string): (r: seq<Article>)
    ensures |r| <= |list|
    ensures forall x :: x in r <==> x in list && Shown(x, query)
  {
    if list == [] then []
    else
      var last := list[|list| - 1];
      KeepMatching(list[..|list| - 1], query) + (if Shown(last, query) then [last] else [])
  }

  /** The tab labels: `data ? Object.keys(data) : []`. */
  function Countries(data: Option<Results>): (r: seq<string>)
    ensures data.None? ==> r == []
    ensures data.Some? ==> r == data.value.countries
  {
    match data
    case None => []
    case Some(d) => d.countries
  }

  /** The initial `selectedCountry`: the first tab, or '' when there is none. */
  function DefaultCountry(data: Option<Results>): (r: string)
    ensures Countries(data) != [] ==> r == Countries(data)[0]
    ensures Countries(data) == [] ==> r == ""
  {
    var cs := Countries(data);
    if |cs| > 0 then cs[0] else ""
  }

  /** `filteredNews`: nothing without data or without a selected tab; otherwise the
      selected country's list (`|| []` when the key is missing), filtered. */
  function FilteredNews(data: Option<Results>, selected: string, query: string): (r: seq<Article>)
    ensures data.None? || selected == "" ==> r == []
    ensures data.Some? && selected != "" && selected !in data.value.articles ==> r == []
    ensures data.Some? && selected != "" && selected in data.value.articles ==>
              r == KeepMatching(data.value.articles[selected], query)
  {
    if data.None? || selected == "" then []
    else if selected in data.value.articles then KeepMatching(data.value.articles[selected], query)
    else []
  }

  // ---------------------------------------------------------------- the filter

  /** Filtering a concatenation filters each part. */
  lemma {:induction false} KeepMatchingAppend(a: seq<Article>, b: seq<Article>, query: string)
    ensures KeepMatching(a + b, query) == KeepMatching(a, query) + KeepMatching(b, query)
    decreases |b|
  {
    if b == [] {
      assert a + b == a;
    } else {
      var b' := b[..|b| - 1];
      assert (a + b)[..|a + b| - 1] == a + b';
      assert (a + b)[|a + b| - 1] == b[|b| - 1];
      KeepMatchingAppend(a, b', query);
    }
  }

  /** One article is kept exactly when it is shown. */
  lemma KeepMatchingSingle(x: Article, query: string)
    ensures KeepMatching([x], query) == if Shown(x, query) then [x] else []
  {
    assert [x][..0] == [];
  }

  /** The filter keeps each shown article as often as it occurs and drops every
      other one. */
  lemma {:induction false} KeepMatchingCounts(list: seq<Article>, query: string, x: Article)
    ensures multiset(KeepMatching(list, query))[x] == if Shown(x, query) then multiset(list)[x] else 0
    decreases |list|
  {
    if list != [] {
      var init := list[..|list| - 1];
      assert list == init + [list[|list| - 1]];
      KeepMatchingCounts(init, query, x);
    }
  }

  /** `idx` lists, in increasing order, the positions of `s` that make up `r`. */
  ghost predicate PicksOut(idx: seq<int>, r: seq<Article>, s: seq<Article>) {
    && |idx| == |r|
    && (forall k :: 0 <= k < |idx| ==> 0 <= idx[k] < |s| && r[k] == s[idx[k]])
    && (forall k, l :: 0 <= k < l < |idx| ==> idx[k] < idx[l])
  }

  /** `r` is `s` with some elements removed, the rest in their order. */
  ghost predicate SubsequenceOf(r: seq<Article>, s: seq<Article>) {
    exists idx :: PicksOut(idx, r, s)
  }

  /** The filter keeps the list's order. */
  lemma {:induction false} KeepMatchingInOrder(list: seq<Article>, query: string)
    ensures SubsequenceOf(KeepMatching(list, query), list)
    decreases |list|
  {
    if list == [] {
      assert PicksOut([], [], list);
    } else {
      var init := list[..|list| - 1];
      var last := list[|list| - 1];
      var r := KeepMatching(init, query);
      KeepMatchingInOrder(init, query);
      var idx :| PicksOut(idx, r, init);
      if Shown(last, query) {
        assert PicksOut(idx + [|list| - 1], r + [last], list);
      } else {
        assert KeepMatching(list, query) == r;
        assert PicksOut(idx, r, list);
      }
    }
  }

  /** An article with neither a title nor a snippet is never shown. */
  lemma BlankNeverShown(item: Article, query: string)
    requires item.title == "" && item.snippet == ""
    ensures !Shown(item, query)
  {
  }

  /** The empty query shows exactly the articles with a title or a snippet. */
  lemma EmptyQueryShown(item: Article)
    ensures Shown(item, "") <==> item.title != "" || item.snippet != ""
  {
    assert OccursAt(Lower(item.title), "", 0);
    assert OccursAt(Lower(item.snippet), "", 0);
  }

  /** Before anything is typed, a list whose articles all have a title or a snippet
      is shown whole. */
  lemma {:induction false} EmptyQueryKeepsAll(list: seq<Article>)
    requires forall i :: 0 <= i < |list| ==> list[i].title != "" || list[i].snippet != ""
    ensures KeepMatching(list, "") == list
    decreases |list|
  {
    if list != [] {
      var init := list[..|list| - 1];
      var last := list[|list| - 1];
      EmptyQueryKeepsAll(init);
      EmptyQueryShown(last);
      assert KeepMatching(list, "") == KeepMatching(init, "") + [last];
      assert init + [last] == list;
    }
  }

  lemma LowerTwice(s: string)
    ensures Lower(Lower(s)) == Lower(s)
  {
  }

  /** The search ignores the case of the query's ASCII letters. */
  lemma QueryCaseIgnored(item: Article, query: string)
    ensures Shown(item, Lower(query)) <==> Shown(item, query)
  {
    LowerTwice(query);
  }

  /** Lower-casing distributes over concatenation. */
  lemma LowerAppend(a: string, b: string)
    ensures Lower(a + b) == Lower(a) + Lower(b)
  {
  }

  /** An article shown for a longer query is shown for every prefix of it. */
  lemma ShownPrefix(item: Article, query: string, more: string)
    requires Shown(item, query + more)
    ensures Shown(item, query)
  {
    LowerAppend(query, more);
    var t := Lower(query);
    var u := Lower(more);
    if item.title != "" && Includes(Lower(item.title), t + u) {
      var i :| OccursAt(Lower(item.title), t + u, i);
      assert Lower(item.title)[i..i + |t|] == (t + u)[..|t|];
      assert OccursAt(Lower(item.title), t, i);
    } else {
      var i :| OccursAt(Lower(item.snippet), t + u, i);
      assert Lower(item.snippet)[i..i + |t|] == (t + u)[..|t|];
      assert OccursAt(Lower(item.snippet), t, i);
    }
  }

  /** Typing more characters only narrows the list: the longer query filters the
      shorter query's result to the same articles it picks from the whole list. */
  lemma {:induction false} TypingNarrows(list: seq<Article>, query: string, more: string)
    ensures KeepMatching(KeepMatching(list, query), query + more) == KeepMatching(list, query + more)
    decreases |list|
  {
    if list != [] {
      var init := list[..|list| - 1];
      var last := list[|list| - 1];
      TypingNarrows(init, query, more);
      KeepMatchingAppend(KeepMatching(init, query), if Shown(last, query) then [last] else [], query + more);
      if Shown(last, query) {
        KeepMatchingSingle(last, query + more);
      } else if Shown(last, query + more) {
        ShownPrefix(last, query, more);
      }
    }
  }

  /** The list on screen is the selected country's list with the non-matching
      articles removed, in its order; what it keeps matches the query. */
  lemma FilteredIsSubsequence(data: Option<Results>, selected: string, query: string)
    requires data.Some? && selected in data.value.articles
    ensures SubsequenceOf(FilteredNews(data, selected, query), data.value.articles[selected])
    ensures forall x :: x in FilteredNews(data, selected, query) ==> Shown(x, query)
  {
    if selected == "" {
      assert PicksOut([], [], data.value.articles[selected]);
    } else {
      KeepMatchingInOrder(data.value.articles[selected], query);
    }
  }

  // ---------------------------------------------------------------- the page over the aggregator

  /** The tab selected at first is the country of the first configured feed that
      parsed. */
  lemma DefaultIsFirstParsedCountry(fs: seq<Fetch>, i: int)
    requires 0 <= i < |fs| && fs[i].outcome.Parsed?
    requires forall j :: 0 <= j < i ==> fs[j].outcome.Failed?
    ensures DefaultCountry(Some(Aggregate(fs))) == fs[i].feed.country
  {
    FirstCountry(fs, i);
  }

  /** When every feed failed there are no tabs and nothing is selected. */
  lemma DefaultWhenAllFailed(fs: seq<Fetch>)
    requires forall j :: 0 <= j < |fs| ==> fs[j].outcome.Failed?
    ensures Countries(Some(Aggregate(fs))) == []
    ensures DefaultCountry(Some(Aggregate(fs))) == ""
  {
    NoCountries(fs);
  }

  /** Every article on the selected tab comes from a feed configured for that
      country that parsed, and carries that feed's name as its source. */
  lemma ShownFromSelectedCountry(fs: seq<Fetch>, selected: string, query: string, x: Article)
    requires x in FilteredNews(Some(Aggregate(fs)), selected, query)
    ensures exists i :: 0 <= i < |fs| && Succeeds(fs[i], selected) && x.source == fs[i].feed.name
  {
    var data := Aggregate(fs);
    AggregateContents(fs, selected);
    var c := Contribution(fs, selected);
    SortDescPermutation(c);
    assert x in multiset(SortDesc(c));
    ContributionSource(fs, selected, x);
  }

  lemma {:induction false} ContributionSource(fs: seq<Fetch>, c: string, x: Article)
    requires x in Contribution(fs, c)
    ensures exists i :: 0 <= i < |fs| && Succeeds(fs[i], c) && x.source == fs[i].feed.name
    decreases |fs|
  {
    if x in (if Succeeds(fs[0], c) then Added(fs[0]) else []) {
      assert Succeeds(fs[0], c) && x.source == fs[0].feed.name;
    } else {
      ContributionSource(fs[1..], c, x);
      var i :| 0 <= i < |fs[1..]| && Succeeds(fs[1..][i], c) && x.source == fs[1..][i].feed.name;
      assert fs[i + 1] == fs[1..][i];
    }
  }
}
