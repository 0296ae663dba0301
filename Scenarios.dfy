/** Two worked examples of the aggregator: articles from two feeds of one
    country ordered by date, with the enclosure and the HTML image each chosen
    where they apply; and an undated article placed after a dated one. */
module Scenarios {
  import opened JsValues
  import opened ImageExtractor
  import opened Articles
  import opened ArticleSort
  import opened Aggregator

  const Html := "<img src=\"img2.jpg\">"

  /** 2024-01-02 and 2024-01-03, midnight UTC, in milliseconds. */
  const Jan2 := Stamp("2024-01-02T00:00:00.000Z", 1704153600000)
  const Jan3 := Stamp("2024-01-03T00:00:00.000Z", 1704240000000)

  const ItemA := RawItem(None, None, None, Some(Jan2), None, None, None,
                         Some(Enclosure(Some("img1.jpg"))), None, None)
  const ItemB := RawItem(None, None, None, Some(Jan3), None, None, None, None, Some(Html), None)

  const FeedA := FeedSource("A", "X", "u1")
  const FeedB := FeedSource("B", "X", "u2")

  lemma HtmlFirst()
    ensures First(Html, Span(0, 5, 8)) && Group(Html, Span(0, 5, 8)) == "img2.jpg"
  {
  }

  lemma HtmlImage()
    ensures ExtractImage(Some(Html)) == Some("img2.jpg")
  {
    HtmlFirst();
    ExtractImageIsFirst(Html, Span(0, 5, 8));
  }

  const ArticleA := Article("", "#", Some(Jan2), "", "A", Some("img1.jpg"))
  const ArticleB := Article("", "#", Some(Jan3), "", "B", Some("img2.jpg"))
  const Run := [Fetch(FeedA, Parsed(Some([ItemA]))), Fetch(FeedB, Parsed(Some([ItemB])))]

  lemma NormaliseItems()
    ensures Normalise(ItemA, "A") == ArticleA
    ensures Normalise(ItemB, "B") == ArticleB
  {
    assert ImageOf(ItemA) == Some("img1.jpg");
    assert ImageOf(ItemB) == Some("img2.jpg") by {
      assert ImageHtml(ItemB) == Html;
      HtmlImage();
    }
  }

  lemma RunAdded()
    ensures Added(Run[0]) == [ArticleA] && Added(Run[1]) == [ArticleB]
  {
    NormaliseItems();
    assert NormaliseAll([ItemA], "A")[0] == ArticleA;
    assert NormaliseAll([ItemB], "B")[0] == ArticleB;
  }

  lemma RunContribution()
    ensures Contribution(Run, "X") == [ArticleA, ArticleB]
  {
    RunAdded();
    assert Contribution([Run[0]], "X") == [ArticleA] by {
      ContributionSnoc([], Run[0], "X");
      assert [] + [Run[0]] == [Run[0]];
    }
    ContributionSnoc([Run[0]], Run[1], "X");
    assert [Run[0]] + [Run[1]] == Run;
  }

  lemma SortPair()
    ensures SortDesc([ArticleA, ArticleB]) == [ArticleB, ArticleA]
  {
    assert [ArticleA, ArticleB][..1] == [ArticleA] && [ArticleA][..0] == [];
    assert Key(ArticleB) > Key(ArticleA);
    assert Insert([ArticleA], ArticleB) == [ArticleB, ArticleA];
  }

  /** The newer article, from the second feed, comes first and carries the image
      found in its HTML; the older one carries its enclosure. */
  lemma TwoFeedsOneCountry()
    ensures "X" in Aggregate(Run).articles
    ensures Aggregate(Run).articles["X"] == [ArticleB, ArticleA]
  {
    assert Succeeds(Run[0], "X");
    AggregateContents(Run, "X");
    RunContribution();
    SortPair();
  }

  /** An article without a date sorts after one dated 2024-01-01. */
  lemma UndatedLast(undated: Article, dated: Article)
    requires undated.pubDate.None?
    requires dated.pubDate == Some(Stamp("2024-01-01T00:00:00.000Z", 1704067200000))
    ensures SortDesc([undated, dated]) == [dated, undated]
  {
    var s := [undated, dated];
    assert s[..1] == [undated] && [undated][..0] == [];
    assert SortDesc([undated]) == [undated];
    assert Key(dated) > Key(undated);
    assert Insert([undated], dated) == [dated, undated];
  }
}
