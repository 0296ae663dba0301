/** Worked inputs of `extractImage`, each pinned down by the match `exec` meets
    first. */
module ImageExamples {
  import opened JsValues
  import opened ImageExtractor

  const DataSrc := "<img src=\"a\" data-src=\"b\">"
  const Apostrophe := "<img src=\"it's.jpg\">"
  const Upper := "<IMG SRC='x.png'>"
  const TwoTags := "<img alt=\"x\"><img src=\"y\">"

  lemma DataSrcFirst()
    ensures First(DataSrc, Span(0, 18, 1)) && Group(DataSrc, Span(0, 18, 1)) == "b"
  {
  }

  /** The greedy `[^>]+` backs off to the last `src=` of the tag, here the one
      inside `data-src`. */
  lemma DataSrcWins()
    ensures ExtractImage(Some(DataSrc)) == Some("b")
  {
    DataSrcFirst();
    ExtractImageIsFirst(DataSrc, Span(0, 18, 1));
  }

  lemma ApostropheFirst()
    ensures First(Apostrophe, Span(0, 5, 2)) && Group(Apostrophe, Span(0, 5, 2)) == "it"
  {
  }

  /** Either quote closes the value, whichever opened it. */
  lemma ApostropheCuts()
    ensures ExtractImage(Some(Apostrophe)) == Some("it")
  {
    ApostropheFirst();
    ExtractImageIsFirst(Apostrophe, Span(0, 5, 2));
  }

  lemma UpperFirst()
    ensures First(Upper, Span(0, 5, 5)) && Group(Upper, Span(0, 5, 5)) == "x.png"
  {
  }

  /** Tag and attribute names match in any case; single quotes work as well. */
  lemma UpperCaseTag()
    ensures ExtractImage(Some(Upper)) == Some("x.png")
  {
    UpperFirst();
    ExtractImageIsFirst(Upper, Span(0, 5, 5));
  }

  lemma TwoTagsFirst()
    ensures First(TwoTags, Span(13, 18, 1)) && Group(TwoTags, Span(13, 18, 1)) == "y"
  {
    forall p, q, n | p < 13
      ensures !Matches(TwoTags, p, q, n)
    {
      if ImgAt(TwoTags, p) {
        assert p == 0 && TwoTags[12] == '>';
      }
    }
  }

  /** `[^>]+` cannot leave its tag, so an `<img` without `src` is passed over. */
  lemma LaterTag()
    ensures ExtractImage(Some(TwoTags)) == Some("y")
  {
    TwoTagsFirst();
    ExtractImageIsFirst(TwoTags, Span(13, 18, 1));
  }

  /** At least one character must separate `<img` from `src=`, and the value must
      not be empty. */
  lemma NoMatch()
    ensures ExtractImage(Some("<imgsrc=\"a\">")) == None
    ensures ExtractImage(Some("<img src=\"\">")) == None
    ensures ExtractImage(Some("")) == None
    ensures ExtractImage(None) == None
  {
  }
}
