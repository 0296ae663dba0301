/** `extractImage` of utils/fetchFeeds.js: one `exec` of the regular expression
    `/<img[^>]+src=["']([^"']+)["']/i`, returning capture group 1 or null.

    `Matches(h, p, q, n)` is the declarative meaning of the expression: each way
    it can match `h` with `<img` at `p`, `src=` at `q` and a group of `n`
    characters.  `exec` reports the first match its backtracking search meets:
    the least start `p`; for that start the greatest `q`, because the greedy
    `[^>]+` gives characters back from the right; and the greatest `n`.
    `FirstMatch` computes that match by scanning, and is proved to meet `First`. */
module ImageExtractor {
  import opened JsValues

  predicate IsQuote(c: char) {
    c == '"' || c == '\''
  }

  /** `c` matches the pattern character `lit` (given in lower case) under the `i`
      flag without `u`: only ASCII letters fold. */
  predicate CharMatch(c: char, lit: char) {
    LowerChar(c) == lit
  }

  /** `<img` at `p`, ignoring ASCII case. */
  predicate ImgAt(h: string, p: int) {
    0 <= p && p + 4 <= |h|
    && h[p] == '<' && CharMatch(h[p + 1], 'i') && CharMatch(h[p + 2], 'm') && CharMatch(h[p + 3], 'g')
  }

  /** `src=` at `q`, ignoring ASCII case, followed by either quote. */
  predicate SrcAt(h: string, q: int) {
    0 <= q && q + 5 <= |h|
    && CharMatch(h[q], 's') && CharMatch(h[q + 1], 'r') && CharMatch(h[q + 2], 'c') && h[q + 3] == '='
    && IsQuote(h[q + 4])
  }

  /** No `>` in `h[lo..hi]`. */
  predicate NoClose(h: string, lo: int, hi: int) {
    0 <= lo <= hi <= |h| && forall k :: lo <= k < hi ==> h[k] != '>'
  }

  /** No quote of either kind in `h[lo..hi]`. */
  predicate NoQuote(h: string, lo: int, hi: int) {
    0 <= lo <= hi <= |h| && forall k :: lo <= k < hi ==> !IsQuote(h[k])
  }

  /** The regex matches with `<img` at `p`, `[^>]+` over `h[p+4..q]`, `src=` and
      a quote at `q`, `([^"']+)` over `h[q+5..q+5+n]` and a closing quote. */
  predicate Matches(h: string, p: int, q: int, n: int) {
    ImgAt(h, p) && p + 4 < q && NoClose(h, p + 4, q) && SrcAt(h, q)
    && 1 <= n && q + 5 + n < |h| && NoQuote(h, q + 5, q + 5 + n) && IsQuote(h[q + 5 + n])
  }

  /** Where a match sits: its start, the position of `src=`, the group's length. */
  datatype Span = Span(start: int, src: int, len: int)

  /** The match `exec` returns: leftmost start, then last `src=`, then longest group. */
  ghost predicate First(h: string, m: Span) {
    && Matches(h, m.start, m.src, m.len)
    && (forall p, q, n :: p < m.start ==> !Matches(h, p, q, n))
    && (forall q, n :: m.src < q ==> !Matches(h, m.start, q, n))
    && (forall n :: m.len < n ==> !Matches(h, m.start, m.src, n))
  }

  /** Capture group 1 of a match. */
  function Group(h: string, m: Span): string
    requires Matches(h, m.start, m.src, m.len)
  {
    h[m.src + 5 .. m.src + 5 + m.len]
  }

  /** The first quote at or after `i`, or `|h|` if there is none. */
  function QuoteFrom(h: string, i: nat): (r: nat)
    requires i <= |h|
    ensures i <= r <= |h| && NoQuote(h, i, r)
    ensures r < |h| ==> IsQuote(h[r])
    decreases |h| - i
  {
    if i == |h| || IsQuote(h[i]) then i else QuoteFrom(h, i + 1)
  }

  /** The first `>` at or after `i`, or `|h|` if there is none. */
  function CloseFrom(h: string, i: nat): (r: nat)
    requires i <= |h|
    ensures i <= r <= |h| && NoClose(h, i, r)
    ensures r < |h| ==> h[r] == '>'
    decreases |h| - i
  {
    if i == |h| || h[i] == '>' then i else CloseFrom(h, i + 1)
  }

  /** `src=["']([^"']+)["']` matches at `q`: the longest quote-free run after the
      opening quote is non-empty and a quote follows it. */
  predicate SrcValueAt(h: string, q: int) {
    SrcAt(h, q) && q + 5 < QuoteFrom(h, q + 5) < |h|
  }

  lemma MatchesIff(h: string, p: int, q: int, n: int)
    requires ImgAt(h, p)
    ensures Matches(h, p, q, n) <==>
              p + 4 < q <= CloseFrom(h, p + 4) && SrcValueAt(h, q) && n == QuoteFrom(h, q + 5) - (q + 5)
  {
    var c := CloseFrom(h, p + 4);
    if Matches(h, p, q, n) {
      if c < q {
        assert false;
      }
      var e := QuoteFrom(h, q + 5);
      if e != q + 5 + n {
        assert false;
      }
    }
  }

  /** The backtracking of `[^>]+`: the greatest `q` in `[lo, hi]` at which the rest
      of the expression matches. */
  function LastSrc(h: string, lo: int, hi: int): (r: Option<int>)
    ensures r.Some? ==> lo <= r.value <= hi && SrcValueAt(h, r.value)
    ensures r.Some? ==> forall q :: r.value < q <= hi ==> !SrcValueAt(h, q)
    ensures r.None? ==> forall q :: lo <= q <= hi ==> !SrcValueAt(h, q)
    decreases hi - lo
  {
    if hi < lo then None
    else if SrcValueAt(h, hi) then Some(hi)
    else LastSrc(h, lo, hi - 1)
  }

  /** The match the expression finds with `<img` at `p`, if any. */
  function MatchFrom(h: string, p: int): (r: Option<Span>)
    requires ImgAt(h, p)
    ensures r.Some? ==> r.value.start == p && Matches(h, p, r.value.src, r.value.len)
    ensures r.Some? ==> forall q, n :: r.value.src < q ==> !Matches(h, p, q, n)
    ensures r.Some? ==> forall n :: r.value.len < n ==> !Matches(h, p, r.value.src, n)
    ensures r.None? ==> forall q, n :: !Matches(h, p, q, n)
  {
    var c := CloseFrom(h, p + 4);
    var found := LastSrc(h, p + 5, c);
    forall q, n
      ensures Matches(h, p, q, n) <==>
                p + 4 < q <= c && SrcValueAt(h, q) && n == QuoteFrom(h, q + 5) - (q + 5)
    {
      MatchesIff(h, p, q, n);
    }
    match found
    case None => None
    case Some(q) => Some(Span(p, q, QuoteFrom(h, q + 5) - (q + 5)))
  }

  /** `exec` from start position `p` on: tries each start from the left. */
  function ScanFrom(h: string, p: nat): (r: Option<Span>)
    requires p <= |h|
    ensures r.Some? ==> p <= r.value.start && Matches(h, r.value.start, r.value.src, r.value.len)
    ensures r.Some? ==> forall p', q, n :: p <= p' < r.value.start ==> !Matches(h, p', q, n)
    ensures r.Some? ==> forall q, n :: r.value.src < q ==> !Matches(h, r.value.start, q, n)
    ensures r.Some? ==> forall n :: r.value.len < n ==> !Matches(h, r.value.start, r.value.src, n)
    ensures r.None? ==> forall p', q, n :: p <= p' ==> !Matches(h, p', q, n)
    decreases |h| - p
  {
    if p == |h| then
      None
    else if ImgAt(h, p) && MatchFrom(h, p).Some? then
      MatchFrom(h, p)
    else
      var rest := ScanFrom(h, p + 1);
      assert forall q, n :: !Matches(h, p, q, n) by {
        if ImgAt(h, p) {
          assert MatchFrom(h, p).None?;
        }
      }
      rest
  }

  /** The match `exec` returns, or None when the expression does not match. */
  function FirstMatch(h: string): (r: Option<Span>)
    ensures r.Some? ==> First(h, r.value)
    ensures r.None? ==> forall p, q, n :: !Matches(h, p, q, n)
  {
    ScanFrom(h, 0)
  }

  /** extractImage(html): null for a missing or empty input (`!html`), otherwise
      capture group 1 of the first match, or null when there is none. */
  function ExtractImage(html: Option<string>): (r: Option<string>)
    ensures !Truthy(html) ==> r.None?
    ensures Truthy(html) ==> (r.Some? <==> exists p, q, n :: Matches(html.value, p, q, n))
    ensures r.Some? ==> exists m :: First(html.value, m) && r.value == Group(html.value, m)
    ensures r.Some? ==> r.value != [] && forall i :: 0 <= i < |r.value| ==> !IsQuote(r.value[i])
  {
    if !Truthy(html) then
      None
    else
      match FirstMatch(html.value)
      case None => None
      case Some(m) =>
        assert First(html.value, m);
        Some(Group(html.value, m))
  }

  /** `exec` returns exactly one match: the conditions of `First` pin it down. */
  lemma FirstUnique(h: string, m1: Span, m2: Span)
    requires First(h, m1) && First(h, m2)
    ensures m1 == m2
  {
  }

  /** Whenever `m` is the match `exec` meets first, `extractImage` yields its group. */
  lemma ExtractImageIsFirst(h: string, m: Span)
    requires First(h, m)
    ensures ExtractImage(Some(h)) == Some(Group(h, m))
  {
    var r := ExtractImage(Some(h));
    assert Matches(h, m.start, m.src, m.len);
    var m' :| First(h, m') && r.value == Group(h, m');
    FirstUnique(h, m, m');
  }

  /** A result never contains a quote, so it holds no match of its own. */
  lemma ExtractImageOfResult(html: Option<string>)
    requires ExtractImage(html).Some?
    ensures ExtractImage(ExtractImage(html)) == None
  {
    var v := ExtractImage(html).value;
    assert forall p, q, n :: !Matches(v, p, q, n);
  }
}
