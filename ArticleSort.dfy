/** The per-country sort of utils/fetchFeeds.js: `Array.prototype.sort` with the
    comparator `dateB - dateA`, where an article without `pubDate` counts as 0.
    ECMA-262 requires this sort to be stable, so its result is fixed: the
    reference `SortDesc` is the stable insertion sort, and `StableSortUnique`
    shows that any sorted, stable rearrangement is that one. */
module ArticleSort {
  import opened JsValues
  import opened Articles

  /** `a.pubDate ? new Date(a.pubDate).getTime() : 0` */
  function Key(a: Article): int {
    if StampTruthy(a.pubDate) then a.pubDate.value.millis else 0
  }

  /** The comparator value: the timestamp of a present, non-empty date; 0 for a
      missing one, so an undated article ties with one dated at the epoch. */
  lemma KeyOfDate(a: Article, d: Stamp)
    ensures a.pubDate.None? ==> Key(a) == 0
    ensures a.pubDate == Some(d) && d.text != "" ==> Key(a) == d.millis
    ensures a.pubDate == Some(d) && d.text == "" ==> Key(a) == 0
  {
  }

  /** Newest first: keys never increase. */
  predicate Sorted(s: seq<Article>) {
    forall i, j :: 0 <= i < j < |s| ==> Key(s[i]) >= Key(s[j])
  }

  /** The articles of `s` whose key is `k`, in their order in `s`. */
  function WithKey(s: seq<Article>, k: int): seq<Article> {
    if s == [] then []
    else WithKey(s[..|s| - 1], k) + (if Key(s[|s| - 1]) == k then [s[|s| - 1]] else [])
  }

  /** Puts `x` after every article of `s` whose key is at least its own. */
  function Insert(s: seq<Article>, x: Article): (r: seq<Article>)
    ensures |r| == |s| + 1
  {
    if s == [] then [x]
    else if Key(s[|s| - 1]) < Key(x) then
      Insert(s[..|s| - 1], x) + [s[|s| - 1]]
    else
      s + [x]
  }

  /** The stable insertion sort, newest first. */
  function SortDesc(s: seq<Article>): (r: seq<Article>)
    ensures |r| == |s|
  {
    if s == [] then []
    else Insert(SortDesc(s[..|s| - 1]), s[|s| - 1])
  }

  lemma {:induction false} InsertPermutation(s: seq<Article>, x: Article)
    ensures multiset(Insert(s, x)) == multiset(s) + multiset{x}
    decreases |s|
  {
    if s != [] && Key(s[|s| - 1]) < Key(x) {
      InsertPermutation(s[..|s| - 1], x);
      assert s == s[..|s| - 1] + [s[|s| - 1]];
    }
  }

  /** The reference sort only rearranges. */
  lemma {:induction false} SortDescPermutation(s: seq<Article>)
    ensures multiset(SortDesc(s)) == multiset(s)
    decreases |s|
  {
    if s != [] {
      SortDescPermutation(s[..|s| - 1]);
      InsertPermutation(SortDesc(s[..|s| - 1]), s[|s| - 1]);
      assert s == s[..|s| - 1] + [s[|s| - 1]];
    }
  }

  /** All keys of `s` are at least `b`. */
  predicate AtLeast(s: seq<Article>, b: int) {
    forall i :: 0 <= i < |s| ==> Key(s[i]) >= b
  }

  lemma {:induction false} InsertAtLeast(s: seq<Article>, x: Article, b: int)
    requires AtLeast(s, b) && Key(x) >= b
    ensures AtLeast(Insert(s, x), b)
    decreases |s|
  {
    if s != [] && Key(s[|s| - 1]) < Key(x) {
      InsertAtLeast(s[..|s| - 1], x, b);
    }
  }

  lemma {:induction false} InsertSorted(s: seq<Article>, x: Article)
    requires Sorted(s)
    ensures Sorted(Insert(s, x))
    decreases |s|
  {
    if s != [] && Key(s[|s| - 1]) < Key(x) {
      var init, last := s[..|s| - 1], s[|s| - 1];
      InsertSorted(init, x);
      InsertAtLeast(init, x, Key(last));
    }
  }

  /** The reference sort orders newest first. */
  lemma {:induction false} SortDescSorted(s: seq<Article>)
    ensures Sorted(SortDesc(s))
    decreases |s|
  {
    if s != [] {
      SortDescSorted(s[..|s| - 1]);
      InsertSorted(SortDesc(s[..|s| - 1]), s[|s| - 1]);
    }
  }

  lemma {:induction false} WithKeyAppend(s: seq<Article>, t: seq<Article>, k: int)
    ensures WithKey(s + t, k) == WithKey(s, k) + WithKey(t, k)
    decreases |t|
  {
    if t == [] {
      assert s + t == s;
    } else {
      var t' := t[..|t| - 1];
      assert (s + t)[..|s + t| - 1] == s + t';
      WithKeyAppend(s, t', k);
    }
  }

  lemma {:induction false} InsertStable(s: seq<Article>, x: Article, k: int)
    ensures WithKey(Insert(s, x), k) == WithKey(s, k) + (if Key(x) == k then [x] else [])
    decreases |s|
  {
    if s != [] && Key(s[|s| - 1]) < Key(x) {
      var init, last := s[..|s| - 1], s[|s| - 1];
      InsertStable(init, x, k);
      WithKeyAppend(Insert(init, x), [last], k);
      assert s == init + [last];
      WithKeyAppend(init, [last], k);
      WithKeySingle(last, k);
    } else if s != [] {
      WithKeyAppend(s, [x], k);
      WithKeySingle(x, k);
    }
  }

  /** Stability: among articles with equal keys the input order survives. */
  lemma {:induction false} SortDescStable(s: seq<Article>, k: int)
    ensures WithKey(SortDesc(s), k) == WithKey(s, k)
    decreases |s|
  {
    if s != [] {
      var init := s[..|s| - 1];
      SortDescStable(init, k);
      InsertStable(SortDesc(init), s[|s| - 1], k);
    }
  }

  lemma {:induction false} WithKeyMember(s: seq<Article>, k: int, x: Article)
    ensures x in WithKey(s, k) <==> x in s && Key(x) == k
    decreases |s|
  {
    if s != [] {
      var init := s[..|s| - 1];
      WithKeyMember(init, k, x);
      assert s == init + [s[|s| - 1]];
    }
  }

  lemma WithKeySingle(x: Article, k: int)
    ensures WithKey([x], k) == if Key(x) == k then [x] else []
  {
    assert [x][..0] == [];
  }

  lemma {:induction false} WithKeyHead(s: seq<Article>)
    requires s != []
    ensures WithKey(s, Key(s[0])) == [s[0]] + WithKey(s[1..], Key(s[0]))
    ensures forall k :: k != Key(s[0]) ==> WithKey(s, k) == WithKey(s[1..], k)
  {
    assert s == [s[0]] + s[1..];
    forall k ensures WithKey(s, k) == (if Key(s[0]) == k then [s[0]] else []) + WithKey(s[1..], k) {
      WithKeyAppend([s[0]], s[1..], k);
      WithKeySingle(s[0], k);
    }
  }

  /** Any rearrangement that is sorted newest first and keeps the input order
      within each key equals `SortDesc`: the stable sort's result is unique. */
  lemma {:induction false} StableSortUnique(s: seq<Article>, t: seq<Article>)
    requires Sorted(t)
    requires forall k :: WithKey(t, k) == WithKey(s, k)
    ensures t == SortDesc(s)
    decreases |t|
  {
    var u := SortDesc(s);
    forall k ensures WithKey(u, k) == WithKey(t, k) {
      SortDescStable(s, k);
    }
    SortDescSorted(s);
    SortedStableEqual(t, u);
  }

  lemma SortedHeadIsNewest(t: seq<Article>, x: Article)
    requires Sorted(t) && x in t
    ensures Key(t[0]) >= Key(x)
  {
    var i :| 0 <= i < |t| && t[i] == x;
    if i > 0 {
      assert Key(t[0]) >= Key(t[i]);
    }
  }

  lemma SortedTail(t: seq<Article>)
    requires Sorted(t) && t != []
    ensures Sorted(t[1..])
  {
    forall i, j | 0 <= i < j < |t| - 1 ensures Key(t[1..][i]) >= Key(t[1..][j]) {
      assert Key(t[i + 1]) >= Key(t[j + 1]);
    }
  }

  /** The newest articles of two sorted sequences with the same articles under
      every key have the same key. */
  lemma HeadKeysAgree(t: seq<Article>, u: seq<Article>)
    requires Sorted(t) && Sorted(u) && t != [] && u != []
    requires forall k :: WithKey(t, k) == WithKey(u, k)
    ensures Key(t[0]) == Key(u[0])
  {
    WithKeyMember(u, Key(u[0]), u[0]);
    WithKeyMember(t, Key(u[0]), u[0]);
    SortedHeadIsNewest(t, u[0]);
    WithKeyMember(t, Key(t[0]), t[0]);
    WithKeyMember(u, Key(t[0]), t[0]);
    SortedHeadIsNewest(u, t[0]);
  }

  /** Two sorted sequences with the same articles under every key are equal. */
  lemma {:induction false} SortedStableEqual(t: seq<Article>, u: seq<Article>)
    requires Sorted(t) && Sorted(u)
    requires forall k :: WithKey(t, k) == WithKey(u, k)
    ensures t == u
    decreases |t|
  {
    if t == [] {
      if u != [] {
        WithKeyMember(u, Key(u[0]), u[0]);
        assert false;
      }
    } else if u == [] {
      WithKeyMember(t, Key(t[0]), t[0]);
      assert false;
    } else {
      HeadKeysAgree(t, u);
      var k0 := Key(t[0]);
      WithKeyHead(t);
      WithKeyHead(u);
      var wt, wu := WithKey(t[1..], k0), WithKey(u[1..], k0);
      assert [t[0]] + wt == [u[0]] + wu;
      assert t[0] == ([t[0]] + wt)[0] && u[0] == ([u[0]] + wu)[0];
      assert wt == ([t[0]] + wt)[1..] && wu == ([u[0]] + wu)[1..];
      forall k ensures WithKey(t[1..], k) == WithKey(u[1..], k) {
      }
      SortedTail(t);
      SortedTail(u);
      SortedStableEqual(t[1..], u[1..]);
      assert t == [t[0]] + t[1..] && u == [u[0]] + u[1..];
    }
  }

  /** Because a missing date counts as 0, an undated article follows every article
      dated after the epoch, but may precede articles dated at or before it. */
  lemma {:induction false} UndatedAfterPostEpoch(s: seq<Article>, i: int, j: int)
    requires 0 <= i < |s| && 0 <= j < |s|
    requires SortDesc(s)[i].pubDate.None? && Key(SortDesc(s)[j]) > 0
    ensures j < i
  {
    SortDescSorted(s);
  }

  lemma SortDescSnoc(s: seq<Article>, i: int)
    requires 0 <= i < |s|
    ensures SortDesc(s[..i + 1]) == Insert(SortDesc(s[..i]), s[i])
  {
    assert s[..i + 1][..i] == s[..i];
  }

  /** Where the inner loop leaves `x`: after every article at least as new and
      before the strictly older ones that were shifted right. */
  lemma {:induction false} InsertAt(s: seq<Article>, j: int, x: Article)
    requires 0 <= j <= |s| && (j == 0 || Key(s[j - 1]) >= Key(x))
    requires forall k :: j <= k < |s| ==> Key(s[k]) < Key(x)
    ensures Insert(s, x) == s[..j] + [x] + s[j..]
    decreases |s|
  {
    if j < |s| {
      var init := s[..|s| - 1];
      InsertAt(init, j, x);
      assert init[..j] == s[..j];
      assert init[j..] + [s[|s| - 1]] == s[j..];
    }
  }

  /** One pass of the insertion sort: `a[i]` moves left past the strictly older
      articles of the sorted prefix `a[..i]`. */
  method InsertLast(a: array<Article>, i: int)
    requires 0 <= i < a.Length
    modifies a
    ensures a[..i + 1] == Insert(old(a[..i]), old(a[i]))
    ensures a[i + 1..] == old(a[i + 1..])
  {
    ghost var sorted := a[..i];
    ghost var rest := a[i + 1..];
    var x := a[i];
    var j := i;
    while j > 0 && Key(a[j - 1]) < Key(x)
      invariant 0 <= j <= i
      invariant a[..j] == sorted[..j]
      invariant a[j + 1..i + 1] == sorted[j..]
      invariant a[i + 1..] == rest
      invariant forall k :: j <= k < i ==> Key(sorted[k]) < Key(x)
    {
      assert a[j - 1] == a[..j][j - 1] == sorted[j - 1];
      ghost var shifted := a[j + 1..i + 1];
      a[j] := a[j - 1];
      assert a[j + 1..i + 1] == shifted;
      assert a[j..i + 1] == [a[j]] + a[j + 1..i + 1];
      j := j - 1;
    }
    assert j > 0 ==> a[j - 1] == a[..j][j - 1] == sorted[j - 1];
    InsertAt(sorted, j, x);
    a[j] := x;
    assert a[..i + 1] == a[..j] + [a[j]] + a[j + 1..i + 1];
  }

  /** `results[country].sort(...)` on the array holding one country's articles. */
  method SortByDate(a: array<Article>)
    modifies a
    ensures a[..] == SortDesc(old(a[..]))
  {
    ghost var input := a[..];
    var i := 0;
    while i < a.Length
      invariant 0 <= i <= a.Length
      invariant a[..i] == SortDesc(input[..i])
      invariant a[i..] == input[i..]
    {
      InsertLast(a, i);
      SortDescSnoc(input, i);
      i := i + 1;
    }
    assert input[..a.Length] == input;
  }
}
