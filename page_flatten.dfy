/**
 * `Flatten` and `sortDateDesc` (page/flatten.go): the listed pages below a
 * page, newest first.
 */
module PageFlatten {
  import opened Wrappers
  import opened PageModel
  import opened PageMap

  /** A page `Flatten` lists: not a folder without body, and not hidden from lists. */
  predicate Shown(p: Page)
  {
    (|p.body| != 0 || !p.dir) && !p.listHidden
  }

  /** The pages of `s`, in order, that `Flatten` started at `top` keeps. */
  ghost function Listed(pages: map<PageId, Page>, top: PageId, s: seq<PageId>): (r: seq<PageId>)
    requires forall k | 0 <= k < |s| :: s[k] in pages
    ensures forall k | 0 <= k < |r| :: r[k] in pages
  {
    if |s| == 0 then []
    else
      var init := Listed(pages, top, s[..|s| - 1]);
      var x := s[|s| - 1];
      if x != top && Shown(pages[x]) then init + [x] else init
  }

  /** Taking one more page of the walk into `Listed`. */
  lemma ListedSnoc(pages: map<PageId, Page>, top: PageId, s: seq<PageId>, x: PageId)
    requires forall k | 0 <= k < |s| :: s[k] in pages
    requires x in pages
    ensures Listed(pages, top, s + [x]) == if x != top && Shown(pages[x]) then Listed(pages, top, s) + [x] else Listed(pages, top, s)
  {
    assert (s + [x])[..|s|] == s;
  }

  /** In a walk without repeats, every page `Flatten` keeps is listed once and every other page not at all. */
  lemma {:induction false} ListedCount(pages: map<PageId, Page>, top: PageId, s: seq<PageId>, c: PageId)
    requires forall k | 0 <= k < |s| :: s[k] in pages
    requires Distinct(s)
    ensures multiset(Listed(pages, top, s))[c] == if c in s && c != top && Shown(pages[c]) then 1 else 0
  {
    if |s| > 0 {
      var init, x := s[..|s| - 1], s[|s| - 1];
      assert Distinct(init);
      assert s == init + [x];
      ListedCount(pages, top, init, c);
      ListedCount(pages, top, init, x);
      forall k | 0 <= k < |init|
        ensures init[k] != x
      {
        assert s[k] == init[k];
      }
      assert x !in init;
    }
  }

  /** The pages of `s` come newest first: their `DateUpdated` never increases. */
  ghost predicate NewestFirst(pages: map<PageId, Page>, s: seq<PageId>)
    requires forall k | 0 <= k < |s| :: s[k] in pages
  {
    forall i, j | 0 <= i < j < |s| :: pages[s[i]].dateUpdated >= pages[s[j]].dateUpdated
  }

  /**
   * While `sortDateDesc` inserts the page at `j` into the sorted prefix
   * `s[..i + 1]`: every two pages of the prefix are newest first, except the
   * pairs that end at `j`.
   */
  ghost predicate Inserting(pages: map<PageId, Page>, s: seq<PageId>, i: int, j: int)
    requires forall k | 0 <= k < |s| :: s[k] in pages
    requires 0 <= j <= i < |s|
  {
    forall k, l | 0 <= k < l <= i && l != j :: pages[s[k]].dateUpdated >= pages[s[l]].dateUpdated
  }

  /** A sorted prefix `s[..i]` is a start for inserting `s[i]`. */
  lemma InsertStart(pages: map<PageId, Page>, s: seq<PageId>, i: int)
    requires forall k | 0 <= k < |s| :: s[k] in pages
    requires 0 <= i < |s| && NewestFirst(pages, s[..i])
    ensures Inserting(pages, s, i, i)
  {
    forall k, l | 0 <= k < l < i
      ensures pages[s[k]].dateUpdated >= pages[s[l]].dateUpdated
    {
      assert s[..i][k] == s[k] && s[..i][l] == s[l];
    }
  }

  /** Swapping the page at `j` with an older one before it moves the insertion point left. */
  lemma InsertSwap(pages: map<PageId, Page>, s: seq<PageId>, i: int, j: int)
    requires forall k | 0 <= k < |s| :: s[k] in pages
    requires 0 < j <= i < |s| && Inserting(pages, s, i, j)
    requires pages[s[j - 1]].dateUpdated < pages[s[j]].dateUpdated
    ensures var t := s[j - 1 := s[j]][j := s[j - 1]];
      (forall k | 0 <= k < |t| :: t[k] in pages) && Inserting(pages, t, i, j - 1)
  {
    var t := s[j - 1 := s[j]][j := s[j - 1]];
    forall k, l | 0 <= k < l <= i && l != j - 1
      ensures pages[t[k]].dateUpdated >= pages[t[l]].dateUpdated
    {
      if k == j - 1 && l > j {
        assert t[k] == s[j] && t[l] == s[l];
      } else if l == j && k < j - 1 {
        assert t[k] == s[k] && t[l] == s[j - 1];
      } else if k != j - 1 && k != j && l != j {
        assert t[k] == s[k] && t[l] == s[l];
      }
    }
  }

  /** Once the page at `j` is no newer than the one before it, the prefix `s[..i + 1]` is sorted. */
  lemma InsertDone(pages: map<PageId, Page>, s: seq<PageId>, i: int, j: int)
    requires forall k | 0 <= k < |s| :: s[k] in pages
    requires 0 <= j <= i < |s| && Inserting(pages, s, i, j)
    requires j == 0 || pages[s[j - 1]].dateUpdated >= pages[s[j]].dateUpdated
    ensures NewestFirst(pages, s[..i + 1])
  {
    var p := s[..i + 1];
    forall k, l | 0 <= k < l < |p|
      ensures pages[p[k]].dateUpdated >= pages[p[l]].dateUpdated
    {
      assert p[k] == s[k] && p[l] == s[l];
      if l == j && k < j - 1 {
        assert pages[s[k]].dateUpdated >= pages[s[j - 1]].dateUpdated;
      }
    }
  }

  /** Swapping two elements keeps the multiset. */
  lemma SwapKeeps(s: seq<PageId>, x: int, y: int)
    requires 0 <= x < |s| && 0 <= y < |s|
    ensures multiset(s[x := s[y]][y := s[x]]) == multiset(s)
  {
  }

  /**
   * Moves the page at `i` left past the older pages before it, one swap at a
   * time, so that the first `i + 1` pages are newest first.
   */
  method InsertNewest(pages: map<PageId, Page>, a: array<PageId>, i: int)
    requires 0 <= i < a.Length
    requires forall k | 0 <= k < a.Length :: a[k] in pages
    requires NewestFirst(pages, a[..i])
    modifies a
    ensures forall k | 0 <= k < a.Length :: a[k] in pages
    ensures NewestFirst(pages, a[..i + 1])
    ensures multiset(a[..]) == multiset(old(a[..]))
  {
    InsertStart(pages, a[..], i);
    var j := i;
    while j > 0 && pages[a[j - 1]].dateUpdated < pages[a[j]].dateUpdated
      invariant 0 <= j <= i
      invariant forall k | 0 <= k < a.Length :: a[k] in pages
      invariant Inserting(pages, a[..], i, j)
      invariant multiset(a[..]) == multiset(old(a[..]))
    {
      ghost var s := a[..];
      InsertSwap(pages, s, i, j);
      SwapKeeps(s, j - 1, j);
      a[j - 1], a[j] := a[j], a[j - 1];
      assert a[..] == s[j - 1 := s[j]][j := s[j - 1]];
      j := j - 1;
    }
    InsertDone(pages, a[..], i, j);
  }

  /**
   * `sortDateDesc`: sorts the pages of `a` in place, newest first. The order
   * among pages of the same date is not specified; this model inserts each
   * page in turn into the sorted pages before it.
   */
  method SortDateDesc(pages: map<PageId, Page>, a: array<PageId>)
    requires forall k | 0 <= k < a.Length :: a[k] in pages
    modifies a
    ensures forall k | 0 <= k < a.Length :: a[k] in pages
    ensures NewestFirst(pages, a[..])
    ensures multiset(a[..]) == multiset(old(a[..]))
  {
    for i := 0 to a.Length
      invariant forall k | 0 <= k < a.Length :: a[k] in pages
      invariant NewestFirst(pages, a[..i])
      invariant multiset(a[..]) == multiset(old(a[..]))
    {
      InsertNewest(pages, a, i);
    }
    assert a[..] == a[..a.Length];
  }

  /** `list` holds each shown page below `top` other than `top` once, and nothing else. */
  ghost predicate ListsOnce(pages: map<PageId, Page>, top: PageId, list: seq<PageId>)
    requires Tree(pages)
  {
    forall c :: multiset(list)[c] == if c in pages && c != top && Descends(pages, c, top) && Shown(pages[c]) then 1 else 0
  }

  /** The shown pages of a complete walk from `top` are listed once each. */
  lemma WalkListsOnce(pages: map<PageId, Page>, top: PageId, order: seq<PageId>)
    requires Tree(pages) && top in pages
    requires forall k | 0 <= k < |order| :: order[k] in pages
    requires Distinct(order)
    requires forall c | c in pages :: c in order <==> Descends(pages, c, top)
    ensures ListsOnce(pages, top, Listed(pages, top, order))
  {
    forall c
      ensures multiset(Listed(pages, top, order))[c] == if c in pages && c != top && Descends(pages, c, top) && Shown(pages[c]) then 1 else 0
    {
      ListedCount(pages, top, order, c);
    }
  }

  /** The slice `list` sorted in place by `sortDateDesc`: its pages, newest first. */
  method SortedByDate(pages: map<PageId, Page>, list: seq<PageId>) returns (sorted: seq<PageId>)
    requires forall k | 0 <= k < |list| :: list[k] in pages
    ensures forall k | 0 <= k < |sorted| :: sorted[k] in pages
    ensures NewestFirst(pages, sorted)
    ensures multiset(sorted) == multiset(list)
  {
    var a := new PageId[|list|](k requires 0 <= k < |list| => list[k]);
    assert a[..] == list;
    SortDateDesc(pages, a);
    sorted := a[..];
  }

  /** Reordering a list keeps what it lists and how often. */
  lemma ListsOnceKept(pages: map<PageId, Page>, top: PageId, a: seq<PageId>, b: seq<PageId>)
    requires Tree(pages) && multiset(a) == multiset(b) && ListsOnce(pages, top, b)
    ensures ListsOnce(pages, top, a)
  {
  }

  /**
   * `Flatten`: runs the queue of `Walk` from `top` and keeps each page other
   * than `top` that is shown, then sorts them newest first. Every shown page
   * below `top` is listed exactly once, and `top` never is.
   */
  method Flatten(pages: map<PageId, Page>, top: PageId) returns (list: seq<PageId>)
    requires Tree(pages) && top in pages
    ensures forall k | 0 <= k < |list| :: list[k] in pages
    ensures NewestFirst(pages, list)
    ensures ListsOnce(pages, top, list)
  {
    var todo := [top];
    ghost var order: seq<PageId> := [];
    list := [];
    QueueStart(pages, top);
    while |todo| > 0
      invariant Queue(pages, top, order, todo)
      invariant list == Listed(pages, top, order)
      decreases pages.Keys - (set y | y in order)
    {
      WalkRound(pages, top, order, todo);
      var current := todo[0];
      ListedSnoc(pages, top, order, current);
      todo := todo[1..];
      order := order + [current];
      if current != top && Shown(pages[current]) {
        list := list + [current];
      }
      todo := PushBackAll(todo, pages[current].subPages);
    }
    WalkDone(pages, top, order);
    WalkListsOnce(pages, top, order);
    var sorted := SortedByDate(pages, list);
    ListsOnceKept(pages, top, sorted, list);
    list := sorted;
  }

  /**
   * What `Flatten` leaves out: the page it starts from, pages hidden from
   * lists, and folders without a body.
   */
  lemma FlattenExcludes(pages: map<PageId, Page>, top: PageId, list: seq<PageId>)
    requires Tree(pages) && ListsOnce(pages, top, list)
    ensures top !in list
    ensures forall k | 0 <= k < |list| :: list[k] in pages && !pages[list[k]].listHidden
    ensures forall k | 0 <= k < |list| :: list[k] in pages && (pages[list[k]].dir ==> |pages[list[k]].body| != 0)
  {
    assert multiset(list)[top] == 0;
    forall k | 0 <= k < |list|
      ensures list[k] in pages && Shown(pages[list[k]])
    {
      assert multiset(list)[list[k]] > 0;
    }
  }
}
