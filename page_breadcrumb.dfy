/**
 * `Breadcrumbs` (page/breadcrumb.go): the chain of pages from the top of the
 * tree down to a page.
 */
module PageBreadcrumb {
  import opened Wrappers
  import opened PageModel

  /**
   * A chain of parent links that starts at a page without parent and ends at
   * `p` is the ancestry of `p`: there is only one.
   */
  lemma {:induction false} ChainIsAncestry(pages: map<PageId, Page>, p: PageId, chain: seq<PageId>)
    requires Tree(pages) && p in pages
    requires |chain| >= 1 && chain[|chain| - 1] == p
    requires forall k | 0 <= k < |chain| :: chain[k] in pages
    requires pages[chain[0]].parent == None
    requires forall k | 0 <= k < |chain| - 1 :: pages[chain[k + 1]].parent == Some(chain[k])
    ensures chain == Ancestry(pages, p)
    decreases |chain|
  {
    if |chain| == 1 {
      assert pages[p].parent == None;
    } else {
      var init := chain[..|chain| - 1];
      var q := chain[|chain| - 2];
      assert pages[p].parent == Some(q);
      assert Linked(pages, p);
      ChainIsAncestry(pages, q, init);
      assert chain == init + [p];
    }
  }

  /** Pushing `id` onto the front of the list and moving on to its parent keeps the chain. */
  lemma Climb(pages: map<PageId, Page>, p: PageId, id: PageId, l: seq<PageId>)
    requires Tree(pages) && id in pages && p in pages
    requires Ancestry(pages, id) + l == Ancestry(pages, p)
    ensures pages[id].parent.Some? ==>
      pages[id].parent.value in pages && pages[id].parent.value < id
      && Ancestry(pages, pages[id].parent.value) + ([id] + l) == Ancestry(pages, p)
    ensures pages[id].parent.None? ==> [id] + l == Ancestry(pages, p)
  {
    assert Linked(pages, id);
    if pages[id].parent.Some? {
      var q := pages[id].parent.value;
      PushFront(Ancestry(pages, q), id, l);
    }
  }

  /** Pushing onto the front of `l` what ends `a + [x]`. */
  lemma PushFront(a: seq<PageId>, x: PageId, l: seq<PageId>)
    ensures a + ([x] + l) == (a + [x]) + l
  {
  }

  /**
   * `Breadcrumbs`: follows `Parent` from `p` to the top, pushing each page
   * onto the front of a list, then copies the list out: the topmost ancestor
   * first and `p` last, each page the parent of the next.
   */
  method Breadcrumbs(pages: map<PageId, Page>, p: PageId) returns (out: seq<PageId>)
    requires Tree(pages) && p in pages
    ensures out == Ancestry(pages, p)
  {
    var l: seq<PageId> := [];
    var c: Option<PageId> := Some(p);
    while c.Some?
      invariant c.Some? ==> c.value in pages && Ancestry(pages, c.value) + l == Ancestry(pages, p)
      invariant c.None? ==> l == Ancestry(pages, p)
      decreases if c.Some? then c.value + 1 else 0
    {
      var id := c.value;
      Climb(pages, p, id, l);
      l := [id] + l;
      c := pages[id].parent;
    }
    out := [];
    for i := 0 to |l|
      invariant out == l[..i]
    {
      assert l[..i + 1] == l[..i] + [l[i]];
      out := out + [l[i]];
    }
    assert l[..|l|] == l;
  }

  /** The breadcrumbs of a page without parent are that page alone. */
  lemma RootBreadcrumbs(pages: map<PageId, Page>, p: PageId)
    requires Tree(pages) && p in pages && pages[p].parent == None
    ensures Ancestry(pages, p) == [p]
  {
  }

  /** The breadcrumbs of a child are its parent's breadcrumbs followed by the child: one more than its parent's. */
  lemma ChildBreadcrumbs(pages: map<PageId, Page>, q: PageId, c: PageId)
    requires Tree(pages) && q in pages && c in pages[q].subPages
    ensures c in pages && Ancestry(pages, c) == Ancestry(pages, q) + [c]
    ensures |Ancestry(pages, c)| == |Ancestry(pages, q)| + 1
  {
    assert Linked(pages, q);
  }
}
