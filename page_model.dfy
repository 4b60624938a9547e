/**
 * The content page (page/page.go). A `*Page` is a `PageId` into a
 * store `map<PageId, Page>`; `Parent` and `SubPages` hold ids. `DateUpdated`
 * is an integer timestamp, and `URL` is a URL record (Urls.Empty for "").
 */
module PageModel {
  import opened Wrappers
  import opened Urls

  type PageId = nat

  datatype Page = Page(
    title: string,
    subTitle: string,
    url: Url,
    external: bool,
    thumbnail: string,
    dateUpdated: int,
    parent: Option<PageId>,
    subPages: seq<PageId>,
    dir: bool,
    layout: string,
    redirects: seq<string>,
    body: seq<map<string, string>>,
    listHidden: bool)

  /**
   * The page `copyIndex` leaves in `p` when it takes the contents of the
   * folder's index page `src`.
   */
  function IndexMerged(p: Page, src: Page): (r: Page)
    ensures r.title == src.title && r.subTitle == src.subTitle && r.thumbnail == src.thumbnail
    ensures r.dateUpdated == src.dateUpdated && r.layout == src.layout && r.redirects == src.redirects
    ensures r.body == src.body && r.listHidden == src.listHidden
    ensures r.url == (if p.url != Empty then p.url else src.url)
    ensures r.subPages == (if |p.subPages| == 0 && |src.subPages| > 0 then src.subPages else p.subPages)
    ensures r.dir == (p.dir || src.dir)
    ensures r.parent == p.parent && r.external == p.external
  {
    p.(title := src.title,
       subTitle := src.subTitle,
       url := if |p.url.scheme + p.url.host + p.url.path + p.url.query + p.url.fragment| == 0 then src.url else p.url,
       thumbnail := src.thumbnail,
       dateUpdated := src.dateUpdated,
       subPages := if |p.subPages| == 0 && |src.subPages| > 0 then src.subPages else p.subPages,
       dir := p.dir || src.dir,
       layout := src.layout,
       redirects := src.redirects,
       body := src.body,
       listHidden := src.listHidden)
  }

  /** Merging the same index page twice leaves the page as merging it once. */
  lemma IndexMergeIdempotent(p: Page, src: Page)
    ensures IndexMerged(IndexMerged(p, src), src) == IndexMerged(p, src)
  {
    var once := IndexMerged(p, src);
    assert once.url == Empty ==> p.url == Empty && src.url == Empty;
  }

  /** No page id occurs twice. */
  predicate Distinct(s: seq<PageId>)
  {
    forall i, j | 0 <= i < j < |s| :: s[i] != s[j]
  }

  /**
   * The store is a forest of pages: children point back to their parent,
   * a parent lists each child once, and a parent was allocated before its
   * children (its id is smaller), so following `Parent` terminates.
   */
  ghost predicate Tree(pages: map<PageId, Page>)
  {
    forall id | id in pages :: Linked(pages, id)
  }

  /** The links of the page `id` agree with the pages they point to. */
  ghost predicate Linked(pages: map<PageId, Page>, id: PageId)
    requires id in pages
  {
    && (forall c | c in pages[id].subPages :: c in pages && pages[c].parent == Some(id))
    && Distinct(pages[id].subPages)
    && (pages[id].parent.Some? ==>
          pages[id].parent.value in pages && pages[id].parent.value < id && id in pages[pages[id].parent.value].subPages)
  }

  /** The chain of pages from the topmost ancestor down to `id`. */
  function Ancestry(pages: map<PageId, Page>, id: PageId): (chain: seq<PageId>)
    requires Tree(pages) && id in pages
    ensures |chain| >= 1 && chain[|chain| - 1] == id
    ensures forall k | 0 <= k < |chain| :: chain[k] in pages && chain[k] <= id
    ensures pages[chain[0]].parent == None
    ensures forall k | 0 <= k < |chain| - 1 :: pages[chain[k + 1]].parent == Some(chain[k])
    decreases id
  {
    match pages[id].parent
    case None => [id]
    case Some(q) => Ancestry(pages, q) + [id]
  }

  /** `c` is `r` or lies below `r`. */
  ghost predicate Descends(pages: map<PageId, Page>, c: PageId, r: PageId)
    requires Tree(pages) && c in pages
  {
    r in Ancestry(pages, c)
  }

  /** The sub-pages of the pages of `s`, in order: what a breadth-first queue appends after them. */
  function Kids(pages: map<PageId, Page>, s: seq<PageId>): seq<PageId>
    requires forall k | 0 <= k < |s| :: s[k] in pages
  {
    if |s| == 0 then [] else Kids(pages, s[..|s| - 1]) + pages[s[|s| - 1]].subPages
  }

  /** A page is in `Kids(s)` exactly when some page of `s` lists it. */
  lemma {:induction false} KidsMember(pages: map<PageId, Page>, s: seq<PageId>, c: PageId)
    requires forall k | 0 <= k < |s| :: s[k] in pages
    ensures c in Kids(pages, s) <==> exists k | 0 <= k < |s| :: c in pages[s[k]].subPages
  {
    if |s| > 0 {
      var init := s[..|s| - 1];
      KidsMember(pages, init, c);
      if c in Kids(pages, s) && c !in pages[s[|s| - 1]].subPages {
        var k :| 0 <= k < |init| && c in pages[init[k]].subPages;
        assert s[k] == init[k];
      }
      if exists k | 0 <= k < |s| :: c in pages[s[k]].subPages {
        var k :| 0 <= k < |s| && c in pages[s[k]].subPages;
        if k < |init| {
          assert init[k] == s[k];
        }
      }
    }
  }

  /** Appending one page to `s` appends its sub-pages to `Kids(s)`. */
  lemma KidsSnoc(pages: map<PageId, Page>, s: seq<PageId>, x: PageId)
    requires forall k | 0 <= k < |s| :: s[k] in pages
    requires x in pages
    ensures Kids(pages, s + [x]) == Kids(pages, s) + pages[x].subPages
  {
    assert (s + [x])[..|s|] == s;
  }

  /** An ancestor has a smaller id than its descendants. */
  lemma AncestorBelow(pages: map<PageId, Page>, c: PageId, r: PageId)
    requires Tree(pages) && c in pages && Descends(pages, c, r)
    ensures r in pages && r <= c
  {
  }

  /** A child of a page below `r` is below `r`. */
  lemma ChildDescends(pages: map<PageId, Page>, x: PageId, c: PageId, r: PageId)
    requires Tree(pages) && x in pages && c in pages[x].subPages && Descends(pages, x, r)
    ensures c in pages && Descends(pages, c, r)
  {
    assert Ancestry(pages, c) == Ancestry(pages, x) + [c];
  }
}
