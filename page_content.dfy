/**
 * The page tree as it is built in memory (page/page.go, page/file.go).
 * `Content` is the heap of `Page` records: a `*Page` is an id into `pages`,
 * and `next` is the id the next allocated page receives.
 */
module PageContent {
  import opened Wrappers
  import opened Urls
  import opened PageModel
  import opened PageBase
  import opened Maps
  import opened Strings

  /**
   * The fields a page's YAML file can set. Decoding the file (and opening
   * and reading it) happens outside the model: `loadSubPage` receives its
   * outcome. `layout` is `None` when the file does not name a layout.
   */
  datatype PageYaml = PageYaml(
    title: string,
    subTitle: string,
    url: Url,
    external: bool,
    thumbnail: string,
    dateUpdated: int,
    dir: bool,
    layout: Option<string>,
    redirects: seq<string>,
    body: seq<map<string, string>>,
    listHidden: bool)

  /**
   * `addRelativeUrl`: the parent's URL with `addition` appended to its path,
   * as the URL string it prints reads back. Under a host the path then
   * starts with `/`, even when the parent's path was empty; with a scheme
   * but no host, the first segment of a relative path becomes the host.
   */
  function AddRelativeUrl(root: Url, addition: string): (u: Url)
    ensures u.scheme == root.scheme && u.query == root.query && u.fragment == root.fragment
    ensures var joined := root.path + addition;
      root.host != "" ==> u.host == root.host && (u.path == joined || u.path == "/" + joined)
    ensures root.host != "" ==> (u.path == "" <==> root.path + addition == "")
    ensures u.host != "" && u.path != "" ==> u.path[0] == '/'
    ensures var joined := root.path + addition;
      (root.host == "" && root.scheme == "") || joined == "" || joined[0] == '/' ==> u == root.(path := joined)
    ensures var joined := root.path + addition;
      root.host == "" && root.scheme != "" && joined != "" && joined[0] != '/' ==>
        u.host != "" && '/' !in u.host && u.host + u.path == joined
  {
    Reparsed(root.(path := root.path + addition))
  }

  /**
   * A page loaded under a root with a scheme, no host and an empty path
   * takes its name for the host, at the path `/`.
   */
  lemma HostlessRootNamesHost(root: Url, name: string)
    requires root == Url("http", "", "", "", "") && name == "about"
    ensures AddRelativeUrl(root, name + "/") == Url("http", "about", "/", "", "")
  {
    var joined := root.path + (name + "/");
    assert joined == "about/";
    assert IndexByte(joined, '/') == 5;
  }

  /** The layout a sub-page starts with before its YAML is decoded. */
  function DefaultLayout(base: string): (layout: string)
    ensures layout == "dir.html" <==> base == "index"
    ensures layout == "page.html" <==> base != "index"
  {
    if base == "index" then "dir.html" else "page.html"
  }

  /**
   * The sub-page `loadSubPage` builds for `filename` under the page `p`
   * (whose URL is `parentUrl`) once the YAML decoded to `y`.
   */
  function NewSubPage(p: PageId, parentUrl: Url, filename: string, y: PageYaml): (sub: Page)
    ensures sub.parent == Some(p) && sub.subPages == []
    ensures sub.layout == (if y.layout.Some? then y.layout.value else DefaultLayout(Base(filename)))
    ensures y.url != Empty ==> sub.external && sub.url == y.url
    ensures y.url == Empty ==> sub.external == y.external && sub.url == AddRelativeUrl(parentUrl, Base(filename) + "/")
    ensures sub.title == y.title && sub.subTitle == y.subTitle && sub.thumbnail == y.thumbnail
    ensures sub.dateUpdated == y.dateUpdated && sub.dir == y.dir && sub.redirects == y.redirects
    ensures sub.body == y.body && sub.listHidden == y.listHidden
  {
    var decoded := Page(y.title, y.subTitle, y.url, y.external, y.thumbnail, y.dateUpdated, Some(p), [], y.dir,
                        if y.layout.Some? then y.layout.value else DefaultLayout(Base(filename)),
                        y.redirects, y.body, y.listHidden);
    if y.url != Empty then decoded.(external := true)
    else decoded.(url := AddRelativeUrl(parentUrl, Base(filename) + "/"))
  }

  /**
   * Under a host, appending a slash-free name and a `/` to a path-absolute
   * or empty path gives a path-absolute one: `/` when the path was empty.
   */
  lemma RelativeUrlUnderHost(root: Url, name: string)
    requires root.host != "" && '/' !in name
    requires root.path == "" || root.path[0] == '/'
    ensures AddRelativeUrl(root, name + "/").path == (if root.path == "" && name != "" then "/" else root.path) + name + "/"
  {
    var joined := root.path + (name + "/");
    if root.path == "" {
      assert joined == name + "/";
      if name != "" {
        assert joined[0] == name[0];
      }
    } else {
      assert joined[0] == root.path[0];
    }
  }

  /**
   * A page loaded without a `url:` key under a parent served from a host
   * gets the path-absolute address requests arrive with: the parent's path
   * (`/` when that is empty and the base is not), the file's base and a `/`.
   */
  lemma SubPagePathUnderHost(p: PageId, parentUrl: Url, filename: string, y: PageYaml)
    requires y.url == Empty && parentUrl.host != ""
    requires parentUrl.path == "" || parentUrl.path[0] == '/'
    ensures NewSubPage(p, parentUrl, filename, y).url.host == parentUrl.host
    ensures NewSubPage(p, parentUrl, filename, y).url.path
         == (if parentUrl.path == "" && Base(filename) != "" then "/" else parentUrl.path) + Base(filename) + "/"
  {
    BaseHasNoSeparators(filename);
    RelativeUrlUnderHost(parentUrl, Base(filename));
  }

  /** A page `about.yaml` loaded under the root of `http://example.com` is at `/about/`. */
  lemma AboutUnderRoot(root: Url, dir: string, stem: string, ext: string, y: PageYaml)
    requires root == Url("http", "example.com", "", "", "") && dir == "content" && stem == "about" && ext == "yaml"
    requires y.url == Empty
    ensures NewSubPage(0, root, dir + "/" + (stem + "." + ext), y).url == Url("http", "example.com", "/" + stem + "/", "", "")
  {
    BaseOfFile(dir, '/', stem, ext);
    SubPagePathUnderHost(0, root, dir + "/" + (stem + "." + ext), y);
  }

  /** Two stores with the same ids, parents and sub-page lists: one is a tree when the other is. */
  lemma SameShapeTree(pages: map<PageId, Page>, after: map<PageId, Page>)
    requires Tree(pages) && after.Keys == pages.Keys
    requires forall id | id in after :: after[id].parent == pages[id].parent && after[id].subPages == pages[id].subPages
    ensures Tree(after)
  {
    forall id, c | id in after && c in after[id].subPages
      ensures c in after && after[c].parent == Some(id)
    {
      assert c in pages[id].subPages;
    }
    forall id | id in after && after[id].parent.Some?
      ensures after[id].parent.value in after && after[id].parent.value < id
      ensures id in after[after[id].parent.value].subPages
    {
      assert pages[id].parent.Some?;
    }
  }

  /** Merging a page with no sub-pages into a page of a tree keeps the tree. */
  lemma MergeKeepsTree(pages: map<PageId, Page>, p: PageId, src: Page)
    requires Tree(pages) && p in pages && src.subPages == []
    ensures Tree(pages[p := IndexMerged(pages[p], src)])
  {
    var after := pages[p := IndexMerged(pages[p], src)];
    forall id | id in after
      ensures after[id].parent == pages[id].parent && after[id].subPages == pages[id].subPages
    {
      if id != p {
        MapUpdateOther(pages, p, IndexMerged(pages[p], src), id);
      }
    }
    SameShapeTree(pages, after);
  }

  /** No page of a store lists an id that is not in the store. */
  lemma FreshNotListed(pages: map<PageId, Page>, c: PageId)
    requires Tree(pages) && c !in pages
    ensures forall id | id in pages :: c !in pages[id].subPages
  {
  }

  /** The store after `sub` is stored at the fresh id `c` and listed last among `p`'s sub-pages. */
  ghost function WithChild(pages: map<PageId, Page>, p: PageId, c: PageId, sub: Page): map<PageId, Page>
    requires p in pages
  {
    pages[p := pages[p].(subPages := pages[p].subPages + [c])][c := sub]
  }

  /** Adding a fresh child `c` at the end of `p`'s sub-pages keeps the tree and adds just `c`. */
  lemma AppendChildKeepsTree(pages: map<PageId, Page>, p: PageId, c: PageId, sub: Page)
    requires Tree(pages) && p in pages && c !in pages && p < c
    requires sub.parent == Some(p) && sub.subPages == []
    ensures Tree(WithChild(pages, p, c, sub))
    ensures WithChild(pages, p, c, sub).Keys == pages.Keys + {c}
  {
    FreshNotListed(pages, c);
    var after := WithChild(pages, p, c, sub);
    forall id | id in after
      ensures Linked(after, id)
    {
      if id == c {
        assert after[p].subPages == pages[p].subPages + [c];
      } else {
        assert id in pages && Linked(pages, id);
        var s := after[id].subPages;
        assert s == pages[id].subPages || (id == p && s == pages[p].subPages + [c]);
        forall k | k in s
          ensures k in after && after[k].parent == Some(id)
        {
          if k != c {
            assert k in pages[id].subPages && k in pages;
          }
        }
        if id == p {
          assert forall i | 0 <= i < |pages[p].subPages| :: pages[p].subPages[i] != c;
        }
        if after[id].parent.Some? {
          var q := after[id].parent.value;
          assert q in pages && id in pages[q].subPages;
        }
      }
    }
  }

  class Content {
    /** Every page in memory, by id. */
    var pages: map<PageId, Page>
    /** The id of the next page to be allocated. */
    var next: PageId

    /** The pages form a tree and every id in use lies below `next`. */
    ghost predicate Valid()
      reads this
    {
      Tree(pages) && forall id | id in pages :: id < next
    }

    /** `LoadRoot`'s root page: no title, the site's base URL, at id 0. */
    constructor(baseUrl: Url)
      ensures Valid()
      ensures pages == map[0 := Page("", "", baseUrl, false, "", 0, None, [], false, "", [], [], false)]
      ensures next == 1
    {
      pages := map[0 := Page("", "", baseUrl, false, "", 0, None, [], false, "", [], [], false)];
      next := 1;
    }

    /** `copyIndex`: the fields of the page `p` take the contents of `src`. */
    method CopyIndex(p: PageId, src: Page)
      requires p in pages
      modifies this
      ensures pages == old(pages)[p := IndexMerged(old(pages)[p], src)]
      ensures next == old(next)
    {
      var q := pages[p];
      q := q.(title := src.title, subTitle := src.subTitle);
      if |q.url.scheme + q.url.host + q.url.path + q.url.query + q.url.fragment| == 0 {
        q := q.(url := src.url);
      }
      q := q.(thumbnail := src.thumbnail, dateUpdated := src.dateUpdated);
      if |q.subPages| == 0 && |src.subPages| > 0 {
        q := q.(subPages := src.subPages);
      }
      q := q.(dir := q.dir || src.dir);
      q := q.(layout := src.layout, redirects := src.redirects, body := src.body, listHidden := src.listHidden);
      pages := pages[p := q];
    }

    /** Allocates `sub` at the next id and appends it to `p`'s sub-pages. */
    method AppendSubPage(p: PageId, sub: Page) returns (c: PageId)
      requires Valid() && p in pages
      requires sub.parent == Some(p) && sub.subPages == []
      modifies this
      ensures Valid()
      ensures c == old(next) && c !in old(pages)
      ensures pages == WithChild(old(pages), p, c, sub) && next == c + 1
    {
      c := next;
      AppendChildKeepsTree(pages, p, c, sub);
      pages := pages[p := pages[p].(subPages := pages[p].subPages + [c])][c := sub];
      next := next + 1;
    }

    /**
     * `loadSubPage`: `decoded` is what opening, reading and decoding
     * `filename` gave. A failure leaves the tree as it was; an `index` page is
     * merged into `p`; any other page becomes `p`'s last sub-page.
     */
    method LoadSubPage(p: PageId, filename: string, decoded: Result<PageYaml>) returns (ok: bool)
      requires Valid() && p in pages
      modifies this
      ensures Valid()
      ensures ok <==> decoded.Success?
      ensures !ok ==> pages == old(pages) && next == old(next)
      ensures ok && Base(filename) == "index" ==>
        pages == old(pages)[p := IndexMerged(old(pages)[p], NewSubPage(p, old(pages)[p].url, filename, decoded.value))]
        && next == old(next)
      ensures ok && Base(filename) != "index" ==>
        pages == WithChild(old(pages), p, old(next), NewSubPage(p, old(pages)[p].url, filename, decoded.value))
        && next == old(next) + 1
    {
      if decoded.Failure? {
        return false;
      }
      var base := FileBase(filename);
      var sub := NewSubPage(p, pages[p].url, filename, decoded.value);
      if base == "index" {
        MergeKeepsTree(pages, p, sub);
        CopyIndex(p, sub);
      } else {
        var _ := AppendSubPage(p, sub);
      }
      return true;
    }
  }
}
