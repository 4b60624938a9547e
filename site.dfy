/**
 * One site (site/site.go, site/servehttp.go, site/redirect.go): its loaded
 * content and the decision it takes for each request. Writing the response
 * is represented by the `Action` taken and its status code; parsing the
 * templates and loading the content tree from disk are inputs.
 */
module Sites {
  import opened Wrappers
  import opened Urls
  import opened PageModel
  import opened PageMap
  import opened PageRedirect

  /** The parts of an incoming request the site reads: its `Host` header and its URL. */
  datatype Request = Request(host: string, url: Url)

  /**
   * The `Location` that `redirect.HTTPSRedirect` sends: a copy of the
   * request URL whose scheme is `https` and whose host is the site's host.
   */
  function HttpsLocation(requestUrl: Url, host: string): (location: Url)
    ensures location.scheme == "https" && location.host == host
    ensures location.path == requestUrl.path && location.query == requestUrl.query
    ensures location.fragment == requestUrl.fragment
  {
    requestUrl.(scheme := "https", host := host)
  }

  /** Redirecting an address already redirected to https changes nothing more. */
  lemma HttpsLocationIdempotent(requestUrl: Url, host: string)
    ensures HttpsLocation(HttpsLocation(requestUrl, host), host) == HttpsLocation(requestUrl, host)
  {
  }

  /** Two requests that differ only in scheme and host are sent to the same place. */
  lemma HttpsLocationIgnoresOrigin(a: Url, b: Url, host: string)
    requires a.path == b.path && a.query == b.query && a.fragment == b.fragment
    ensures HttpsLocation(a, host) == HttpsLocation(b, host)
  {
  }

  /** The outcome of `contentPage`: the page, whether one was found, and whether it was found only with a `/` added. */
  datatype PageLookup = PageLookup(page: Option<PageId>, found: bool, folderRedirect: bool)

  /**
   * `contentPage`: the page filed under `path`, or else the one filed under
   * `path + "/"`, which calls for a redirect to the folder.
   */
  function ContentPage(pageMap: map<string, PageId>, path: string): (r: PageLookup)
    ensures r.found <==> path in pageMap || path + "/" in pageMap
    ensures r.found <==> r.page.Some?
    ensures r.folderRedirect ==> r.found
    ensures path in pageMap ==> r.page == Some(pageMap[path]) && !r.folderRedirect
    ensures path !in pageMap && path + "/" in pageMap ==> r.page == Some(pageMap[path + "/"]) && r.folderRedirect
  {
    if path in pageMap then PageLookup(Some(pageMap[path]), true, false)
    else
      var slashed := path + "/";
      if slashed in pageMap then PageLookup(Some(pageMap[slashed]), true, true)
      else PageLookup(None, false, false)
  }

  /** What `ServeHTTP` does with a request. */
  datatype Action =
    | HttpsRedirect(location: Url)   // 301 to the same address over https
    | Redirect(location: Url)        // 301 from the redirect map
    | Static                         // handed to the static file handler
    | FolderRedirect(location: Url)  // 301 to the folder's address, with the `/`
    | Render(page: PageId)           // the page run through its layout template

  /**
   * The decision `ServeHTTP` takes, in its order of priority: the forced
   * https redirect, the redirect map, the content pages (with the folder
   * redirect), and the static files last.
   */
  function Route(base: Url, redirectHttps: bool, pages: map<PageId, Page>, pageMap: map<string, PageId>,
                 redirectMap: map<string, Url>, req: Request): (a: Action)
    requires forall key | key in pageMap :: pageMap[key] in pages
    ensures redirectHttps && base.scheme == "http" ==> a == HttpsRedirect(HttpsLocation(req.url, base.host))
    ensures !(redirectHttps && base.scheme == "http") && req.url.path in redirectMap ==>
      a == Redirect(redirectMap[req.url.path])
    ensures !(redirectHttps && base.scheme == "http") && req.url.path !in redirectMap ==>
      var lookup := ContentPage(pageMap, req.url.path);
      && (a.Static? <==> !lookup.found)
      && (a.FolderRedirect? <==> lookup.folderRedirect)
      && (a.FolderRedirect? ==> a.location == RelativeBaseOrFullUrl(base, pages[lookup.page.value].url))
      && (a.Render? <==> lookup.found && !lookup.folderRedirect)
      && (a.Render? ==> Some(a.page) == lookup.page)
  {
    if redirectHttps && base.scheme == "http" then HttpsRedirect(HttpsLocation(req.url, base.host))
    else if req.url.path in redirectMap then Redirect(redirectMap[req.url.path])
    else
      var lookup := ContentPage(pageMap, req.url.path);
      if !lookup.found then Static
      else if lookup.folderRedirect then FolderRedirect(RelativeBaseOrFullUrl(base, pages[lookup.page.value].url))
      else Render(lookup.page.value)
  }

  /**
   * How running the page's layout template went. The template writes
   * straight to the response, so the first byte it writes sends the 200
   * header: a failure after that leaves the client a truncated page.
   */
  datatype WriteOutcome = Written | FailedBeforeOutput | FailedAfterOutput

  /**
   * The status code the action answers with. A page answers 500 when its
   * layout template is missing or fails before writing anything, and 200
   * otherwise; the static handler answers 200 for a file that exists and
   * 404 otherwise.
   */
  function Status(a: Action, pages: map<PageId, Page>, templates: set<string>, write: WriteOutcome, fileExists: bool): (code: int)
    requires a.Render? ==> a.page in pages
    ensures code == 301 <==> a.HttpsRedirect? || a.Redirect? || a.FolderRedirect?
    ensures a.Render? ==> (code == 200 <==> pages[a.page].layout in templates && !write.FailedBeforeOutput?)
    ensures a.Render? ==> (code == 500 <==> pages[a.page].layout !in templates || write.FailedBeforeOutput?)
    ensures a.Static? ==> (code == 200 <==> fileExists) && (code == 404 <==> !fileExists)
  {
    match a
    case HttpsRedirect(_) => 301
    case Redirect(_) => 301
    case FolderRedirect(_) => 301
    case Static => if fileExists then 200 else 404
    case Render(p) => if pages[p].layout !in templates || write == FailedBeforeOutput then 500 else 200
  }

  /** With the https redirect on and the site served over http, every path whatever is sent to https first. */
  lemma HttpsBeforeAll(base: Url, pages: map<PageId, Page>, pageMap: map<string, PageId>,
                       redirectMap: map<string, Url>, req: Request)
    requires forall key | key in pageMap :: pageMap[key] in pages
    requires base.scheme == "http"
    ensures Route(base, true, pages, pageMap, redirectMap, req).HttpsRedirect?
    ensures Status(Route(base, true, pages, pageMap, redirectMap, req), pages, {}, Written, false) == 301
    ensures Route(base, true, pages, pageMap, redirectMap, req).location
         == Url("https", base.host, req.url.path, req.url.query, req.url.fragment)
  {
  }

  /**
   * A folder redirect on a site whose page map `MapPages` built sends the
   * browser to `path + "/"`, and that request finds the same page with no
   * further redirect.
   */
  lemma FolderRedirectSettles(pages: map<PageId, Page>, order: seq<PageId>, base: Url, path: string)
    requires forall k | 0 <= k < |order| :: order[k] in pages
    requires path != ""
    requires ContentPage(PathIndex(pages, order), path).folderRedirect
    requires var p := ContentPage(PathIndex(pages, order), path).page.value;
      p in pages && pages[p].url.host == base.host
    ensures var p := ContentPage(PathIndex(pages, order), path).page.value;
      && RelativeBaseOrFullUrl(base, pages[p].url) == PathOnly(path + "/")
      && ContentPage(PathIndex(pages, order), path + "/") == PageLookup(Some(p), true, false)
  {
    var m := PathIndex(pages, order);
    var key := path + "/";
    MapPagesKeys(pages, order, key);
    assert |key| >= 2;
  }

  /**
   * A page of the walk that is not external, at a path ending in `/`, is
   * found: its own path is looked up directly, and the path without the
   * `/` is found too (by the folder redirect, unless a page is filed there).
   */
  lemma FolderPageFound(pages: map<PageId, Page>, order: seq<PageId>, i: nat, path: string)
    requires forall k | 0 <= k < |order| :: order[k] in pages
    requires i < |order| && !pages[order[i]].external && pages[order[i]].url.path == path + "/"
    ensures ContentPage(PathIndex(pages, order), path + "/").found
    ensures !ContentPage(PathIndex(pages, order), path + "/").folderRedirect
    ensures ContentPage(PathIndex(pages, order), path).found
  {
    assert Filed(pages[order[i]], path + "/");
    MapPagesMissing(pages, order, path + "/");
  }

  /** Every page of the page map is a page of the tree. */
  lemma PathIndexValues(pages: map<PageId, Page>, order: seq<PageId>)
    requires forall k | 0 <= k < |order| :: order[k] in pages
    ensures forall key | key in PathIndex(pages, order) :: PathIndex(pages, order)[key] in pages
  {
    forall key | key in PathIndex(pages, order)
      ensures PathIndex(pages, order)[key] in pages
    {
      MapPagesKeys(pages, order, key);
    }
  }

  /**
   * `pageMap` and `redirectMap` are what `MapPages` and `MapRedirects` build
   * from the tree `pages` below `root`, walked breadth first.
   */
  ghost predicate Built(pages: map<PageId, Page>, root: PageId, base: Url, pageMap: map<string, PageId>,
                        redirectMap: map<string, Url>, mapWalk: seq<PageId>, redirectWalk: seq<PageId>)
  {
    && Tree(pages) && root in pages
    && BreadthFirst(pages, root, mapWalk) && pageMap == PathIndex(pages, mapWalk)
    && BreadthFirst(pages, root, redirectWalk) && redirectMap == RedirectIndex(pages, redirectWalk, base)
    && (forall key | key in pageMap :: pageMap[key] in pages)
  }

  /** The maps `loadTemplatesAndContent` builds for a freshly loaded tree. */
  method BuildMaps(pages: map<PageId, Page>, root: PageId, base: Url)
    returns (pageMap: map<string, PageId>, redirectMap: map<string, Url>, ghost mapWalk: seq<PageId>, ghost redirectWalk: seq<PageId>)
    requires Tree(pages) && root in pages
    ensures Built(pages, root, base, pageMap, redirectMap, mapWalk, redirectWalk)
  {
    pageMap, mapWalk := MapPages(pages, root);
    var walk := Walk(pages, root);
    redirectMap := MapRedirects(pages, walk, base);
    redirectWalk := walk;
    PathIndexValues(pages, mapWalk);
  }

  /** The content tree a load produced: the pages and the id of the root page. */
  datatype LoadedContent = LoadedContent(pages: map<PageId, Page>, root: PageId)

  class Site {
    /** The site's own address, `http://` or `https://` followed by its host. */
    const base: Url
    /** Reload templates and content on every request. */
    const liveRefresh: bool
    /** Send every request over http to https. */
    const redirectHttps: bool
    /** The names of the layout templates loaded. */
    var templates: set<string>
    /** The content tree and its root page. */
    var pages: map<PageId, Page>
    var pageRoot: PageId
    /** Path to page, as `MapPages` built it. */
    var pageMap: map<string, PageId>
    /** Old path to new location, as `MapRedirects` built it. */
    var redirectMap: map<string, Url>
    /** The breadth-first walks `pageMap` and `redirectMap` were built from. */
    ghost var mapWalk: seq<PageId>
    ghost var redirectWalk: seq<PageId>

    /** The maps were built from the content tree. */
    ghost predicate Valid()
      reads this
    {
      Built(pages, pageRoot, base, pageMap, redirectMap, mapWalk, redirectWalk)
    }

    /** The fields `New` sets before anything is loaded. */
    constructor(base: Url, liveRefresh: bool, redirectHttps: bool)
      ensures this.base == base && this.liveRefresh == liveRefresh && this.redirectHttps == redirectHttps
      ensures templates == {} && pages == map[] && pageMap == map[] && redirectMap == map[]
    {
      this.base := base;
      this.liveRefresh := liveRefresh;
      this.redirectHttps := redirectHttps;
      templates := {};
      pages := map[];
      pageRoot := 0;
      pageMap := map[];
      redirectMap := map[];
      mapWalk := [];
      redirectWalk := [];
    }

    /**
     * `loadTemplatesAndContent`: `templatesLoaded` and `contentLoaded` are
     * what parsing the layouts and loading the content folder gave. The site
     * takes the new templates, tree and maps only when both succeeded; the
     * first error is returned.
     */
    method LoadTemplatesAndContent(templatesLoaded: Result<set<string>>, contentLoaded: Result<LoadedContent>)
      returns (err: Option<string>)
      requires contentLoaded.Success? ==> Tree(contentLoaded.value.pages) && contentLoaded.value.root in contentLoaded.value.pages
      modifies this
      ensures err.None? <==> templatesLoaded.Success? && contentLoaded.Success?
      ensures templatesLoaded.Failure? ==> err == Some(templatesLoaded.error)
      ensures templatesLoaded.Success? && contentLoaded.Failure? ==> err == Some(contentLoaded.error)
      ensures err.Some? ==> unchanged(this)
      ensures err.None? ==>
        (Valid() && templates == templatesLoaded.value
         && pages == contentLoaded.value.pages && pageRoot == contentLoaded.value.root)
    {
      if templatesLoaded.Failure? {
        return Some(templatesLoaded.error);
      }
      if contentLoaded.Failure? {
        return Some(contentLoaded.error);
      }
      var loaded := contentLoaded.value;
      var m, r;
      ghost var mw, rw;
      m, r, mw, rw := BuildMaps(loaded.pages, loaded.root, base);
      templates, pages, pageRoot, pageMap, redirectMap := templatesLoaded.value, loaded.pages, loaded.root, m, r;
      mapWalk, redirectWalk := mw, rw;
      return None;
    }

    /**
     * `New`: a site for `base`, or no site and the error when loading its
     * templates or its content failed.
     */
    static method New(base: Url, liveRefresh: bool, redirectHttps: bool,
                      templatesLoaded: Result<set<string>>, contentLoaded: Result<LoadedContent>)
      returns (s: Site?, err: Option<string>)
      requires contentLoaded.Success? ==> Tree(contentLoaded.value.pages) && contentLoaded.value.root in contentLoaded.value.pages
      ensures s == null <==> err.Some?
      ensures err.Some? <==> templatesLoaded.Failure? || contentLoaded.Failure?
      ensures s != null ==>
        (fresh(s) && s.Valid() && s.base == base
         && s.liveRefresh == liveRefresh && s.redirectHttps == redirectHttps)
    {
      s := new Site(base, liveRefresh, redirectHttps);
      err := s.LoadTemplatesAndContent(templatesLoaded, contentLoaded);
      if err.Some? {
        s := null;
      }
    }

    /**
     * `ServeHTTP`: with live refresh on, first reloads the templates and the
     * content (`reloadTemplates`, `reloadContent`), keeping the previous good
     * state when the reload fails; then takes the action `Route` decides.
     * `write` is how running the page's template went, `fileExists`
     * whether the static file asked for exists.
     */
    method ServeHTTP(req: Request, reloadTemplates: Result<set<string>>, reloadContent: Result<LoadedContent>,
                     write: WriteOutcome, fileExists: bool) returns (action: Action, status: int)
      requires Valid()
      requires reloadContent.Success? ==> Tree(reloadContent.value.pages) && reloadContent.value.root in reloadContent.value.pages
      modifies this
      ensures Valid()
      ensures !(liveRefresh && reloadTemplates.Success? && reloadContent.Success?) ==> unchanged(this)
      ensures liveRefresh && reloadTemplates.Success? && reloadContent.Success? ==>
        templates == reloadTemplates.value && pages == reloadContent.value.pages && pageRoot == reloadContent.value.root
      ensures action == Route(base, redirectHttps, pages, pageMap, redirectMap, req)
      ensures status == Status(action, pages, templates, write, fileExists)
    {
      if liveRefresh {
        var err := LoadTemplatesAndContent(reloadTemplates, reloadContent);
      }
      if redirectHttps && base.scheme == "http" {
        return HttpsRedirect(HttpsLocation(req.url, base.host)), 301;
      }
      if req.url.path in redirectMap {
        return Redirect(redirectMap[req.url.path]), 301;
      }
      var lookup := ContentPage(pageMap, req.url.path);
      if !lookup.found {
        return Static, if fileExists then 200 else 404;
      }
      var p := lookup.page.value;
      if lookup.folderRedirect {
        return FolderRedirect(RelativeBaseOrFullUrl(base, pages[p].url)), 301;
      }
      if pages[p].layout !in templates || write == FailedBeforeOutput {
        return Render(p), 500;
      }
      return Render(p), 200;
    }
  }
}
