/**
 * `MapRedirects` and `RelativeBaseOrFullUrl` (page/redirect.go): the map
 * from each old address a page lists under `Redirects` to where that page
 * now lives.
 */
module PageRedirect {
  import opened Urls
  import opened PageModel
  import opened Strings

  /**
   * `RelativeBaseOrFullUrl`: only the path of `page` when it is on the
   * host of `base`, otherwise `page` as it is.
   */
  function RelativeBaseOrFullUrl(base: Url, page: Url): (target: Url)
    ensures base.host == page.host ==> target == PathOnly(page.path)
    ensures base.host != page.host ==> target == page
  {
    if base.host == page.host then PathOnly(page.path) else page
  }

  /**
   * The directory of a request path up to and including its last `/`, as
   * `path.Split` gives it; an empty path counts as `/`.
   */
  function RequestDir(requestPath: string): (dir: string)
    ensures requestPath == "" ==> dir == "/"
    ensures requestPath != "" ==> dir <= requestPath && '/' !in requestPath[|dir|..]
    ensures requestPath != "" && '/' in requestPath ==> dir != "" && dir[|dir| - 1] == '/'
    ensures '/' !in requestPath && requestPath != "" ==> dir == ""
  {
    if requestPath == "" then "/" else requestPath[..LastIndex(requestPath, '/') + 1]
  }

  /**
   * The address a browser reaches when, having asked for `requested`, it is
   * redirected to `target`: a reference definition of `http.Redirect` and the
   * client together. A target with neither scheme nor host stays on the
   * scheme and host that were asked for, which may be an alias of the site;
   * one whose path does not start with `/` is joined to the directory of
   * the request.
   */
  function Resolve(requested: Url, target: Url): (u: Url)
    ensures target.scheme == "" && target.host == "" ==> u.scheme == requested.scheme && u.host == requested.host
    ensures target.scheme == "" && target.host == "" && target.path != "" && target.path[0] == '/' ==> u.path == target.path
    ensures target.scheme == "" && target.host == "" && (target.path == "" || target.path[0] != '/') ==>
      u.path == RequestDir(requested.path) + target.path
    ensures target.host != "" ==> u.host == target.host && u.path == target.path
    ensures target.scheme != "" ==> u == target
  {
    if target.scheme == "" && target.host == "" then
      var path := if target.path != "" && target.path[0] == '/' then target.path else RequestDir(requested.path) + target.path;
      requested.(path := path, query := target.query, fragment := target.fragment)
    else if target.scheme == "" then target.(scheme := requested.scheme)
    else target
  }

  /**
   * Following the target the site at `base` sends for a page on a host: a
   * page on another host is reached whole; a page on the site's host is
   * reached on the host that was asked for (the page's host unless the
   * request came on an alias), at the page's path whenever that path
   * starts with `/`.
   */
  lemma TargetReachesPage(base: Url, requested: Url, page: Url)
    requires page.host != ""
    ensures page.host != base.host ==>
      Resolve(requested, RelativeBaseOrFullUrl(base, page)).host == page.host
      && Resolve(requested, RelativeBaseOrFullUrl(base, page)).path == page.path
    ensures page.host == base.host ==> Resolve(requested, RelativeBaseOrFullUrl(base, page)).host == requested.host
    ensures page.host == base.host && requested.host == base.host ==>
      Resolve(requested, RelativeBaseOrFullUrl(base, page)).host == page.host
    ensures page.path != "" && page.path[0] == '/' ==> Resolve(requested, RelativeBaseOrFullUrl(base, page)).path == page.path
  {
  }

  /**
   * A page on the site's own host whose path lacks the leading `/` is not
   * reached: its target is joined to the directory of the request.
   */
  lemma SlashlessTargetJoins(base: Url, requested: Url, page: Url)
    requires page.host == base.host && page.host != ""
    requires page.path != "" && page.path[0] != '/'
    ensures Resolve(requested, RelativeBaseOrFullUrl(base, page)).path == RequestDir(requested.path) + page.path
  {
  }

  /** `m` with each of `sources` now mapped to `target`. */
  function Retarget(m: map<string, Url>, sources: seq<string>, target: Url): (r: map<string, Url>)
    ensures r.Keys == m.Keys + (set i | 0 <= i < |sources| :: sources[i])
    ensures forall key | key in r :: r[key] == if key in sources then target else m[key]
  {
    map key | key in m.Keys + (set i | 0 <= i < |sources| :: sources[i]) :: if key in sources then target else m[key]
  }

  /** Retargeting no source leaves the map. */
  lemma RetargetNone(m: map<string, Url>, target: Url)
    ensures Retarget(m, [], target) == m
  {
  }

  /** Retargeting one more source is one more map update. */
  lemma RetargetSnoc(m: map<string, Url>, sources: seq<string>, i: nat, target: Url)
    requires i < |sources|
    ensures Retarget(m, sources[..i + 1], target) == Retarget(m, sources[..i], target)[sources[i] := target]
  {
    var a, b := sources[..i + 1], sources[..i];
    assert a == b + [sources[i]];
    var l, r := Retarget(m, a, target), Retarget(m, b, target)[sources[i] := target];
    assert l.Keys == r.Keys;
  }

  /** The redirect map built from the pages of `s`, taken in order. */
  ghost function RedirectIndex(pages: map<PageId, Page>, s: seq<PageId>, base: Url): map<string, Url>
    requires forall k | 0 <= k < |s| :: s[k] in pages
  {
    if |s| == 0 then map[]
    else
      var m := RedirectIndex(pages, s[..|s| - 1], base);
      var p := pages[s[|s| - 1]];
      if |p.redirects| > 0 then Retarget(m, p.redirects, RelativeBaseOrFullUrl(base, p.url)) else m
  }

  /** One more page of `s` taken into the redirect map. */
  lemma RedirectIndexStep(pages: map<PageId, Page>, s: seq<PageId>, i: nat, base: Url)
    requires forall k | 0 <= k < |s| :: s[k] in pages
    requires i < |s|
    ensures RedirectIndex(pages, s[..i + 1], base) ==
      var p := pages[s[i]];
      if |p.redirects| > 0 then Retarget(RedirectIndex(pages, s[..i], base), p.redirects, RelativeBaseOrFullUrl(base, p.url))
      else RedirectIndex(pages, s[..i], base)
  {
    assert s[..i + 1][..i] == s[..i];
  }

  /** The index in `s` of the last page that lists `source` among its redirects, or -1. */
  function LastRedirecting(pages: map<PageId, Page>, s: seq<PageId>, source: string): (i: int)
    requires forall k | 0 <= k < |s| :: s[k] in pages
    ensures -1 <= i < |s|
    ensures 0 <= i ==> source in pages[s[i]].redirects
    ensures forall j | i < j < |s| :: source !in pages[s[j]].redirects
  {
    if |s| == 0 then -1
    else if source in pages[s[|s| - 1]].redirects then |s| - 1
    else LastRedirecting(pages, s[..|s| - 1], source)
  }

  /**
   * A source is a key exactly when some page of `s` lists it, and it leads to
   * the target of the last such page.
   */
  lemma {:induction false} RedirectIndexSpec(pages: map<PageId, Page>, s: seq<PageId>, base: Url, source: string)
    requires forall k | 0 <= k < |s| :: s[k] in pages
    ensures source in RedirectIndex(pages, s, base) <==> LastRedirecting(pages, s, source) >= 0
    ensures source in RedirectIndex(pages, s, base) ==>
      RedirectIndex(pages, s, base)[source] == RelativeBaseOrFullUrl(base, pages[s[LastRedirecting(pages, s, source)]].url)
  {
    if |s| > 0 {
      var init := s[..|s| - 1];
      RedirectIndexSpec(pages, init, base, source);
      if source !in pages[s[|s| - 1]].redirects {
        var i := LastRedirecting(pages, init, source);
        if i >= 0 {
          assert s[i] == init[i];
        }
      }
    }
  }

  /** Every key of the redirect map is listed by some page, and a page lists no key only when none does. */
  lemma RedirectKeys(pages: map<PageId, Page>, s: seq<PageId>, base: Url, source: string)
    requires forall k | 0 <= k < |s| :: s[k] in pages
    ensures source in RedirectIndex(pages, s, base) <==> exists k | 0 <= k < |s| :: source in pages[s[k]].redirects
  {
    RedirectIndexSpec(pages, s, base, source);
  }

  /**
   * `MapRedirects`: for each page in turn, and each of its redirects in
   * turn, maps the redirect to the page's relative or full URL.
   */
  method MapRedirects(pages: map<PageId, Page>, walk: seq<PageId>, base: Url) returns (m: map<string, Url>)
    requires forall k | 0 <= k < |walk| :: walk[k] in pages
    ensures m == RedirectIndex(pages, walk, base)
  {
    m := map[];
    for w := 0 to |walk|
      invariant m == RedirectIndex(pages, walk[..w], base)
    {
      RedirectIndexStep(pages, walk, w, base);
      var p := pages[walk[w]];
      if |p.redirects| > 0 {
        ghost var before := m;
        assert p.redirects[..0] == [];
        RetargetNone(before, RelativeBaseOrFullUrl(base, p.url));
        for i := 0 to |p.redirects|
          invariant m == Retarget(before, p.redirects[..i], RelativeBaseOrFullUrl(base, p.url))
        {
          RetargetSnoc(before, p.redirects, i, RelativeBaseOrFullUrl(base, p.url));
          m := m[p.redirects[i] := RelativeBaseOrFullUrl(base, p.url)];
        }
        assert p.redirects[..|p.redirects|] == p.redirects;
      }
    }
    assert walk[..|walk|] == walk;
  }
}
