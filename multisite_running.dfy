/**
 * A site as it runs on one listener (multisite/runningsite.go): a static
 * folder served as files, or a dynamic site with its own base address.
 */
module RunningSites {
  import opened Wrappers
  import opened Urls
  import opened Config
  import opened PageModel
  import opened Sites

  /** What answers the requests of a running site. */
  datatype Handler =
    | FileServer(dir: string)   // `http.FileServer` on the folder
    | Dynamic(site: Site)       // a content site

  /** A config served on the listener bound to `bind`. */
  datatype RunningSite = RunningSite(config: Config, handler: Handler, bind: string)

  /** What loading a dynamic site's templates and content gave. */
  datatype SiteLoad = SiteLoad(templates: Result<set<string>>, content: Result<LoadedContent>)

  /** A load whose content, when there is some, is a tree with its root in it. */
  ghost predicate LoadOk(load: SiteLoad)
  {
    load.content.Success? ==> Tree(load.content.value.pages) && load.content.value.root in load.content.value.pages
  }

  /**
   * `baseUrl`: the site's address, `https://` followed by its host when
   * `bind` is its https bind, `http://` followed by its host otherwise.
   */
  function BaseUrl(config: Config, bind: string): (u: Url)
    ensures u.scheme == "https" <==> |bind| > 0 && bind == config.bind.https
    ensures u.scheme == "http" <==> !(|bind| > 0 && bind == config.bind.https)
    ensures u.host == config.host && u.path == "" && u.query == "" && u.fragment == ""
  {
    var proto := if |bind| > 0 && config.bind.https == bind then "https" else "http";
    Url(proto, config.host, "", "", "")
  }

  /** `shouldRedirectHttps`: a site with an https bind sends its http requests there. */
  predicate ShouldRedirectHttps(config: Config)
  {
    |config.bind.https| > 0
  }

  /**
   * `r` runs `config` on `bind`: a static config is served as files from its
   * folder; any other by a site at its base address, without live refresh,
   * redirecting to https exactly when the config has an https bind.
   */
  predicate RunsConfig(r: RunningSite, config: Config, bind: string)
  {
    && r.config == config && r.bind == bind
    && if config.isStatic then r.handler == FileServer(config.path)
       else
         && r.handler.Dynamic?
         && r.handler.site.base == BaseUrl(config, bind)
         && !r.handler.site.liveRefresh
         && r.handler.site.redirectHttps == ShouldRedirectHttps(config)
  }

  /** Loading the site of a dynamic config failed. */
  predicate LoadFails(config: Config, load: SiteLoad)
  {
    !config.isStatic && (load.templates.Failure? || load.content.Failure?)
  }

  /**
   * `newRunningSite`: the running site of `config` on `bind`. A static config
   * never fails; a dynamic one fails exactly when loading its site does, and
   * then gives no running site and the error.
   */
  method NewRunningSite(config: Config, bind: string, load: SiteLoad) returns (r: Option<RunningSite>, err: Option<string>)
    requires LoadOk(load)
    ensures r.None? <==> err.Some?
    ensures r.None? <==> LoadFails(config, load)
    ensures r.Some? ==> RunsConfig(r.value, config, bind)
    ensures r.Some? && r.value.handler.Dynamic? ==> fresh(r.value.handler.site) && r.value.handler.site.Valid()
  {
    if config.isStatic {
      return Some(RunningSite(config, FileServer(config.path), bind)), None;
    }
    var base := BaseUrl(config, bind);
    var site, e := Site.New(base, false, ShouldRedirectHttps(config), load.templates, load.content);
    if site == null {
      return None, e;
    }
    return Some(RunningSite(config, Dynamic(site), bind)), None;
  }

  /** `HostList`: a copy of the config's host list. */
  method RunningHostList(r: RunningSite) returns (hosts: seq<string>)
    ensures hosts == Hosts(r.config)
  {
    var hl := HostList(r.config);
    hosts := [];
    for h := 0 to |hl|
      invariant hosts == hl[..h]
    {
      assert hl[..h + 1] == hl[..h] + [hl[h]];
      hosts := hosts + [hl[h]];
    }
    assert hl[..|hl|] == hl;
  }

  /**
   * A dynamic site on the http bind of a config that also has a different
   * https bind sends every request with 301 to the same path on
   * `https://` and the site's host.
   */
  lemma HttpBindRedirects(config: Config, bind: string, pages: map<PageId, Page>, pageMap: map<string, PageId>,
                          redirectMap: map<string, Url>, req: Request)
    requires forall key | key in pageMap :: pageMap[key] in pages
    requires config.bind.https != "" && bind != config.bind.https
    ensures var a := Route(BaseUrl(config, bind), ShouldRedirectHttps(config), pages, pageMap, redirectMap, req);
      && a == HttpsRedirect(Url("https", config.host, req.url.path, req.url.query, req.url.fragment))
      && Status(a, pages, {}, Written, false) == 301
  {
    HttpsBeforeAll(BaseUrl(config, bind), pages, pageMap, redirectMap, req);
  }

  /** On its https bind the site itself does not redirect. */
  lemma HttpsBindServes(config: Config, pages: map<PageId, Page>, pageMap: map<string, PageId>,
                        redirectMap: map<string, Url>, req: Request)
    requires forall key | key in pageMap :: pageMap[key] in pages
    requires config.bind.https != ""
    ensures !Route(BaseUrl(config, config.bind.https), ShouldRedirectHttps(config), pages, pageMap, redirectMap, req).HttpsRedirect?
  {
  }

  /** The base addresses of the test config bound to `:80` and `:443`. */
  lemma BaseUrlExamples(config: Config)
    requires config.host == "example.com" && config.bind == ConfigBind(":80", ":443")
    ensures BaseUrl(config, ":80") == Url("http", "example.com", "", "", "")
    ensures BaseUrl(config, ":443") == Url("https", "example.com", "", "", "")
  {
  }
}
