# webd, modelled in Dafny

webd is a small Go web server that hosts several sites from one process.
This project models its core and proves properties of the model.

- **Configuration** (`Config`). Site descriptors are grouped by the address each listener binds to (`GroupServers`). A site's names are its host followed by its aliases (`HostList`).
- **Host routing** (`ServerSites`, `RunningSites`). One server per bind address holds its running sites and a table from host name to site, where the last site naming a host wins. It strips the port off the request's `Host` and delegates, or answers 502. TLS is chosen exactly when the bind's port is `443`. A running site is a file server for a static config, or a content site whose base address and https redirect come from its config.
- **Per-site dispatch** (`Sites`). The chain `ServeHTTP` follows, in priority order:
  1. the forced https redirect (`HTTPSRedirect` rewrites the URL record);
  2. the redirect map;
  3. the content pages, with the folder redirect;
  4. the static files.

  The live-refresh reload keeps the previous good state when it fails.
- **Content tree** (`PageModel`, `PageContent`, `PageBase`, `PageMap`, `PageFlatten`, `PageBreadcrumb`, `PageRedirect`):
  - `fileBase`;
  - `copyIndex`;
  - `loadSubPage` once the YAML is decoded;
  - the breadth-first `Walk`;
  - `MapPages`;
  - `Flatten` with its date sort;
  - `Breadcrumbs`;
  - `MapRedirects` and `RelativeBaseOrFullUrl`.
- **HPath** (`HPath`). The XPath-like query `HtmlNode.Path` over an HTML node tree.

Go `*Page` references become ids (`PageId`) into a map of `Page` records.
- `Content` is the class that holds that map and allocates ids, for the operations that change pages in place.
- The tree shape is the `Tree` invariant: a child's parent is the page that lists it, and parents have smaller ids than their children.
- URLs are records `{scheme, host, path, query, fragment}`, and `DateUpdated` is an integer.

Loops in the source are methods with loop invariants, proved against specification functions. Examples:
- `Walk` drives a queue and is specified by the fixed point `order == [root] + Kids(order)`;
- `MapPages`, `MapRedirects` and the host table are snoc folds with "last writer" index functions;
- `sortDateDesc` sorts an array in place and keeps its multiset.

`HtmlNode.Path` keeps its single cursor loop. The lexicographic measure (remaining segments, remaining forest size) proves that the loop terminates.

## Model

| member | source | states |
|---|---|---|
| Config.HostList | config/config.go:88-94 | The list is the host followed by every alias, in order; its length is one more than the alias count. |
| Config.ServerGroups.MakeAppendSite | config/config.go:75-85 | The list at `bind` is started with the site or gets the site appended; no other key changes. |
| Config.GroupServers | config/config.go:60-72 | The keys are exactly `DeclaredBinds` (the non-empty binds of all sites), and the list at each key is `Members`, the sites binding there in input order. |
| Config.GroupedIsMembers | config/config.go:62-70 | The map the loop builds after any prefix of the sites has the declared binds as keys and the `Members` lists as values. |
| Config.AddSiteGroups | config/config.go:63-69 | One loop iteration over a site turns the groups of a prefix into the groups of the longer prefix. |
| Config.AddSiteAt | config/config.go:64-69 | At a key, one iteration appends the site's hits (one per equal bind) to the existing list. |
| Config.DeclaredBindsExactly | config/config.go:62-70 | A string is a key iff it is non-empty and some site declares it as its HTTP or HTTPS bind. |
| Config.MembersOutside | config/config.go:61-71 | A bind nobody declares has an empty list. |
| Config.MembersNonEmpty | config/config.go:78-80 | Every group list is non-empty, which `configs[0]` in `newServerSite` relies on. |
| Config.MembersBindThere | config/config.go:64-69 | Every listed site binds there, so a site with both binds empty is in no group. |
| Config.MembersConcat | config/config.go:62-70 | Grouping keeps input order: the list for `a + b` is the list for `a` followed by the list for `b`. |
| Config.SiteOccurrences | config/config.go:64-69 | A site is listed once per bind equal to `bind`, so twice when its HTTP and HTTPS binds are the same string. |
| Config.EmptyInputNoGroups | config/config.go:61-71 | No input gives no keys. |
| Config.CombineFixtureGroups | config/config_test.go:82-114 | The combine fixture groups into exactly three binds with lists of 2, 1 and 2 sites. |
| Config.CombineFixtureBinds | config/config_test.go:85-91 | The fixture declares exactly the three binds `localhost:8101`, `localhost:8202`, `localhost:8443`. |
| Config.CombineFixtureMembers | config/config_test.go:93-104 | The lists of the fixture, site by site. |
| ServerSites.StripPort | multisite/serversite.go:90-96 | The result is the prefix before the first `:`, holds no `:`, and is the whole host when there is no colon. |
| ServerSites.JustPort | multisite/serversite.go:99-105 | The result is a suffix of the host, and "" when there is no colon. |
| ServerSites.SplitAtFirstColon | multisite/serversite.go:90-105 | For a host with a colon, `StripPort(h) + ":" + JustPort(h) == h`. |
| ServerSites.JoinThenSplit | multisite/serversite.go:90-105 | Joining a colon-free name and a port with `:` and splitting again gives back the name and the port. |
| ServerSites.StripPortExamples | multisite/serversite_test.go:130-137 | The six `stripPort` cases of the tests. |
| ServerSites.JustPortExamples | multisite/serversite_test.go:152-159 | The six `justPort` cases of the tests. |
| ServerSites.NamesTo | multisite/serversite.go:82-87 | The entries `appendHostMap` writes for one site: every one of its names, mapped to that site. |
| ServerSites.LastNaming | multisite/serversite.go:44-52 | The index of the last site in order that names a host, or -1 when none does. |
| ServerSites.HostTableSpec | multisite/serversite.go:44-52 | A name is a key of the host table iff some site names it, and it maps to the last such site. |
| ServerSites.HostTableNamesSite | multisite/serversite.go:82-87 | Every key maps to one of the sites, and that site has the key among its host and aliases. |
| ServerSites.HostTableSnoc | multisite/serversite.go:50-51 | Adding one more site adds its names, overriding earlier entries. |
| ServerSites.ServerSite.AppendHostMap | multisite/serversite.go:82-87 | The host map afterwards is the old one with every name of the site mapped to it; nothing else changes. |
| ServerSites.ServerSite.AddRunningSite | multisite/serversite.go:50-51 | The site is appended to the running sites and the host map stays the table of all of them. |
| ServerSites.ServerSite.RunConfigs | multisite/serversite.go:44-52 | It succeeds iff no dynamic config's load fails; then every running site runs its config on the bind, in order. |
| ServerSites.ServerSite.New | multisite/serversite.go:32-55 | It returns no server and an error iff some config's site fails to load. Otherwise the running sites run the configs in order, the host map is their table, TLS is on iff `JustPort(bind) == "443"`, and the TLS config names the first config's host. |
| ServerSites.ServerSite.InitTls | multisite/serversite.go:108-119 | TLS becomes enabled iff the bind's port is `443`, whatever `autoCert` is. The auto-certificate inputs (host list, first email) are set only with `autoCert`. Other fields are kept. |
| ServerSites.ServerSite.ServeHttp | multisite/serversite.go:71-79 | The answer is the dispatch of the request host against the table of the running sites. |
| ServerSites.Dispatch | multisite/serversite.go:71-79 | 502 iff `StripPort(host)` is not a key; otherwise it delegates to exactly that key's site. |
| ServerSites.DispatchByName | multisite/serversite.go:71-79 | The port of the request host is ignored. A named host goes to the last site naming it, and any other host gets 502. |
| ServerSites.ServerSite.ListenAndServe | multisite/serversite.go:58-63 | The TLS listener is chosen iff TLS is enabled. |
| ServerSites.AllHostsMember | multisite/serversite.go:136-144 | A name is in the certificate host list iff some running site has it among its host and aliases. |
| ServerSites.SitesHostList | multisite/serversite.go:136-144 | The nested loop yields every site's host list, concatenated in order. |
| ServerSites.FirstEmailIs | multisite/serversite.go:147-154 | The email is that of the first site with a non-empty email. |
| ServerSites.FirstEmailNone | multisite/serversite.go:147-154 | The email is "" iff no site has an email. |
| ServerSites.FirstEmailFound | multisite/serversite.go:147-154 | The early-return loop yields the first non-empty email, or "". |
| ServerSites.TlsTestInputs | multisite/serversite_test.go:169-209 | The test's two sites give the host list `test-host`, `host-alias`, `site2` and the email `site2@example.com`. |
| ServerSites.LoadsAllStep | multisite/serversite.go:44-49 | The loop goes on past a config iff that config's site loads; one failure fails the whole construction. |
| ServerSites.RunsAllSnoc | multisite/serversite.go:44-52 | Appending the running site of the next config keeps "the running sites run the configs, in order". |
| RunningSites.BaseUrl | multisite/runningsite.go:57-64 | The scheme is `https` iff the bind is non-empty and equals the config's HTTPS bind, `http` otherwise; the host is the config's host. |
| RunningSites.BaseUrlExamples | multisite/runningsite_test.go:22-25 | `:80` gives `http://example.com` and `:443` gives `https://example.com`. |
| RunningSites.NewRunningSite | multisite/runningsite.go:22-42 | A static config gets a file server on its folder and never fails. A dynamic one gets a fresh valid site at `BaseUrl`, without live refresh, redirecting iff `ShouldRedirectHttps`; it fails, with no running site, exactly when its load fails. |
| RunningSites.RunningHostList | multisite/runningsite.go:48-54 | The copy equals the config's host list. |
| RunningSites.HttpBindRedirects | multisite/runningsite.go:32-36 | A dynamic site on the HTTP bind of a config that also has an HTTPS bind answers every request with 301 to `https://` plus its host plus the same path, query and fragment. |
| RunningSites.HttpsBindServes | multisite/runningsite.go:57-67 | On its HTTPS bind the same site never forces a redirect. |
| Sites.HttpsLocation | site/redirect.go:14-19 | The location has scheme `https` and the configured host, and keeps the request's path, query and fragment. |
| Sites.HttpsLocationIdempotent | site/redirect.go:14-19 | Rewriting an already rewritten location changes nothing. |
| Sites.HttpsLocationIgnoresOrigin | site/redirect.go:15-17 | The request's own scheme and host do not affect the location. |
| Sites.ContentPage | site/site.go:55-64 | Found iff `path` or `path + "/"` is a key. An exact hit gives that page without folder redirect. Otherwise the `path + "/"` hit gives its page with folder redirect. Folder redirect implies found. |
| Sites.Route | site/servehttp.go:21-42 | The priority chain. The forced https redirect (iff redirecting and the base is `http`) comes first, whatever the path. Then a redirect-map hit, then static iff no page is found, then the folder redirect to `RelativeBaseOrFullUrl` iff the lookup says so, else the page is rendered. |
| Sites.Status | site/servehttp.go:21-47 | 301 iff a redirect. A rendered page gives 500 iff its layout is missing or its template fails before writing anything. Otherwise it gives 200, including a failure after output, whose 200 header is already sent. Static gives 200 or 404 by whether the file exists (see `Sites.Status` under Left out). |
| Sites.HttpsBeforeAll | site/servehttp.go:21-26 | With the redirect on and an `http` base, every request gets 301 to the https location before any lookup. |
| Sites.FolderPageFound | site/servehttp.go:32-41 | A non-external page of the walk at `path + "/"` is found at that path without a redirect, and at `path` as well. |
| Sites.FolderRedirectSettles | site/servehttp.go:37-41 | A folder redirect on the site's own host leads to `path + "/"`, which is then found without another redirect. |
| Sites.PathIndexValues | page/map.go:11-27 | Every value of the page map is a page of the tree. |
| Sites.BuildMaps | site/load.go:24-27 | The page map and the redirect map are those of the tree walked breadth first. |
| Sites.Site.LoadTemplatesAndContent | site/load.go:12-29 | It fails iff the templates or the content fail, returning the first error and leaving the site unchanged. On success the templates, pages and root are the loaded ones and the maps are rebuilt. |
| Sites.Site.New | site/site.go:35-52 | No site and an error iff loading fails; otherwise a fresh valid site with the given base and flags. |
| Sites.Site.ServeHTTP | site/servehttp.go:13-49 | With live refresh, a successful reload replaces the state and a failed one keeps the old state. The action is `Route` over the resulting state and the status is `Status` of that action. The site stays valid. |
| PageBase.FileBase | page/base.go:9-34 | The trimming loop and the steps after it compute `Base`. |
| PageBase.TrimEnd | page/base.go:14-16 | The result is a prefix of the input, does not end in `/` or `'`, and only those characters were removed. |
| PageBase.AfterLast | page/base.go:18-24 | The result is a suffix of the input holding no separator. |
| PageBase.BeforeFirst | page/base.go:30-32 | The result is a prefix of the input holding no `.`. |
| PageBase.BaseHasNoSeparators | page/base.go:18-32 | The base contains no `/`, no `\` and no `.`. |
| PageBase.TrailingIgnored | page/base.go:14-16 | Appending a `/` or `'` does not change the base. |
| PageBase.OnlySlashesBase | page/base.go:26-28 | A path made only of slashes has the empty base. |
| PageBase.BeforeFirstCut | page/base.go:30-32 | The cut is at the first `.`, and keeps everything when there is none. |
| PageBase.ExtensionCutAtFirstDot | page/base.go:29-33 | The base is the last element up to its first `.`; it is shorter iff the element has a `.`. |
| PageBase.BaseOfJoin | page/base.go:18-33 | The base of `dir` + separator + `name` is `name` up to its first `.`, for `/` paths and for `\` paths without `/`. |
| PageBase.BaseOfFile | page/base.go:18-33 | The base of `dir/stem.ext` is `stem`. |
| PageBaseTest.BaseExampleUnix | page/base_test.go:15 | `/blah/blah your mom/file.xyz` gives `file`. |
| PageBaseTest.BaseExampleWindows | page/base_test.go:16 | `C:\Test\correct.ext` gives `correct`. |
| PageBaseTest.BaseExampleTrailingSlash | page/base_test.go:17 | `/dir/slash.xyz/` gives `slash`. |
| PageBaseTest.BaseExampleEmpty | page/base_test.go:18-19 | `""` and `///` give `""`. |
| PageModel.IndexMerged | page/page.go:28-44 | The fields `copyIndex` sets. Title, subtitle, thumbnail, date, layout, redirects, body and list-hidden come from `src`. The URL is kept unless empty, and the sub-pages are replaced only when the page has none and `src` has some. `Dir` is the or of both. |
| PageModel.IndexMergeIdempotent | page/page.go:28-44 | Merging the same index twice equals merging it once. |
| PageModel.Ancestry | page/breadcrumb.go:9-20 | The parent chain starts at a page without parent, ends at the page, and each element is the parent of the next. |
| PageModel.KidsMember | page/map.go:40-42 | A page is among the children of a list iff some member lists it as a sub-page. |
| PageModel.KidsSnoc | page/map.go:40-42 | The children of a longer list are the old children followed by the new member's sub-pages. |
| PageModel.AncestorBelow | page/page.go:17 | An ancestor has a smaller id than its descendant. |
| PageModel.ChildDescends | page/page.go:17-18 | A sub-page of a descendant of `r` is a descendant of `r`. |
| PageContent.AddRelativeUrl | page/file.go:50-55 | The root's URL with `addition` appended to its path, as the printed string reads back. Scheme, query and fragment are kept. Under a host the host is kept, and the path is the join, with a leading `/` added exactly when it lacks one. With neither host nor scheme, or a join that is empty or starts with `/`, the path is the plain join and nothing else changes. With a scheme and no host, a relative join is split into a `/`-free host and the rest of the path. |
| PageContent.HostlessRootNamesHost | page/file.go:50-55 | `about/` appended under the root `http:` (no host) reads back as host `about` and path `/`. |
| PageContent.RelativeUrlUnderHost | page/file.go:50-55 | Under a host, a name and `/` appended to an empty or path-absolute path give `/name/` or `path/name/`. |
| PageContent.DefaultLayout | page/file.go:26-32 | `dir.html` iff the base is `index`, `page.html` otherwise. |
| PageContent.NewSubPage | page/file.go:25-41 | The sub-page points to its parent and has no children. A decoded layout overrides the default one. A decoded URL marks the page external and is kept; otherwise the URL is `AddRelativeUrl` of the parent's URL and the base plus `/`. The decoded fields are copied. |
| PageContent.SubPagePathUnderHost | page/file.go:37-41 | A page without a `url:` key under a parent on a host is at the parent's path (`/` when empty), the file's base and `/`. |
| PageContent.AboutUnderRoot | page/file.go:37-41 | `about.yaml` loaded under the root `http://example.com` is at `http://example.com/about/`. |
| PageContent.MergeKeepsTree | page/file.go:42-43 | Merging an index page into its parent keeps the pages a tree. |
| PageContent.AppendChildKeepsTree | page/file.go:44-46 | Appending a new page as the last child keeps the pages a tree, with exactly one page more. |
| PageContent.Content.CopyIndex | page/page.go:28-44 | Only the receiver's record changes, and it becomes `IndexMerged`. |
| PageContent.Content.AppendSubPage | page/file.go:44-46 | A fresh id is allocated for the sub-page, which is appended as the parent's last child; the store stays a tree. |
| PageContent.Content.LoadSubPage | page/file.go:13-48 | Succeeds iff decoding succeeds, and a failure leaves the store unchanged. An `index` file is merged into the parent; any other file becomes a new last child. |
| PageMap.Walk | page/map.go:30-47 | The order is breadth first, root first, and the queue fixed point holds. Every page appears once, and the order holds exactly the descendants of the root. |
| PageMap.WalkStep | page/map.go:35-42 | Taking the queue's head and pushing its sub-pages keeps the queue invariant. |
| PageMap.WalkDone | page/map.go:35 | With an empty queue the order is breadth first, without repeats, and complete. |
| PageMap.Complete | page/map.go:33-43 | Every descendant of the root is in a breadth-first order. |
| PageMap.PathKey | page/map.go:18-22 | The key is never empty. It is the URL path when that is non-empty, and exactly `/` when the path is empty. |
| PageMap.LastFiled | page/map.go:13-25 | The index of the last page in walk order that is filed under `key`, or -1. |
| PageMap.PathIndexSpec | page/map.go:13-25 | A key is present iff some non-external page has that path, and it maps to the last one in walk order. |
| PageMap.MapPages | page/map.go:11-27 | The map is the path index of a breadth-first walk without repeats. |
| PageMap.MapPagesKeys | page/map.go:14-23 | Every value is in the walk, is not external, and has its key as path. |
| PageMap.MapPagesMissing | page/map.go:14-23 | A key is missing iff no page in the walk is filed under it. |
| PageFlatten.Listed | page/flatten.go:9-20 | The pages the queue loop collects; each is a page of the store. |
| PageFlatten.ListedCount | page/flatten.go:9-20 | Over a walk without repeats, each page is listed once if it is shown and not the top, and zero times otherwise. |
| PageFlatten.InsertNewest | page/flatten.go:26-29 | One insertion step: the first `i + 1` entries become newest first, and the array's multiset is kept. |
| PageFlatten.SortDateDesc | page/flatten.go:26-29 | The array ends newest first and is a permutation of its old contents. |
| PageFlatten.SortedByDate | page/flatten.go:21 | The sorted copy is newest first and a permutation of the list. |
| PageFlatten.WalkListsOnce | page/flatten.go:9-20 | The listed pages of a complete walk are each shown non-top descendant exactly once. |
| PageFlatten.ListsOnceKept | page/flatten.go:21 | Permuting a list keeps "each shown descendant exactly once". |
| PageFlatten.Flatten | page/flatten.go:8-23 | The list is newest first and holds each shown descendant of the top (not the top itself) exactly once. |
| PageFlatten.FlattenExcludes | page/flatten.go:13 | The top is never listed; list-hidden pages are not; a folder page is listed only when its body is non-empty. |
| PageBreadcrumb.ChainIsAncestry | page/breadcrumb.go:12-18 | Any chain from a parentless page down to `p` through parent links is the ancestry of `p`. |
| PageBreadcrumb.Climb | page/breadcrumb.go:12-15 | One step up the parent link keeps "ancestry of the current page followed by the collected list is the ancestry of `p`". |
| PageBreadcrumb.Breadcrumbs | page/breadcrumb.go:9-20 | The result is the ancestry: topmost ancestor first, the page last, each element the parent of the next. |
| PageBreadcrumb.RootBreadcrumbs | page/breadcrumb_test.go:23 | A page without parent has `[p]` as its breadcrumbs. |
| PageBreadcrumb.ChildBreadcrumbs | page/breadcrumb_test.go:24 | A child's breadcrumbs are its parent's followed by itself, one longer. |
| PageRedirect.RelativeBaseOrFullUrl | page/redirect.go:20-26 | On the base's host the target is only the page's path (no scheme, host, query or fragment). On another host it is the page's URL whole. |
| PageRedirect.RequestDir | site/servehttp.go:40 | The request path's directory: a prefix ending in its last `/`, `/` for an empty path. |
| PageRedirect.Resolve | site/servehttp.go:40 | A reference definition of `http.Redirect` together with the client following the `Location` sent with the folder redirect. A target without scheme and host lands on the scheme and host the client asked for, which may be an alias. A path starting with `/` is kept; any other path is joined to the request's directory. A target with a scheme stays as it is. |
| PageRedirect.TargetReachesPage | page/redirect.go:20-26 | A page on another host is reached whole. A page on the site's host is reached on the host the client asked for, which is the page's host when the request came on the configured host and not on an alias. In every case the page's path is reached when it starts with `/`. |
| PageRedirect.SlashlessTargetJoins | page/redirect.go:20-26 | A same-host page whose path lacks the leading `/` is not reached: its path is joined to the request's directory. |
| PageRedirect.Retarget | page/redirect.go:11-13 | The keys gain the sources, which map to the target; other keys are kept. |
| PageRedirect.LastRedirecting | page/redirect.go:9-14 | The index of the last page in order that lists `source`, or -1. |
| PageRedirect.RedirectIndexSpec | page/redirect.go:9-14 | A source is a key iff some page lists it, and it maps to the target of the last such page. |
| PageRedirect.RedirectKeys | page/redirect.go:9-14 | The keys are exactly the union of every page's redirects, so a page without redirects contributes none. |
| PageRedirect.MapRedirects | page/redirect.go:7-17 | The nested loops build the redirect index of the walk. |
| Urls.Reparsed | page/file.go:54 | Printing a URL and parsing it back keeps scheme, query and fragment. Under a host the host is kept, and a non-empty path then starts with `/`. With neither host nor scheme, or an empty or `/`-led path, it comes back unchanged. With a scheme and no host, a relative path's first segment comes back as the host: `host + path` is the old path and the host has no `/`. |
| Urls.ReparsedIdempotent | page/map.go:18-19 | Printing and parsing again changes nothing more. |
| Urls.PathOnly | page/redirect.go:23 | A path-only URL has no scheme or host, and is the empty URL iff its path is empty. |
| HPath.Size | hpath/path.go:42-89 | Every node has size at least one (the termination measure of the cursor walk). |
| HPath.ForestShrinks | hpath/path.go:43-89 | Moving to the first child or to the next sibling makes the remaining forest smaller. |
| HPath.SegmentParts | hpath/path.go:57-62 | The element part holds no `@`. Without `@` the segment is the element with no attribute; otherwise element, `@` and attribute give back the segment. |
| HPath.SegmentOf | hpath/path.go:59-62 | Splitting `element@attr` gives back the element and the attribute. |
| HPath.FirstAttrIs | hpath/path.go:67-73 | The value is that of the first attribute with the key. |
| HPath.FirstAttrNone | hpath/path.go:66-76 | There is no value iff no attribute has the key. |
| HPath.AttrValue | hpath/path.go:66-76 | The scan yields the first matching attribute's value, or nothing. |
| HPath.Path | hpath/path.go:20-91 | The cursor loop computes `Eval` of the split path from the root. |
| HPath.PlainPathGivesName | hpath/path.go:78-80 | A successful path whose last segment has no attribute yields that element's name. |
| HPath.AttributePathGivesValue | hpath/path.go:64-76 | A successful path whose last segment is `element@attr` yields the value of the first `attr` attribute of an element named `element` that the cursor reaches (`InForest`): a node of the queried document. |
| HPath.EmptyLastSegmentFails | hpath/path.go:25-35 | A path whose last segment is empty always fails. |
| HPath.TrailingSlashFails | hpath/path.go:22-35 | A path ending in `/` always fails. |
| HPath.EmptyDocumentFails | hpath/path.go:37-45 | A document node without children fails, whatever the path. |
| HPath.JoinEndsWithSep | hpath/path.go:22 | When the joined string ends with the separator, the last part is empty. |
| HPath.SplitFirst | hpath/path.go:22 | Splitting `a/rest` gives `a` followed by the parts of `rest`. |
| HPath.SplitNone | hpath/path.go:22 | A string without the separator splits into itself. |
| HPath.SplitParagraphPath | hpath/path_test.go:18 | `/html/body/p` splits into `""`, `html`, `body`, `p`. |
| HPath.ParagraphInHtml | hpath/path_test.go:11-26 | Inside `html`, `body/p` is found. |
| HPath.ParagraphExample | hpath/path_test.go:11-26 | `/html/body/p` on the parsed document yields `p`. |
| HPath.AttributeAtP | hpath/path_test.go:29-44 | The last segment `p@name` on the `p` node yields `success`. |
| HPath.AttributeInBody | hpath/path_test.go:29-44 | `div/p@name` inside `body` yields `success`. |
| HPath.AttributeInHtml | hpath/path_test.go:29-44 | `body/div/p@name` inside `html` yields `success`. |
| HPath.AttributeExample | hpath/path_test.go:29-44 | `/html/body/div/p@name` on the parsed document yields `success`. |
| HPath.BlankDocumentExample | hpath/path_test.go:47-60 | `/html/doc/p@name` on the parsed blank document fails. |
| Strings.IndexByte | multisite/serversite.go:91 | The index of the first occurrence, or -1 exactly when the character is absent. |
| Strings.LastIndex | page/base.go:18-24 | The index of the last occurrence, or -1 exactly when the character is absent. |
| Strings.Split | hpath/path.go:22 | There is at least one part, no part holds the separator, and joining the parts gives back the string. |

## Left out

- `multisite.New`, `ListenAndServe` and `Shutdown` (multisite/multisite.go): goroutines, a WaitGroup and a racy shared error. `New` also iterates a Go map, so the order of its servers is unspecified. The model stops at one `ServerSite` per bind group.
- The TLS machinery (`tls.Config`, `autocert.Manager`, the certificate cache and `GetCertificate`) is foreign code. Only its inputs are modelled: the TLS flag, the server name, the host allow-list and the contact email, as the `TlsConfig`/`AutoCert` records.
- `config.Load` (file I/O, YAML decoding, `filepath.Join`) and main.go (flags, loggers, `os.Exit`).
- site/load.go's template parsing and content loading are foreign calls. Their outcomes are inputs (`Result` values), so a template set is only the set of its layout names. page/load.go and page/dir.go (directory reading) are not part of this model; the tree they build is an input satisfying `Tree`.
- site/static.go (`os.Stat`, `http.FileServer`): the static handler is modelled only by its status, with file existence as a parameter.
- Sites.Status: 200 for an existing static path assumes `http.FileServer` serves it as it is. The file server's own answers are not modelled: 301 for a directory without a trailing `/` or for a path ending in `/index.html`, and 304 for a conditional request.
- PageContent.NewSubPage: the decoded fields include no `subpages:` or `parent:` keys. A YAML `parent:` is ignored, so the parent link always stays the loading page and `Tree` is kept. Because decoded sub-pages are always empty, the sub-page replacement in `copyIndex` (page/page.go:35-37) is never reached from `LoadSubPage` in the model, though `IndexMerged` and `CopyIndex` model that branch for any `src`.
- `ExecuteTemplate` is modelled by its outcome: whether the page's layout is among the loaded layouts, and a `WriteOutcome` (written, failed before any output, failed after output). The rendered bytes, the truncated body and the text of error responses are left out.
- Opening, reading and YAML-decoding a page file in page/file.go: `LoadSubPage` receives the decoded fields or the error. The three failure paths collapse into one.
- `url.Parse` and `URL.String` are left out: URLs are records and never fail to parse. Of the round trip through a string, `Reparsed` models what `URL.String` does to a path that does not start with `/`: it puts a `/` before it under a host, and `//` before it after a scheme without a host, which makes its first segment the host. That segment is not checked for user info or a port, so a segment holding `@` or `:` is not modelled. Escaping is not modelled, and neither is the `./` written before a host-less path whose first segment holds a `:`. Consequences:
  - `baseUrl`'s parse error cannot occur, so `NewRunningSite` fails only when the site fails;
  - `MapPages` never skips a page for a parse error;
  - `RelativeBaseOrFullUrl` returns a URL record, not a string.
- PageRedirect.Resolve: `http.Redirect` cleans a joined relative path with `path.Clean` (removing `.`, `..` and doubled `/`). The model joins without cleaning.
- `time.Time` is an integer, so `DateUpdated.Before` is `<`.
- `Walk`'s goroutine and channel: it is a method returning the sequence.
- `PageFlatten.SortDateDesc`: Go's `sort.Slice` is not stable, and its exact arrangement of equal dates is not modelled. The model sorts by insertion and promises only "newest first and a permutation", which is all the source promises.
- Logging (`infoLog`, `errorLog`), the `serverSite` back-reference in `runningSite`, `Site`'s path fields and its file handler.
- `html.Parse` is not modelled. The example trees are written as an HTML5 parser builds them: a document node whose `html` element holds `head` and `body`. `NextSibling` is the rest of the child list, and attribute namespaces are dropped.
- `HPath.Path`: the error results carry no message text. The `fmt.Errorf` strings are not modelled.
- `PageBase.BaseOfJoin`: stated for `\` paths only when the directory holds no `/`. With a `/` in the directory the `/` split comes first, as the source does, and the lemma says nothing about that case.
- The substring property of `fileBase` (the base is a contiguous part of the input) is not stated as a lemma. `TrimEnd`, `AfterLast` and `BeforeFirst` each state their prefix or suffix relation.
- The combine fixture file (test_data/combine_sites.yaml) is not part of this model. `CombineFixture` is rebuilt from what multisite_test.go and config_test.go expect: two sites on `localhost:8101`, one on `localhost:8202`, two on `localhost:8443`.
