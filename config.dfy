/**
 * Site configuration (config/config.go): the per-site descriptor and the
 * grouping of descriptors by the address each listener binds to.
 * Reading and decoding the YAML file (`Load`) is not modelled.
 */
module Config {
  import opened Maps

  /** The host and port strings to bind a TCP socket to; "" means "not bound". */
  datatype ConfigBind = ConfigBind(http: string, https: string)

  /** One site of the sites file. */
  datatype Config = Config(
    host: string,
    aliases: seq<string>,
    email: string,
    isStatic: bool,
    path: string,
    bind: ConfigBind,
    letsEncrypt: bool)

  /** The names a site answers to: its host followed by its aliases. */
  function Hosts(site: Config): seq<string>
  {
    [site.host] + site.aliases
  }

  /** `HostList`: appends the host and then every alias, in order. */
  method HostList(site: Config) returns (hosts: seq<string>)
    ensures hosts == Hosts(site)
    ensures |hosts| == 1 + |site.aliases| && hosts[0] == site.host
  {
    hosts := [];
    hosts := hosts + [site.host];
    var a := 0;
    while a < |site.aliases|
      invariant 0 <= a <= |site.aliases|
      invariant hosts == [site.host] + site.aliases[..a]
    {
      hosts := hosts + [site.aliases[a]];
      a := a + 1;
    }
    assert site.aliases[..a] == site.aliases;
  }

  /** The group entries one site contributes to the list at `bind`: one for each of its two binds equal to `bind`. */
  function Hits(site: Config, bind: string): seq<Config>
  {
    (if |site.bind.http| > 0 && site.bind.http == bind then [site] else [])
    + (if |site.bind.https| > 0 && site.bind.https == bind then [site] else [])
  }

  /** The list `GroupServers` builds at `bind`: every site's hits, in input order. */
  function Members(sites: seq<Config>, bind: string): seq<Config>
  {
    if |sites| == 0 then [] else Members(sites[..|sites| - 1], bind) + Hits(sites[|sites| - 1], bind)
  }

  /** The non-empty bind strings of one site. */
  function BindsOf(site: Config): set<string>
  {
    (if |site.bind.http| > 0 then {site.bind.http} else {})
    + (if |site.bind.https| > 0 then {site.bind.https} else {})
  }

  /** The keys `GroupServers` creates: every non-empty bind of every site. */
  function DeclaredBinds(sites: seq<Config>): set<string>
  {
    if |sites| == 0 then {} else DeclaredBinds(sites[..|sites| - 1]) + BindsOf(sites[|sites| - 1])
  }

  /** The map `GroupServers` fills in place; `makeAppendSite` receives its address. */
  class ServerGroups {
    var configs: map<string, seq<Config>>

    constructor ()
      ensures configs == map[]
    {
      configs := map[];
    }

    /** `makeAppendSite`: starts the list at `bind` with `site`, or appends `site` to it; no other entry changes. */
    method MakeAppendSite(bind: string, site: Config)
      modifies this
      ensures configs == Appended(old(configs), bind, site)
    {
      var l: seq<Config>;
      if bind !in configs {
        l := [site];
      } else {
        l := configs[bind];
        l := l + [site];
      }
      configs := configs[bind := l];
    }
  }

  /** The map after `makeAppendSite(m, bind, site)`. */
  ghost function Appended(m: map<string, seq<Config>>, bind: string, site: Config): map<string, seq<Config>>
  {
    if bind in m then m[bind := m[bind] + [site]] else m[bind := [site]]
  }

  /** The map after one iteration of the loop of `GroupServers` over `site`. */
  ghost function AddSite(m: map<string, seq<Config>>, site: Config): map<string, seq<Config>>
  {
    var m1 := if |site.bind.http| > 0 then Appended(m, site.bind.http, site) else m;
    if |site.bind.https| > 0 then Appended(m1, site.bind.https, site) else m1
  }

  /** The groups of a prefix, extended by one site, are the groups of the longer prefix. */
  lemma AddSiteGroups(m: map<string, seq<Config>>, prefix: seq<Config>, site: Config)
    requires m.Keys == DeclaredBinds(prefix)
    requires forall b | b in m :: m[b] == Members(prefix, b)
    ensures AddSite(m, site).Keys == DeclaredBinds(prefix + [site])
    ensures forall b | b in AddSite(m, site) :: AddSite(m, site)[b] == Members(prefix + [site], b)
  {
    var whole := prefix + [site];
    assert whole[..|whole| - 1] == prefix;
    assert AddSite(m, site).Keys == m.Keys + BindsOf(site);
    forall b | b in AddSite(m, site)
      ensures AddSite(m, site)[b] == Members(whole, b)
    {
      MembersOutside(prefix, b);
      AddSiteAt(m, site, b);
    }
  }

  /** At one key, one iteration appends the site's hits to the list. */
  lemma AddSiteAt(m: map<string, seq<Config>>, site: Config, b: string)
    requires b in AddSite(m, site)
    ensures AddSite(m, site)[b] == (if b in m then m[b] else []) + Hits(site, b)
  {
    var h, t := site.bind.http, site.bind.https;
    var m1 := if |h| > 0 then Appended(m, h, site) else m;
    var r := AddSite(m, site);
    var before := if b in m then m[b] else [];
    var hit1 := if |h| > 0 && h == b then [site] else [];
    var hit2 := if |t| > 0 && t == b then [site] else [];
    assert Hits(site, b) == hit1 + hit2;
    if b in m1 {
      if |h| > 0 && h == b {
        assert m1[b] == before + hit1;
      } else if |h| > 0 {
        MapUpdateOther(m, h, before + [site], b);
      }
    }
    if |t| > 0 {
      assert r == Appended(m1, t, site);
      if b != t {
        assert b in m1;
        MapUpdateOther(m1, t, (if t in m1 then m1[t] else []) + [site], b);
      }
    }
    assert (before + hit1) + hit2 == before + (hit1 + hit2);
  }

  /** The map the loop of `GroupServers` has built after the given sites. */
  ghost function Grouped(sites: seq<Config>): map<string, seq<Config>>
  {
    if |sites| == 0 then map[] else AddSite(Grouped(sites[..|sites| - 1]), sites[|sites| - 1])
  }

  /** The loop's map has the declared binds as keys and `Members` as lists. */
  lemma {:induction false} GroupedIsMembers(sites: seq<Config>)
    ensures Grouped(sites).Keys == DeclaredBinds(sites)
    ensures forall b | b in Grouped(sites) :: Grouped(sites)[b] == Members(sites, b)
  {
    if |sites| > 0 {
      var init := sites[..|sites| - 1];
      GroupedIsMembers(init);
      AddSiteGroups(Grouped(init), init, sites[|sites| - 1]);
      assert init + [sites[|sites| - 1]] == sites;
    }
  }

  /**
   * `GroupServers`: the keys are exactly the declared non-empty binds, and the
   * list at each key is `Members`, the sites that bind there in input order.
   */
  method GroupServers(sites: seq<Config>) returns (configs: map<string, seq<Config>>)
    ensures configs.Keys == DeclaredBinds(sites)
    ensures forall b | b in configs :: configs[b] == Members(sites, b)
  {
    var groups := new ServerGroups();
    var s := 0;
    while s < |sites|
      invariant 0 <= s <= |sites|
      invariant groups.configs == Grouped(sites[..s])
    {
      var site := sites[s];
      ghost var before := groups.configs;
      assert sites[..s + 1][..s] == sites[..s];
      if |site.bind.http| > 0 {
        groups.MakeAppendSite(site.bind.http, site);
      }
      if |site.bind.https| > 0 {
        groups.MakeAppendSite(site.bind.https, site);
      }
      assert groups.configs == AddSite(before, site);
      s := s + 1;
    }
    assert sites[..s] == sites;
    configs := groups.configs;
    GroupedIsMembers(sites);
  }

  /** A bind that is not declared yet has no members. */
  lemma {:induction false} MembersOutside(sites: seq<Config>, bind: string)
    ensures bind !in DeclaredBinds(sites) ==> Members(sites, bind) == []
  {
    if |sites| > 0 {
      MembersOutside(sites[..|sites| - 1], bind);
    }
  }

  /** Every key is a non-empty bind that some site declares as HTTP or HTTPS, and every such bind is a key. */
  lemma {:induction false} DeclaredBindsExactly(sites: seq<Config>, bind: string)
    ensures bind in DeclaredBinds(sites) <==>
      |bind| > 0 && exists i | 0 <= i < |sites| :: sites[i].bind.http == bind || sites[i].bind.https == bind
  {
    if |sites| > 0 {
      var init := sites[..|sites| - 1];
      DeclaredBindsExactly(init, bind);
      if bind in DeclaredBinds(sites) && bind !in BindsOf(sites[|sites| - 1]) {
        var i :| 0 <= i < |init| && (init[i].bind.http == bind || init[i].bind.https == bind);
        assert sites[i] == init[i];
      }
      if |bind| > 0 && bind !in BindsOf(sites[|sites| - 1]) {
        if exists i | 0 <= i < |sites| :: sites[i].bind.http == bind || sites[i].bind.https == bind {
          var i :| 0 <= i < |sites| && (sites[i].bind.http == bind || sites[i].bind.https == bind);
          assert i < |init| && init[i] == sites[i];
        }
      }
    }
  }

  /** Every group list is non-empty (newServerSite reads its element 0). */
  lemma {:induction false} MembersNonEmpty(sites: seq<Config>, bind: string)
    requires bind in DeclaredBinds(sites)
    ensures |Members(sites, bind)| > 0
  {
    var init := sites[..|sites| - 1];
    if bind !in BindsOf(sites[|sites| - 1]) {
      MembersNonEmpty(init, bind);
    }
  }

  /** Each site listed under `bind` binds there, so a site with both binds empty is in no group. */
  lemma {:induction false} MembersBindThere(sites: seq<Config>, bind: string, site: Config)
    requires site in Members(sites, bind)
    ensures |bind| > 0 && (site.bind.http == bind || site.bind.https == bind)
  {
    var init := sites[..|sites| - 1];
    if site !in Hits(sites[|sites| - 1], bind) {
      MembersBindThere(init, bind, site);
    }
  }

  /** Grouping keeps input order: the list for a concatenation is the concatenation of the lists. */
  lemma {:induction false} MembersConcat(a: seq<Config>, b: seq<Config>, bind: string)
    ensures Members(a + b, bind) == Members(a, bind) + Members(b, bind)
    decreases |b|
  {
    if |b| == 0 {
      assert a + b == a;
    } else {
      var b' := b[..|b| - 1];
      assert (a + b)[..|a + b| - 1] == a + b';
      MembersConcat(a, b', bind);
    }
  }

  /** One site occurs once per bind equal to `bind`: twice when its HTTP and HTTPS binds are the same string. */
  lemma SiteOccurrences(site: Config, bind: string)
    requires |bind| > 0
    ensures |Members([site], bind)| ==
      (if site.bind.http == bind then 1 else 0) + (if site.bind.https == bind then 1 else 0)
  {
    assert [site][..0] == [];
  }

  /** No input gives no group. */
  lemma EmptyInputNoGroups()
    ensures DeclaredBinds([]) == {}
  {
  }

  /**
   * A reconstruction of the test fixture: two sites on localhost:8101, one on
   * localhost:8202, two on localhost:8443.
   */
  function CombineFixture(): seq<Config>
  {
    [ Config("example.com", ["www.example.com"], "", false, "example", ConfigBind("localhost:8101", "localhost:8443"), false),
      Config("files.example.com", [], "", true, "files", ConfigBind("localhost:8101", ""), false),
      Config("test.example.com", [], "", false, "test", ConfigBind("localhost:8202", ""), false),
      Config("secure.example.com", [], "", false, "secure", ConfigBind("", "localhost:8443"), false) ]
  }

  /** Hits of each fixture site at the three binds. */
  lemma CombineFixtureHits(a: string, b: string, c: string)
    requires a == "localhost:8101" && b == "localhost:8202" && c == "localhost:8443"
    ensures var f := CombineFixture();
      && Hits(f[0], a) == [f[0]] && Hits(f[0], b) == [] && Hits(f[0], c) == [f[0]]
      && Hits(f[1], a) == [f[1]] && Hits(f[1], b) == [] && Hits(f[1], c) == []
      && Hits(f[2], a) == [] && Hits(f[2], b) == [f[2]] && Hits(f[2], c) == []
      && Hits(f[3], a) == [] && Hits(f[3], b) == [] && Hits(f[3], c) == [f[3]]
  {
    assert a != b && a != c && b != c by {
      assert a[11] != b[11] && a[11] != c[11] && b[11] != c[11];
    }
  }

  /** The list at `bind` for four sites is their hits in order. */
  lemma MembersOfFour(f: seq<Config>, bind: string)
    requires |f| == 4
    ensures Members(f, bind) == Hits(f[0], bind) + Hits(f[1], bind) + Hits(f[2], bind) + Hits(f[3], bind)
  {
    var p1, p2, p3 := f[..1], f[..2], f[..3];
    assert p1[..0] == [] && p2[..1] == p1 && p3[..2] == p2 && f[..3] == p3;
    assert Members(p1, bind) == Hits(f[0], bind);
    assert Members(p2, bind) == Hits(f[0], bind) + Hits(f[1], bind);
  }

  /** The fixture's lists at the three binds. */
  lemma CombineFixtureMembers(a: string, b: string, c: string)
    requires a == "localhost:8101" && b == "localhost:8202" && c == "localhost:8443"
    ensures var f := CombineFixture();
      Members(f, a) == [f[0], f[1]] && Members(f, b) == [f[2]] && Members(f, c) == [f[0], f[3]]
  {
    var f := CombineFixture();
    CombineFixtureHits(a, b, c);
    MembersOfFour(f, a);
    MembersOfFour(f, b);
    MembersOfFour(f, c);
  }

  /** The declared binds of four sites are the union of theirs. */
  lemma DeclaredBindsOfFour(f: seq<Config>)
    requires |f| == 4
    ensures DeclaredBinds(f) == BindsOf(f[0]) + BindsOf(f[1]) + BindsOf(f[2]) + BindsOf(f[3])
  {
    var p1, p2, p3 := f[..1], f[..2], f[..3];
    assert p1[..0] == [] && p2[..1] == p1 && p3[..2] == p2 && f[..3] == p3;
    assert DeclaredBinds(p1) == BindsOf(f[0]);
    assert DeclaredBinds(p2) == BindsOf(f[0]) + BindsOf(f[1]);
    assert DeclaredBinds(p3) == BindsOf(f[0]) + BindsOf(f[1]) + BindsOf(f[2]);
  }

  /** The fixture declares the three binds and no other. */
  lemma CombineFixtureBinds(a: string, b: string, c: string)
    requires a == "localhost:8101" && b == "localhost:8202" && c == "localhost:8443"
    ensures DeclaredBinds(CombineFixture()) == {a, b, c}
  {
    var f := CombineFixture();
    DeclaredBindsOfFour(f);
    assert BindsOf(f[0]) == {a, c} && BindsOf(f[1]) == {a} && BindsOf(f[2]) == {b} && BindsOf(f[3]) == {c};
  }

  /** The fixture groups into exactly three binds with lists of 2, 1 and 2 sites. */
  lemma CombineFixtureGroups()
    ensures DeclaredBinds(CombineFixture()) == {"localhost:8101", "localhost:8202", "localhost:8443"}
    ensures |Members(CombineFixture(), "localhost:8101")| == 2
    ensures |Members(CombineFixture(), "localhost:8202")| == 1
    ensures |Members(CombineFixture(), "localhost:8443")| == 2
  {
    CombineFixtureBinds("localhost:8101", "localhost:8202", "localhost:8443");
    CombineFixtureMembers("localhost:8101", "localhost:8202", "localhost:8443");
  }
}
