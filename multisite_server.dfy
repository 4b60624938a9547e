/**
 * One listener of the multi-site server (multisite/serversite.go): the
 * running sites that share a bind, the table from host name to site, and
 * whether the listener speaks TLS.
 */
module ServerSites {
  import opened Wrappers
  import opened Strings
  import opened Config
  import opened Sites
  import opened RunningSites

  /** `stripPort`: what comes before the first `:` of a host, or all of it when there is none. */
  function StripPort(host: string): (r: string)
    ensures ':' !in r
    ensures |r| <= |host| && r == host[..|r|]
    ensures ':' !in host ==> r == host
    ensures ':' in host ==> host[|r|] == ':'
  {
    var colon := IndexByte(host, ':');
    if colon == -1 then host else host[..colon]
  }

  /** `justPort`: what comes after the first `:` of a host, or "" when there is none. */
  function JustPort(host: string): (r: string)
    ensures |r| <= |host| && r == host[|host| - |r|..]
    ensures ':' !in host ==> r == ""
  {
    var colon := IndexByte(host, ':');
    if colon == -1 then "" else host[colon + 1..]
  }

  /** A host with a colon is its name, the colon and its port. */
  lemma SplitAtFirstColon(host: string)
    requires ':' in host
    ensures StripPort(host) + ":" + JustPort(host) == host
  {
    var colon := IndexByte(host, ':');
    assert host == host[..colon] + [':'] + host[colon + 1..];
  }

  /** A name without colon followed by a port is split back into that name and that port. */
  lemma JoinThenSplit(name: string, port: string)
    requires ':' !in name
    ensures StripPort(name + ":" + port) == name
    ensures JustPort(name + ":" + port) == port
  {
    var host := name + ":" + port;
    assert host[|name|] == ':';
    var colon := IndexByte(host, ':');
    assert forall k | 0 <= k < |name| :: host[k] == name[k];
    assert host[..colon + 1][colon] == ':';
    assert colon == |name|;
    assert host[..colon] == name;
    assert host[colon + 1..] == port;
  }

  lemma StripPortExamples()
    ensures StripPort("host:23") == "host"
    ensures StripPort(":23") == ""
    ensures StripPort("host:") == "host"
    ensures StripPort("host") == "host"
    ensures StripPort(":") == ""
    ensures StripPort("") == ""
  {
    assert "host:23" == "host" + ":" + "23";
    assert ":23" == "" + ":" + "23";
    assert "host:" == "host" + ":" + "";
    assert ":" == "" + ":" + "";
    JoinThenSplit("host", "23");
    JoinThenSplit("", "23");
    JoinThenSplit("host", "");
    JoinThenSplit("", "");
  }

  lemma JustPortExamples()
    ensures JustPort("host:23") == "23"
    ensures JustPort(":23") == "23"
    ensures JustPort("host:") == ""
    ensures JustPort("host") == ""
    ensures JustPort(":") == ""
    ensures JustPort("") == ""
  {
    assert "host:23" == "host" + ":" + "23";
    assert ":23" == "" + ":" + "23";
    assert "host:" == "host" + ":" + "";
    assert ":" == "" + ":" + "";
    JoinThenSplit("host", "23");
    JoinThenSplit("", "23");
    JoinThenSplit("host", "");
    JoinThenSplit("", "");
  }

  /** Each of `hosts` mapped to `r`. */
  function NamesTo(hosts: seq<string>, r: RunningSite): (m: map<string, RunningSite>)
    ensures forall h :: h in m <==> h in hosts
    ensures forall h | h in m :: m[h] == r
  {
    map h | h in hosts :: r
  }

  /** The host table built from `sites` in order: each name of each site maps to that site, later sites overwriting earlier ones. */
  function HostTable(sites: seq<RunningSite>): map<string, RunningSite>
  {
    if |sites| == 0 then map[]
    else
      var r := sites[|sites| - 1];
      HostTable(sites[..|sites| - 1]) + NamesTo(Hosts(r.config), r)
  }

  /** The index of the last site of `sites` that answers to `host`, or -1. */
  function LastNaming(sites: seq<RunningSite>, host: string): (i: int)
    ensures -1 <= i < |sites|
    ensures 0 <= i ==> host in Hosts(sites[i].config)
    ensures forall j | i < j < |sites| :: host !in Hosts(sites[j].config)
  {
    if |sites| == 0 then -1
    else if host in Hosts(sites[|sites| - 1].config) then |sites| - 1
    else LastNaming(sites[..|sites| - 1], host)
  }

  /**
   * The keys of the host table are exactly the names of the sites, hosts
   * and aliases alike, and each leads to the last site that names it.
   */
  lemma {:induction false} HostTableSpec(sites: seq<RunningSite>, host: string)
    ensures host in HostTable(sites) <==> LastNaming(sites, host) >= 0
    ensures host in HostTable(sites) ==> HostTable(sites)[host] == sites[LastNaming(sites, host)]
  {
    if |sites| > 0 {
      var init := sites[..|sites| - 1];
      HostTableSpec(init, host);
      if host !in Hosts(sites[|sites| - 1].config) {
        var i := LastNaming(init, host);
        if i >= 0 {
          assert sites[i] == init[i];
        }
      }
    }
  }

  /** Every site in the table answers to the name that leads to it. */
  lemma HostTableNamesSite(sites: seq<RunningSite>, host: string)
    requires host in HostTable(sites)
    ensures host in Hosts(HostTable(sites)[host].config)
    ensures HostTable(sites)[host] in sites
  {
    HostTableSpec(sites, host);
  }

  /** One more site taken into the host table. */
  lemma HostTableSnoc(sites: seq<RunningSite>, r: RunningSite)
    ensures HostTable(sites + [r]) == HostTable(sites) + NamesTo(Hosts(r.config), r)
  {
    assert (sites + [r])[..|sites|] == sites;
  }

  /** The names of one more host added to a table. */
  lemma AddHostsSnoc(m: map<string, RunningSite>, hosts: seq<string>, i: nat, r: RunningSite)
    requires i < |hosts|
    ensures m + NamesTo(hosts[..i + 1], r) == (m + NamesTo(hosts[..i], r))[hosts[i] := r]
  {
    assert hosts[..i + 1] == hosts[..i] + [hosts[i]];
  }

  /** `hostList`: the names of every site, site after site, each site's host before its aliases. */
  function AllHosts(sites: seq<RunningSite>): seq<string>
  {
    if |sites| == 0 then []
    else AllHosts(sites[..|sites| - 1]) + Hosts(sites[|sites| - 1].config)
  }

  /** A name is in the list exactly when some site answers to it. */
  lemma {:induction false} AllHostsMember(sites: seq<RunningSite>, host: string)
    ensures host in AllHosts(sites) <==> exists i | 0 <= i < |sites| :: host in Hosts(sites[i].config)
  {
    if |sites| > 0 {
      var init := sites[..|sites| - 1];
      var last := sites[|sites| - 1].config;
      AllHostsMember(init, host);
      assert host in AllHosts(sites) <==> host in AllHosts(init) || host in Hosts(last);
      if host in AllHosts(init) {
        var i :| 0 <= i < |init| && host in Hosts(init[i].config);
        assert sites[i] == init[i];
      }
      if exists i | 0 <= i < |sites| :: host in Hosts(sites[i].config) {
        var i :| 0 <= i < |sites| && host in Hosts(sites[i].config);
        if i < |init| {
          assert init[i] == sites[i];
        }
      }
    }
  }

  /** `hostList`: for each site in turn, appends each of its names. */
  method SitesHostList(sites: seq<RunningSite>) returns (hosts: seq<string>)
    ensures hosts == AllHosts(sites)
  {
    hosts := [];
    for r := 0 to |sites|
      invariant hosts == AllHosts(sites[..r])
    {
      assert sites[..r + 1][..r] == sites[..r];
      var hl := RunningHostList(sites[r]);
      ghost var before := hosts;
      for h := 0 to |hl|
        invariant hosts == before + hl[..h]
      {
        assert hl[..h + 1] == hl[..h] + [hl[h]];
        hosts := hosts + [hl[h]];
      }
      assert hl[..|hl|] == hl;
    }
    assert sites[..|sites|] == sites;
  }

  /** `firstEmailFound`: the email of the first site that has one, or "". */
  function FirstEmail(sites: seq<RunningSite>): string
  {
    if |sites| == 0 then ""
    else if sites[0].config.email != "" then sites[0].config.email
    else FirstEmail(sites[1..])
  }

  /** The email found is the one of the first site with a non-empty email. */
  lemma {:induction false} FirstEmailIs(sites: seq<RunningSite>, i: nat)
    requires i < |sites| && sites[i].config.email != ""
    requires forall j | 0 <= j < i :: sites[j].config.email == ""
    ensures FirstEmail(sites) == sites[i].config.email
  {
    if i > 0 {
      assert sites[0].config.email == "";
      forall j | 0 <= j < i - 1
        ensures sites[1..][j].config.email == ""
      {
        assert sites[1..][j] == sites[j + 1];
      }
      FirstEmailIs(sites[1..], i - 1);
    }
  }

  /** No email is found exactly when no site has one. */
  lemma {:induction false} FirstEmailNone(sites: seq<RunningSite>)
    ensures FirstEmail(sites) == "" <==> forall j | 0 <= j < |sites| :: sites[j].config.email == ""
  {
    if |sites| > 0 {
      FirstEmailNone(sites[1..]);
      if sites[0].config.email == "" {
        forall j | 1 <= j < |sites|
          ensures sites[j].config.email == sites[1..][j - 1].config.email
        {
        }
      }
    }
  }

  /** `firstEmailFound`: looks at each site in turn and stops at the first with an email. */
  method FirstEmailFound(sites: seq<RunningSite>) returns (email: string)
    ensures email == FirstEmail(sites)
  {
    for r := 0 to |sites|
      invariant forall j | 0 <= j < r :: sites[j].config.email == ""
    {
      if sites[r].config.email != "" {
        FirstEmailIs(sites, r);
        return sites[r].config.email;
      }
    }
    FirstEmailNone(sites);
    return "";
  }

  /** The two sites of the TLS set-up test: one with an alias and no email, one with an email. */
  function TlsTestSites(): seq<RunningSite>
  {
    [RunningSite(Config("test-host", ["host-alias"], "", false, "", ConfigBind("", ""), false), FileServer(""), ""),
     RunningSite(Config("site2", [], "site2@example.com", false, "", ConfigBind("", ""), false), FileServer(""), "")]
  }

  lemma TlsTestInputs()
    ensures AllHosts(TlsTestSites()) == ["test-host", "host-alias", "site2"]
    ensures FirstEmail(TlsTestSites()) == "site2@example.com"
  {
    var s := TlsTestSites();
    assert s[..1][..0] == [];
    assert s[1..][1..] == [];
  }

  /** Where a request goes: to the site its host names, or nowhere. */
  datatype Dispatched = Delegate(site: RunningSite) | BadGateway

  /** `ServeHTTP`: looks the host, without its port, up in the host table. */
  function Dispatch(hostMap: map<string, RunningSite>, host: string): (d: Dispatched)
    ensures d.BadGateway? <==> StripPort(host) !in hostMap
    ensures d.Delegate? ==> StripPort(host) in hostMap && d.site == hostMap[StripPort(host)]
  {
    if StripPort(host) in hostMap then Delegate(hostMap[StripPort(host)]) else BadGateway
  }

  /**
   * With the table built from `sites`, a request for `name` on any port goes
   * to the last site that answers to `name`, and fails with 502 when none does.
   */
  lemma DispatchByName(sites: seq<RunningSite>, name: string, port: string)
    requires ':' !in name
    ensures Dispatch(HostTable(sites), name + ":" + port) == Dispatch(HostTable(sites), name)
    ensures LastNaming(sites, name) >= 0 ==> Dispatch(HostTable(sites), name) == Delegate(sites[LastNaming(sites, name)])
    ensures LastNaming(sites, name) < 0 ==> Dispatch(HostTable(sites), name) == BadGateway
  {
    JoinThenSplit(name, port);
    HostTableSpec(sites, name);
  }

  /** How the listener serves. */
  datatype Listener = ServeTls | ServePlain

  /** What the certificate manager is given: a contact email and the names it may get certificates for. */
  datatype AutoCert = AutoCert(email: string, hostPolicy: seq<string>)

  /** The TLS set-up of a listener: the server name, and the certificate manager when certificates are automatic. */
  datatype TlsConfig = TlsConfig(serverName: string, autoCert: Option<AutoCert>)

  /** The TLS set-up `initTLS` gives the listener bound to `bind` when it takes the first site's `host`. */
  function TlsFor(bind: string, host: string, autoCert: bool, sites: seq<RunningSite>): Option<TlsConfig>
  {
    if JustPort(bind) == "443" then
      Some(TlsConfig(host, if autoCert then Some(AutoCert(FirstEmail(sites), AllHosts(sites))) else None))
    else None
  }

  /** The running sites run the configs, one each and in order, on `bind`. */
  predicate RunsAll(sites: seq<RunningSite>, configs: seq<Config>, bind: string)
  {
    |sites| == |configs| && forall i | 0 <= i < |sites| :: RunsConfig(sites[i], configs[i], bind)
  }

  /** Every config's site loads. */
  predicate LoadsAll(configs: seq<Config>, loads: seq<SiteLoad>)
    requires |loads| == |configs|
  {
    forall i | 0 <= i < |configs| :: !LoadFails(configs[i], loads[i])
  }

  /** The first `c + 1` configs load exactly when the first `c` do and the next one does. */
  lemma LoadsAllStep(configs: seq<Config>, loads: seq<SiteLoad>, c: nat)
    requires |loads| == |configs| && c < |configs|
    ensures LoadsAll(configs[..c + 1], loads[..c + 1]) <==> LoadsAll(configs[..c], loads[..c]) && !LoadFails(configs[c], loads[c])
    ensures !LoadFails(configs[c], loads[c]) || !LoadsAll(configs, loads)
  {
    var cs, ls := configs[..c + 1], loads[..c + 1];
    assert cs[c] == configs[c] && ls[c] == loads[c];
    if LoadsAll(configs[..c], loads[..c]) && !LoadFails(configs[c], loads[c]) {
      forall i | 0 <= i < c + 1
        ensures !LoadFails(cs[i], ls[i])
      {
        if i < c {
          assert cs[i] == configs[..c][i] && ls[i] == loads[..c][i];
        }
      }
    }
  }

  /** One more config run. */
  lemma RunsAllSnoc(sites: seq<RunningSite>, configs: seq<Config>, c: nat, r: RunningSite, bind: string)
    requires c < |configs| && RunsAll(sites, configs[..c], bind) && RunsConfig(r, configs[c], bind)
    ensures RunsAll(sites + [r], configs[..c + 1], bind)
  {
    assert configs[..c + 1] == configs[..c] + [configs[c]];
  }

  class ServerSite {
    const bind: string
    var runningSites: seq<RunningSite>
    var hostMap: map<string, RunningSite>
    var tlsEnabled: bool
    var tlsConfig: Option<TlsConfig>

    /** The host table is the one built from the running sites, and they all run on this bind. */
    ghost predicate Valid()
      reads this
    {
      && hostMap == HostTable(runningSites)
      && forall i | 0 <= i < |runningSites| :: runningSites[i].bind == bind
    }

    constructor(bind: string)
      ensures Valid()
      ensures this.bind == bind && runningSites == [] && hostMap == map[]
      ensures !tlsEnabled && tlsConfig == None
    {
      this.bind := bind;
      runningSites := [];
      hostMap := map[];
      tlsEnabled := false;
      tlsConfig := None;
    }

    /** `appendHostMap`: maps each name of `site` to it, replacing what the names led to before. */
    method AppendHostMap(site: RunningSite)
      modifies this
      ensures hostMap == old(hostMap) + NamesTo(Hosts(site.config), site)
      ensures runningSites == old(runningSites)
      ensures tlsEnabled == old(tlsEnabled) && tlsConfig == old(tlsConfig)
    {
      var hosts := HostList(site.config);
      ghost var before := hostMap;
      for h := 0 to |hosts|
        invariant hostMap == before + NamesTo(hosts[..h], site)
        invariant runningSites == old(runningSites)
        invariant tlsEnabled == old(tlsEnabled) && tlsConfig == old(tlsConfig)
      {
        AddHostsSnoc(before, hosts, h, site);
        hostMap := hostMap[hosts[h] := site];
      }
      assert hosts[..|hosts|] == hosts;
    }

    /** One more running site on this bind: its names join the host table. */
    method AddRunningSite(r: RunningSite)
      requires Valid() && r.bind == bind
      modifies this
      ensures Valid() && runningSites == old(runningSites) + [r]
      ensures tlsEnabled == old(tlsEnabled) && tlsConfig == old(tlsConfig)
    {
      AppendHostMap(r);
      HostTableSnoc(runningSites, r);
      runningSites := runningSites + [r];
    }

    /** `initTLS`: on port 443 turns TLS on, for server name `host`, with automatic certificates for every name of the sites when asked. */
    method InitTls(host: string, autoCert: bool)
      modifies this
      ensures tlsEnabled == (old(tlsEnabled) || JustPort(bind) == "443")
      ensures tlsConfig == if JustPort(bind) == "443" then TlsFor(bind, host, autoCert, runningSites) else old(tlsConfig)
      ensures runningSites == old(runningSites) && hostMap == old(hostMap)
    {
      if JustPort(bind) != "443" {
        return;
      }
      var auto: Option<AutoCert> := None;
      if autoCert {
        var hosts := SitesHostList(runningSites);
        var email := FirstEmailFound(runningSites);
        auto := Some(AutoCert(email, hosts));
      }
      tlsConfig := Some(TlsConfig(host, auto));
      tlsEnabled := true;
    }

    /** `ServeHTTP`: hands the request to the site its host names, or answers 502. */
    method ServeHttp(req: Request) returns (d: Dispatched)
      requires Valid()
      ensures d == Dispatch(HostTable(runningSites), req.host)
    {
      var name := StripPort(req.host);
      if name !in hostMap {
        return BadGateway;
      }
      return Delegate(hostMap[name]);
    }

    /** `ListenAndServe`: serves TLS exactly when TLS was turned on. */
    method ListenAndServe() returns (l: Listener)
      ensures l == ServeTls <==> tlsEnabled
    {
      if tlsEnabled {
        return ServeTls;
      }
      return ServePlain;
    }

    /**
     * The loop of `newServerSite`: each config in turn becomes a running site
     * whose names are added to the host table; the first that fails to load
     * stops the loop with its error.
     */
    method RunConfigs(configs: seq<Config>, loads: seq<SiteLoad>) returns (err: Option<string>)
      requires |loads| == |configs| && forall i | 0 <= i < |loads| :: LoadOk(loads[i])
      requires Valid() && runningSites == []
      modifies this
      ensures err.None? <==> LoadsAll(configs, loads)
      ensures err.None? ==> Valid() && RunsAll(runningSites, configs, bind)
      ensures tlsEnabled == old(tlsEnabled) && tlsConfig == old(tlsConfig)
    {
      for c := 0 to |configs|
        invariant Valid() && LoadsAll(configs[..c], loads[..c]) && RunsAll(runningSites, configs[..c], bind)
        invariant tlsEnabled == old(tlsEnabled) && tlsConfig == old(tlsConfig)
      {
        var r, e := NewRunningSite(configs[c], bind, loads[c]);
        if r.None? {
          LoadsAllStep(configs, loads, c);
          return e;
        }
        LoadsAllStep(configs, loads, c);
        RunsAllSnoc(runningSites, configs, c, r.value, bind);
        AddRunningSite(r.value);
      }
      assert configs[..|configs|] == configs && loads[..|loads|] == loads;
      return None;
    }

    /**
     * `newServerSite`: the listener on `bind` for `configs`, each with what
     * loading its site gives: the running sites of the configs in order and
     * their host table, or, when a site fails to load, no listener and the
     * error. TLS is then set up for the first config's host.
     */
    static method New(bind: string, configs: seq<Config>, autoCert: bool, loads: seq<SiteLoad>)
      returns (s: ServerSite?, err: Option<string>)
      requires |configs| >= 1 && |loads| == |configs|
      requires forall i | 0 <= i < |loads| :: LoadOk(loads[i])
      ensures s == null <==> err.Some?
      ensures s == null <==> !LoadsAll(configs, loads)
      ensures s != null ==>
        && fresh(s) && s.Valid() && s.bind == bind
        && RunsAll(s.runningSites, configs, bind)
        && s.tlsEnabled == (JustPort(bind) == "443")
        && s.tlsConfig == TlsFor(bind, configs[0].host, autoCert, s.runningSites)
    {
      s := new ServerSite(bind);
      err := s.RunConfigs(configs, loads);
      if err.Some? {
        return null, err;
      }
      s.InitTls(configs[0].host, autoCert);
    }
  }
}
