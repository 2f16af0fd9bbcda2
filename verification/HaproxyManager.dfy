/** The proxy configuration as haproxy_manager changes it. The lists of the remote side are the
    fields of the manager; each method edits them in place and is specified by the functions of
    the modules SwitchRules, Frontends and HttpRequestRules. */
module HaproxyManager {
  import opened Wrappers
  import opened Text
  import opened RuleLists
  import opened HaproxyNames
  import opened SwitchRules
  import opened Frontends
  import opened HttpRequestRules

  /** A backend with its server template. */
  datatype Backend = Backend(protocol: BackendProtocol, serviceName: string, port: int, replicas: int)

  /** An existing backend of the same name stays as it is. */
  function BackendAdded(backends: map<string, Backend>, b: Backend): map<string, Backend> {
    var name := GenerateBackendName(b.protocol, b.serviceName, b.port);
    if name in backends then backends else backends[name := b]
  }

  const HTTP_PORT := 80
  const HTTPS_PORT := 443

  class Manager {
    var frontends: Table
    var requestRules: map<string, seq<HttpRule>>
    var userLists: set<string>
    var backends: map<string, Backend>

    /** Every frontend has both of its lists; every backend carries its own name. */
    ghost predicate Valid() reads this {
      && frontends.Keys == requestRules.Keys
      && forall name :: name in backends ==>
          name == GenerateBackendName(backends[name].protocol, backends[name].serviceName, backends[name].port)
    }

    constructor (reservedHttp: Rule, reservedHttps: Rule)
      ensures Valid() && frontends == map["fe_http" := [reservedHttp], "fe_https" := [reservedHttps]]
      ensures requestRules == map["fe_http" := [], "fe_https" := []] && userLists == {} && backends == map[]
    {
      frontends := map["fe_http" := [reservedHttp], "fe_https" := [reservedHttps]];
      requestRules := map["fe_http" := [], "fe_https" := []];
      userLists, backends := {}, map[];
    }

    // ----------------------------------------------------------------
    // backend_switch.go
    // ----------------------------------------------------------------

    /** The index of the first matching switching rule, or -1. */
    method FetchBackendSwitchIndex(l: Link) returns (r: Result<int, Frontends.Error>)
      ensures Name(l) !in frontends ==> r == Err(NoSuchFrontend)
      ensures Name(l) in frontends ==>
                var i := FirstIndex(frontends[Name(l)], Matcher(l.mode, l.port, l.backendName, l.domainName));
                r == Ok(if i < |frontends[Name(l)]| then i else -1)
    {
      if Name(l) !in frontends {
        return Err(NoSuchFrontend);
      }
      var rules := frontends[Name(l)];
      var condTest := CondTest(l.port, l.domainName);
      ghost var m := Matcher(l.mode, l.port, l.backendName, l.domainName);
      for i := 0 to |rules|
        invariant forall k :: 0 <= k < i ==> !m(rules[k])
      {
        var rule := rules[i];
        if l.mode == HTTPMode {
          if rule.name == l.backendName && rule.cond == "if" && rule.condTest == condTest {
            FirstIndexIs(rules, m, i);
            return Ok(i);
          }
        } else if rule.name == l.backendName {
          FirstIndexIs(rules, m, i);
          return Ok(i);
        }
      }
      FirstIndexIs(rules, m, |rules|);
      return Ok(-1);
    }

    method AddBackendSwitch(l: Link) returns (r: Result<(), Frontends.Error>)
      requires Valid()
      modifies this`frontends
      ensures Valid()
      ensures match SwitchAdded(old(frontends), l)
              case Ok(fs) => r == Ok(()) && frontends == fs
              case Err(e) => r == Err(e) && frontends == old(frontends)
    {
      var fetched := FetchBackendSwitchIndex(l);
      if fetched.Err? {
        return Err(fetched.error);
      }
      if fetched.value != -1 {
        return Ok(());
      }
      var rules := frontends[Name(l)];
      var rule := Rule(l.backendName, "", "");
      var index := 0;
      if l.mode == HTTPMode {
        rule := Rule(l.backendName, "if", CondTest(l.port, l.domainName));
        if IsDefaultPort(l.port) {
          index := 1;
        }
      }
      if index > |rules| {
        return Err(IndexOutOfRange);
      }
      frontends := frontends[Name(l) := InsertAt(rules, index, rule)];
      return Ok(());
    }

    method DeleteBackendSwitch(l: Link) returns (r: Result<(), Frontends.Error>)
      requires Valid()
      modifies this`frontends
      ensures Valid() && r == Ok(()) && frontends == SwitchDeleted(old(frontends), l)
    {
      var exists' := IsFrontendExist(l.mode, l.port);
      if !exists' {
        return Ok(());
      }
      var fetched := FetchBackendSwitchIndex(l);
      if fetched.value != -1 {
        frontends := frontends[Name(l) := RemoveAt(frontends[Name(l)], fetched.value)];
      } else {
        assert frontends == frontends[Name(l) := frontends[Name(l)]];
      }
      return Ok(());
    }

    // ----------------------------------------------------------------
    // predefined_link.go
    // ----------------------------------------------------------------

    /** AddHTTPLink on port 80, AddHTTPSLink on port 443. */
    method AddPredefinedLink(port: int, backendName: string, domainName: string)
      returns (r: Result<(), Frontends.Error>)
      requires Valid() && IsDefaultPort(port)
      modifies this`frontends
      ensures Valid()
      ensures match SwitchAdded(old(frontends), Link(backendName, port, domainName, HTTPMode))
              case Ok(fs) => r == Ok(()) && frontends == fs
              case Err(e) => r == Err(e) && frontends == old(frontends)
      ensures var name := GenerateFrontendName(HTTPMode, port);
              name in old(frontends) && old(frontends[name]) != [] ==>
                && r == Ok(())
                && frontends ==
                   old(frontends)[name := SwitchRules.Apply(old(frontends[name]), port, Add(backendName, domainName))]
      ensures r.Err? ==> frontends == old(frontends)
    {
      var l := Link(backendName, port, domainName, HTTPMode);
      var fetched := FetchBackendSwitchIndex(l);
      if fetched.Err? {
        return Err(fetched.error);
      }
      if fetched.value != -1 {
        assert frontends == frontends[Name(l) := frontends[Name(l)]];
        return Ok(());
      }
      r := AddBackendSwitch(l);
    }

    /** DeleteHTTPLink on port 80, DeleteHTTPSLink on port 443. */
    method DeletePredefinedLink(port: int, backendName: string, domainName: string)
      returns (r: Result<(), Frontends.Error>)
      requires Valid() && IsDefaultPort(port)
      modifies this`frontends
      ensures Valid()
      ensures var name := GenerateFrontendName(HTTPMode, port);
              name in old(frontends) && old(frontends[name]) != [] ==>
                && r == Ok(())
                && frontends ==
                   old(frontends)[name := SwitchRules.Apply(old(frontends[name]), port,
                                                             Delete(backendName, domainName))]
      ensures r.Err? ==> frontends == old(frontends)
    {
      var l := Link(backendName, port, domainName, HTTPMode);
      var fetched := FetchBackendSwitchIndex(l);
      if fetched.Err? {
        return Err(fetched.error);
      }
      if fetched.value == -1 {
        assert frontends == frontends[Name(l) := frontends[Name(l)]];
        return Ok(());
      }
      r := DeleteBackendSwitch(l);
    }

    // ----------------------------------------------------------------
    // frontend.go and custom_link.go
    // ----------------------------------------------------------------

    method IsFrontendExist(mode: ListenerMode, port: int) returns (found: bool)
      ensures found <==> GenerateFrontendName(mode, port) in frontends
    {
      found := GenerateFrontendName(mode, port) in frontends;
    }

    method IsPortRestrictedForManualConfig(port: int, restrictedPorts: seq<int>) returns (restricted: bool)
      ensures restricted <==> port in restrictedPorts
    {
      for i := 0 to |restrictedPorts|
        invariant port !in restrictedPorts[..i]
      {
        if port == restrictedPorts[i] {
          return true;
        }
      }
      return false;
    }

    method AddFrontend(mode: ListenerMode, port: int, restrictedPorts: seq<int>)
      returns (r: Result<(), Frontends.Error>)
      requires Valid()
      modifies this`frontends, this`requestRules
      ensures Valid()
      ensures match FrontendAdded(old(frontends), mode, port, restrictedPorts)
              case Ok(fs) => r == Ok(()) && frontends == fs
              case Err(e) => r == Err(e) && frontends == old(frontends)
      ensures forall name :: name in old(requestRules) ==>
                name in requestRules && requestRules[name] == old(requestRules[name])
      ensures forall name :: name in requestRules && name !in old(requestRules) ==>
                name == GenerateFrontendName(mode, port) && frontends[name] == [] && requestRules[name] == []
    {
      if port == HTTP_PORT || port == HTTPS_PORT {
        if mode == TCPMode {
          return Err(TcpOnDefaultPort);
        }
        return Ok(());
      }
      var restricted := IsPortRestrictedForManualConfig(port, restrictedPorts);
      if restricted {
        return Err(PortRestricted);
      }
      var found := IsFrontendExist(mode, port);
      if found {
        return Ok(());
      }
      if mode == TCPMode {
        found := IsFrontendExist(HTTPMode, port);
        if found {
          return Err(HttpModeExists);
        }
      } else {
        found := IsFrontendExist(TCPMode, port);
        if found {
          return Err(TcpModeExists);
        }
      }
      frontends := frontends[GenerateFrontendName(mode, port) := []];
      requestRules := requestRules[GenerateFrontendName(mode, port) := []];
      return Ok(());
    }

    method IsOtherSwitchingRuleExist(mode: ListenerMode, port: int) returns (r: Result<bool, Frontends.Error>)
      ensures r.Ok? <==> GenerateFrontendName(mode, port) in frontends
      ensures r.Ok? ==> (r.value <==> exists rule :: rule in frontends[GenerateFrontendName(mode, port)])
    {
      var name := GenerateFrontendName(mode, port);
      if name !in frontends {
        return Err(NoSuchFrontend);
      }
      var found := |frontends[name]| > 0;
      if found {
        assert frontends[name][0] in frontends[name];
      }
      return Ok(found);
    }

    method DeleteFrontend(mode: ListenerMode, port: int) returns (r: Result<(), Frontends.Error>)
      requires Valid()
      modifies this`frontends, this`requestRules
      ensures Valid() && r == Ok(()) && frontends == FrontendDeleted(old(frontends), mode, port)
      ensures requestRules == map name | name in old(requestRules) && name in frontends :: old(requestRules[name])
    {
      if port == HTTP_PORT || port == HTTPS_PORT {
        return Ok(());
      }
      var found := IsFrontendExist(mode, port);
      if !found {
        return Ok(());
      }
      if mode == HTTPMode {
        var other := IsOtherSwitchingRuleExist(mode, port);
        ghost var rules := frontends[GenerateFrontendName(mode, port)];
        assert rules != [] ==> rules[0] in rules;
        if other.value {
          return Ok(());
        }
      }
      frontends := frontends - {GenerateFrontendName(mode, port)};
      requestRules := requestRules - {GenerateFrontendName(mode, port)};
      return Ok(());
    }

    method AddTCPLink(l: Link, restrictedPorts: seq<int>) returns (r: Result<(), Frontends.Error>)
      requires Valid()
      modifies this`frontends, this`requestRules
      ensures Valid() && (r, frontends) == LinkAdded(old(frontends), l, restrictedPorts)
    {
      r := AddFrontend(l.mode, l.port, restrictedPorts);
      if r.Ok? {
        r := AddBackendSwitch(l);
      }
    }

    method DeleteTCPLink(l: Link) returns (r: Result<(), Frontends.Error>)
      requires Valid()
      modifies this`frontends, this`requestRules
      ensures Valid() && r == Ok(()) && frontends == LinkDeleted(old(frontends), l)
    {
      r := DeleteBackendSwitch(l);
      r := DeleteFrontend(l.mode, l.port);
    }

    // ----------------------------------------------------------------
    // basic_auth.go, redirect_rule.go, https_redirection.go
    // ----------------------------------------------------------------

    method AddUserList(name: string)
      modifies this`userLists
      ensures userLists == old(userLists) + {name}
    {
      if name !in userLists {
        userLists := userLists + {name};
      }
    }

    /** What the configuration of one frontend is after an http-request operation. */
    twostate predicate Applied(name: string, port: int, op: HttpRequestRules.Op)
      reads this
    {
      && name in old(requestRules)
      && requestRules == old(requestRules)[name := HttpRequestRules.Apply(old(requestRules[name]), port, op)]
    }

    method SetupBasicAuthentication(mode: ListenerMode, port: int, domain: string, userListName: string)
      returns (r: Result<(), Frontends.Error>)
      requires Valid()
      modifies this`requestRules
      ensures Valid()
      ensures r.Ok? <==> mode == HTTPMode && userListName in userLists && GenerateFrontendName(mode, port) in frontends
      ensures r.Ok? ==> Applied(GenerateFrontendName(mode, port), port, Setup(Auth(domain, userListName), ""))
      ensures r.Err? ==> requestRules == old(requestRules)
    {
      if mode == TCPMode {
        return Err(TcpNotSupported);
      }
      var name := GenerateFrontendName(mode, port);
      if userListName !in userLists {
        return Err(NoSuchUserList);
      }
      if name !in requestRules {
        return Err(NoSuchFrontend);
      }
      var rule := HttpRule("auth", "if", AuthCondition(port, domain, userListName), 0, "", "");
      requestRules := requestRules[name := InsertAt(requestRules[name], 0, rule)];
      return Ok(());
    }

    method RemoveBasicAuthentication(mode: ListenerMode, port: int, domain: string, userListName: string)
      returns (r: Result<(), Frontends.Error>)
      requires Valid()
      modifies this`requestRules
      ensures Valid()
      ensures r.Ok? <==> mode == HTTPMode && GenerateFrontendName(mode, port) in frontends
      ensures r.Ok? ==> Applied(GenerateFrontendName(mode, port), port, Remove(Auth(domain, userListName)))
      ensures r.Err? ==> requestRules == old(requestRules)
    {
      if mode == TCPMode {
        return Err(TcpNotSupported);
      }
      var name := GenerateFrontendName(mode, port);
      if name !in requestRules {
        return Err(NoSuchFrontend);
      }
      var rules, foundIndex, i := requestRules[name], -1, 0;
      var condTest := AuthCondition(port, domain, userListName);
      ghost var find := Finder(port, Auth(domain, userListName));
      assert forall r: HttpRule :: find(r) <==> r.condTest == condTest && r.cond == "if" && r.kind == "auth";
      hide Finder, AuthCondition;
      while i < |rules|
        invariant 0 <= i <= |rules| && forall k :: 0 <= k < i ==> !find(rules[k])
      {
        if rules[i].condTest == condTest && rules[i].cond == "if" && rules[i].kind == "auth" {
          foundIndex := i;
          break;
        }
        i := i + 1;
      }
      FirstIndexIs(rules, find, i);
      DeleteRule(name, foundIndex);
      return Ok(());
    }

    /** Deletes by index; nothing when the index is -1. */
    method DeleteRule(name: string, index: int)
      requires Valid() && name in requestRules && -1 <= index < |requestRules[name]|
      modifies this`requestRules
      ensures Valid()
      ensures requestRules ==
              old(requestRules)[name := if index == -1 then old(requestRules[name])
                                            else RemoveAt(old(requestRules[name]), index)]
    {
      if index != -1 {
        requestRules := requestRules[name := RemoveAt(requestRules[name], index)];
      } else {
        assert requestRules == requestRules[name := requestRules[name]];
      }
    }

    /** AddHTTPRedirectRule on port 80, AddHTTPSRedirectRule on port 443. */
    method AddRedirectRule(port: int, matchDomain: string, redirectUrl: string) returns (r: Result<(), Frontends.Error>)
      requires Valid() && IsDefaultPort(port)
      modifies this`requestRules
      ensures Valid()
      ensures r.Ok? <==>
                TrimSpace(matchDomain) != "" && TrimSpace(redirectUrl) != "" &&
                GenerateFrontendName(HTTPMode, port) in frontends
      ensures r.Ok? ==> Applied(GenerateFrontendName(HTTPMode, port), port, Setup(Redirect(matchDomain), redirectUrl))
      ensures r.Err? ==> requestRules == old(requestRules)
    {
      if TrimSpace(matchDomain) == "" {
        return Err(DomainRequired);
      }
      if TrimSpace(redirectUrl) == "" {
        return Err(UrlRequired);
      }
      var name := GenerateFrontendName(HTTPMode, port);
      if name !in requestRules {
        return Err(NoSuchFrontend);
      }
      var rule := HttpRule("redirect", "if", HostCondition(TrimSpace(matchDomain)) + NOT_ACME, 302, "location",
          redirectUrl);
      requestRules := requestRules[name := InsertAt(requestRules[name], 0, rule)];
      return Ok(());
    }

    /** DeleteHTTPRedirectRule on port 80, DeleteHTTPSRedirectRule on port 443. */
    method DeleteRedirectRule(port: int, matchDomain: string) returns (r: Result<(), Frontends.Error>)
      requires Valid() && IsDefaultPort(port)
      modifies this`requestRules
      ensures Valid()
      ensures r.Ok? <==> TrimSpace(matchDomain) != "" && GenerateFrontendName(HTTPMode, port) in frontends
      ensures r.Ok? ==> Applied(GenerateFrontendName(HTTPMode, port), port, Remove(Redirect(matchDomain)))
      ensures r.Err? ==> requestRules == old(requestRules)
    {
      if TrimSpace(matchDomain) == "" {
        return Err(DomainRequired);
      }
      var name := GenerateFrontendName(HTTPMode, port);
      if name !in requestRules {
        return Err(NoSuchFrontend);
      }
      var rules, index, i := requestRules[name], -1, 0;
      var condTest := HostCondition(TrimSpace(matchDomain)) + NOT_ACME;
      ghost var find := Finder(port, Redirect(matchDomain));
      assert forall r: HttpRule :: find(r) <==> r.condTest == condTest;
      hide Finder, HostCondition, TrimSpace;
      while i < |rules|
        invariant 0 <= i <= |rules| && forall k :: 0 <= k < i ==> !find(rules[k])
      {
        if rules[i].condTest == condTest {
          index := i;
          break;
        }
        i := i + 1;
      }
      FirstIndexIs(rules, find, i);
      DeleteRule(name, index);
      return Ok(());
    }

    method FetchIndexOfHTTPSRedirection(domainName: string) returns (r: Result<int, Frontends.Error>)
      ensures "fe_http" !in requestRules ==> r == Err(NoSuchFrontend)
      ensures "fe_http" in requestRules ==>
                var i := FirstIndex(requestRules["fe_http"], Finder(HTTP_PORT, HttpsRedirection(domainName)));
                r == Ok(if i < |requestRules["fe_http"]| then i else -1)
    {
      var name := GenerateFrontendName(HTTPMode, HTTP_PORT);
      if name !in requestRules {
        return Err(NoSuchFrontend);
      }
      var rules, condTest := requestRules[name], HostCondition(TrimSpace(domainName));
      ghost var find := Finder(HTTP_PORT, HttpsRedirection(domainName));
      for i := 0 to |rules|
        invariant forall k :: 0 <= k < i ==> !find(rules[k])
      {
        var rule := rules[i];
        if rule.cond == "if" && rule.condTest == condTest && rule.kind == "redirect" && rule.redirType == "scheme" &&
            rule.redirValue == "https" {
          FirstIndexIs(rules, find, i);
          return Ok(i);
        }
      }
      FirstIndexIs(rules, find, |rules|);
      return Ok(-1);
    }

    method EnableHTTPSRedirection(domainName: string) returns (r: Result<(), Frontends.Error>)
      requires Valid()
      modifies this`requestRules
      ensures Valid()
      ensures r.Ok? <==> "fe_http" in frontends
      ensures r.Ok? ==> Applied("fe_http", HTTP_PORT, Setup(HttpsRedirection(domainName), ""))
      ensures r.Err? ==> requestRules == old(requestRules)
    {
      var index := FetchIndexOfHTTPSRedirection(domainName);
      if index.Err? {
        return Err(index.error);
      }
      if index.value != -1 {
        assert requestRules == requestRules["fe_http" := requestRules["fe_http"]];
        return Ok(());
      }
      var rule := HttpRule("redirect", "if", HostCondition(TrimSpace(domainName)), 301, "scheme", "https");
      requestRules := requestRules["fe_http" := InsertAt(requestRules["fe_http"], 0, rule)];
      return Ok(());
    }

    method DisableHTTPSRedirection(domainName: string) returns (r: Result<(), Frontends.Error>)
      requires Valid()
      modifies this`requestRules
      ensures Valid()
      ensures r.Ok? <==> "fe_http" in frontends
      ensures r.Ok? ==> Applied("fe_http", HTTP_PORT, Remove(HttpsRedirection(domainName)))
      ensures r.Err? ==> requestRules == old(requestRules)
    {
      var index := FetchIndexOfHTTPSRedirection(domainName);
      if index.Err? {
        return Err(index.error);
      }
      DeleteRule("fe_http", index.value);
      return Ok(());
    }

    // ----------------------------------------------------------------
    // backend.go
    // ----------------------------------------------------------------

    /** The backend that comes back serves what was asked for, also when it was there before: its
        name leaves no choice. The replica count is then the old one. */
    method AddBackend(protocol: BackendProtocol, serviceName: string, port: int, replicas: int) returns (name: string)
      requires Valid()
      modifies this`backends
      ensures Valid() && name in backends
      ensures backends == BackendAdded(old(backends), Backend(protocol, serviceName, port, replicas))
      ensures backends[name].protocol == protocol && backends[name].serviceName == serviceName
      ensures backends[name].port == port
      ensures backends[name].replicas == if name in old(backends) then old(backends[name]).replicas else replicas
    {
      name := GenerateBackendName(protocol, serviceName, port);
      if name in backends {
        var b := backends[name];
        BackendNameInjective(protocol, serviceName, port, b.protocol, b.serviceName, b.port);
        return;
      }
      backends := backends[name := Backend(protocol, serviceName, port, replicas)];
    }
  }
}
