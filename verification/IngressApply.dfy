/** Applying an ingress rule to all proxy nodes (worker/process_ingress_rule_apply_request.go). */
module IngressApply {
  import opened Wrappers
  import opened RuleLists
  import opened HaproxyNames
  import SwitchRules
  import Frontends
  import HaproxyManager
  import opened RuleTables
  import opened StageCommit

  /** The part of a node's proxy configuration that a rule touches. */
  datatype ProxyConfig = ProxyConfig(frontends: Frontends.Table, backends: map<string, HaproxyManager.Backend>)

  /** What the worker reads before it turns to the nodes. */
  datatype Request = Request(rule: IngressRule, targetPort: int, domainName: Option<string>,
      application: Option<(string, int)>)

  function BackendProtocolOf(p: Protocol): BackendProtocol {
    if p == TCP then TCPBackend else HTTPBackend
  }

  function ServiceOf(q: Request): (string, int)
    requires Resolved(q)
  {
    match q.rule.target
    case ApplicationTarget(_) => q.application.value
    case ExternalTarget(service) => (service, 1)
  }

  /** Its domain and its application were found. */
  predicate Resolved(q: Request) {
    (Web(q.rule.protocol) ==> q.domainName.Some?) && (q.rule.target.ApplicationTarget? ==> q.application.Some?)
  }

  function BackendOf(q: Request): HaproxyManager.Backend
    requires Resolved(q)
  {
    HaproxyManager.Backend(BackendProtocolOf(q.rule.protocol), ServiceOf(q).0, q.targetPort, ServiceOf(q).1)
  }

  function BackendNameOf(q: Request): string
    requires Resolved(q)
  {
    GenerateBackendName(BackendProtocolOf(q.rule.protocol), ServiceOf(q).0, q.targetPort)
  }

  /** What is added to one node in its transaction; None when a request is refused. */
  function Staged(q: Request, restrictedPorts: seq<int>, c: ProxyConfig): Option<ProxyConfig>
    requires Resolved(q)
  {
    var backends := HaproxyManager.BackendAdded(c.backends, BackendOf(q));
    match q.rule.protocol
    case HTTPS => WithFrontends(Frontends.SwitchAdded(c.frontends,
        Frontends.Link(BackendNameOf(q), 443, q.domainName.value, HTTPMode)), backends)
    case HTTP =>
      var l := Frontends.Link(BackendNameOf(q), q.rule.port, q.domainName.value, HTTPMode);
      if q.rule.port == 80 then WithFrontends(Frontends.SwitchAdded(c.frontends, l), backends)
      else WithLink(Frontends.LinkAdded(c.frontends, l, restrictedPorts), backends)
    case TCP => WithLink(Frontends.LinkAdded(c.frontends, Frontends.Link(BackendNameOf(q), q.rule.port, "", TCPMode),
        restrictedPorts), backends)
    case UDP => None
  }

  function WithFrontends(r: Result<Frontends.Table, Frontends.Error>, backends: map<string, HaproxyManager.Backend>)
    : Option<ProxyConfig>
  {
    if r.Ok? then Some(ProxyConfig(r.value, backends)) else None
  }

  function WithLink(r: (Result<(), Frontends.Error>, Frontends.Table), backends: map<string, HaproxyManager.Backend>)
    : Option<ProxyConfig>
  {
    if r.0.Ok? then Some(ProxyConfig(r.1, backends)) else None
  }

  /** With requests that a node may refuse on its own. */
  function StageOn(q: Request, restrictedPorts: seq<int>, answers: nat -> bool)
    : (nat, ProxyConfig) -> Option<ProxyConfig>
    requires Resolved(q)
  {
    (n: nat, c: ProxyConfig) => if answers(n) then Staged(q, restrictedPorts, c) else None
  }

  /** IngressRuleApply: the status that the rule gets, or None when it stays, and the order in which
      transactions were ended. `udp` says which nodes take a udp proxy. */
  method ApplyIngressRule(
      q: Request, restrictedPorts: seq<int>, nodes: Cluster<ProxyConfig>, faults: Faults, answers: nat -> bool,
      udp: nat -> bool)
    returns (status: Option<Status>, ghost order: seq<nat>)
    modifies nodes
    ensures status == None <==> q.rule.status == Deleting || !Resolved(q) || old(nodes.configs) == []
    ensures status == None ==> nodes.configs == old(nodes.configs)
    ensures status.Some? ==> status.value == Applied || status.value == Failed
    ensures |nodes.configs| == |old(nodes.configs)|
    // Applied is every node committed with the rule in its configuration.
    ensures status == Some(Applied) && q.rule.protocol != UDP ==>
              forall n: nat :: n < |nodes.configs| ==>
                Commit(n, true) in nodes.log &&
                    Some(nodes.configs[n]) == Staged(q, restrictedPorts, old(nodes.configs[n]))
    // Failed for a staging failure leaves every node as it was.
    ensures status.Some? && q.rule.protocol != UDP &&
              !StagesAll(old(nodes.configs), faults, StageOn(q, restrictedPorts, answers)) ==>
              status == Some(Failed) && nodes.configs == old(nodes.configs)
    ensures status.Some? && q.rule.protocol != UDP ==>
              (status == Some(Applied) <==> StagesAll(old(nodes.configs), faults, StageOn(q, restrictedPorts, answers))
                                            && forall n: nat :: n < |old(nodes.configs)| ==> faults.commits(n))
    // Whatever the status: the nodes that have the rule are those before the first in the order that
    // refuses its commit, if all staged, and the others are as before.
    ensures status.Some? && q.rule.protocol != UDP ==>
              && (forall n: nat :: Commit(n, true) in nodes.log
                    <==>
                    StagesAll(old(nodes.configs), faults, StageOn(q, restrictedPorts, answers)) &&
                    Commits(order, faults, n))
              && (forall n: nat :: n < |nodes.configs| ==>
                    if Commit(n, true) in nodes.log then
                      Some(nodes.configs[n]) == Staged(q, restrictedPorts, old(nodes.configs[n]))
                    else nodes.configs[n] == old(nodes.configs[n]))
              && Visits(order, Opened(nodes.log))
    // Where the rule is applied, what it is about goes to a backend with its service and target port.
    ensures status.Some? && q.rule.protocol != UDP && RowOk(q.rule) ==>
              forall n: nat ::
                n < |nodes.configs| && Commit(n, true) in nodes.log && WellKept(old(nodes.configs[n])) ==>
                Routed(q, old(nodes.configs[n]), nodes.configs[n])
    // Failed leaves the rule on some node exactly when all staged and the first commit succeeded.
    ensures status == Some(Failed) && q.rule.protocol != UDP ==>
              (SomeCommitted(nodes.log) <==> StagesAll(old(nodes.configs), faults, StageOn(q, restrictedPorts, answers))
                                             && order != [] && faults.commits(order[0]))
    // Each opened transaction ended once, no commit was attempted after a failed one, and every logged
    // outcome is the node's answer.
    ensures status.Some? && q.rule.protocol != UDP ==>
              && (forall n: nat :: Endings(nodes.log, n) == if Open(n, true) in nodes.log then 1 else 0)
              && NoCommitAfterFailure(nodes.log) && CommitsComeLast(nodes.log) && Truthful(nodes.log, faults)
    // A udp rule touches no proxy configuration.
    ensures q.rule.protocol == UDP ==> nodes.configs == old(nodes.configs)
    ensures status.Some? && q.rule.protocol == UDP ==>
              (status == Some(Applied) <==> forall n: nat :: n < |nodes.configs| ==> udp(n))
  {
    hide Staged, Endings, NoCommitAfterFailure, CommitsComeLast, Truthful, Visits, Commits, StagesAll, SomeCommitted;
    if q.rule.status == Deleting || !Resolved(q) || nodes.configs == [] {
      return None, [];
    }
    if q.rule.protocol == UDP {
      for i: nat := 0 to |nodes.configs|
        invariant nodes.configs == old(nodes.configs)
        invariant forall n: nat :: n < i ==> udp(n)
      {
        if !udp(i) {
          return Some(Failed), [];
        }
      }
      return Some(Applied), [];
    }
    var ok;
    ok, order := nodes.RunActionsInAllNodes(faults, StageOn(q, restrictedPorts, answers));
    hide Routed, WellKept;
    if RowOk(q.rule) {
      forall n: nat | n < |nodes.configs| && Commit(n, true) in nodes.log && WellKept(old(nodes.configs[n]))
        ensures Routed(q, old(nodes.configs[n]), nodes.configs[n])
      {
        StagedRoutes(q, restrictedPorts, old(nodes.configs[n]));
      }
    }
    return Some(if ok then Applied else Failed), order;
  }

  // ------------------------------------------------------------------
  // What an applied rule means for requests
  // ------------------------------------------------------------------

  /** Every backend has the name that is made of its protocol, service and port. */
  ghost predicate Named(backends: map<string, HaproxyManager.Backend>) {
    forall name :: name in backends ==>
      name == GenerateBackendName(backends[name].protocol, backends[name].serviceName, backends[name].port)
  }

  /** `name` is the backend that the rule asks for: of its service, on its target port, over TCP exactly
      for a TCP rule. A new one has the replicas of the service; the other backends stay. */
  ghost predicate Serving(q: Request, before: map<string, HaproxyManager.Backend>,
      after: map<string, HaproxyManager.Backend>, name: string)
    requires Resolved(q)
  {
    && name in after
    && after[name].port == q.targetPort
    && (after[name].protocol == TCPBackend <==> q.rule.protocol == TCP)
    && (match q.rule.target
        case ApplicationTarget(_) => after[name].serviceName == q.application.value.0
        case ExternalTarget(service) => after[name].serviceName == service)
    && after[name].replicas == (if name in before then before[name].replicas
                                else match q.rule.target
                                  case ApplicationTarget(_) => q.application.value.1
                                  case ExternalTarget(_) => 1)
    && after == before[name := after[name]]
    && Named(after)
  }

  /** There is no other such backend. */
  lemma ServingIsUnique(q: Request, before: map<string, HaproxyManager.Backend>,
      after: map<string, HaproxyManager.Backend>, name: string, name': string)
    requires Resolved(q) && Serving(q, before, after, name) && Serving(q, before, after, name')
    ensures name == name'
  {
  }

  lemma StagedBackend(q: Request, restrictedPorts: seq<int>, c: ProxyConfig)
    requires Resolved(q) && Staged(q, restrictedPorts, c).Some? && Named(c.backends)
    ensures Serving(q, c.backends, Staged(q, restrictedPorts, c).value.backends, BackendNameOf(q))
  {
    assert Staged(q, restrictedPorts, c).value.backends == HaproxyManager.BackendAdded(c.backends, BackendOf(q));
    hide Staged, GenerateBackendName, HaproxyManager.BackendAdded, Named;
    AddedServes(c.backends, BackendOf(q));
  }

  lemma AddedServes(backends: map<string, HaproxyManager.Backend>, b: HaproxyManager.Backend)
    requires Named(backends)
    ensures var name, after := GenerateBackendName(b.protocol, b.serviceName, b.port),
                HaproxyManager.BackendAdded(backends, b);
            && name in after && after == backends[name := after[name]] && Named(after)
            && after[name] == b.(replicas := if name in backends then backends[name].replicas else b.replicas)
  {
    var name := GenerateBackendName(b.protocol, b.serviceName, b.port);
    hide GenerateBackendName;
    if name in backends {
      var old' := backends[name];
      BackendNameInjective(old'.protocol, old'.serviceName, old'.port, b.protocol, b.serviceName, b.port);
    }
  }

  function RulesOf(frontends: Frontends.Table, name: string): seq<SwitchRules.Rule> {
    if name in frontends then frontends[name] else []
  }

  /** The other frontends stay. */
  ghost predicate OnlyFrontend(before: Frontends.Table, after: Frontends.Table, name: string) {
    name in after && after == before[name := after[name]]
  }

  /** The host's requests go to the backend, exactly when its link was not hidden behind another one. */
  ghost predicate RoutedUnlessHidden(before: seq<SwitchRules.Rule>, after: seq<SwitchRules.Rule>, key: string,
      port: int, name: string, domainName: string) {
    var stack := SwitchRules.Bindings(before, key);
    SwitchRules.HeadName(SwitchRules.Bindings(after, key)) == Some(name) <==>
    SwitchRules.Binding(port, name, domainName) !in stack || stack[0].name == name
  }

  /** A node on which a rule on a default port is staged sends the domain's requests to a backend with the
      rule's service and target port, exactly when the same link was not hidden behind another one before. */
  lemma StagedRuleRoutes(q: Request, restrictedPorts: seq<int>, c: ProxyConfig) returns (name: string)
    requires Resolved(q) && Web(q.rule.protocol) && RowOk(q.rule) && SwitchRules.IsDefaultPort(q.rule.port)
    requires var fe := GenerateFrontendName(HTTPMode, q.rule.port);
             fe in c.frontends && c.frontends[fe] != [] && SwitchRules.IsReserved(c.frontends[fe][0])
    requires Named(c.backends)
    ensures Staged(q, restrictedPorts, c).Some? && name == BackendNameOf(q)
    ensures var c', fe, d := Staged(q, restrictedPorts, c).value, GenerateFrontendName(HTTPMode, q.rule.port),
                q.domainName.value;
            && Serving(q, c.backends, c'.backends, name) && OnlyFrontend(c.frontends, c'.frontends, fe)
            && RoutedUnlessHidden(c.frontends[fe], c'.frontends[fe], SwitchRules.Key(d), q.rule.port, name, d)
  {
    name := BackendNameOf(q);
    var fe := GenerateFrontendName(HTTPMode, q.rule.port);
    var rules := c.frontends[fe];
    SwitchRules.AddIsUpdate(rules, q.rule.port, name, q.domainName.value);
    assert rules == c.frontends[fe := rules][fe] && c.frontends == c.frontends[fe := rules];
    StagedFrontends(q, restrictedPorts, c);
    StagedBackend(q, restrictedPorts, c);
    hide SwitchRules.Bindings, SwitchRules.HeadName, SwitchRules.Key, FirstIndex, GenerateFrontendName,
        GenerateBackendName, Serving, Named, Staged;
  }

  /** On a default port the frontend's list gets the link, and nothing is refused. */
  lemma StagedFrontends(q: Request, restrictedPorts: seq<int>, c: ProxyConfig)
    requires Resolved(q) && Web(q.rule.protocol) && RowOk(q.rule) && SwitchRules.IsDefaultPort(q.rule.port)
    requires var fe := GenerateFrontendName(HTTPMode, q.rule.port); fe in c.frontends && c.frontends[fe] != []
    ensures var fe, r := GenerateFrontendName(HTTPMode, q.rule.port), Staged(q, restrictedPorts, c);
            r.Some? && r.value.frontends ==
              c.frontends[fe := SwitchRules.Added(c.frontends[fe], HTTPMode, q.rule.port, BackendNameOf(q),
                                                  q.domainName.value)]
  {
    var fe := GenerateFrontendName(HTTPMode, q.rule.port);
    assert c.frontends == c.frontends[fe := c.frontends[fe]];
    hide GenerateFrontendName, GenerateBackendName, FirstIndex;
  }

  lemma LinkAddedGives(fs: Frontends.Table, l: Frontends.Link, restrictedPorts: seq<int>)
    requires Frontends.LinkAdded(fs, l, restrictedPorts).0.Ok? && !SwitchRules.IsDefaultPort(l.port)
    ensures var name, fs' := Frontends.Name(l), Frontends.LinkAdded(fs, l, restrictedPorts).1;
            && OnlyFrontend(fs, fs', name)
            && fs'[name] == SwitchRules.Added(RulesOf(fs, name), l.mode, l.port, l.backendName, l.domainName)
  {
    hide FirstIndex, GenerateFrontendName;
  }

  /** The same on a custom HTTP port. */
  lemma StagedCustomRuleRoutes(q: Request, restrictedPorts: seq<int>, c: ProxyConfig) returns (name: string)
    requires Resolved(q) && q.rule.protocol == HTTP && !SwitchRules.IsDefaultPort(q.rule.port)
    requires Staged(q, restrictedPorts, c).Some? && Named(c.backends)
    ensures name == BackendNameOf(q)
    ensures var c', fe, d := Staged(q, restrictedPorts, c).value, GenerateFrontendName(HTTPMode, q.rule.port),
                q.domainName.value;
            && Serving(q, c.backends, c'.backends, name) && OnlyFrontend(c.frontends, c'.frontends, fe)
            && RoutedUnlessHidden(RulesOf(c.frontends, fe), c'.frontends[fe], SwitchRules.CustomKey(q.rule.port, d),
                                  q.rule.port, name, d)
  {
    name := BackendNameOf(q);
    var l := Frontends.Link(name, q.rule.port, q.domainName.value, HTTPMode);
    StagedBackend(q, restrictedPorts, c);
    assert Staged(q, restrictedPorts, c).value.frontends == Frontends.LinkAdded(c.frontends, l, restrictedPorts).1;
    LinkAddedGives(c.frontends, l, restrictedPorts);
    SwitchRules.CustomAddRoutes(RulesOf(c.frontends, Frontends.Name(l)), l.port, l.backendName, l.domainName);
    hide SwitchRules.Bindings, SwitchRules.HeadName, SwitchRules.CustomKey, SwitchRules.Added, GenerateFrontendName,
        GenerateBackendName, Serving, Named, OnlyFrontend, Staged, Frontends.LinkAdded;
  }

  /** On a TCP port everything goes to such a backend, under the same condition. */
  lemma StagedTcpRuleRoutes(q: Request, restrictedPorts: seq<int>, c: ProxyConfig) returns (name: string)
    requires Resolved(q) && q.rule.protocol == TCP && RowOk(q.rule)
    requires Staged(q, restrictedPorts, c).Some? && Named(c.backends)
    ensures name == BackendNameOf(q)
    ensures var c', fe := Staged(q, restrictedPorts, c).value, GenerateFrontendName(TCPMode, q.rule.port);
            var before := RulesOf(c.frontends, fe);
            && Serving(q, c.backends, c'.backends, name) && OnlyFrontend(c.frontends, c'.frontends, fe)
            && c'.frontends[fe] != []
            && (c'.frontends[fe][0].name == name <==> (forall r :: r in before ==> r.name != name) ||
                                                       before[0].name == name)
  {
    name := BackendNameOf(q);
    var l := Frontends.Link(name, q.rule.port, "", TCPMode);
    StagedBackend(q, restrictedPorts, c);
    assert Staged(q, restrictedPorts, c).value.frontends == Frontends.LinkAdded(c.frontends, l, restrictedPorts).1;
    LinkAddedGives(c.frontends, l, restrictedPorts);
    SwitchRules.TcpAddRoutes(RulesOf(c.frontends, Frontends.Name(l)), l.port, l.backendName, l.domainName);
    hide SwitchRules.Added, GenerateFrontendName, GenerateBackendName, Serving, Named, OnlyFrontend, Staged,
        Frontends.LinkAdded;
  }

  /** What is found on a node: backends under their own names, and the reserved rules of the two default
      frontends. */
  ghost predicate WellKept(c: ProxyConfig) {
    && Named(c.backends)
    && forall port :: SwitchRules.IsDefaultPort(port) ==>
         var fe := GenerateFrontendName(HTTPMode, port);
         fe in c.frontends && c.frontends[fe] != [] && SwitchRules.IsReserved(c.frontends[fe][0])
  }

  /** The node, which was `c`, sends what the rule is about to a backend with the rule's service and
      target port, exactly when the same link was not hidden behind another one. */
  ghost predicate Routed(q: Request, c: ProxyConfig, c': ProxyConfig)
    requires Resolved(q) && q.rule.protocol != UDP
  {
    exists name ::
      && Serving(q, c.backends, c'.backends, name)
      && var fe := GenerateFrontendName(if q.rule.protocol == TCP then TCPMode else HTTPMode, q.rule.port);
         var before := RulesOf(c.frontends, fe);
         && OnlyFrontend(c.frontends, c'.frontends, fe)
         && if q.rule.protocol == TCP then
              c'.frontends[fe] != [] &&
              (c'.frontends[fe][0].name == name <==> (forall r :: r in before ==> r.name != name) ||
                                                     before[0].name == name)
            else
              var port, d := q.rule.port, q.domainName.value;
              var key := if SwitchRules.IsDefaultPort(port) then SwitchRules.Key(d)
                         else SwitchRules.CustomKey(port, d);
              RoutedUnlessHidden(before, c'.frontends[fe], key, port, name, d)
  }

  /** Whatever the protocol, where a rule is staged what it is about is routed to what it asks for. */
  lemma StagedRoutes(q: Request, restrictedPorts: seq<int>, c: ProxyConfig)
    requires Resolved(q) && RowOk(q.rule) && WellKept(c) && Staged(q, restrictedPorts, c).Some?
    ensures q.rule.protocol != UDP && Routed(q, c, Staged(q, restrictedPorts, c).value)
  {
    assert q.rule.protocol != UDP;
    var name;
    hide Staged, Serving, OnlyFrontend, RoutedUnlessHidden, GenerateFrontendName, Named;
    if q.rule.protocol == TCP {
      name := StagedTcpRuleRoutes(q, restrictedPorts, c);
    } else if SwitchRules.IsDefaultPort(q.rule.port) {
      name := StagedRuleRoutes(q, restrictedPorts, c);
    } else {
      name := StagedCustomRuleRoutes(q, restrictedPorts, c);
    }
  }
}
