/** The ingress and redirect rules in the database, and which of them exclude each other
    (swiftwave_service/core/ingress_rule.operations.go, redirect_rule.oprations.go). */
module RuleTables {
  import opened Wrappers

  datatype Protocol = HTTP | HTTPS | TCP | UDP

  datatype Status = Pending | Applied | Failed | Deleting

  datatype Target = ApplicationTarget(applicationId: Option<string>) | ExternalTarget(service: string)

  datatype IngressRule = IngressRule(domainId: Option<nat>, protocol: Protocol, port: int, target: Target,
      httpsRedirect: bool, status: Status)

  datatype RedirectRule = RedirectRule(domainId: nat, protocol: Protocol, redirectUrl: string, status: Status)

  /** Rows by primary key; keys grow. */
  datatype Tables = Tables(ingress: map<nat, IngressRule>, redirects: map<nat, RedirectRule>, nextId: nat,
      domains: set<nat>, applications: set<string>)

  datatype Error =
    | PortNotAllowed | DomainRequired | PortRestricted | NoSuchDomain | InvalidApplication | NoSuchRule
    | SameDomainAndPort | SamePort | RedirectRuleExists | IngressRuleExists
    | HttpsRedirectEnabled | InvalidProtocol | AlreadyDeleting

  predicate Web(p: Protocol) { p == HTTP || p == HTTPS }

  predicate IsHttp80(a: IngressRule) { a.protocol == HTTP && a.port == 80 }

  // ------------------------------------------------------------------
  // Exclusivity
  // ------------------------------------------------------------------

  predicate RowOk(a: IngressRule) {
    && (a.protocol == HTTPS ==> a.port == 443)
    && (a.protocol == HTTP ==> a.port != 443)
    && (!Web(a.protocol) ==> a.port != 80 && a.port != 443)
    && (Web(a.protocol) ==> a.domainId.Some?)
    && (a.httpsRedirect ==> a.protocol == HTTPS)
  }

  /** Two ingress rules that may not both exist. */
  predicate Collide(a: IngressRule, b: IngressRule) {
    || (Web(a.protocol) && Web(b.protocol) && a.domainId == b.domainId && a.port == b.port)
    || (!Web(a.protocol) && a.protocol == b.protocol && a.port == b.port)
    || (a.domainId == b.domainId && ((IsHttp80(a) && b.httpsRedirect) || (IsHttp80(b) && a.httpsRedirect)))
  }

  /** An ingress rule and a redirect rule that answer for the same domain and port. */
  predicate Overlap(a: IngressRule, r: RedirectRule) {
    a.domainId == Some(r.domainId) &&
    (if r.protocol == HTTP then IsHttp80(a) || a.httpsRedirect else a.protocol == HTTPS)
  }

  ghost predicate Inv(t: Tables) {
    && (forall i :: i in t.ingress ==> i < t.nextId && RowOk(t.ingress[i]))
    && (forall k :: k in t.redirects ==> k < t.nextId && Web(t.redirects[k].protocol))
    && (forall i, j :: i in t.ingress && j in t.ingress && i != j ==> !Collide(t.ingress[i], t.ingress[j]))
    && (forall i, k :: i in t.ingress && k in t.redirects ==> !Overlap(t.ingress[i], t.redirects[k]))
    && (forall k, l :: k in t.redirects && l in t.redirects && k != l ==>
          t.redirects[k].domainId != t.redirects[l].domainId || t.redirects[k].protocol != t.redirects[l].protocol)
  }

  predicate HasIngress(t: Tables, p: IngressRule -> bool) {
    exists i :: i in t.ingress && p(t.ingress[i])
  }

  predicate HasRedirect(t: Tables, p: RedirectRule -> bool) {
    exists k :: k in t.redirects && p(t.redirects[k])
  }

  function Http80Of(domainId: Option<nat>): IngressRule -> bool {
    (a: IngressRule) => a.domainId == domainId && IsHttp80(a)
  }

  function HttpsRedirectOf(domainId: Option<nat>): IngressRule -> bool {
    (a: IngressRule) => a.domainId == domainId && a.protocol == HTTPS && a.httpsRedirect
  }

  function RedirectOf(domainId: Option<nat>, protocol: Protocol): RedirectRule -> bool {
    (r: RedirectRule) => Some(r.domainId) == domainId && r.protocol == protocol
  }

  /** What answers plain http requests of a domain is one thing at most: an ingress rule on port 80,
      a redirect rule, or the redirection of its https rule. */
  lemma AtMostOneAnswersHttp(t: Tables, d: nat)
    requires Inv(t)
    ensures !(HasIngress(t, Http80Of(Some(d))) && HasRedirect(t, RedirectOf(Some(d), HTTP)))
    ensures !(HasIngress(t, Http80Of(Some(d))) && HasIngress(t, HttpsRedirectOf(Some(d))))
    ensures !(HasRedirect(t, RedirectOf(Some(d), HTTP)) && HasIngress(t, HttpsRedirectOf(Some(d))))
  {
  }

  // ------------------------------------------------------------------
  // Requests
  // ------------------------------------------------------------------

  /** A request for a rule; what the mapper makes of it has no https redirection. */
  datatype IngressInput = IngressInput(domainId: Option<nat>, protocol: Protocol, port: int, target: Target)

  function FromInput(input: IngressInput): IngressRule {
    IngressRule(if Web(input.protocol) then input.domainId else None, input.protocol, input.port, input.target, false,
        Pending)
  }

  /** Which existing rule stands in the way of a new one. */
  function InTheWayOf(a: IngressRule): IngressRule -> bool {
    (b: IngressRule) =>
      match a.protocol
      case TCP => b.protocol != UDP && b.port == a.port
      case UDP => b.protocol == UDP && b.port == a.port
      case _ => b.domainId == a.domainId && b.port == a.port
  }

  predicate Admissible(t: Tables, a: IngressRule, restrictedPorts: seq<int>) {
    && RowOk(a.(httpsRedirect := false))
    && a.port !in restrictedPorts
    && (a.domainId.Some? ==> a.domainId.value in t.domains)
    && (a.target.ApplicationTarget? ==> a.target.applicationId.Some? && a.target.applicationId.value in t.applications)
    && !HasIngress(t, InTheWayOf(a))
    && (IsHttp80(a) || a.protocol == HTTPS ==> !HasRedirect(t, RedirectOf(a.domainId, a.protocol)))
    && (IsHttp80(a) ==> !HasIngress(t, HttpsRedirectOf(a.domainId)))
  }

  predicate RedirectAdmissible(t: Tables, r: RedirectRule) {
    && r.domainId in t.domains && Web(r.protocol)
    && !HasIngress(t, (a: IngressRule) => a.domainId == Some(r.domainId) && a.protocol == r.protocol && a.port ==
        if r.protocol == HTTP then 80 else 443)
    && (r.protocol == HTTP ==> !HasIngress(t, HttpsRedirectOf(Some(r.domainId))))
    && !HasRedirect(t, RedirectOf(Some(r.domainId), r.protocol))
  }

  /** ValidateForHttpsRedirectEnableRequest */
  predicate MayEnableHttpsRedirect(t: Tables, a: IngressRule) {
    && a.status != Deleting && a.protocol == HTTPS
    && !HasIngress(t, Http80Of(a.domainId))
    && !HasRedirect(t, RedirectOf(a.domainId, HTTP))
  }

  datatype Op =
    | CreateIngress(input: IngressInput, restrictedPorts: seq<int>)
    | DeleteIngress(id: nat, force: bool)
    | SetIngressStatus(id: nat, status: Status)
      /** The worker's update: the rule must be an https rule that is not being deleted. */
    | SetHttpsRedirect(id: nat, enabled: bool)
    | CreateRedirect(domainId: nat, protocol: Protocol, redirectUrl: string)
    | DeleteRedirect(id: nat, force: bool)
    | SetRedirectStatus(id: nat, status: Status)
      /** Domains and applications come and go. */
    | Elsewhere(domains: set<nat>, applications: set<string>)

  function InsertIngress(t: Tables, a: IngressRule): Tables {
    t.(ingress := t.ingress[t.nextId := a], nextId := t.nextId + 1)
  }

  function InsertRedirect(t: Tables, r: RedirectRule): Tables {
    t.(redirects := t.redirects[t.nextId := r], nextId := t.nextId + 1)
  }

  function WithIngress(t: Tables, id: nat, a: IngressRule): Tables {
    t.(ingress := t.ingress[id := a])
  }

  function Next(t: Tables, op: Op): Tables {
    match op
    case CreateIngress(input, restricted) =>
      if Admissible(t, FromInput(input), restricted) then InsertIngress(t, FromInput(input)) else t
    case DeleteIngress(id, force) =>
      if id !in t.ingress then t
      else if force then t.(ingress := t.ingress - {id})
      else WithIngress(t, id, t.ingress[id].(status := Deleting))
    case SetIngressStatus(id, status) =>
      if id in t.ingress then WithIngress(t, id, t.ingress[id].(status := status)) else t
    case SetHttpsRedirect(id, enabled) =>
      if Toggles(t, id) then WithIngress(t, id, t.ingress[id].(httpsRedirect := enabled)) else t
    case CreateRedirect(d, p, url) =>
      var r := RedirectRule(d, p, url, Pending);
      if RedirectAdmissible(t, r) then InsertRedirect(t, r) else t
    case DeleteRedirect(id, force) =>
      if id !in t.redirects then t
      else if force then t.(redirects := t.redirects - {id})
      else t.(redirects := t.redirects[id := t.redirects[id].(status := Deleting)])
    case SetRedirectStatus(id, status) =>
      if id in t.redirects then t.(redirects := t.redirects[id := t.redirects[id].(status := status)]) else t
    case Elsewhere(domains, applications) => t.(domains := domains, applications := applications)
  }

  predicate Toggles(t: Tables, id: nat) {
    id in t.ingress && t.ingress[id].status != Deleting && t.ingress[id].protocol == HTTPS
  }

  // ------------------------------------------------------------------
  // One step
  // ------------------------------------------------------------------

  lemma InsertIngressKeeps(t: Tables, a: IngressRule, restrictedPorts: seq<int>)
    requires Inv(t) && Admissible(t, a, restrictedPorts) && !a.httpsRedirect
    ensures Inv(InsertIngress(t, a))
  {
    forall i | i in t.ingress ensures !Collide(t.ingress[i], a) && !Collide(a, t.ingress[i]) {
      var b := t.ingress[i];
      assert !InTheWayOf(a)(b);
      assert IsHttp80(a) ==> !HttpsRedirectOf(a.domainId)(b);
    }
    forall k | k in t.redirects ensures !Overlap(a, t.redirects[k]) {
      assert IsHttp80(a) || a.protocol == HTTPS ==> !RedirectOf(a.domainId, a.protocol)(t.redirects[k]);
    }
  }

  lemma InsertRedirectKeeps(t: Tables, r: RedirectRule)
    requires Inv(t) && RedirectAdmissible(t, r)
    ensures Inv(InsertRedirect(t, r))
  {
    forall i | i in t.ingress ensures !Overlap(t.ingress[i], r) {
      var a := t.ingress[i];
      assert r.protocol == HTTP ==> !HttpsRedirectOf(Some(r.domainId))(a);
    }
    forall k | k in t.redirects
      ensures t.redirects[k].domainId != r.domainId || t.redirects[k].protocol != r.protocol
    {
      assert !RedirectOf(Some(r.domainId), r.protocol)(t.redirects[k]);
    }
  }

  /** Switching the redirection of an https rule keeps exclusivity exactly when it is switched off or
      the enabling check still holds at that moment. */
  lemma ToggleKeepsIffStillAllowed(t: Tables, id: nat, enabled: bool)
    requires Inv(t) && Toggles(t, id)
    ensures Inv(Next(t, SetHttpsRedirect(id, enabled))) <==> (enabled ==> MayEnableHttpsRedirect(t, t.ingress[id]))
  {
    var a, t' := t.ingress[id], Next(t, SetHttpsRedirect(id, enabled));
    if enabled && HasIngress(t, Http80Of(a.domainId)) {
      var i :| i in t.ingress && Http80Of(a.domainId)(t.ingress[i]);
      assert i != id && Collide(t'.ingress[i], t'.ingress[id]);
    } else if enabled && HasRedirect(t, RedirectOf(a.domainId, HTTP)) {
      var k :| k in t.redirects && RedirectOf(a.domainId, HTTP)(t.redirects[k]);
      assert Overlap(t'.ingress[id], t'.redirects[k]);
    } else {
      ToggleKeeps(t, id, enabled);
    }
  }

  lemma ToggleKeeps(t: Tables, id: nat, enabled: bool)
    requires Inv(t) && Toggles(t, id) && (enabled ==> MayEnableHttpsRedirect(t, t.ingress[id]))
    ensures Inv(Next(t, SetHttpsRedirect(id, enabled)))
  {
    var a := t.ingress[id];
    var a' := a.(httpsRedirect := enabled);
    forall j | j in t.ingress && j != id ensures !Collide(t.ingress[j], a') && !Collide(a', t.ingress[j]) {
      assert !Collide(t.ingress[j], a) && (enabled ==> !Http80Of(a.domainId)(t.ingress[j]));
    }
    forall k | k in t.redirects ensures !Overlap(a', t.redirects[k]) {
      assert !Overlap(a, t.redirects[k]) && (enabled ==> !RedirectOf(a.domainId, HTTP)(t.redirects[k]));
    }
  }

  /** Every operation keeps exclusivity, except switching an https redirection on too late. */
  predicate Timely(t: Tables, op: Op) {
    op.SetHttpsRedirect? && op.enabled && Toggles(t, op.id) ==> MayEnableHttpsRedirect(t, t.ingress[op.id])
  }

  lemma NextKeepsIffTimely(t: Tables, op: Op)
    requires Inv(t)
    ensures Inv(Next(t, op)) <==> Timely(t, op)
  {
    match op
    case CreateIngress(input, restricted) =>
      if Admissible(t, FromInput(input), restricted) {
        InsertIngressKeeps(t, FromInput(input), restricted);
      }
    case SetHttpsRedirect(id, enabled) =>
      if Toggles(t, id) {
        ToggleKeepsIffStillAllowed(t, id, enabled);
      }
    case CreateRedirect(d, p, url) =>
      if RedirectAdmissible(t, RedirectRule(d, p, url, Pending)) {
        InsertRedirectKeeps(t, RedirectRule(d, p, url, Pending));
      }
    case _ => ChangesNothingThatMatters(t, op);
  }

  lemma ChangesNothingThatMatters(t: Tables, op: Op)
    requires Inv(t) && !op.CreateIngress? && !op.SetHttpsRedirect? && !op.CreateRedirect?
    ensures Inv(Next(t, op))
  {
    FewerRules(t, op);
    hide *;
    FewerRulesKeep(t, Next(t, op));
  }

  lemma FewerRules(t: Tables, op: Op)
    requires !op.CreateIngress? && !op.SetHttpsRedirect? && !op.CreateRedirect?
    ensures var t' := Next(t, op);
            && t'.nextId == t.nextId
            && (forall i :: i in t'.ingress ==>
                  i in t.ingress && t'.ingress[i] == t.ingress[i].(status := t'.ingress[i].status))
            && (forall k :: k in t'.redirects ==>
                  k in t.redirects && t'.redirects[k] == t.redirects[k].(status := t'.redirects[k].status))
  {
  }

  lemma FewerRulesKeep(t: Tables, t': Tables)
    requires Inv(t) && t'.nextId == t.nextId
    requires forall i :: i in t'.ingress ==>
               i in t.ingress && t'.ingress[i] == t.ingress[i].(status := t'.ingress[i].status)
    requires forall k :: k in t'.redirects ==>
               k in t.redirects && t'.redirects[k] == t.redirects[k].(status := t'.redirects[k].status)
    ensures Inv(t')
  {
    forall i, j | i in t'.ingress && j in t'.ingress && i != j ensures !Collide(t'.ingress[i], t'.ingress[j]) {
      assert !Collide(t.ingress[i], t.ingress[j]);
    }
    forall i, k | i in t'.ingress && k in t'.redirects ensures !Overlap(t'.ingress[i], t'.redirects[k]) {
      assert !Overlap(t.ingress[i], t.redirects[k]);
    }
    hide Collide, Overlap;
  }

  // ------------------------------------------------------------------
  // Whole runs
  // ------------------------------------------------------------------

  ghost predicate InvThroughout(t: Tables, ops: seq<Op>)
    decreases |ops|
  {
    Inv(t) && (ops == [] || InvThroughout(Next(t, ops[0]), ops[1..]))
  }

  predicate AllTimely(t: Tables, ops: seq<Op>)
    decreases |ops|
  {
    ops == [] || (Timely(t, ops[0]) && AllTimely(Next(t, ops[0]), ops[1..]))
  }

  /** Over every run, exclusivity holds at every moment exactly when each https redirection that is
      switched on passes its check at the moment of the update. */
  lemma {:induction false} ExclusiveIffTimely(t: Tables, ops: seq<Op>)
    requires Inv(t)
    ensures InvThroughout(t, ops) <==> AllTimely(t, ops)
    decreases |ops|
  {
    if ops != [] {
      NextKeepsIffTimely(t, ops[0]);
      hide Next, Timely, Inv;
      var t' := Next(t, ops[0]);
      if Timely(t, ops[0]) {
        ExclusiveIffTimely(t', ops[1..]);
      }
    }
  }

  // ------------------------------------------------------------------
  // Nothing is refused without need
  // ------------------------------------------------------------------

  /** Rules that are not for the web have no domain, as they come from the mapper. */
  ghost predicate DomainsOfWebOnly(t: Tables) {
    forall i :: i in t.ingress && !Web(t.ingress[i].protocol) ==> t.ingress[i].domainId == None
  }

  lemma NextKeepsDomains(t: Tables, op: Op)
    requires DomainsOfWebOnly(t)
    ensures DomainsOfWebOnly(Next(t, op))
  {
    hide Admissible, RedirectAdmissible;
  }

  ghost predicate TcpMeetsWeb(t: Tables, a: IngressRule) {
    a.protocol == TCP && exists i :: i in t.ingress && Web(t.ingress[i].protocol) && t.ingress[i].port == a.port
  }

  /** A new rule is admissible exactly when its port is not restricted, its domain and its application are
      there, the table keeps all exclusions with it, and it is not a TCP rule on a port of the web. */
  lemma AdmissibleIff(t: Tables, input: IngressInput, restrictedPorts: seq<int>)
    requires Inv(t) && DomainsOfWebOnly(t)
    ensures Admissible(t, FromInput(input), restrictedPorts) <==>
            && input.port !in restrictedPorts
            && (Web(input.protocol) && input.domainId.Some? ==> input.domainId.value in t.domains)
            && (match input.target
                case ApplicationTarget(id) => id.Some? && id.value in t.applications
                case ExternalTarget(_) => true)
            && Inv(InsertIngress(t, FromInput(input)))
            && !TcpMeetsWeb(t, FromInput(input))
  {
    var a := FromInput(input);
    var t' := InsertIngress(t, a);
    if Admissible(t, a, restrictedPorts) {
      InsertIngressKeeps(t, a, restrictedPorts);
      assert forall i :: i in t.ingress ==> !InTheWayOf(a)(t.ingress[i]);
    }
    if Inv(t') && !TcpMeetsWeb(t, a) {
      assert t.nextId in t'.ingress && t'.ingress[t.nextId] == a && RowOk(a);
      assert a.(httpsRedirect := false) == a;
      NothingInTheWayThen(t, a);
    }
  }

  lemma NothingInTheWayThen(t: Tables, a: IngressRule)
    requires Inv(t) && DomainsOfWebOnly(t) && Inv(InsertIngress(t, a)) && !TcpMeetsWeb(t, a) && !a.httpsRedirect
    ensures !HasIngress(t, InTheWayOf(a))
    ensures IsHttp80(a) || a.protocol == HTTPS ==> !HasRedirect(t, RedirectOf(a.domainId, a.protocol))
    ensures IsHttp80(a) ==> !HasIngress(t, HttpsRedirectOf(a.domainId))
  {
    var t' := InsertIngress(t, a);
    var n := t.nextId;
    assert n in t'.ingress && t'.ingress[n] == a && RowOk(a);
    forall i | i in t.ingress
      ensures !InTheWayOf(a)(t.ingress[i]) && (IsHttp80(a) ==> !HttpsRedirectOf(a.domainId)(t.ingress[i]))
    {
      assert i != n && t'.ingress[i] == t.ingress[i] && !Collide(t'.ingress[i], t'.ingress[n]);
    }
    forall k | k in t.redirects
      ensures IsHttp80(a) || a.protocol == HTTPS ==> !RedirectOf(a.domainId, a.protocol)(t.redirects[k])
    {
      assert !Overlap(t'.ingress[n], t'.redirects[k]);
    }
  }

  /** A redirect rule is admissible exactly when its domain is there and the table keeps all exclusions
      with it. */
  lemma RedirectAdmissibleIff(t: Tables, r: RedirectRule)
    requires Inv(t)
    ensures RedirectAdmissible(t, r) <==> r.domainId in t.domains && Inv(InsertRedirect(t, r))
  {
    var t', n := InsertRedirect(t, r), t.nextId;
    if RedirectAdmissible(t, r) {
      InsertRedirectKeeps(t, r);
    }
    if Inv(t') {
      assert n in t'.redirects && t'.redirects[n] == r;
      forall i | i in t.ingress ensures !Overlap(t.ingress[i], r) && RowOk(t.ingress[i]) {
        assert !Overlap(t'.ingress[i], t'.redirects[n]);
      }
      forall k | k in t.redirects ensures !RedirectOf(Some(r.domainId), r.protocol)(t.redirects[k]) {
        assert k != n && t'.redirects[k] == t.redirects[k];
      }
    }
  }

  /** The check is made when the request is accepted and the update by a worker later: an http rule
      created for the domain in between is then answered twice. */
  lemma LateEnableBreaks(t: Tables, id: nat, input: IngressInput, restrictedPorts: seq<int>)
    requires Inv(t) && Toggles(t, id) && MayEnableHttpsRedirect(t, t.ingress[id])
    requires FromInput(input).domainId == t.ingress[id].domainId && IsHttp80(FromInput(input))
    requires Admissible(t, FromInput(input), restrictedPorts)
    ensures !InvThroughout(t, [CreateIngress(input, restrictedPorts), SetHttpsRedirect(id, true)])
  {
    var ops := [CreateIngress(input, restrictedPorts), SetHttpsRedirect(id, true)];
    var t' := InsertIngress(t, FromInput(input));
    assert Http80Of(t.ingress[id].domainId)(t'.ingress[t.nextId]);
    InsertIngressKeeps(t, FromInput(input), restrictedPorts);
    ToggleKeepsIffStillAllowed(t', id, true);
    hide Inv, Admissible, Toggles;
    assert ops[1..] == [ops[1]] && !Inv(Next(t', ops[1]));
    assert InvThroughout(t, ops) ==> InvThroughout(t', ops[1..]);
    assert InvThroughout(t', ops[1..]) ==> InvThroughout(Next(t', ops[1]), ops[1..][1..]);
  }

  /** There are such tables. */
  lemma LateEnableHappens()
    ensures var t := Tables(map[0 := IngressRule(Some(0), HTTPS, 443, ExternalTarget("s"), false, Applied)], map[], 1,
              {0}, {});
            var input := IngressInput(Some(0), HTTP, 80, ExternalTarget("s"));
            Inv(t) && Toggles(t, 0) && MayEnableHttpsRedirect(t, t.ingress[0]) && Admissible(t, FromInput(input), [])
  {
  }

  // ------------------------------------------------------------------
  // Ports shared by HTTP and TCP rules
  // ------------------------------------------------------------------

  ghost predicate PortsExclusive(t: Tables) {
    forall i, j :: i in t.ingress && j in t.ingress && t.ingress[i].protocol == TCP && Web(t.ingress[j].protocol) ==>
                     t.ingress[i].port != t.ingress[j].port
  }

  function TcpOn(port: int): IngressRule -> bool {
    (a: IngressRule) => a.protocol == TCP && a.port == port
  }

  /** Creation does not keep HTTP and TCP rules apart: it does so exactly when the new rule is not an
      HTTP one on the port of a TCP rule. */
  lemma CreateKeepsPortsIff(t: Tables, input: IngressInput, restrictedPorts: seq<int>)
    requires Inv(t) && PortsExclusive(t) && Admissible(t, FromInput(input), restrictedPorts)
    ensures PortsExclusive(Next(t, CreateIngress(input, restrictedPorts))) <==>
              !(Web(input.protocol) && HasIngress(t, TcpOn(input.port)))
  {
    var a := FromInput(input);
    var t' := InsertIngress(t, a);
    if Web(a.protocol) && HasIngress(t, TcpOn(a.port)) {
      var i :| i in t.ingress && TcpOn(a.port)(t.ingress[i]);
      assert t'.ingress[i].port == t'.ingress[t.nextId].port;
    } else {
      forall i | i in t.ingress
        ensures a.protocol == TCP && Web(t.ingress[i].protocol) ==> a.port != t.ingress[i].port
        ensures Web(a.protocol) && t.ingress[i].protocol == TCP ==> a.port != t.ingress[i].port
      {
        assert !InTheWayOf(a)(t.ingress[i]) && (Web(a.protocol) ==> !TcpOn(a.port)(t.ingress[i]));
      }
    }
  }

  /** An HTTP rule is accepted on the port of a TCP rule. */
  lemma HttpOnATcpPort()
    ensures exists t: Tables, input: IngressInput ::
              Inv(t) && PortsExclusive(t) && Admissible(t, FromInput(input), []) &&
                  !PortsExclusive(Next(t, CreateIngress(input, [])))
  {
    var tcp := IngressRule(None, TCP, 8080, ExternalTarget("s"), false, Applied);
    var t := Tables(map[0 := tcp], map[], 1, {0}, {});
    var input := IngressInput(Some(0), HTTP, 8080, ExternalTarget("s"));
    assert Admissible(t, FromInput(input), []);
    assert TcpOn(8080)(t.ingress[0]);
    CreateKeepsPortsIff(t, input, []);
  }

  // ------------------------------------------------------------------
  // The tables in place
  // ------------------------------------------------------------------

  class RuleStore {
    var ingress: map<nat, IngressRule>
    var redirects: map<nat, RedirectRule>
    var nextId: nat
    var domains: set<nat>
    var applications: set<string>

    ghost function Rows(): Tables reads this {
      Tables(ingress, redirects, nextId, domains, applications)
    }

    constructor ()
      ensures Rows() == Tables(map[], map[], 0, {}, {}) && Inv(Rows())
    {
      ingress, redirects, nextId, domains, applications := map[], map[], 0, {}, {};
    }

    method IsValidNewIngressRule(a: IngressRule, restrictedPorts: seq<int>) returns (r: Result<(), Error>)
      ensures r.Ok? <==> Admissible(Rows(), a, restrictedPorts)
      ensures r == Err(PortRestricted) <==> RowOk(a.(httpsRedirect := false)) && a.port in restrictedPorts
      ensures r == Err(PortNotAllowed) || r == Err(DomainRequired) <==> !RowOk(a.(httpsRedirect := false))
    {
      if a.protocol == TCP || a.protocol == UDP {
        if a.port == 80 || a.port == 443 {
          return Err(PortNotAllowed);
        }
      }
      if a.protocol == HTTPS && a.port == 80 {
        return Err(PortNotAllowed);
      }
      if a.protocol == HTTP && a.port == 443 {
        return Err(PortNotAllowed);
      }
      if a.protocol == HTTPS && a.port != 443 {
        return Err(PortNotAllowed);
      }
      if a.protocol == HTTP || a.protocol == HTTPS {
        if a.domainId == None {
          return Err(DomainRequired);
        }
      }
      for i := 0 to |restrictedPorts|
        invariant a.port !in restrictedPorts[..i]
      {
        if a.port == restrictedPorts[i] {
          return Err(PortRestricted);
        }
      }
      if a.domainId.Some? && a.domainId.value !in domains {
        return Err(NoSuchDomain);
      }
      if a.target.ApplicationTarget? {
        if a.target.applicationId == None || a.target.applicationId.value !in applications {
          return Err(InvalidApplication);
        }
      }
      r := NothingInTheWay(a);
    }

    /** The checks against the rows. */
    method NothingInTheWay(a: IngressRule) returns (r: Result<(), Error>)
      ensures r.Err? ==> r.error in {SameDomainAndPort, SamePort, RedirectRuleExists, HttpsRedirectEnabled}
      ensures r.Ok? <==>
              && !HasIngress(Rows(), InTheWayOf(a))
              && (IsHttp80(a) || a.protocol == HTTPS ==> !HasRedirect(Rows(), RedirectOf(a.domainId, a.protocol)))
              && (IsHttp80(a) ==> !HasIngress(Rows(), HttpsRedirectOf(a.domainId)))
    {
      hide IsHttp80;
      if a.protocol == HTTP || a.protocol == HTTPS {
        if exists i :: i in ingress && ingress[i].domainId == a.domainId && ingress[i].port == a.port {
          assert HasIngress(Rows(), InTheWayOf(a));
          return Err(SameDomainAndPort);
        }
      } else if a.protocol == TCP {
        var isTcp := exists i :: i in ingress && ingress[i].protocol == TCP && ingress[i].port == a.port;
        var isHttp := exists i :: i in ingress && ingress[i].protocol == HTTP && ingress[i].port == a.port;
        var isHttps := exists i :: i in ingress && ingress[i].protocol == HTTPS && ingress[i].port == a.port;
        if isTcp || isHttp || isHttps {
          assert HasIngress(Rows(), InTheWayOf(a));
          return Err(SamePort);
        }
      } else {
        if exists i :: i in ingress && ingress[i].protocol == UDP && ingress[i].port == a.port {
          assert HasIngress(Rows(), InTheWayOf(a));
          return Err(SamePort);
        }
      }
      assert !HasIngress(Rows(), InTheWayOf(a));
      if IsHttp80(a) || a.protocol == HTTPS {
        if exists k :: k in redirects && Some(redirects[k].domainId) == a.domainId &&
            redirects[k].protocol == a.protocol {
          assert HasRedirect(Rows(), RedirectOf(a.domainId, a.protocol));
          return Err(RedirectRuleExists);
        }
      }
      if IsHttp80(a) {
        if exists i :: i in ingress && ingress[i].domainId == a.domainId && ingress[i].protocol == HTTPS &&
            ingress[i].httpsRedirect {
          assert HasIngress(Rows(), HttpsRedirectOf(a.domainId));
          return Err(HttpsRedirectEnabled);
        }
      }
      return Ok(());
    }

    method CreateIngressRule(input: IngressInput, restrictedPorts: seq<int>) returns (r: Result<nat, Error>)
      modifies this
      ensures Rows() == Next(old(Rows()), CreateIngress(input, restrictedPorts))
      ensures r.Ok? <==> Admissible(old(Rows()), FromInput(input), restrictedPorts)
      ensures r.Ok? ==> r.value == old(nextId) && r.value in ingress && ingress[r.value] == FromInput(input)
      ensures r.Ok? ==>
                var a := ingress[r.value];
                && a.protocol == input.protocol && a.port == input.port && a.target == input.target
                && a.domainId == (if Web(input.protocol) then input.domainId else None)
                && !a.httpsRedirect && a.status == Pending
      ensures ingress == if r.Ok? then old(ingress)[r.value := ingress[r.value]] else old(ingress)
      ensures redirects == old(redirects)
      ensures Inv(old(Rows())) ==> Inv(Rows())
    {
      ghost var before := Rows();
      var checked := IsValidNewIngressRule(FromInput(input), restrictedPorts);
      NextKeeps(before, CreateIngress(input, restrictedPorts));
      if checked.Err? {
        return Err(checked.error);
      }
      ingress, nextId := ingress[nextId := FromInput(input)], nextId + 1;
      return Ok(nextId - 1);
    }

    method DeleteIngressRule(id: nat, force: bool) returns (r: Result<(), Error>)
      modifies this`ingress
      ensures r.Ok? <==> id in old(ingress) && (force || old(ingress[id]).status != Deleting)
      ensures ingress == if r.Err? then old(ingress)
                         else if force then old(ingress) - {id}
                         else old(ingress)[id := old(ingress[id]).(status := Deleting)]
      ensures Rows() == Next(old(Rows()), DeleteIngress(id, force))
      ensures Inv(old(Rows())) ==> Inv(Rows())
    {
      NextKeeps(Rows(), DeleteIngress(id, force));
      if id !in ingress {
        return Err(NoSuchRule);
      }
      if !force {
        if ingress[id].status == Deleting {
          assert ingress == ingress[id := ingress[id].(status := Deleting)];
          return Err(AlreadyDeleting);
        }
        ingress := ingress[id := ingress[id].(status := Deleting)];
      } else {
        ingress := ingress - {id};
      }
      return Ok(());
    }

    method UpdateIngressStatus(id: nat, status: Status)
      modifies this`ingress
      ensures Rows() == Next(old(Rows()), SetIngressStatus(id, status))
      ensures ingress == if id in old(ingress) then old(ingress)[id := old(ingress[id]).(status := status)]
                         else old(ingress)
      ensures Inv(old(Rows())) ==> Inv(Rows())
    {
      NextKeeps(Rows(), SetIngressStatus(id, status));
      if id in ingress {
        ingress := ingress[id := ingress[id].(status := status)];
      }
    }

    method ValidateForHttpsRedirectEnableRequest(a: IngressRule) returns (valid: bool)
      ensures valid <==> MayEnableHttpsRedirect(Rows(), a)
    {
      if a.status == Deleting {
        return false;
      }
      if a.protocol != HTTPS {
        return false;
      }
      if exists i :: i in ingress && ingress[i].domainId == a.domainId && ingress[i].port == 80 &&
          ingress[i].protocol == HTTP {
        assert HasIngress(Rows(), Http80Of(a.domainId));
        return false;
      }
      if exists k :: k in redirects && Some(redirects[k].domainId) == a.domainId && redirects[k].protocol == HTTP {
        assert HasRedirect(Rows(), RedirectOf(a.domainId, HTTP));
        return false;
      }
      return true;
    }

    /** The worker's part: no check against other rows any more. */
    method UpdateHttpsRedirectStatus(id: nat, enabled: bool)
      modifies this`ingress
      ensures Rows() == Next(old(Rows()), SetHttpsRedirect(id, enabled))
      ensures ingress == if id in old(ingress) && old(ingress[id]).status != Deleting &&
                              old(ingress[id]).protocol == HTTPS
                         then old(ingress)[id := old(ingress[id]).(httpsRedirect := enabled)]
                         else old(ingress)
      ensures Inv(old(Rows())) ==> (Inv(Rows()) <==> Timely(old(Rows()), SetHttpsRedirect(id, enabled)))
    {
      ghost var before := Rows();
      if id in ingress && ingress[id].status != Deleting && ingress[id].protocol == HTTPS {
        ingress := ingress[id := ingress[id].(httpsRedirect := enabled)];
      }
      if Inv(before) {
        NextKeepsIffTimely(before, SetHttpsRedirect(id, enabled));
      }
    }

    method CreateRedirectRule(domainId: nat, protocol: Protocol, redirectUrl: string) returns (r: Result<nat, Error>)
      modifies this
      ensures Rows() == Next(old(Rows()), CreateRedirect(domainId, protocol, redirectUrl))
      ensures r.Ok? <==> RedirectAdmissible(old(Rows()), RedirectRule(domainId, protocol, redirectUrl, Pending))
      ensures r.Ok? ==>
                r.value == old(nextId) && r.value in redirects &&
                redirects[r.value] == RedirectRule(domainId, protocol, redirectUrl, Pending)
      ensures redirects == if r.Ok? then old(redirects)[r.value := redirects[r.value]] else old(redirects)
      ensures ingress == old(ingress)
      ensures Inv(old(Rows())) ==> Inv(Rows())
    {
      ghost var before := Rows();
      NextKeeps(before, CreateRedirect(domainId, protocol, redirectUrl));
      if domainId !in domains {
        return Err(NoSuchDomain);
      }
      if protocol != HTTP && protocol != HTTPS {
        return Err(InvalidProtocol);
      }
      var isIngressRuleExist := false;
      if protocol == HTTP {
        isIngressRuleExist := exists i ::
            i in ingress && ingress[i].domainId == Some(domainId) &&
            ingress[i].protocol == protocol && ingress[i].port == 80;
        if !isIngressRuleExist {
          if exists i :: i in ingress && ingress[i].domainId == Some(domainId) && ingress[i].protocol == HTTPS &&
              ingress[i].httpsRedirect {
            assert HasIngress(before, HttpsRedirectOf(Some(domainId)));
            return Err(HttpsRedirectEnabled);
          }
        }
      } else if protocol == HTTPS {
        isIngressRuleExist := exists i ::
            i in ingress && ingress[i].domainId == Some(domainId) &&
            ingress[i].protocol == protocol && ingress[i].port == 443;
      }
      if isIngressRuleExist {
        return Err(IngressRuleExists);
      }
      if exists k :: k in redirects && redirects[k].domainId == domainId && redirects[k].protocol == protocol {
        assert HasRedirect(before, RedirectOf(Some(domainId), protocol));
        return Err(RedirectRuleExists);
      }
      redirects, nextId := redirects[nextId := RedirectRule(domainId, protocol, redirectUrl, Pending)], nextId + 1;
      return Ok(nextId - 1);
    }

    method UpdateRedirectStatus(id: nat, status: Status)
      modifies this`redirects
      ensures Rows() == Next(old(Rows()), SetRedirectStatus(id, status))
      ensures redirects == if id in old(redirects) then old(redirects)[id := old(redirects[id]).(status := status)]
                           else old(redirects)
      ensures Inv(old(Rows())) ==> Inv(Rows())
    {
      NextKeeps(Rows(), SetRedirectStatus(id, status));
      if id in redirects {
        redirects := redirects[id := redirects[id].(status := status)];
      }
    }

    method DeleteRedirectRule(id: nat, force: bool) returns (r: Result<(), Error>)
      modifies this`redirects
      ensures r.Ok? <==> id in old(redirects) && (force || old(redirects[id]).status != Deleting)
      ensures redirects == if r.Err? then old(redirects)
                           else if force then old(redirects) - {id}
                           else old(redirects)[id := old(redirects[id]).(status := Deleting)]
      ensures Rows() == Next(old(Rows()), DeleteRedirect(id, force))
      ensures Inv(old(Rows())) ==> Inv(Rows())
    {
      NextKeeps(Rows(), DeleteRedirect(id, force));
      if id !in redirects {
        return Err(NoSuchRule);
      }
      if !force {
        if redirects[id].status == Deleting {
          assert redirects == redirects[id := redirects[id].(status := Deleting)];
          return Err(AlreadyDeleting);
        }
        redirects := redirects[id := redirects[id].(status := Deleting)];
      } else {
        redirects := redirects - {id};
      }
      return Ok(());
    }
  }

  lemma NextKeeps(t: Tables, op: Op)
    requires !op.SetHttpsRedirect?
    ensures Inv(t) ==> Inv(Next(t, op))
  {
    if Inv(t) {
      NextKeepsIffTimely(t, op);
    }
  }
}
