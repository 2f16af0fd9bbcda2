/** The backend switching rules of haproxy_manager/backend_switch.go, predefined_link.go,
    custom_link.go and frontend.go: ordered rule lists, one per frontend. */
module SwitchRules {
  import opened Wrappers
  import opened Text
  import opened RuleLists
  import opened HaproxyNames

  /** A use_backend rule; its index is its position in the frontend's list. */
  datatype Rule = Rule(name: string, cond: string, condTest: string)

  predicate IsDefaultPort(port: int) { port == 80 || port == 443 }

  function CondTest(port: int, domainName: string): string {
    if IsDefaultPort(port) then HostCondition(TrimSpace(domainName))
    else HostCondition(TrimSpace(domainName) + ":" + Itoa(port))
  }

  function NewRule(mode: ListenerMode, port: int, backendName: string, domainName: string): Rule {
    match mode
    case TCPMode => Rule(backendName, "", "")
    case HTTPMode => Rule(backendName, "if", CondTest(port, domainName))
  }

  /** What FetchBackendSwitchIndex looks for. */
  predicate Matches(r: Rule, mode: ListenerMode, port: int, backendName: string, domainName: string) {
    match mode
    case HTTPMode => r == NewRule(mode, port, backendName, domainName)
    case TCPMode => r.name == backendName
  }

  function Matcher(mode: ListenerMode, port: int, backendName: string, domainName: string): Rule -> bool {
    (r: Rule) => Matches(r, mode, port, backendName, domainName)
  }

  /** New rules go to the front; on the default frontends, behind the reserved rule. */
  function AclIndex(mode: ListenerMode, port: int): nat {
    if mode == HTTPMode && IsDefaultPort(port) then 1 else 0
  }

  /** The list after AddBackendSwitch. */
  function Added(rules: seq<Rule>, mode: ListenerMode, port: int, backendName: string, domainName: string): seq<Rule>
    requires AclIndex(mode, port) <= |rules|
  {
    if FirstIndex(rules, Matcher(mode, port, backendName, domainName)) < |rules| then rules
    else InsertAt(rules, AclIndex(mode, port), NewRule(mode, port, backendName, domainName))
  }

  /** The list after DeleteBackendSwitch. */
  function Deleted(rules: seq<Rule>, mode: ListenerMode, port: int, backendName: string,
      domainName: string): seq<Rule> {
    RemoveFirst(rules, Matcher(mode, port, backendName, domainName))
  }

  // ------------------------------------------------------------------
  // Routing on the default frontends
  // ------------------------------------------------------------------

  function LowerChar(c: char): char {
    if 'A' <= c <= 'Z' then c - 'A' + 'a' else c
  }

  /** `-i` compares hosts without case. */
  function Lower(s: string): string {
    if s == "" then "" else [LowerChar(s[0])] + Lower(s[1..])
  }

  predicate AsksFor(r: Rule, host: string) {
    r.cond == "if" && IsHostCondition(r.condTest) && Lower(HostOf(r.condTest)) == host
  }

  function Asking(host: string): Rule -> bool {
    (r: Rule) => AsksFor(r, host)
  }

  /** The rules that a request for the lower-case `host` can meet, in order. */
  function Bindings(rules: seq<Rule>, host: string): seq<Rule> {
    Project(rules, Asking(host))
  }

  function HeadName(bindings: seq<Rule>): Option<string> {
    if bindings == [] then None else Some(bindings[0].name)
  }

  /** The first rule whose condition holds decides; the reserved rule is not about hosts. */
  function Route(rules: seq<Rule>, host: string): Option<string> {
    var i := FirstIndex(rules, Asking(Lower(host)));
    if i < |rules| then Some(rules[i].name) else None
  }

  predicate IsReserved(r: Rule) {
    !(r.cond == "if" && IsHostCondition(r.condTest))
  }

  lemma {:induction false} RouteIsHead(rules: seq<Rule>, host: string)
    ensures Route(rules, host) == HeadName(Bindings(rules, Lower(host)))
  {
    if rules != [] && !Asking(Lower(host))(rules[0]) {
      RouteIsHead(rules[1..], host);
    }
  }

  /** The key under which a domain is routed. */
  function Key(domainName: string): string { Lower(TrimSpace(domainName)) }

  function Binding(port: int, backendName: string, domainName: string): Rule {
    NewRule(HTTPMode, port, backendName, domainName)
  }

  lemma BindingAsksForKey(port: int, backendName: string, domainName: string, host: string)
    requires IsDefaultPort(port)
    ensures AsksFor(Binding(port, backendName, domainName), host) <==> host == Key(domainName)
  {
    HostOfCondition(TrimSpace(domainName));
  }

  /** A link of one of the two default frontends, added or deleted. */
  datatype Op = Add(backendName: string, domainName: string) | Delete(backendName: string, domainName: string)

  function Apply(rules: seq<Rule>, port: int, op: Op): seq<Rule>
    requires rules != []
  {
    match op
    case Add(b, d) => Added(rules, HTTPMode, port, b, d)
    case Delete(b, d) => Deleted(rules, HTTPMode, port, b, d)
  }

  /** What an operation does to the stack of one host: push, unless it is there already; take out. */
  function ApplyToStack(stack: seq<Rule>, port: int, host: string, op: Op): seq<Rule> {
    if Key(op.domainName) != host then stack
    else
      var x := Binding(port, op.backendName, op.domainName);
      match op
      case Add(_, _) => if x in stack then stack else [x] + stack
      case Delete(_, _) => RemoveFirst(stack, Matcher(HTTPMode, port, op.backendName, op.domainName))
  }

  lemma FirstIndexMeansMember(rules: seq<Rule>, port: int, b: string, d: string)
    ensures FirstIndex(rules, Matcher(HTTPMode, port, b, d)) < |rules| <==> Binding(port, b, d) in rules
  {
    var m := Matcher(HTTPMode, port, b, d);
    if Binding(port, b, d) in rules {
      var k :| 0 <= k < |rules| && rules[k] == Binding(port, b, d);
      assert m(rules[k]);
    }
  }

  /** One operation on the rule list is one operation on the stack of its host, and nothing for
      every other host; the reserved rule stays first. */
  lemma ApplyMovesOneStack(rules: seq<Rule>, port: int, op: Op, host: string)
    requires IsDefaultPort(port) && rules != [] && IsReserved(rules[0])
    ensures Apply(rules, port, op) != [] && Apply(rules, port, op)[0] == rules[0]
    ensures Bindings(Apply(rules, port, op), host) == ApplyToStack(Bindings(rules, host), port, host, op)
  {
    var b, d := op.backendName, op.domainName;
    BindingAsksForKey(port, b, d, host);
    FirstIndexMeansMember(rules, port, b, d);
    match op
    case Add(_, _) => AddMovesOneStack(rules, port, b, d, host);
    case Delete(_, _) => DeleteMovesOneStack(rules, port, b, d, host);
  }

  lemma AddMovesOneStack(rules: seq<Rule>, port: int, b: string, d: string, host: string)
    requires IsDefaultPort(port) && rules != [] && IsReserved(rules[0])
    ensures Added(rules, HTTPMode, port, b, d) != [] && Added(rules, HTTPMode, port, b, d)[0] == rules[0]
    ensures Bindings(Added(rules, HTTPMode, port, b, d), host) ==
            ApplyToStack(Bindings(rules, host), port, host, Add(b, d))
  {
    var x, p := Binding(port, b, d), Asking(host);
    BindingAsksForKey(port, b, d, host);
    FirstIndexMeansMember(rules, port, b, d);
    assert !p(rules[0]);
    ProjectMembers(rules, p);
    ProjectInsert(rules, 1, x, p);
    hide Project, FirstIndex, Matcher;
  }

  lemma DeleteMovesOneStack(rules: seq<Rule>, port: int, b: string, d: string, host: string)
    requires IsDefaultPort(port) && rules != [] && IsReserved(rules[0])
    ensures Deleted(rules, HTTPMode, port, b, d) != [] && Deleted(rules, HTTPMode, port, b, d)[0] == rules[0]
    ensures Bindings(Deleted(rules, HTTPMode, port, b, d), host) ==
            ApplyToStack(Bindings(rules, host), port, host, Delete(b, d))
  {
    var m, p := Matcher(HTTPMode, port, b, d), Asking(host);
    var i := FirstIndex(rules, m);
    BindingAsksForKey(port, b, d, host);
    BindingAsksForKey(port, b, d, Key(d));
    assert !m(rules[0]) && (i < |rules| ==> rules[i] == Binding(port, b, d));
    ProjectRemoveFirst(rules, m, p);
    hide Project;
    if Key(d) != host && i == |rules| {
      RemoveNothing(rules, m);
    }
  }

  // ------------------------------------------------------------------
  // Whole runs
  // ------------------------------------------------------------------

  function Run(rules: seq<Rule>, port: int, ops: seq<Op>): seq<Rule>
    requires IsDefaultPort(port) && rules != [] && IsReserved(rules[0])
    decreases |ops|
  {
    if ops == [] then rules
    else
      ApplyMovesOneStack(rules, port, ops[0], "");
      Run(Apply(rules, port, ops[0]), port, ops[1..])
  }

  /** The stack of one host after a run, computed from that host's operations alone. */
  function StackAfter(stack: seq<Rule>, port: int, host: string, ops: seq<Op>): seq<Rule>
    decreases |ops|
  {
    if ops == [] then stack else StackAfter(ApplyToStack(stack, port, host, ops[0]), port, host, ops[1..])
  }

  /** Over every run, first-match routing follows the stack of the requested host; operations on
      other hosts do not matter, and the reserved rule never moves. */
  lemma {:induction false} RunRoutesByStack(rules: seq<Rule>, port: int, ops: seq<Op>, host: string)
    requires IsDefaultPort(port) && rules != [] && IsReserved(rules[0])
    ensures Run(rules, port, ops) != [] && Run(rules, port, ops)[0] == rules[0]
    ensures Bindings(Run(rules, port, ops), Lower(host)) ==
            StackAfter(Bindings(rules, Lower(host)), port, Lower(host), ops)
    ensures Route(Run(rules, port, ops), host) ==
            HeadName(StackAfter(Bindings(rules, Lower(host)), port, Lower(host), ops))
    decreases |ops|
  {
    RouteIsHead(Run(rules, port, ops), host);
    if ops != [] {
      ApplyMovesOneStack(rules, port, ops[0], Lower(host));
      RunRoutesByStack(Apply(rules, port, ops[0]), port, ops[1..], host);
    }
  }

  // ------------------------------------------------------------------
  // When the list is a map from hosts to backends
  // ------------------------------------------------------------------

  /** Adding a link routes the host to its backend, exactly when the link was not already there
      behind another one. */
  lemma AddIsUpdate(rules: seq<Rule>, port: int, b: string, d: string)
    requires IsDefaultPort(port) && rules != [] && IsReserved(rules[0])
    ensures var stack := Bindings(rules, Key(d));
            HeadName(Bindings(Apply(rules, port, Add(b, d)), Key(d))) == Some(b)
            <==> Binding(port, b, d) !in stack || stack[0].name == b
  {
    ApplyMovesOneStack(rules, port, Add(b, d), Key(d));
  }

  /** Deleting a link leaves the host without a route, exactly when it was the only one. */
  lemma DeleteIsRemoval(rules: seq<Rule>, port: int, b: string, d: string)
    requires IsDefaultPort(port) && rules != [] && IsReserved(rules[0])
    ensures var stack := Bindings(rules, Key(d));
            HeadName(Bindings(Apply(rules, port, Delete(b, d)), Key(d))) == None
            <==> stack == [] || stack == [Binding(port, b, d)]
  {
    ApplyMovesOneStack(rules, port, Delete(b, d), Key(d));
    var stack, m := Bindings(rules, Key(d)), Matcher(HTTPMode, port, b, d);
    var i := FirstIndex(stack, m);
    if i < |stack| {
      assert stack[i] == Binding(port, b, d);
      assert |RemoveFirst(stack, m)| == |stack| - 1;
      if |stack| == 1 {
        assert stack == [stack[0]];
      }
    }
  }

  /** A link per host: what a finite map from hosts to links does. */
  function MapApply(m: map<string, Rule>, port: int, op: Op): map<string, Rule> {
    var k, x := Key(op.domainName), Binding(port, op.backendName, op.domainName);
    match op
    case Add(_, _) => m[k := x]
    case Delete(_, _) => if k in m && m[k] == x then m - {k} else m
  }

  function MapAfter(m: map<string, Rule>, port: int, ops: seq<Op>): map<string, Rule>
    decreases |ops|
  {
    if ops == [] then m else MapAfter(MapApply(m, port, ops[0]), port, ops[1..])
  }

  /** No link is added for a host that has another one. */
  predicate OneLinkPerHost(m: map<string, Rule>, port: int, ops: seq<Op>)
    decreases |ops|
  {
    ops == [] ||
    (&& (ops[0].Add? && Key(ops[0].domainName) in m ==>
           m[Key(ops[0].domainName)] == Binding(port, ops[0].backendName, ops[0].domainName))
     && OneLinkPerHost(MapApply(m, port, ops[0]), port, ops[1..]))
  }

  function StackOf(m: map<string, Rule>, host: string): seq<Rule> {
    if host in m then [m[host]] else []
  }

  lemma {:induction false} StackIsMap(m: map<string, Rule>, port: int, ops: seq<Op>, host: string)
    requires OneLinkPerHost(m, port, ops)
    ensures StackAfter(StackOf(m, host), port, host, ops) == StackOf(MapAfter(m, port, ops), host)
    decreases |ops|
  {
    if ops != [] {
      var op := ops[0];
      var match' := Matcher(HTTPMode, port, op.backendName, op.domainName);
      if Key(op.domainName) == host && op.Delete? && host in m {
        assert StackOf(m, host)[0] == m[host] &&
                 match'(m[host]) == (m[host] == Binding(port, op.backendName, op.domainName));
      }
      assert ApplyToStack(StackOf(m, host), port, host, op) == StackOf(MapApply(m, port, op), host);
      StackIsMap(MapApply(m, port, op), port, ops[1..], host);
    }
  }

  /** With at most one link per host at a time, routing is look-up in a finite map, over every run. */
  lemma RoutingRefinesMap(reserved: Rule, port: int, ops: seq<Op>, host: string)
    requires IsDefaultPort(port) && IsReserved(reserved) && OneLinkPerHost(map[], port, ops)
    ensures var m := MapAfter(map[], port, ops);
            Route(Run([reserved], port, ops), host) == if Lower(host) in m then Some(m[Lower(host)].name) else None
  {
    RunRoutesByStack([reserved], port, ops, host);
    ProjectNone([reserved], Asking(Lower(host)));
    StackIsMap(map[], port, ops, Lower(host));
  }

  // ------------------------------------------------------------------
  // Custom ports
  // ------------------------------------------------------------------

  /** The key under which a domain is routed on a custom HTTP port. */
  function CustomKey(port: int, domainName: string): string {
    Lower(TrimSpace(domainName) + ":" + Itoa(port))
  }

  /** Adding a link on a custom HTTP port routes the host to its backend, exactly when the link was not
      already there behind another one. */
  lemma CustomAddRoutes(rules: seq<Rule>, port: int, b: string, d: string)
    requires !IsDefaultPort(port)
    ensures var stack := Bindings(rules, CustomKey(port, d));
            HeadName(Bindings(Added(rules, HTTPMode, port, b, d), CustomKey(port, d))) == Some(b)
            <==> Binding(port, b, d) !in stack || stack[0].name == b
  {
    var x, p := Binding(port, b, d), Asking(CustomKey(port, d));
    HostOfCondition(TrimSpace(d) + ":" + Itoa(port));
    assert p(x);
    FirstIndexMeansMember(rules, port, b, d);
    ProjectMembers(rules, p);
    ProjectInsert(rules, 0, x, p);
    hide Project, FirstIndex, Matcher, NewRule, Asking;
    assert (x in rules) <==> (x in Bindings(rules, CustomKey(port, d)));
  }

  /** A TCP frontend sends everything to its first rule: to an added link exactly when it was not
      already there behind another one. */
  lemma TcpAddRoutes(rules: seq<Rule>, port: int, b: string, d: string)
    ensures var after := Added(rules, TCPMode, port, b, d);
            && after != []
            && (after[0].name == b <==> (forall r :: r in rules ==> r.name != b) || rules[0].name == b)
            // A new rule has no condition, and comes first.
            && ((forall r :: r in rules ==> r.name != b) ==> after == [Rule(b, "", "")] + rules)
  {
    var i := FirstIndex(rules, Matcher(TCPMode, port, b, d));
    if i < |rules| {
      assert rules[i] in rules;
    }
  }
}
