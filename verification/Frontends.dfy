/** Frontends on custom ports, created by AddTCPLink and destroyed by DeleteTCPLink
    (haproxy_manager/frontend.go, custom_link.go). */
module Frontends {
  import opened Wrappers
  import opened RuleLists
  import opened HaproxyNames
  import opened SwitchRules

  /** The configured frontends by name, each with its switching rules. */
  type Table = map<string, seq<Rule>>

  datatype Error = TcpOnDefaultPort | PortRestricted | HttpModeExists | TcpModeExists | NoSuchFrontend | IndexOutOfRange
                 | TcpNotSupported | NoSuchUserList | DomainRequired | UrlRequired

  datatype Link = Link(backendName: string, port: int, domainName: string, mode: ListenerMode)

  function Name(l: Link): string { GenerateFrontendName(l.mode, l.port) }

  function OtherMode(mode: ListenerMode): ListenerMode {
    match mode case HTTPMode => TCPMode case TCPMode => HTTPMode
  }

  /** AddFrontend */
  function FrontendAdded(fs: Table, mode: ListenerMode, port: int, restrictedPorts: seq<int>): Result<Table, Error> {
    if IsDefaultPort(port) then (if mode == TCPMode then Err(TcpOnDefaultPort) else Ok(fs))
    else if port in restrictedPorts then Err(PortRestricted)
    else if GenerateFrontendName(mode, port) in fs then Ok(fs)
    else if GenerateFrontendName(OtherMode(mode), port) in fs then
      Err(if mode == TCPMode then HttpModeExists else TcpModeExists)
    else Ok(fs[GenerateFrontendName(mode, port) := []])
  }

  /** AddBackendSwitch */
  function SwitchAdded(fs: Table, l: Link): Result<Table, Error> {
    if Name(l) !in fs then Err(NoSuchFrontend)
    else if FirstIndex(fs[Name(l)], Matcher(l.mode, l.port, l.backendName, l.domainName)) < |fs[Name(l)]| then Ok(fs)
    else if AclIndex(l.mode, l.port) > |fs[Name(l)]| then Err(IndexOutOfRange)
    else Ok(fs[Name(l) := Added(fs[Name(l)], l.mode, l.port, l.backendName, l.domainName)])
  }

  /** DeleteBackendSwitch */
  function SwitchDeleted(fs: Table, l: Link): Table {
    if Name(l) !in fs then fs
    else fs[Name(l) := Deleted(fs[Name(l)], l.mode, l.port, l.backendName, l.domainName)]
  }

  /** DeleteFrontend: an http frontend stays while it has rules, a tcp frontend does not. */
  function FrontendDeleted(fs: Table, mode: ListenerMode, port: int): Table {
    var name := GenerateFrontendName(mode, port);
    if IsDefaultPort(port) || name !in fs then fs
    else if mode == HTTPMode && fs[name] != [] then fs
    else fs - {name}
  }

  /** AddTCPLink: what it leaves behind also when it fails. */
  function LinkAdded(fs: Table, l: Link, restrictedPorts: seq<int>): (r: (Result<(), Error>, Table)) {
    match FrontendAdded(fs, l.mode, l.port, restrictedPorts)
    case Err(e) => (Err(e), fs)
    case Ok(fs') =>
      match SwitchAdded(fs', l)
      case Err(e) => (Err(e), fs')
      case Ok(fs'') => (Ok(()), fs'')
  }

  /** DeleteTCPLink */
  function LinkDeleted(fs: Table, l: Link): Table {
    FrontendDeleted(SwitchDeleted(fs, l), l.mode, l.port)
  }

  // ------------------------------------------------------------------
  // The state of a custom port
  // ------------------------------------------------------------------

  /** At most one of the two frontends of a port exists, and none without rules. */
  predicate PortInv(fs: Table, port: int) {
    var h, t := GenerateFrontendName(HTTPMode, port), GenerateFrontendName(TCPMode, port);
    && !(h in fs && t in fs)
    && (h in fs ==> fs[h] != [])
    && (t in fs ==> fs[t] != [])
  }

  lemma NamesDiffer(mode: ListenerMode, port: int, mode': ListenerMode, port': int)
    ensures mode != mode' || port != port' ==> GenerateFrontendName(mode, port) != GenerateFrontendName(mode', port')
  {
    if GenerateFrontendName(mode, port) == GenerateFrontendName(mode', port') {
      FrontendNameInjective(mode, port, mode', port');
    }
  }

  lemma AddKeepsPort(fs: Table, l: Link, restrictedPorts: seq<int>, port: int)
    requires !IsDefaultPort(port) && PortInv(fs, port)
    ensures PortInv(LinkAdded(fs, l, restrictedPorts).1, port)
  {
    NamesDiffer(l.mode, l.port, HTTPMode, port);
    NamesDiffer(l.mode, l.port, TCPMode, port);
    hide GenerateFrontendName, FirstIndex, Matcher, NewRule;
  }

  /** An accepted link is in its list, whatever was there before. */
  lemma AddedLinkIsThere(fs: Table, l: Link, restrictedPorts: seq<int>)
    requires LinkAdded(fs, l, restrictedPorts).0.Ok? && !IsDefaultPort(l.port)
    ensures var fs' := LinkAdded(fs, l, restrictedPorts).1;
            Name(l) in fs' && exists r :: r in fs'[Name(l)] && Matches(r, l.mode, l.port, l.backendName, l.domainName)
  {
    var m := Matcher(l.mode, l.port, l.backendName, l.domainName);
    var rules := LinkAdded(fs, l, restrictedPorts).1[Name(l)];
    assert m(NewRule(l.mode, l.port, l.backendName, l.domainName));
    hide GenerateFrontendName, Matcher, NewRule;
    var i := FirstIndex(rules, m);
    assert m(rules[0]) || i < |rules|;
    assert rules[i] in rules && m(rules[i]);
  }

  /** Which links are accepted: on a custom port those that are not restricted and whose port is not used
      in the other mode, on a default port HTTP ones next to the reserved rule. A refused link leaves
      everything as it was, and an accepted one touches its own frontend only. */
  lemma LinkAcceptedIff(fs: Table, l: Link, restrictedPorts: seq<int>)
    ensures var r, fs' := LinkAdded(fs, l, restrictedPorts).0, LinkAdded(fs, l, restrictedPorts).1;
            && (r.Ok? <==>
                if IsDefaultPort(l.port) then l.mode == HTTPMode && Name(l) in fs && fs[Name(l)] != []
                else
                  l.port !in restrictedPorts &&
                  (Name(l) in fs || GenerateFrontendName(OtherMode(l.mode), l.port) !in fs))
            && (r == Err(TcpOnDefaultPort) <==> IsDefaultPort(l.port) && l.mode == TCPMode)
            && (r == Err(PortRestricted) <==> !IsDefaultPort(l.port) && l.port in restrictedPorts)
            && (r.Err? ==> fs' == fs)
            && (r.Ok? ==> Name(l) in fs' && fs' == fs[Name(l) := fs'[Name(l)]])
  {
    hide GenerateFrontendName, Matcher, NewRule;
    assert Name(l) in fs ==> fs == fs[Name(l) := fs[Name(l)]];
  }

  lemma DeleteKeepsPort(fs: Table, l: Link, port: int)
    requires !IsDefaultPort(port) && PortInv(fs, port)
    ensures PortInv(LinkDeleted(fs, l), port)
  {
    NamesDiffer(l.mode, l.port, HTTPMode, port);
    NamesDiffer(l.mode, l.port, TCPMode, port);
  }

  /** Deleting a link touches no other frontend; on its own, another rule survives exactly when
      the frontend is an http one. */
  lemma DeleteAndOtherRules(fs: Table, l: Link, name: string, r: Rule)
    requires !IsDefaultPort(l.port) && name in fs && r in fs[name]
    requires !Matches(r, l.mode, l.port, l.backendName, l.domainName)
    ensures name in LinkDeleted(fs, l) && r in LinkDeleted(fs, l)[name] <==> name != Name(l) || l.mode == HTTPMode
  {
    if name == Name(l) {
      OthersStay(fs[name], Matcher(l.mode, l.port, l.backendName, l.domainName), r);
    }
    hide Matches, Matcher, FirstIndex, RemoveFirst, GenerateFrontendName;
  }

  lemma OthersStay(rules: seq<Rule>, m: Rule -> bool, r: Rule)
    requires r in rules && !m(r)
    ensures r in RemoveFirst(rules, m)
  {
    var k :| 0 <= k < |rules| && rules[k] == r;
    var i := FirstIndex(rules, m);
    if i < |rules| {
      assert k != i;
      assert RemoveAt(rules, i)[if k < i then k else k - 1] == r;
    }
  }

  // ------------------------------------------------------------------
  // Whole runs
  // ------------------------------------------------------------------

  datatype Op = AddLink(link: Link, restrictedPorts: seq<int>) | DeleteLink(link: Link)

  function Run(fs: Table, ops: seq<Op>): Table
    decreases |ops|
  {
    if ops == [] then fs
    else Run(match ops[0]
             case AddLink(l, restricted) => LinkAdded(fs, l, restricted).1
             case DeleteLink(l) => LinkDeleted(fs, l), ops[1..])
  }

  /** Over every run, the http and the tcp frontend of a custom port never coexist, and a
      frontend exists only with a rule in its list. */
  lemma {:induction false} RunKeepsPorts(fs: Table, ops: seq<Op>, port: int)
    requires !IsDefaultPort(port) && PortInv(fs, port)
    ensures PortInv(Run(fs, ops), port)
    decreases |ops|
  {
    if ops != [] {
      match ops[0]
      case AddLink(l, restricted) =>
        AddKeepsPort(fs, l, restricted, port);
        RunKeepsPorts(LinkAdded(fs, l, restricted).1, ops[1..], port);
      case DeleteLink(l) =>
        DeleteKeepsPort(fs, l, port);
        RunKeepsPorts(LinkDeleted(fs, l), ops[1..], port);
    }
  }

  /** Two services linked to one TCP port, one after the other, share its frontend; deleting the link
      of the first takes the rule of the second along. */
  lemma DeletionTakesTheOther(port: int, b: string, b': string)
    requires !IsDefaultPort(port) && b != b'
    ensures var l, l' := Link(b, port, "", TCPMode), Link(b', port, "", TCPMode);
            var fs := Run(map[], [AddLink(l, []), AddLink(l', [])]);
            Name(l) in fs && fs[Name(l)] == [Rule(b', "", ""), Rule(b, "", "")] && LinkDeleted(fs, l) == map[]
  {
    var l, l' := Link(b, port, "", TCPMode), Link(b', port, "", TCPMode);
    var r, r' := Rule(b, "", ""), Rule(b', "", "");
    var one, two := map[Name(l) := [r]], map[Name(l) := [r', r]];
    FirstOfPort(l);
    SecondOfPort(l, l');
    BothGone(l, l');
    hide *;
    TwoAdded(map[], l, one, l', two);
  }

  lemma TwoAdded(fs: Table, l: Link, one: Table, l': Link, two: Table)
    requires LinkAdded(fs, l, []).1 == one && LinkAdded(one, l', []).1 == two
    ensures Run(fs, [AddLink(l, []), AddLink(l', [])]) == two
  {
    hide LinkAdded;
    var ops := [AddLink(l, []), AddLink(l', [])];
    assert ops[1..] == [AddLink(l', [])] && ops[1..][1..] == [];
    assert Run(fs, ops) == Run(one, ops[1..]);
  }

  lemma FirstOfPort(l: Link)
    requires !IsDefaultPort(l.port) && l.mode == TCPMode
    ensures LinkAdded(map[], l, []).1 == map[Name(l) := [Rule(l.backendName, "", "")]]
  {
    var m, r := Matcher(TCPMode, l.port, l.backendName, l.domainName), Rule(l.backendName, "", "");
    FirstIndexIs([], m, 0);
    assert InsertAt([], 0, r) == [r];
    hide GenerateFrontendName, FirstIndex, InsertAt, Matcher;
    assert Added([], TCPMode, l.port, l.backendName, l.domainName) == [r];
    assert FrontendAdded(map[], TCPMode, l.port, []) == Ok(map[Name(l) := []]);
    hide Added, FrontendAdded;
    assert SwitchAdded(map[Name(l) := []], l) == Ok(map[Name(l) := []][Name(l) := [r]]);
  }

  lemma SecondOfPort(l: Link, l': Link)
    requires !IsDefaultPort(l.port) && l.mode == l'.mode == TCPMode && l.port == l'.port
    requires l.backendName != l'.backendName
    ensures var r, r' := Rule(l.backendName, "", ""), Rule(l'.backendName, "", "");
            LinkAdded(map[Name(l) := [r]], l', []).1 == map[Name(l) := [r', r]]
  {
    var r, r' := Rule(l.backendName, "", ""), Rule(l'.backendName, "", "");
    var one := map[Name(l) := [r]];
    FirstIndexIs([r], Matcher(TCPMode, l'.port, l'.backendName, l'.domainName), 1);
    assert InsertAt([r], 0, r') == [r', r];
    hide GenerateFrontendName, FirstIndex, InsertAt, Matcher;
    assert Added([r], TCPMode, l'.port, l'.backendName, l'.domainName) == [r', r];
    assert FrontendAdded(one, TCPMode, l'.port, []) == Ok(one);
    hide Added, FrontendAdded;
    assert SwitchAdded(one, l') == Ok(one[Name(l) := [r', r]]);
  }

  lemma BothGone(l: Link, l': Link)
    requires !IsDefaultPort(l.port) && l.mode == TCPMode
    ensures LinkDeleted(map[Name(l) := [Rule(l'.backendName, "", ""), Rule(l.backendName, "", "")]], l) == map[]
  {
    hide GenerateFrontendName, Deleted;
  }
}
