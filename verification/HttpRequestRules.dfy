/** The three kinds of http-request rule that share one list per frontend: basic authentication,
    redirect rules and https redirection (haproxy_manager/basic_auth.go, redirect_rule.go,
    https_redirection.go). Rules are found again by the text of their condition. */
module HttpRequestRules {
  import opened Text
  import opened RuleLists
  import opened HaproxyNames
  import opened SwitchRules

  /** An http-request rule; an absent field is empty, and the index is the position. */
  datatype HttpRule = HttpRule(kind: string, cond: string, condTest: string, redirCode: int, redirType: string,
      redirValue: string)

  /** What a rule is for. */
  datatype Label =
    | Auth(domain: string, userListName: string)
    | Redirect(domain: string)
    | HttpsRedirection(domain: string)

  const AUTH_PREFIX := "!{ http_auth("
  const AUTH_SUFFIX := ") } "

  /** createHttpRequestAuthCondition */
  function AuthCondition(port: int, domain: string, userListName: string): string {
    var rule := AUTH_PREFIX + userListName + AUTH_SUFFIX + HostCondition(domain);
    if port == 80 || port == 443 then rule + NOT_ACME else rule
  }

  /** The condition text of the rules of a label, on the frontend of a port. */
  function Tag(port: int, l: Label): string {
    match l
    case Auth(domain, list) => AuthCondition(port, domain, list)
    case Redirect(domain) => HostCondition(TrimSpace(domain)) + NOT_ACME
    case HttpsRedirection(domain) => HostCondition(TrimSpace(domain))
  }

  function NewHttpRule(port: int, l: Label, url: string): HttpRule {
    match l
    case Auth(_, _) => HttpRule("auth", "if", Tag(port, l), 0, "", "")
    case Redirect(_) => HttpRule("redirect", "if", Tag(port, l), 302, "location", url)
    case HttpsRedirection(_) => HttpRule("redirect", "if", Tag(port, l), 301, "scheme", "https")
  }

  /** What the removal of a label looks for: a redirect rule is found by its condition alone. */
  predicate Finds(port: int, l: Label, r: HttpRule) {
    && r.condTest == Tag(port, l)
    && (l.Auth? ==> r.cond == "if" && r.kind == "auth")
    && (l.HttpsRedirection? ==>
          r.cond == "if" && r.kind == "redirect" && r.redirType == "scheme" && r.redirValue == "https")
  }

  function Finder(port: int, l: Label): HttpRule -> bool {
    (r: HttpRule) => Finds(port, l, r)
  }

  datatype Op = Setup(l: Label, url: string) | Remove(l: Label)

  function Apply(rules: seq<HttpRule>, port: int, op: Op): seq<HttpRule> {
    match op
    case Setup(l, url) =>
      if l.HttpsRedirection? && FirstIndex(rules, Finder(port, l)) < |rules| then rules
      else InsertAt(rules, 0, NewHttpRule(port, l, url))
    case Remove(l) => RemoveFirst(rules, Finder(port, l))
  }

  // ------------------------------------------------------------------
  // The condition text tells labels apart
  // ------------------------------------------------------------------

  predicate SameLabel(l: Label, l': Label) {
    match (l, l')
    case (Auth(d, u), Auth(d', u')) => d == d' && u == u'
    case (Redirect(d), Redirect(d')) => TrimSpace(d) == TrimSpace(d')
    case (HttpsRedirection(d), HttpsRedirection(d')) => TrimSpace(d) == TrimSpace(d')
    case _ => false
  }

  /** User list names are generated without parentheses. */
  predicate PlainList(l: Label) {
    l.Auth? ==> ')' !in l.userListName
  }

  lemma AuthConditionInjective(port: int, d: string, u: string, d': string, u': string)
    requires ')' !in u && ')' !in u'
    requires AuthCondition(port, d, u) == AuthCondition(port, d', u')
    ensures d == d' && u == u'
  {
    var after, after' := " } " + HostCondition(d), " } " + HostCondition(d');
    AuthConditionSplits(port, d, u);
    AuthConditionSplits(port, d', u');
    hide HostCondition, AuthCondition;
    var n := |AUTH_PREFIX|;
    var rule, rule' := AUTH_PREFIX + (u + ")" + after), AUTH_PREFIX + (u' + ")" + after');
    assert rule == rule' by {
      assert rule == (rule + NOT_ACME)[..|rule + NOT_ACME| - |NOT_ACME|] &&
               rule' == (rule' + NOT_ACME)[..|rule' + NOT_ACME| - |NOT_ACME|];
    }
    assert u + ")" + after == (AUTH_PREFIX + (u + ")" + after))[n..];
    assert u' + ")" + after' == (AUTH_PREFIX + (u' + ")" + after'))[n..];
    FirstPart(u, ')', after, u', after');
    assert HostCondition(d) == after[3..] && HostCondition(d') == after'[3..];
    RedirectTagInjective(d, d');
  }

  lemma AuthConditionSplits(port: int, d: string, u: string)
    ensures var rule := AUTH_PREFIX + (u + ")" + (" } " + HostCondition(d)));
            AuthCondition(port, d, u) == if port == 80 || port == 443 then rule + NOT_ACME else rule
  {
    hide HostCondition;
    assert AUTH_PREFIX + u + AUTH_SUFFIX + HostCondition(d) == AUTH_PREFIX + (u + ")" + (" } " + HostCondition(d)));
  }

  lemma RedirectTagInjective(h: string, h': string)
    requires HostCondition(h) == HostCondition(h') || HostCondition(h) + NOT_ACME == HostCondition(h') + NOT_ACME
    ensures h == h'
  {
    var c, c' := HostCondition(h) + NOT_ACME, HostCondition(h') + NOT_ACME;
    assert |h| == |h'|;
    assert h == c[|HOST_PREFIX|..|HOST_PREFIX| + |h|] && h' == c'[|HOST_PREFIX|..|HOST_PREFIX| + |h|];
  }

  lemma TagEnds(port: int, l: Label)
    ensures var t := Tag(port, l);
            t != "" && (t[0] == '!' <==> l.Auth?) && (t[|t| - 1] == 'l' || l.HttpsRedirection? || l.Auth?)
            && (l.HttpsRedirection? ==> t[|t| - 1] == '}')
  {
    hide TrimSpace;
  }

  /** Two labels share a condition text exactly when they are the same: the kinds never meet, and
      each text determines its domain and user list. */
  lemma TagsTellLabelsApart(port: int, l: Label, l': Label)
    requires PlainList(l) && PlainList(l')
    ensures Tag(port, l) == Tag(port, l') <==> SameLabel(l, l')
  {
    TagEnds(port, l);
    TagEnds(port, l');
    hide TrimSpace;
    if Tag(port, l) == Tag(port, l') {
      match l
      case Auth(d, u) => AuthConditionInjective(port, d, u, l'.domain, l'.userListName);
      case Redirect(d) => RedirectTagInjective(TrimSpace(d), TrimSpace(l'.domain));
      case HttpsRedirection(d) => RedirectTagInjective(TrimSpace(d), TrimSpace(l'.domain));
    }
  }

  /** With parentheses in list names, different labels can share a text. */
  lemma ParenthesesCollide(port: int, a: string, b: string, c: string)
    ensures var l := Auth(c, a + (AUTH_SUFFIX + HOST_PREFIX) + b);
            var l' := Auth(b + (AUTH_SUFFIX + HOST_PREFIX) + c, a);
            !SameLabel(l, l') && Tag(port, l) == Tag(port, l')
  {
    var m := AUTH_SUFFIX + HOST_PREFIX;
    AuthConditionParts(c, a + m + b);
    AuthConditionParts(b + m + c, a);
    hide HostCondition;
    assert a + m + b + m + c == a + m + (b + m + c);
    assert |a + m + b| > |a|;
  }

  lemma AuthConditionParts(d: string, u: string)
    ensures AUTH_PREFIX + u + AUTH_SUFFIX + HostCondition(d) ==
            AUTH_PREFIX + (u + (AUTH_SUFFIX + HOST_PREFIX) + d) + HOST_SUFFIX
  {
    assert u + AUTH_SUFFIX + (HOST_PREFIX + d) == u + (AUTH_SUFFIX + HOST_PREFIX) + d;
    assert AUTH_PREFIX + u + AUTH_SUFFIX + (HOST_PREFIX + d + HOST_SUFFIX) ==
           AUTH_PREFIX + (u + AUTH_SUFFIX + (HOST_PREFIX + d)) + HOST_SUFFIX;
  }

  // ------------------------------------------------------------------
  // One operation
  // ------------------------------------------------------------------

  function Tagged(tag: string): HttpRule -> bool {
    (r: HttpRule) => r.condTest == tag
  }

  /** The rules of a label, in order. */
  function Stack(rules: seq<HttpRule>, port: int, l: Label): seq<HttpRule> {
    Project(rules, Tagged(Tag(port, l)))
  }

  /** Rules with other conditions, whoever made them, all stay, and in the same order. */
  lemma OtherRulesStay(rules: seq<HttpRule>, port: int, op: Op, p: HttpRule -> bool)
    requires forall r :: p(r) ==> r.condTest != Tag(port, op.l)
    ensures Project(Apply(rules, port, op), p) == Project(rules, p)
  {
    var find := Finder(port, op.l);
    match op
    case Setup(l, url) =>
      ProjectInsert(rules, 0, NewHttpRule(port, l, url), p);
    case Remove(l) =>
      ProjectRemoveFirst(rules, find, p);
      if FirstIndex(rules, find) == |rules| {
        RemoveNothing(rules, find);
      }
  }

  function ApplyToStack(stack: seq<HttpRule>, port: int, op: Op): seq<HttpRule> {
    match op
    case Setup(l, url) => if l.HttpsRedirection? && stack != [] then stack else [NewHttpRule(port, l, url)] + stack
    case Remove(_) => if stack == [] then [] else stack[1..]
  }

  /** The rules under a label's condition are the label's own. */
  predicate Own(stack: seq<HttpRule>, port: int, l: Label) {
    forall r :: r in stack ==> Finds(port, l, r)
  }

  lemma HeadIsFirst<T>(s: seq<T>, p: T -> bool)
    requires forall x :: x in s ==> p(x)
    ensures RemoveFirst(s, p) == if s == [] then [] else s[1..]
  {
    if s != [] {
      assert s[0] in s;
      FirstIndexIs(s, p, 0);
    }
  }

  lemma FindsOwn(rules: seq<HttpRule>, port: int, l: Label)
    requires Own(Stack(rules, port, l), port, l)
    ensures FirstIndex(rules, Finder(port, l)) < |rules| <==> Stack(rules, port, l) != []
  {
    var find, tagged, i := Finder(port, l), Tagged(Tag(port, l)), FirstIndex(rules, Finder(port, l));
    ProjectMembers(rules, tagged);
    hide Tag, Project;
    if i < |rules| {
      assert find(rules[i]) && tagged(rules[i]) && rules[i] in rules;
      assert rules[i] in Project(rules, tagged);
    }
    if Project(rules, tagged) != [] {
      var r := Project(rules, tagged)[0];
      assert r in Project(rules, tagged);
      assert r in rules && find(r);
    }
  }

  /** On the rules of its own label an operation is a push or a pop. */
  lemma OwnStackMoves(rules: seq<HttpRule>, port: int, op: Op)
    requires Own(Stack(rules, port, op.l), port, op.l)
    ensures Stack(Apply(rules, port, op), port, op.l) == ApplyToStack(Stack(rules, port, op.l), port, op)
    ensures Own(Stack(Apply(rules, port, op), port, op.l), port, op.l)
  {
    var find, tagged := Finder(port, op.l), Tagged(Tag(port, op.l));
    FindsOwn(rules, port, op.l);
    match op
    case Setup(l, url) =>
      ProjectInsert(rules, 0, NewHttpRule(port, l, url), tagged);
    case Remove(l) =>
      ProjectRemoveFirst(rules, find, tagged);
      HeadIsFirst(Project(rules, tagged), find);
  }

  /** Setting up and then removing leaves the list exactly as it was, unless an https redirection
      was there already: that one is then gone. */
  lemma SetupThenRemove(rules: seq<HttpRule>, port: int, l: Label, url: string)
    ensures Apply(Apply(rules, port, Setup(l, url)), port, Remove(l)) == rules
            <==> !(l.HttpsRedirection? && FirstIndex(rules, Finder(port, l)) < |rules|)
  {
    FindsNew(port, l, url);
    var find, x := Finder(port, l), NewHttpRule(port, l, url);
    RemoveShortens(rules, find);
    InsertThenRemove(rules, x, find);
    hide FirstIndex, RemoveFirst, InsertAt, NewHttpRule, Finder;
    assert Apply(Apply(rules, port, Setup(l, url)), port, Remove(l)) ==
           RemoveFirst(Apply(rules, port, Setup(l, url)), find);
  }

  lemma FindsNew(port: int, l: Label, url: string)
    ensures Finder(port, l)(NewHttpRule(port, l, url))
  {
  }

  // ------------------------------------------------------------------
  // What a request is answered
  // ------------------------------------------------------------------

  /** A request: its host, whether it is for the certificate challenge, and the user lists that know its
      credentials. */
  datatype HttpRequest = HttpRequest(host: string, acme: bool, lists: set<string>)

  datatype Answer = Passed | Challenged | Redirected(code: int, redirType: string, redirValue: string)

  /** The host test of a condition, alone or in front of the exception for certificate challenges. */
  ghost predicate HostHolds(test: string, q: HttpRequest) {
    exists host, guard ::
      && test == HOST_PREFIX + host + HOST_SUFFIX + guard && Lower(host) == Lower(q.host)
      && (guard == "" || (guard == NOT_ACME && !q.acme))
  }

  /** What the condition text says, read as HAProxy does. */
  ghost predicate Holds(test: string, q: HttpRequest) {
    || HostHolds(test, q)
    || exists list, rest ::
         test == AUTH_PREFIX + list + (AUTH_SUFFIX + rest) && ')' !in list && list !in q.lists && HostHolds(rest, q)
  }

  /** The first rule whose condition holds answers; without one the request goes on. */
  ghost function AnswerTo(rules: seq<HttpRule>, q: HttpRequest): Answer {
    if rules == [] then Passed
    else if rules[0].cond == "if" && Holds(rules[0].condTest, q) then
      if rules[0].kind == "auth" then Challenged
      else Redirected(rules[0].redirCode, rules[0].redirType, rules[0].redirValue)
    else AnswerTo(rules[1..], q)
  }

  /** The requests that a label is about. */
  predicate Concerns(port: int, l: Label, q: HttpRequest) {
    match l
    case Auth(domain, list) =>
      Lower(domain) == Lower(q.host) && list !in q.lists && (port == 80 || port == 443 ==> !q.acme)
    case Redirect(domain) => Lower(TrimSpace(domain)) == Lower(q.host) && !q.acme
    case HttpsRedirection(domain) => Lower(TrimSpace(domain)) == Lower(q.host)
  }

  /** What it promises them. */
  function Promised(l: Label, url: string): Answer {
    match l
    case Auth(_, _) => Challenged
    case Redirect(_) => Redirected(302, "location", url)
    case HttpsRedirection(_) => Redirected(301, "scheme", "https")
  }

  lemma HostTestHolds(host: string, guard: string, q: HttpRequest)
    requires guard == "" || guard == NOT_ACME
    ensures HostHolds(HostCondition(host) + guard, q) <==>
            Lower(host) == Lower(q.host) && (guard == NOT_ACME ==> !q.acme)
  {
    var test := HostCondition(host) + guard;
    assert test == HOST_PREFIX + host + HOST_SUFFIX + guard;
    forall host', guard' | test == HOST_PREFIX + host' + HOST_SUFFIX + guard' && (guard' == "" || guard' == NOT_ACME)
      ensures host' == host && guard' == guard
    {
      HostTestParts(host, guard, host', guard');
    }
    hide HostCondition, Lower;
  }

  lemma HostTestParts(host: string, guard: string, host': string, guard': string)
    requires (guard == "" || guard == NOT_ACME) && (guard' == "" || guard' == NOT_ACME)
    requires HOST_PREFIX + host + HOST_SUFFIX + guard == HOST_PREFIX + host' + HOST_SUFFIX + guard'
    ensures host' == host && guard' == guard
  {
    var a, b := HOST_PREFIX + host + HOST_SUFFIX, HOST_PREFIX + host' + HOST_SUFFIX;
    assert (a + guard)[|a + guard| - 1] == (if guard == "" then '}' else 'l');
    assert (b + guard')[|b + guard'| - 1] == (if guard' == "" then '}' else 'l');
    assert a == (a + guard)[..|a|] && b == (b + guard')[..|b|];
    assert |host| == |host'|;
    assert host == a[|HOST_PREFIX|..|HOST_PREFIX| + |host|] && host' == b[|HOST_PREFIX|..|HOST_PREFIX| + |host'|];
  }

  lemma HostTestStarts(host: string, guard: string)
    ensures HostCondition(host) + guard != [] && (HostCondition(host) + guard)[0] == '{'
  {
  }

  lemma NoHostTest(list: string, rest: string, q: HttpRequest)
    ensures !HostHolds(AUTH_PREFIX + list + (AUTH_SUFFIX + rest), q)
  {
    var test := AUTH_PREFIX + list + (AUTH_SUFFIX + rest);
    assert test[0] == '!';
  }

  lemma AuthTestHolds(list: string, rest: string, q: HttpRequest)
    requires ')' !in list
    ensures Holds(AUTH_PREFIX + list + (AUTH_SUFFIX + rest), q) <==> list !in q.lists && HostHolds(rest, q)
  {
    var test := AUTH_PREFIX + list + (AUTH_SUFFIX + rest);
    NoHostTest(list, rest, q);
    forall list', rest' | test == AUTH_PREFIX + list' + (AUTH_SUFFIX + rest') && ')' !in list'
      ensures list' == list && rest' == rest
    {
      AuthTestParts(list, rest, list', rest');
    }
    hide HostHolds;
  }

  lemma AuthTestParts(list: string, rest: string, list': string, rest': string)
    requires AUTH_PREFIX + list + (AUTH_SUFFIX + rest) == AUTH_PREFIX + list' + (AUTH_SUFFIX + rest')
    requires ')' !in list && ')' !in list'
    ensures list' == list && rest' == rest
  {
    var n, m := |AUTH_PREFIX|, " } ";
    var test := AUTH_PREFIX + list + (AUTH_SUFFIX + rest);
    assert test[n..] == list + [')'] + (m + rest);
    assert test[n..] == list' + [')'] + (m + rest');
    FirstPart(list, ')', m + rest, list', m + rest');
    assert rest == (m + rest)[3..] && rest' == (m + rest')[3..];
  }

  /** The condition of a label's rule holds for exactly the requests that the label is about. */
  lemma TagHolds(port: int, l: Label, q: HttpRequest)
    requires PlainList(l)
    ensures Holds(Tag(port, l), q) <==> Concerns(port, l, q)
  {
    match l
    case Auth(domain, list) =>
      var guard := if port == 80 || port == 443 then NOT_ACME else "";
      HostTestHolds(domain, guard, q);
      AuthTestHolds(list, HostCondition(domain) + guard, q);
      AuthTagIs(port, domain, list, guard);
    case Redirect(domain) =>
      HostTestHolds(TrimSpace(domain), NOT_ACME, q);
      NoAuthTest(TrimSpace(domain), NOT_ACME);
    case HttpsRedirection(domain) =>
      HostTestHolds(TrimSpace(domain), "", q);
      NoAuthTest(TrimSpace(domain), "");
      assert HostCondition(TrimSpace(domain)) + "" == Tag(port, l);
  }

  lemma AuthTagIs(port: int, domain: string, list: string, guard: string)
    requires guard == if port == 80 || port == 443 then NOT_ACME else ""
    ensures Tag(port, Auth(domain, list)) == AUTH_PREFIX + list + (AUTH_SUFFIX + (HostCondition(domain) + guard))
  {
    hide HostCondition;
  }

  lemma NoAuthTest(host: string, guard: string)
    ensures forall list, rest :: HostCondition(host) + guard != AUTH_PREFIX + list + (AUTH_SUFFIX + rest)
  {
    HostTestStarts(host, guard);
    forall list: string, rest: string
      ensures HostCondition(host) + guard != AUTH_PREFIX + list + (AUTH_SUFFIX + rest)
    {
      assert (AUTH_PREFIX + list + (AUTH_SUFFIX + rest))[0] == '!';
    }
  }

  /** A label that is set up answers the requests that it is about as it promises, and leaves all others
      to the rules that were there; an https redirection only does so if there was none before. */
  lemma SetupAnswers(rules: seq<HttpRule>, port: int, l: Label, url: string, q: HttpRequest)
    requires PlainList(l)
    ensures AnswerTo(Apply(rules, port, Setup(l, url)), q) ==
              if l.HttpsRedirection? && FirstIndex(rules, Finder(port, l)) < |rules| then AnswerTo(rules, q)
              else if Concerns(port, l, q) then Promised(l, url)
              else AnswerTo(rules, q)
  {
    hide *;
    TagHolds(port, l, q);
    NewRuleAnswers(port, l, url);
    SetupInserts(rules, port, l, url);
    FirstAnswers(NewHttpRule(port, l, url), rules, q);
  }

  lemma SetupInserts(rules: seq<HttpRule>, port: int, l: Label, url: string)
    ensures Apply(rules, port, Setup(l, url)) ==
              if l.HttpsRedirection? && FirstIndex(rules, Finder(port, l)) < |rules| then rules
              else InsertAt(rules, 0, NewHttpRule(port, l, url))
  {
    hide FirstIndex, Finder, InsertAt, NewHttpRule;
  }

  lemma NewRuleAnswers(port: int, l: Label, url: string)
    ensures var rule := NewHttpRule(port, l, url);
            && rule.condTest == Tag(port, l) && rule.cond == "if"
            && Promised(l, url) == if rule.kind == "auth" then Challenged
                                   else Redirected(rule.redirCode, rule.redirType, rule.redirValue)
  {
    hide Tag;
  }

  lemma FirstAnswers(rule: HttpRule, rules: seq<HttpRule>, q: HttpRequest)
    requires rule.cond == "if"
    ensures InsertAt(rules, 0, rule) == [rule] + rules
    ensures AnswerTo([rule] + rules, q) ==
              if !Holds(rule.condTest, q) then AnswerTo(rules, q)
              else if rule.kind == "auth" then Challenged
              else Redirected(rule.redirCode, rule.redirType, rule.redirValue)
  {
    hide Holds;
    assert ([rule] + rules)[1..] == rules;
  }

  /** Removing it again restores all answers. */
  lemma RemoveRestoresAnswers(rules: seq<HttpRule>, port: int, l: Label, url: string, q: HttpRequest)
    requires !(l.HttpsRedirection? && FirstIndex(rules, Finder(port, l)) < |rules|)
    ensures AnswerTo(Apply(Apply(rules, port, Setup(l, url)), port, Remove(l)), q) == AnswerTo(rules, q)
  {
    SetupThenRemove(rules, port, l, url);
  }

  // ------------------------------------------------------------------
  // Whole runs
  // ------------------------------------------------------------------

  function Run(rules: seq<HttpRule>, port: int, ops: seq<Op>): seq<HttpRule>
    decreases |ops|
  {
    if ops == [] then rules else Run(Apply(rules, port, ops[0]), port, ops[1..])
  }

  /** A label's stack after a run, from that label's operations alone. */
  function StackAfter(stack: seq<HttpRule>, port: int, l: Label, ops: seq<Op>): seq<HttpRule>
    decreases |ops|
  {
    if ops == [] then stack
    else StackAfter(if SameLabel(ops[0].l, l) then ApplyToStack(stack, port, ops[0]) else stack, port, l, ops[1..])
  }

  lemma StepByLabel(rules: seq<HttpRule>, port: int, op: Op, l: Label)
    requires PlainList(l) && PlainList(op.l) && Own(Stack(rules, port, l), port, l)
    ensures Stack(Apply(rules, port, op), port, l) ==
              if SameLabel(op.l, l) then ApplyToStack(Stack(rules, port, l), port, op) else Stack(rules, port, l)
    ensures Own(Stack(Apply(rules, port, op), port, l), port, l)
  {
    TagsTellLabelsApart(port, op.l, l);
    hide Project, Tag, Apply, ApplyToStack;
    if SameLabel(op.l, l) {
      assert Own(Stack(rules, port, op.l), port, op.l);
      OwnStackMoves(rules, port, op);
    } else {
      OtherRulesStay(rules, port, op, Tagged(Tag(port, l)));
    }
  }

  /** Over every run, the rules under a label follow that label's own operations: no removal takes
      another kind's or another domain's rule. */
  lemma {:induction false} RunByLabel(rules: seq<HttpRule>, port: int, ops: seq<Op>, l: Label)
    requires PlainList(l) && forall op :: op in ops ==> PlainList(op.l)
    requires Own(Stack(rules, port, l), port, l)
    ensures Stack(Run(rules, port, ops), port, l) == StackAfter(Stack(rules, port, l), port, l, ops)
    decreases |ops|
  {
    hide Stack, Own, Apply, ApplyToStack, SameLabel;
    if ops != [] {
      StepByLabel(rules, port, ops[0], l);
      RunByLabel(Apply(rules, port, ops[0]), port, ops[1..], l);
    }
  }

  /** Rules that no operation of the run could have made stay over the whole run. */
  lemma {:induction false} ForeignRulesStay(rules: seq<HttpRule>, port: int, ops: seq<Op>, p: HttpRule -> bool)
    requires forall op, r :: op in ops && p(r) ==> r.condTest != Tag(port, op.l)
    ensures Project(Run(rules, port, ops), p) == Project(rules, p)
    decreases |ops|
  {
    hide Project, Apply, Tag;
    if ops != [] {
      assert ops[0] in ops;
      OtherRulesStay(rules, port, ops[0], p);
      ForeignRulesStay(Apply(rules, port, ops[0]), port, ops[1..], p);
    }
  }
}
