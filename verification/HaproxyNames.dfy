/** The names and condition texts that haproxy_manager generates, down to their characters. */
module HaproxyNames {
  import opened Text

  datatype ListenerMode = HTTPMode | TCPMode

  datatype BackendProtocol = HTTPBackend | TCPBackend

  // ------------------------------------------------------------------
  // Decimal printing
  // ------------------------------------------------------------------

  function Digit(d: nat): char
    requires d < 10
  {
    ['0', '1', '2', '3', '4', '5', '6', '7', '8', '9'][d]
  }

  function Digits(n: nat): (s: string)
    ensures s != "" && forall i :: 0 <= i < |s| ==> '0' <= s[i] <= '9'
  {
    if n < 10 then [Digit(n)] else Digits(n / 10) + [Digit(n % 10)]
  }

  /** strconv.Itoa */
  function Itoa(n: int): (s: string)
    ensures s != "" && '0' <= s[|s| - 1] <= '9' && forall i :: 0 <= i < |s| ==> s[i] != '_'
  {
    if n < 0 then "-" + Digits(-n) else Digits(n)
  }

  lemma {:induction false} DigitsInjective(m: nat, n: nat)
    requires Digits(m) == Digits(n)
    ensures m == n
  {
    var s, t := Digits(m), Digits(n);
    assert s[|s| - 1] == Digit(m % 10) && t[|t| - 1] == Digit(n % 10);
    if m >= 10 && n >= 10 {
      assert s[..|s| - 1] == Digits(m / 10) && t[..|t| - 1] == Digits(n / 10);
      DigitsInjective(m / 10, n / 10);
    }
  }

  lemma ItoaInjective(m: int, n: int)
    requires Itoa(m) == Itoa(n)
    ensures m == n
  {
    ItoaSign(m);
    ItoaSign(n);
    hide Digits, Itoa;
    if m < 0 {
      DigitsInjective(-m, -n);
    } else {
      DigitsInjective(m, n);
    }
  }

  /** The first character tells the sign, and the rest or the whole is the number. */
  lemma ItoaSign(n: int)
    ensures var s := Itoa(n);
              s != "" && (s[0] == '-' <==> n < 0) &&
              (if n < 0 then s[1..] == Digits(-n) else s == Digits(n))
  {
    if n < 0 {
      assert ("-" + Digits(-n))[1..] == Digits(-n);
    }
  }

  // ------------------------------------------------------------------
  // Names
  // ------------------------------------------------------------------

  function ModeName(mode: ListenerMode): string {
    match mode case HTTPMode => "http" case TCPMode => "tcp"
  }

  function GenerateFrontendName(mode: ListenerMode, port: int): string {
    if mode == HTTPMode && port == 80 then "fe_http"
    else if mode == HTTPMode && port == 443 then "fe_https"
    else "fe_" + ModeName(mode) + "_" + Itoa(port)
  }

  function GenerateBackendName(protocol: BackendProtocol, serviceName: string, port: int): string {
    var name := "be_" + serviceName + "_" + Itoa(port);
    if protocol == TCPBackend then name + "_tcp" else name
  }

  lemma CustomName(mode: ListenerMode, port: int)
    ensures var name := "fe_" + ModeName(mode) + "_" + Itoa(port);
            && |name| > 7 && name[3] == (if mode == HTTPMode then 'h' else 't')
            && name[4 + |ModeName(mode)|..] == Itoa(port)
            && name != "fe_http" && name != "fe_https"
  {
    var name := "fe_" + ModeName(mode) + "_" + Itoa(port);
    if mode == HTTPMode {
      assert name[7] == '_' && "fe_https"[7] == 's';
    } else {
      assert name[3] == 't' && "fe_https"[3] == 'h' && "fe_http"[3] == 'h';
    }
  }

  /** No two listeners share a frontend name. */
  lemma FrontendNameInjective(mode: ListenerMode, port: int, mode': ListenerMode, port': int)
    requires GenerateFrontendName(mode, port) == GenerateFrontendName(mode', port')
    ensures mode == mode' && port == port'
  {
    CustomName(mode, port);
    CustomName(mode', port');
    assert |"fe_http"| != |"fe_https"|;
    var name := GenerateFrontendName(mode, port);
    assert name[3] == (if mode == HTTPMode then 'h' else 't');
    if Itoa(port) == Itoa(port') {
      ItoaInjective(port, port');
    }
  }

  /** A text after an underscore that has none itself is determined by the whole. */
  lemma LastPart(a: string, b: string, a': string, b': string)
    requires a + "_" + b == a' + "_" + b'
    requires (forall i :: 0 <= i < |b| ==> b[i] != '_') && (forall i :: 0 <= i < |b'| ==> b'[i] != '_')
    ensures a == a' && b == b'
  {
    var s := a + "_" + b;
    assert s[|a|] == '_' && s[|a'|] == '_';
    assert forall i :: 0 <= i < |b| ==> s[|a| + 1 + i] == b[i];
    assert forall i :: 0 <= i < |b'| ==> s[|a'| + 1 + i] == b'[i];
    assert |a| == |a'|;
    assert a == s[..|a|] && b == s[|a| + 1..] && a' == s[..|a'|] && b' == s[|a'| + 1..];
  }

  /** A text before the first occurrence of a mark is determined by the whole. */
  lemma FirstPart(a: string, mark: char, b: string, a': string, b': string)
    requires mark !in a && mark !in a' && a + [mark] + b == a' + [mark] + b'
    ensures a == a' && b == b'
  {
    var s := a + [mark] + b;
    assert s[|a|] == mark && s[|a'|] == mark;
    assert forall i :: 0 <= i < |a| ==> s[i] == a[i];
    assert forall i :: 0 <= i < |a'| ==> s[i] == a'[i];
    assert |a| == |a'|;
    assert a == s[..|a|] && a' == s[..|a|] && b == s[|a| + 1..] && b' == s[|a| + 1..];
  }

  lemma BackendNameEnds(protocol: BackendProtocol, serviceName: string, port: int)
    ensures var name := GenerateBackendName(protocol, serviceName, port);
            name != "" && (name[|name| - 1] == 'p' <==> protocol == TCPBackend)
  {
  }

  /** No two backends share a name, whatever underscores the service names contain. */
  lemma BackendNameInjective(protocol: BackendProtocol, serviceName: string, port: int, protocol': BackendProtocol,
      serviceName': string, port': int)
    requires GenerateBackendName(protocol, serviceName, port) == GenerateBackendName(protocol', serviceName', port')
    ensures protocol == protocol' && serviceName == serviceName' && port == port'
  {
    BackendNameEnds(protocol, serviceName, port);
    BackendNameEnds(protocol', serviceName', port');
    var a, a' := "be_" + serviceName, "be_" + serviceName';
    var s, s' := a + "_" + Itoa(port), a' + "_" + Itoa(port');
    assert s == s' by {
      if protocol == TCPBackend {
        assert s == (s + "_tcp")[..|s + "_tcp"| - 4] && s' == (s' + "_tcp")[..|s' + "_tcp"| - 4];
      }
    }
    LastPart(a, Itoa(port), a', Itoa(port'));
    assert serviceName == a[3..] && serviceName' == a'[3..];
    ItoaInjective(port, port');
  }

  // ------------------------------------------------------------------
  // Conditions
  // ------------------------------------------------------------------

  const HOST_PREFIX := "{ hdr(host) -i "
  const HOST_SUFFIX := " }"
  const NOT_ACME := " !letsencrypt-acl"

  function HostCondition(host: string): string { HOST_PREFIX + host + HOST_SUFFIX }

  /** The host that a condition text asks for, if it asks for a host and nothing else. */
  function HostOf(condTest: string): string
    requires IsHostCondition(condTest)
  {
    condTest[|HOST_PREFIX|..|condTest| - |HOST_SUFFIX|]
  }

  predicate IsHostCondition(condTest: string) {
    |condTest| >= |HOST_PREFIX| + |HOST_SUFFIX| && HasPrefix(condTest, HOST_PREFIX) && HasSuffix(condTest, HOST_SUFFIX)
  }

  lemma HostOfCondition(host: string)
    ensures IsHostCondition(HostCondition(host)) && HostOf(HostCondition(host)) == host
  {
    var c := HostCondition(host);
    assert c[..|HOST_PREFIX|] == HOST_PREFIX && c[|c| - |HOST_SUFFIX|..] == HOST_SUFFIX;
  }
}
