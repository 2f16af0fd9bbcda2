/** What git_manager/parser.go reads: the spellings of a repository URL beside the printed one, and what
    every accepted text says. */
module GitSpellings {
  import opened Wrappers
  import opened Text
  import opened GitUrl

  // ------------------------------------------------------------------
  // White space and known hosts
  // ------------------------------------------------------------------

  predicate Blank(s: string) {
    forall k :: 0 <= k < |s| ==> IsSpace(s[k])
  }

  lemma {:induction false} TrimLeftBlank(w: string, s: string)
    requires Blank(w)
    ensures TrimLeft(w + s) == TrimLeft(s)
  {
    if w == [] {
      assert w + s == s;
    } else {
      assert (w + s)[1..] == w[1..] + s;
      TrimLeftBlank(w[1..], s);
    }
  }

  lemma {:induction false} TrimRightBlank(s: string, w: string)
    requires Blank(w)
    ensures TrimRight(s + w) == TrimRight(s)
    decreases |w|
  {
    if w == [] {
      assert s + w == s;
    } else {
      assert (s + w)[..|s + w| - 1] == s + w[..|w| - 1];
      TrimRightBlank(s, w[..|w| - 1]);
    }
  }

  lemma {:induction false} TrimLeftBefore(s: string, w: string)
    ensures TrimLeft(s) != [] ==> TrimLeft(s + w) == TrimLeft(s) + w
    ensures TrimLeft(s) == [] ==> Blank(s)
  {
    if s != [] {
      assert (s + w)[1..] == s[1..] + w;
      if IsSpace(s[0]) {
        TrimLeftBefore(s[1..], w);
        assert TrimLeft(s) == [] ==> forall k :: 0 < k < |s| ==> s[k] == s[1..][k - 1];
      }
    }
  }

  /** White space around a URL does not matter. */
  lemma Surrounded(before: string, url: string, after: string)
    requires Blank(before) && Blank(after)
    ensures ParseGitRepoInfo(before + url + after) == ParseGitRepoInfo(url)
  {
    hide ParseTrimmed;
    assert before + url + after == before + (url + after);
    TrimLeftBlank(before, url + after);
    TrimLeftBefore(url, after);
    if TrimLeft(url) == [] {
      TrimLeftBlank(url, after);
      TrimLeftBlank(after, []);
      TrimLeftBlank(url, []);
      assert url + [] == url && after + [] == after;
    } else {
      TrimRightBlank(TrimLeft(url), after);
    }
  }

  lemma ContainsPart(p: string, part: string, r: string)
    ensures Contains(p + part + r, part)
  {
    assert HasPrefix((p + part + r)[|p|..], part);
  }

  /** The hosts that have a name, under any subdomain and behind any scheme; the first one counts. */
  lemma KnownHosts(p: string, r: string)
    ensures GitProvider(p + "github.com" + r) == "github"
    ensures !Contains(p + "gitlab.com" + r, "github.com") ==> GitProvider(p + "gitlab.com" + r) == "gitlab"
    ensures var e := p + "bitbucket.org" + r;
            !Contains(e, "github.com") && !Contains(e, "gitlab.com") ==> GitProvider(e) == "bitbucket"
  {
    ContainsPart(p, "github.com", r);
    ContainsPart(p, "gitlab.com", r);
    ContainsPart(p, "bitbucket.org", r);
  }

  ghost predicate IsPartOf(part: string, s: string) {
    exists p: string :: HasPrefix(s, p + part)
  }

  /** Any other endpoint is its own provider. */
  lemma OtherHosts(e: string)
    requires !IsPartOf("github.com", e) && !IsPartOf("gitlab.com", e) && !IsPartOf("bitbucket.org", e)
    ensures GitProvider(e) == e
  {
    ContainsIsPart(e, "github.com");
    ContainsIsPart(e, "gitlab.com");
    ContainsIsPart(e, "bitbucket.org");
    hide Contains, IsPartOf;
  }

  lemma ContainsIsPart(e: string, part: string)
    ensures Contains(e, part) ==> IsPartOf(part, e)
  {
    if Contains(e, part) {
      var k :| 0 <= k <= |e| && HasPrefix(e[k..], part);
      assert HasPrefix(e, e[..k] + part);
    }
  }

  // ------------------------------------------------------------------
  // The endings of a URL
  // ------------------------------------------------------------------

  predicate Ending(git: string, slash: string) {
    (git == "" || git == ".git") && (slash == "" || slash == "/")
  }

  function Named(i: GitRepoInfo, git: string): GitRepoInfo {
    i.(name := i.name + git)
  }

  lemma NamedUrl(i: GitRepoInfo, git: string)
    requires i.isParsed
    ensures OwnerName(Named(i, git)) == OwnerName(i) + git
  {
  }

  lemma TrimGit(name: string, git: string)
    requires git == ".git" || (git == "" && !HasSuffix(name, ".git"))
    ensures TrimSuffix(name + git, ".git") == name
  {
    assert name + "" == name;
  }

  lemma SshInfoOfTail(i: GitRepoInfo, git: string, slash: string, c: char, sep: char -> bool)
    requires SshFields(i, sep) && i.name != "" && sep('/') && sep('@') && sep(c) && NoSep(".git", sep)
    requires i.isParsed && i.isSshEndpoint && i.provider == GitProvider(i.endpoint) && !HasSuffix(i.name, ".git")
    requires Ending(git, slash)
    ensures var splits := Fields(i.sshUser + "@" + i.endpoint + [c] + OwnerName(i) + git + slash, sep);
            |splits| >= 3 && SshInfo(splits) == i
  {
    var j := Named(i, git);
    var base, parts := i.sshUser + "@" + i.endpoint + [c] + OwnerName(j), Fields(i.owner, sep);
    assert SshFields(j, sep) && IsPath(i.owner, sep);
    hide *;
    SshSplits(j, c, sep);
    JoinFields(i.owner, sep);
    TrimGit(i.name, git);
    FieldsOfSlash(slash, sep);
    FieldsAppend(base, slash, sep);
    NamedUrl(i, git);
    Tail(i.sshUser + "@" + i.endpoint + [c], OwnerName(i), git, slash);
    var splits := [i.sshUser] + ([i.endpoint] + (parts + [i.name + git]));
    assert Fields(base + slash, sep) == splits + [] == splits;
    SshInfoIs(i, parts, i.name + git);
  }

  lemma SshInfoIs(i: GitRepoInfo, parts: seq<string>, last: string)
    requires i.isParsed && i.isSshEndpoint && i.provider == GitProvider(i.endpoint)
    requires Join(parts) == i.owner && TrimSuffix(last, ".git") == i.name
    ensures var splits := [i.sshUser] + ([i.endpoint] + (parts + [last])); |splits| >= 3 && SshInfo(splits) == i
  {
    var splits := [i.sshUser] + ([i.endpoint] + (parts + [last]));
    hide Join, TrimSuffix, GitProvider;
    assert splits[2..|splits| - 1] == parts && splits[|splits| - 1] == last;
  }

  lemma Tail(a: string, on: string, git: string, slash: string)
    ensures a + on + git + slash == a + (on + git) + slash
  {
  }

  lemma FieldsOfSlash(slash: string, sep: char -> bool)
    requires sep('/') && (slash == "" || slash == "/")
    ensures Fields(slash, sep) == []
  {
    if slash == "/" {
      assert slash[1..] == [];
    }
  }

  lemma TrimmedTail(s: string, git: string, slash: string)
    requires Trimmed(s) && s != "" && Ending(git, slash)
    ensures Trimmed(s + git + slash)
  {
  }

  lemma PrintableSsh(i: GitRepoInfo)
    requires Printable(i) && i.isSshEndpoint
    ensures OneLine(URL(i)) && Trimmed(URL(i)) && URL(i) != "" && i.sshUser != "" && i.endpoint != "" && i.name != ""
    ensures i.isParsed && i.provider == GitProvider(i.endpoint) && !HasSuffix(i.name, ".git") && OwnerName(i) != ""
    ensures if ':' in i.endpoint then SshFields(i, SepV2) else i.owner != "" && SshFields(i, SepV1)
    ensures i.owner != "" ==> OwnerName(i) == i.owner + "/" + i.name
    ensures NoSep(i.sshUser, IsSlash)
  {
    hide GitProvider, OneLine, Trimmed, HasSuffix, IsPath;
    assert URL(i) != "";
  }

  lemma OneLineTail(s: string, git: string, slash: string)
    requires OneLine(s) && Ending(git, slash)
    ensures OneLine(s + git + slash)
  {
  }

  /** Taking the ending into the last part. */
  lemma TailInside(a: string, on: string, git: string, slash: string)
    ensures (a + on) + git + slash == a + (on + git + slash) == a + on + git + slash
  {
  }

  lemma ReadsV2(s: string, i: GitRepoInfo)
    requires Trimmed(s) && IsSshV2(s)
    requires var splits := Fields(TrimPrefix(s, "ssh://"), SepV2); |splits| >= 3 && SshInfo(splits) == i
    ensures ParseGitRepoInfo(s) == Ok(i)
  {
    TrimSpaceTrims(s);
    hide Fields, SshInfo, TrimPrefix, IsSshV2, TrimSpace, Trimmed;
  }

  lemma ReadsV1(s: string, i: GitRepoInfo)
    requires Trimmed(s) && IsSshV1(s) && !HasPrefix(s, "ssh://")
    requires var splits := Fields(s, SepV1); |splits| >= 3 && SshInfo(splits) == i
    ensures ParseGitRepoInfo(s) == Ok(i)
  {
    TrimSpaceTrims(s);
    assert !IsSshV2(s);
    hide Fields, SshInfo, TrimPrefix, IsSshV1, IsSshV2, TrimSpace, Trimmed;
  }

  lemma SpelledWithPort(i: GitRepoInfo, git: string, slash: string)
    requires Printable(i) && i.isSshEndpoint && ':' in i.endpoint && Ending(git, slash)
    ensures ParseGitRepoInfo(URL(i) + git + slash) == Ok(i)
  {
    PrintableSsh(i);
    SshUrl(i);
    hide *;
    var s, on, at := URL(i) + git + slash, OwnerName(i), i.sshUser + "@" + i.endpoint + "/";
    TrimmedTail(URL(i), git, slash);
    OneLineTail(URL(i), git, slash);
    SshInfoOfTail(i, git, slash, '/', SepV2);
    TailInside("ssh://", at + on, git, slash);
    TailInside(at, on, git, slash);
    GrammarV2(s, i.sshUser, i.endpoint, on + git + slash);
    ReadsV2(s, i);
  }

  lemma GrammarV2(s: string, user: string, endpoint: string, path: string)
    requires s == "ssh://" + (user + "@" + endpoint + "/" + path) && OneLine(s)
    requires user != "" && endpoint != "" && path != ""
    ensures IsSshV2(s) && TrimPrefix(s, "ssh://") == user + "@" + endpoint + "/" + path
  {
    var p := 6 + |user|;
    var q := p + 1 + |endpoint|;
    assert s[p] == '@' && s[q] == '/' && q + 2 <= |s|;
    assert s[..6] == "ssh://";
  }

  lemma SpelledWithoutPort(i: GitRepoInfo, git: string, slash: string)
    requires Printable(i) && i.isSshEndpoint && ':' !in i.endpoint && Ending(git, slash)
    ensures ParseGitRepoInfo(URL(i) + git + slash) == Ok(i)
  {
    PrintableSsh(i);
    SshUrl(i);
    hide *;
    NotSshScheme(i);
    var s, at := URL(i) + git + slash, i.sshUser + "@" + i.endpoint + ":";
    TrimmedTail(URL(i), git, slash);
    OneLineTail(URL(i), git, slash);
    SshInfoOfTail(i, git, slash, ':', SepV1);
    TailInside(at, i.owner + "/" + i.name, git, slash);
    TailInside(i.owner + "/", i.name, git, slash);
    NoNewPrefix(URL(i), git, slash, "ssh://");
    GrammarV1(s, i.sshUser, i.endpoint, i.owner, i.name + git + slash);
    ReadsV1(s, i);
  }

  lemma NoNewPrefix(u: string, git: string, slash: string, p: string)
    requires |u| >= |p| && !HasPrefix(u, p)
    ensures !HasPrefix(u + git + slash, p)
  {
    assert (u + git + slash)[..|p|] == u[..|p|];
  }

  lemma GrammarV1(s: string, user: string, endpoint: string, owner: string, name: string)
    requires s == user + "@" + endpoint + ":" + (owner + "/" + name) && OneLine(s)
    requires user != "" && endpoint != "" && owner != "" && name != ""
    ensures IsSshV1(s)
  {
    var p := |user|;
    var q := p + 1 + |endpoint|;
    var r := q + 1 + |owner|;
    assert s[p] == '@' && s[q] == ':' && s[r] == '/' && r + 2 <= |s|;
  }

  lemma NoUserInTail(u: string, git: string, slash: string)
    requires Ending(git, slash) && u != "" && u[|u| - 1] != '/'
    ensures IsSshV1(u + git + slash) ==> IsSshV1(u)
  {
    var s := u + git + slash;
    assert forall k :: 0 <= k < |u| ==> s[k] == u[k];
    assert forall k :: |u| <= k && k + 2 <= |s| ==> s[k] != '/';
    if IsSshV1(s) {
      var i, j, k :| 1 <= i && i + 2 <= j && j + 2 <= k && k + 2 <= |s| && s[i] == '@' && s[j] == ':' && s[k] == '/';
      assert k + 2 <= |u| && u[i] == '@' && u[j] == ':' && u[k] == '/';
    }
  }

  /** The path of an http URL with an ending. */
  lemma HttpTail(i: GitRepoInfo, git: string, slash: string)
    requires i.isParsed && !i.isSshEndpoint && HasPrefix(i.endpoint, Scheme(i))
    requires i.name != "" && NoSep(i.name, IsSlash)
    requires Ending(git, slash)
    ensures var rest := Host(i) + "/" + OwnerName(Named(i, git));
            && URL(i) + git + slash == Scheme(i) + (rest + slash)
            && TrimSuffix(rest + slash, "/") == rest
            && rest == Host(i) + "/" + OwnerName(i) + git
            && URL(i) != "" && URL(i)[|URL(i)| - 1] != '/'
  {
    HttpUrl(i);
    LastOfOwnerName(i);
    hide *;
    NamedUrl(i, git);
    TextWithTail(URL(i), Scheme(i), Host(i), OwnerName(i), git, slash);
    TrimSlash(Host(i) + "/" + OwnerName(Named(i, git)), slash);
  }

  lemma LastOfOwnerName(i: GitRepoInfo)
    requires i.name != "" && NoSep(i.name, IsSlash)
    ensures OwnerName(i) != "" && OwnerName(i)[|OwnerName(i)| - 1] != '/'
  {
    assert i.name[|i.name| - 1] != '/';
  }

  lemma TextWithTail(url: string, scheme: string, host: string, on: string, git: string, slash: string)
    requires url == scheme + (host + "/" + on) && on != "" && on[|on| - 1] != '/' && Ending(git, slash)
    ensures url + git + slash == scheme + (host + "/" + (on + git) + slash)
    ensures host + "/" + (on + git) == host + "/" + on + git && !HasSuffix(host + "/" + (on + git), "/")
    ensures url != "" && url[|url| - 1] != '/'
  {
    var rest := host + "/" + (on + git);
    assert rest[|rest| - 1] != '/';
  }

  lemma TrimSlash(rest: string, slash: string)
    requires !HasSuffix(rest, "/") && (slash == "" || slash == "/")
    ensures TrimSuffix(rest + slash, "/") == rest
  {
    assert slash == "" ==> rest + slash == rest;
    assert slash == "/" ==> (rest + slash)[..|rest|] == rest;
  }

  lemma HttpInfoOfTail(i: GitRepoInfo, git: string)
    requires i.isParsed && !i.isSshEndpoint && i.provider == GitProvider(i.endpoint) && !HasSuffix(i.name, ".git")
    requires i.sshUser == "" && i.endpoint == Scheme(i) + Host(i) && (git == "" || git == ".git")
    requires NoSep(Host(i), IsSlash) && NoSep(i.name, IsSlash)
    ensures var splits := Split(Host(i) + "/" + OwnerName(Named(i, git)));
            |splits| >= 2 && HttpInfo(Scheme(i), splits) == i
  {
    hide *;
    var owner := if i.owner == "" then "" else i.owner + "/";
    var path := Host(i) + "/" + OwnerName(Named(i, git));
    NamedUrl(i, git);
    PathIsOwned(i, owner, git);
    PathOfSplits(path, i, owner, i.name + git, git);
    PathGives(Scheme(i), path, i, owner, git);
  }

  /** The grammar of a text with a scheme and a path. */
  lemma HttpTailGrammar(i: GitRepoInfo, git: string, slash: string)
    requires Printable(i) && !i.isSshEndpoint && Ending(git, slash)
    ensures var s := URL(i) + git + slash; !IsSshV2(s) && IsHttp(s) && Trimmed(s)
  {
    PrintableText(i);
    SchemeLength(i);
    hide *;
    PathParts(i);
    TailGrammar(URL(i), Scheme(i), Path(i), i.name, git, slash);
  }

  lemma SchemeLength(i: GitRepoInfo)
    ensures |Scheme(i)| >= 7 && Scheme(i)[0] == 'h'
  {
    hide HasPrefix;
  }

  lemma TailGrammar(url: string, scheme: string, u: string, name: string, git: string, slash: string)
    requires url == scheme + u && OneLine(url) && Trimmed(url) && Ending(git, slash)
    requires |scheme| >= 7 && scheme[0] == 'h' && name != "" && |u| > |name| && u[|u| - |name| - 1] == '/'
    ensures var s := url + git + slash; !IsSshV2(s) && IsHttp(s) && Trimmed(s)
  {
    var s, rest := url + git + slash, u + git + slash;
    TrimmedTail(url, git, slash);
    hide Trimmed, IsSshV2, IsHttp;
    assert s == scheme + rest && OneLine(s);
    SlashBeforeName(s, scheme, rest, name + git + slash);
  }

  lemma NoSecondScheme(rest: string, git: string, slash: string, name: string, p: string)
    requires Ending(git, slash) && name != "" && |rest| > |name| && rest[|rest| - |name| - 1] == '/'
    requires NoSep(name, IsSlash) && HasPrefix(rest + git + slash, p)
    requires (p == "https://" || p == "http://" || p == "ssh://")
    ensures HasPrefix(rest, p)
  {
    var s := rest + git + slash;
    assert forall k :: 0 <= k < |p| ==> s[k] == p[k];
    var k := |rest| - |name| - 1;
    assert s[k] == '/';
    assert s[..|rest|] == rest;
  }

  /** What the http grammar strips from a URL with a scheme. */
  lemma HttpBare(i: GitRepoInfo, git: string, slash: string)
    requires Printable(i) && !i.isSshEndpoint && Ending(git, slash)
    ensures var s, rest := URL(i) + git + slash, Host(i) + "/" + OwnerName(Named(i, git));
            && HasPrefix(s, "http://") == HasPrefix(i.endpoint, "http://")
            && TrimPrefix(TrimPrefix(s, "http://"), "https://") == rest + slash
  {
    var rest := Host(i) + "/" + OwnerName(i);
    HttpUrl(i);
    HttpTail(i, git, slash);
    EndsInName(i);
    BareUrl(i);
    var s, scheme := URL(i) + git + slash, Scheme(i);
    assert NoSep(i.name, IsSlash) && i.name != "";
    assert scheme == "http://" ==> !HasPrefix(rest, "https://") by {
      if scheme == "http://" {
        assert URL(i)[..7] == scheme && URL(i)[7..] == rest;
      }
    }
    hide URL, Host, OwnerName;
    assert s == scheme + (rest + git + slash) && scheme in {"http://", "https://"};
    SchemePrefix(scheme, rest + git + slash);
    if scheme == "http://" {
      assert s[7..] == rest + git + slash;
      if HasPrefix(rest + git + slash, "https://") {
        NoSecondScheme(rest, git, slash, i.name, "https://");
      }
    } else {
      assert s[8..] == rest + git + slash;
    }
  }

  lemma SpelledHttp(i: GitRepoInfo, git: string, slash: string)
    requires Printable(i) && !i.isSshEndpoint && Ending(git, slash)
    ensures ParseGitRepoInfo(URL(i) + git + slash) == Ok(i)
  {
    PrintableIsPlain(i);
    PrintableText(i);
    HttpTailGrammar(i, git, slash);
    HttpBare(i, git, slash);
    PlainFacts(i);
    hide *;
    HttpTail(i, git, slash);
    NoUserInTail(URL(i), git, slash);
    HttpInfoOfTail(i, git);
    ReadsHttp(URL(i) + git + slash, i, Host(i) + "/" + OwnerName(Named(i, git)) + slash);
  }

  lemma PlainFacts(i: GitRepoInfo)
    requires PlainHttp(i)
    ensures i.isParsed && !i.isSshEndpoint && i.sshUser == "" && i.provider == GitProvider(i.endpoint)
    ensures NoSep(Host(i), IsSlash) && NoSep(i.name, IsSlash) && i.name != "" && !HasSuffix(i.name, ".git")
    ensures i.endpoint == Scheme(i) + Host(i) && HasPrefix(i.endpoint, Scheme(i))
    ensures Scheme(i) == if HasPrefix(i.endpoint, "http://") then "http://" else "https://"
  {
    assert (Scheme(i) + Host(i))[..|Scheme(i)|] == Scheme(i);
    hide GitProvider, Host, NoSep, HasSuffix;
  }

  lemma ReadsHttp(s: string, i: GitRepoInfo, bare: string)
    requires Trimmed(s) && !IsSshV2(s) && !IsSshV1(s) && IsHttp(s)
    requires TrimPrefix(TrimPrefix(s, "http://"), "https://") == bare
    requires HasPrefix(s, "http://") == HasPrefix(i.endpoint, "http://")
    requires |Split(TrimSuffix(bare, "/"))| >= 2
    requires var scheme := if HasPrefix(i.endpoint, "http://") then "http://" else "https://";
             HttpInfo(scheme, Split(TrimSuffix(bare, "/"))) == i
    ensures ParseGitRepoInfo(s) == Ok(i)
  {
    TrimSpaceTrims(s);
    hide Split, HttpInfo, HasPrefix, TrimPrefix, TrimSuffix, IsSshV1, IsSshV2, IsHttp, TrimSpace, Trimmed;
  }

  /** A printable info is read from its URL with `.git`, a slash or both behind it, and with white space
      around it. */
  lemma EndingsParse(i: GitRepoInfo, git: string, slash: string, before: string, after: string)
    requires Printable(i) && Ending(git, slash) && Blank(before) && Blank(after)
    ensures ParseGitRepoInfo(before + (URL(i) + git + slash) + after) == Ok(i)
  {
    Surrounded(before, URL(i) + git + slash, after);
    if !i.isSshEndpoint {
      SpelledHttp(i, git, slash);
    } else if ':' in i.endpoint {
      SpelledWithPort(i, git, slash);
    } else {
      SpelledWithoutPort(i, git, slash);
    }
  }

  // ------------------------------------------------------------------
  // What every accepted http text says
  // ------------------------------------------------------------------

  /** The schemes that are stripped from the beginning of the text. */
  function Schemes(url: string): string {
    if HasPrefix(url, "http://https://") then "http://https://"
    else if HasPrefix(url, "http://") then "http://"
    else if HasPrefix(url, "https://") then "https://"
    else ""
  }

  /** The path is the info's host, owner and name, with `git` behind it; an empty owner may still have
      its slash. */
  ghost predicate PathOf(path: string, i: GitRepoInfo, owner: string, git: string) {
    && (owner == i.owner + "/" || (owner == "" && i.owner == ""))
    && (git == ".git" || (git == "" && !HasSuffix(i.name, ".git")))
    && NoSep(Host(i), IsSlash) && NoSep(i.name, IsSlash)
    && path == Host(i) + "/" + owner + i.name + git
  }

  /** The text is made of schemes and such a path, with `slash` behind it. */
  ghost predicate HttpReads(url: string, i: GitRepoInfo, owner: string, git: string, slash: string) {
    var path := Host(i) + "/" + owner + i.name + git;
    && PathOf(path, i, owner, git)
    && (slash == "/" || (slash == "" && !HasSuffix(path, "/")))
    && url == Schemes(url) + (path + slash)
  }

  ghost predicate IsHttpInfo(url: string, i: GitRepoInfo) {
    && i.isParsed && !i.isSshEndpoint && i.sshUser == "" && i.provider == GitProvider(i.endpoint)
    && i.endpoint == (if HasPrefix(url, "http://") then "http://" else "https://") + Host(i)
  }

  lemma SplitPath(host: string, owner: string, last: string) returns (parts: seq<string>)
    requires NoSep(host, IsSlash) && NoSep(last, IsSlash)
    requires owner != "" ==> owner[|owner| - 1] == '/'
    ensures Split(host + "/" + owner + last) == [host] + parts + [last]
    ensures Join(parts) == if owner == "" then "" else owner[..|owner| - 1]
  {
    SplitOfWord(host);
    SplitOfWord(last);
    JoinOne("");
    hide *;
    if owner == "" {
      parts := [];
      SplitAppend(host, last);
      Unowned(host, last);
    } else {
      var o := owner[..|owner| - 1];
      parts := Split(o);
      JoinSplit(o);
      SplitAppend(o, last);
      SplitAppend(host, o + "/" + last);
      Owned(host, owner, o, last, parts);
    }
  }

  lemma Unowned(host: string, last: string)
    ensures host + "/" + "" + last == host + "/" + last && [host] + [] + [last] == [host] + [last]
  {
  }

  lemma Owned(host: string, owner: string, o: string, last: string, parts: seq<string>)
    requires owner != "" && owner[|owner| - 1] == '/' && o == owner[..|owner| - 1]
    ensures host + "/" + owner + last == host + "/" + (o + "/" + last)
    ensures [host] + (parts + [last]) == [host] + parts + [last]
  {
    assert owner == o + "/";
  }

  lemma JoinPath(splits: seq<string>) returns (owner: string)
    requires |splits| >= 2
    ensures var o := Join(splits[1..|splits| - 1]); owner == o + "/" || (owner == "" && o == "")
    ensures Join(splits) == splits[0] + "/" + owner + splits[|splits| - 1]
  {
    var mid, last := splits[1..|splits| - 1], splits[|splits| - 1];
    FirstMiddleLast(splits);
    hide Join;
    if mid == [] {
      owner := "";
      assert splits == [splits[0]] + [last];
      JoinAppend([splits[0]], [last]);
      JoinOne(splits[0]);
      JoinOne(last);
      assert splits[0] + "/" + owner + last == splits[0] + "/" + last;
    } else {
      owner := Join(mid) + "/";
      JoinAppend(mid, [last]);
      JoinAppend([splits[0]], mid + [last]);
      JoinOne(splits[0]);
      JoinOne(last);
      assert splits == [splits[0]] + (mid + [last]);
    }
  }

  lemma JoinOne(w: string)
    ensures Join([w]) == w && Join([]) == ""
  {
  }

  lemma PathGives(scheme: string, path: string, i: GitRepoInfo, owner: string, git: string)
    requires PathOf(path, i, owner, git)
    requires i.isParsed && !i.isSshEndpoint && i.sshUser == "" && i.provider == GitProvider(i.endpoint)
    requires i.endpoint == scheme + Host(i)
    ensures |Split(path)| >= 2 && HttpInfo(scheme, Split(path)) == i
  {
    PathOfParts(path, i, owner, git);
    hide PathOf, Split, Join, GitProvider, Host, TrimSuffix, NoSep, HasSuffix, HttpInfo;
    var parts := SplitPath(Host(i), owner, i.name + git);
    PartsOf(Host(i), parts, i.name + git);
    TrimGit(i.name, git);
    InfoOfParts(scheme, Host(i), parts, i.name + git, i);
  }

  lemma PathOfParts(path: string, i: GitRepoInfo, owner: string, git: string)
    requires PathOf(path, i, owner, git)
    ensures path == Host(i) + "/" + owner + (i.name + git)
    ensures NoSep(Host(i), IsSlash) && NoSep(i.name + git, IsSlash)
    ensures git == ".git" || (git == "" && !HasSuffix(i.name, ".git"))
    ensures owner != "" ==> owner[|owner| - 1] == '/' && owner[..|owner| - 1] == i.owner
    ensures owner == "" ==> i.owner == ""
  {
    hide Host, HasSuffix;
  }

  lemma PartsOf(host: string, parts: seq<string>, last: string)
    ensures var splits := [host] + parts + [last];
            |splits| >= 2 && splits[0] == host && splits[1..|splits| - 1] == parts && splits[|splits| - 1] == last
  {
  }

  lemma InfoOfParts(scheme: string, host: string, parts: seq<string>, last: string, i: GitRepoInfo)
    requires i.isParsed && !i.isSshEndpoint && i.sshUser == "" && i.provider == GitProvider(i.endpoint)
    requires i.endpoint == scheme + host && i.owner == Join(parts) && i.name == TrimSuffix(last, ".git")
    ensures HttpInfo(scheme, [host] + parts + [last]) == i
  {
    PartsOf(host, parts, last);
    hide Join, TrimSuffix, GitProvider;
  }

  lemma PathRead(scheme: string, path: string, i: GitRepoInfo) returns (owner: string, git: string)
    requires scheme == "https://" || scheme == "http://"
    requires |Split(path)| >= 2 && HttpInfo(scheme, Split(path)) == i
    ensures PathOf(path, i, owner, git) && i.endpoint == scheme + Host(i)
    ensures i.isParsed && !i.isSshEndpoint && i.sshUser == "" && i.provider == GitProvider(i.endpoint)
  {
    var splits := Split(path);
    var last := splits[|splits| - 1];
    SplitParts(path);
    assert NoSep(last, IsSlash) && NoSep(splits[0], IsSlash);
    assert i.endpoint == scheme + splits[0] && i.name == TrimSuffix(last, ".git");
    assert i.isParsed && !i.isSshEndpoint && i.sshUser == "" && i.provider == GitProvider(i.endpoint);
    assert i.owner == Join(splits[1..|splits| - 1]);
    hide *;
    owner := JoinPath(splits);
    JoinSplit(path);
    SchemeOf(scheme, splits[0], i);
    git := GitOf(last, i.name);
    PathOfSplits(path, i, owner, last, git);
  }

  lemma GitOf(last: string, name: string) returns (git: string)
    requires name == TrimSuffix(last, ".git") && NoSep(last, IsSlash)
    ensures last == name + git && NoSep(name, IsSlash) && (git == ".git" || (git == "" && !HasSuffix(name, ".git")))
  {
    git := if HasSuffix(last, ".git") then ".git" else "";
  }

  lemma PathOfSplits(path: string, i: GitRepoInfo, owner: string, last: string, git: string)
    requires path == Host(i) + "/" + owner + last && last == i.name + git
    requires owner == i.owner + "/" || (owner == "" && i.owner == "")
    requires git == ".git" || (git == "" && !HasSuffix(i.name, ".git"))
    requires NoSep(Host(i), IsSlash) && NoSep(i.name, IsSlash)
    ensures PathOf(path, i, owner, git)
  {
    hide HasSuffix, NoSep, Host;
  }

  lemma Stripped(url: string)
    ensures url == Schemes(url) + TrimPrefix(TrimPrefix(url, "http://"), "https://")
  {
    var a, b := "http://", "https://";
    assert "http://https://" == a + b;
    PrefixOfBoth(a, b, url);
    hide HasPrefix;
  }

  lemma PrefixOfBoth(a: string, b: string, url: string)
    ensures HasPrefix(url, a) ==> url == a + url[|a|..]
    ensures HasPrefix(url, b) ==> url == b + url[|b|..]
    ensures HasPrefix(url, a + b) <==> HasPrefix(url, a) && HasPrefix(url[|a|..], b)
    ensures HasPrefix(url, a + b) ==> url == a + b + url[|a|..][|b|..]
  {
    if HasPrefix(url, a + b) {
      assert url[..|a|] == url[..|a + b|][..|a|] == a;
      assert url[|a|..][..|b|] == url[..|a + b|][|a|..] == b;
    }
    if HasPrefix(url, a) && HasPrefix(url[|a|..], b) {
      assert url == a + (b + url[|a|..][|b|..]);
    }
  }

  /** For every text that no ssh grammar claims: it is read as `i` exactly when it is made of schemes and
      the host, owner and name of `i`, with or without `.git` and a slash behind it. */
  lemma HttpIff(url: string, i: GitRepoInfo)
    requires !IsSshV2(url) && !IsSshV1(url)
    ensures ParseTrimmed(url) == Ok(i) <==>
            IsHttp(url) && IsHttpInfo(url, i) && exists owner, git, slash :: HttpReads(url, i, owner, git, slash)
  {
    var scheme := if HasPrefix(url, "http://") then "http://" else "https://";
    var bare := TrimPrefix(TrimPrefix(url, "http://"), "https://");
    Stripped(url);
    hide Split, Fields, Join, TrimPrefix, HasPrefix, IsHttp, IsSshV1, IsSshV2, GitProvider, HttpInfo, SshInfo,
        Host, PathOf;
    if ParseTrimmed(url) == Ok(i) {
      var path := TrimSuffix(bare, "/");
      var owner, git := PathRead(scheme, path, i);
      var slash := if HasSuffix(bare, "/") then "/" else "";
      assert bare == path + slash;
      PathIs(path, i, owner, git);
      assert HttpReads(url, i, owner, git, slash);
    }
    if IsHttp(url) && IsHttpInfo(url, i) && exists owner, git, slash :: HttpReads(url, i, owner, git, slash) {
      var owner, git, slash :| HttpReads(url, i, owner, git, slash);
      var path := Host(i) + "/" + owner + i.name + git;
      SamePrefix(Schemes(url), bare, path + slash);
      assert bare == path + slash;
      assert TrimSuffix(bare, "/") == path;
      PathGives(scheme, path, i, owner, git);
    }
  }

  lemma PathIs(path: string, i: GitRepoInfo, owner: string, git: string)
    requires PathOf(path, i, owner, git)
    ensures path == Host(i) + "/" + owner + i.name + git
  {
  }

  lemma SamePrefix(p: string, a: string, b: string)
    requires p + a == p + b
    ensures a == b
  {
    assert (p + a)[|p|..] == a && (p + b)[|p|..] == b;
  }

  // ------------------------------------------------------------------
  // What every accepted ssh text says
  // ------------------------------------------------------------------

  /** The words of the text are the info's user and endpoint, the words of its owner, and its name, with
      `git` behind it. */
  ghost predicate SshReads(words: seq<string>, sep: char -> bool, i: GitRepoInfo, git: string) {
    && i.isParsed && i.isSshEndpoint && i.provider == GitProvider(i.endpoint) && IsPath(i.owner, sep)
    && (git == ".git" || (git == "" && !HasSuffix(i.name, ".git")))
    && words == [i.sshUser, i.endpoint] + Fields(i.owner, sep) + [i.name + git]
  }

  lemma {:induction false} FieldsJoin(words: seq<string>, sep: char -> bool)
    requires sep('/') && forall k :: 0 <= k < |words| ==> IsWord(words[k], sep)
    ensures Fields(Join(words), sep) == words
  {
    if |words| == 1 {
      assert words == [words[0]];
      FieldsOfWord(words[0], sep);
    } else if |words| > 1 {
      assert words == [words[0]] + words[1..] && IsWord(words[0], sep);
      hide Fields, Join, IsWord;
      FieldsJoin(words[1..], sep);
      JoinWord(words[0], words[1..]);
      WordThen(words[0], '/', Join(words[1..]), sep);
    }
  }

  lemma SshWordsIff(words: seq<string>, sep: char -> bool, i: GitRepoInfo)
    requires sep('/') && forall k :: 0 <= k < |words| ==> IsWord(words[k], sep)
    ensures (|words| >= 3 && SshInfo(words) == i) <==> exists git :: SshReads(words, sep, i, git)
  {
    if |words| >= 3 && SshInfo(words) == i {
      var mid, last := words[2..|words| - 1], words[|words| - 1];
      FieldsJoin(mid, sep);
      JoinIsPath(mid, sep);
      hide Fields, Join, IsPath, GitProvider, IsWord;
      var git := if HasSuffix(last, ".git") then ".git" else "";
      assert words == [words[0], words[1]] + mid + [last] && last == i.name + git;
      assert SshReads(words, sep, i, git);
    }
    if git :| SshReads(words, sep, i, git) {
      JoinFields(i.owner, sep);
      TrimGit(i.name, git);
      hide Fields, Join, IsPath, GitProvider, IsWord, TrimSuffix;
      assert words[2..|words| - 1] == Fields(i.owner, sep);
    }
  }

  function SshSep(url: string): char -> bool {
    if IsSshV2(url) then SepV2 else SepV1
  }

  /** The words that an ssh text is cut into. */
  function SshWords(url: string): seq<string> {
    if IsSshV2(url) then Fields(TrimPrefix(url, "ssh://"), SepV2) else Fields(url, SepV1)
  }

  /** For every text that an ssh grammar claims: it is read as `i` exactly when its words are the user,
      endpoint, owner and name of `i`, with or without `.git` behind it. */
  lemma SshIff(url: string, i: GitRepoInfo)
    requires IsSshV2(url) || IsSshV1(url)
    ensures ParseTrimmed(url) == Ok(i) <==>
            exists git :: SshReads(SshWords(url), SshSep(url), i, git)
  {
    FieldsAreWords(TrimPrefix(url, "ssh://"), SepV2);
    FieldsAreWords(url, SepV1);
    SshWordsIff(SshWords(url), SshSep(url), i);
    hide Fields, Join, IsSshV1, IsSshV2, SshReads, SshInfo, IsWord, TrimPrefix;
  }

  lemma {:induction false} SplitCuts(s: string)
    ensures |Split(s)| >= 2 <==> '/' in s
  {
    var k := WordLength(s, IsSlash);
    assert k < |s| ==> s[k] == '/';
    assert '/' in s ==> exists j :: 0 <= j < |s| && IsSlash(s[j]);
  }

  /** Which texts are refused, and how. */
  lemma RefusedIff(url: string)
    ensures ParseTrimmed(url) == Err(UnknownParseError) <==> !IsSshV2(url) && !IsSshV1(url) && !IsHttp(url)
    ensures ParseTrimmed(url) == Err(InvalidGitUrl) <==>
            if IsSshV2(url) || IsSshV1(url) then |SshWords(url)| < 3
            else IsHttp(url) && '/' !in TrimSuffix(TrimPrefix(TrimPrefix(url, "http://"), "https://"), "/")
  {
    SplitCuts(TrimSuffix(TrimPrefix(TrimPrefix(url, "http://"), "https://"), "/"));
    hide Fields, Split, IsSshV1, IsSshV2, IsHttp, TrimPrefix, TrimSuffix, SshInfo, HttpInfo;
  }

  // ------------------------------------------------------------------
  // Without a scheme
  // ------------------------------------------------------------------

  function Path(i: GitRepoInfo): string {
    Host(i) + "/" + OwnerName(i)
  }

  /** The info has the scheme that is added, and nothing else claims the text without it. */
  predicate SchemeMayBeLeftOut(i: GitRepoInfo) {
    && HasPrefix(i.endpoint, "https://") && Trimmed(Path(i)) && !IsSshV2(Path(i)) && HasInnerSlash(Path(i), 0)
    && !HasPrefix(Path(i), "http://") && !HasPrefix(Path(i), "https://")
  }

  /** An ending changes nothing about the grammars. */
  lemma GrammarOfTail(u: string, name: string, git: string, slash: string)
    requires Ending(git, slash) && name != "" && |u| > |name| && u[|u| - |name| - 1] == '/'
    requires NoSep(name, IsSlash) && u[|u| - |name|..] == name
    ensures var s := u + git + slash;
            && (HasInnerSlash(s, 0) <==> HasInnerSlash(u, 0)) && (IsSshV2(s) <==> IsSshV2(u))
            && (HasPrefix(s, "http://") <==> HasPrefix(u, "http://"))
            && (HasPrefix(s, "https://") <==> HasPrefix(u, "https://"))
  {
    forall p | p == "http://" || p == "https://" || p == "ssh://"
      ensures HasPrefix(u + git + slash, p) <==> HasPrefix(u, p)
    {
      if HasPrefix(u + git + slash, p) {
        NoSecondScheme(u, git, slash, name, p);
      }
      if HasPrefix(u, p) {
        assert (u + git + slash)[..|p|] == u[..|p|];
      }
    }
    assert u[|u| - 1] == name[|name| - 1];
    hide HasPrefix;
    SlashesOfTail(u, git, slash);
  }

  lemma SlashesOfTail(u: string, git: string, slash: string)
    requires Ending(git, slash) && u != "" && u[|u| - 1] != '/'
    requires HasPrefix(u + git + slash, "ssh://") <==> HasPrefix(u, "ssh://")
    ensures var s := u + git + slash;
            (HasInnerSlash(s, 0) <==> HasInnerSlash(u, 0)) && (IsSshV2(s) <==> IsSshV2(u))
  {
    var s := u + git + slash;
    assert forall k :: 0 <= k < |u| ==> s[k] == u[k];
    assert forall k :: |u| <= k && k + 2 <= |s| ==> s[k] != '/';
    assert OneLine(s) <==> OneLine(u);
    if IsSshV2(s) {
      var i, k :| 7 <= i && i + 2 <= k && k + 2 <= |s| && s[i] == '@' && s[k] == '/';
      assert k + 2 <= |u| && u[i] == '@' && u[k] == '/';
    }
    if HasInnerSlash(s, 0) {
      var k :| 0 + 1 <= k && k + 2 <= |s| && s[k] == '/';
      assert k + 2 <= |u| && u[k] == '/';
    }
  }

  lemma NoUserBehindScheme(scheme: string, u: string)
    requires IsSshV1(u) && OneLine(scheme)
    ensures IsSshV1(scheme + u)
  {
    var s, n := scheme + u, |scheme|;
    var i, j, k :| 1 <= i && i + 2 <= j && j + 2 <= k && k + 2 <= |u| && u[i] == '@' && u[j] == ':' && u[k] == '/';
    assert s[n + i] == '@' && s[n + j] == ':' && s[n + k] == '/';
  }

  lemma PathParts(i: GitRepoInfo)
    requires i.name != ""
    ensures var u := Path(i);
            && |u| > |i.name| && u[|u| - |i.name| - 1] == '/' && u[|u| - |i.name|..] == i.name
            && u[|u| - 1] == i.name[|i.name| - 1]
  {
    hide Host;
    EndsInName(i);
    assert Path(i)[|Path(i)| - 1] == i.name[|i.name| - 1];
  }

  /** What a printable http info says about its text without the scheme. */
  lemma PathOfPrintable(i: GitRepoInfo, git: string, slash: string)
    requires Printable(i) && !i.isSshEndpoint && Ending(git, slash)
    ensures var u, s := Path(i), Path(i) + git + slash;
            && OneLine(s) && !IsSshV1(s) && u != "" && s != "" && !IsSpace(s[|s| - 1]) && !IsSpace(u[|u| - 1])
            && (HasInnerSlash(s, 0) <==> HasInnerSlash(u, 0)) && (IsSshV2(s) <==> IsSshV2(u))
            && (HasPrefix(s, "http://") <==> HasPrefix(u, "http://"))
            && (HasPrefix(s, "https://") <==> HasPrefix(u, "https://"))
  {
    hide *;
    PrintableText(i);
    PathParts(i);
    GrammarOfTail(Path(i), i.name, git, slash);
    BehindScheme(URL(i), Scheme(i), Path(i), git, slash);
    NoUserInTail(Path(i), git, slash);
  }

  lemma PrintableText(i: GitRepoInfo)
    requires Printable(i) && !i.isSshEndpoint
    ensures OneLine(URL(i)) && Trimmed(URL(i)) && !IsSshV1(URL(i)) && OneLine(Scheme(i))
    ensures i.name != "" && NoSep(i.name, IsSlash) && i.name[|i.name| - 1] != '/'
    ensures URL(i) == Scheme(i) + Path(i)
  {
    HttpUrl(i);
    hide URL, Host, OwnerName, IsSshV1, Trimmed, GitProvider;
  }

  lemma BehindScheme(url: string, scheme: string, u: string, git: string, slash: string)
    requires url == scheme + u && u != "" && Ending(git, slash) && OneLine(scheme)
    requires OneLine(url) && Trimmed(url) && !IsSshV1(url)
    ensures !IsSshV1(u) && OneLine(u + git + slash)
    ensures !IsSpace(u[|u| - 1]) && !IsSpace((u + git + slash)[|u + git + slash| - 1])
  {
    assert forall k :: 0 <= k < |u| ==> u[k] == url[|scheme| + k];
    if IsSshV1(u) {
      NoUserBehindScheme(scheme, u);
    }
  }

  /** Where the scheme may be left out, and only there, the rest is read back too, with any ending. */
  lemma WithoutScheme(i: GitRepoInfo, git: string, slash: string)
    requires Printable(i) && !i.isSshEndpoint && Ending(git, slash)
    ensures ParseGitRepoInfo(Path(i) + git + slash) == Ok(i) <==> SchemeMayBeLeftOut(i)
  {
    hide *;
    if SchemeMayBeLeftOut(i) {
      LeftOut(i, git, slash);
    }
    if ParseGitRepoInfo(Path(i) + git + slash) == Ok(i) {
      OnlyLeftOut(i, git, slash);
    }
  }

  predicate PlainHttp(i: GitRepoInfo) {
    && i.isParsed && !i.isSshEndpoint && i.sshUser == "" && i.provider == GitProvider(i.endpoint)
    && NoSep(Host(i), IsSlash) && NoSep(i.name, IsSlash) && i.name != "" && !HasSuffix(i.name, ".git")
    && i.endpoint == Scheme(i) + Host(i)
  }

  lemma PrintableIsPlain(i: GitRepoInfo)
    requires Printable(i) && !i.isSshEndpoint
    ensures PlainHttp(i)
  {
  }

  lemma PathReads(i: GitRepoInfo, s: string, git: string, slash: string)
    requires PlainHttp(i) && Ending(git, slash) && s == Path(i) + git + slash
    requires !HasPrefix(s, "http://") && !HasPrefix(s, "https://")
    ensures exists owner :: HttpReads(s, i, owner, git, slash)
    ensures HasPrefix(i.endpoint, "https://") ==> IsHttpInfo(s, i)
  {
    var owner := if i.owner == "" then "" else i.owner + "/";
    SchemePrefix(Scheme(i), Host(i));
    assert NoSep(Host(i), IsSlash) && NoSep(i.name, IsSlash) && i.name[|i.name| - 1] != '/';
    assert i.provider == GitProvider(i.endpoint) && Scheme(i) in {"https://", "http://"};
    PathParts(i);
    EndsPlain(Path(i), git);
    NoSchemes(s);
    hide HasPrefix, HasSuffix, Host, Scheme, GitProvider, Schemes, NoSep;
    PathIsOwned(i, owner, git);
    PathOfSplits(Path(i) + git, i, owner, i.name + git, git);
    assert HttpReads(s, i, owner, git, slash);
  }

  lemma PathIsOwned(i: GitRepoInfo, owner: string, git: string)
    requires owner == if i.owner == "" then "" else i.owner + "/"
    ensures Host(i) + "/" + (OwnerName(i) + git) == Host(i) + "/" + owner + (i.name + git)
    ensures Path(i) + git == Host(i) + "/" + owner + (i.name + git)
    ensures Path(i) + git == Host(i) + "/" + owner + i.name + git
  {
    hide Host;
    assert OwnerName(i) == owner + i.name;
  }

  lemma LeftOut(i: GitRepoInfo, git: string, slash: string)
    requires Printable(i) && !i.isSshEndpoint && Ending(git, slash) && SchemeMayBeLeftOut(i)
    ensures ParseGitRepoInfo(Path(i) + git + slash) == Ok(i)
  {
    var s := Path(i) + git + slash;
    PathOfPrintable(i, git, slash);
    PrintableIsPlain(i);
    TrimmedTail(Path(i), git, slash);
    TrimSpaceTrims(s);
    hide IsSshV1, IsSshV2, HasInnerSlash, HasPrefix, URL, Path, Printable, PlainHttp, Trimmed, HttpReads, IsHttpInfo;
    PathReads(i, s, git, slash);
    assert IsHttp(s) && TrimSpace(s) == s;
    hide IsHttp, TrimSpace, ParseTrimmed;
    HttpIff(s, i);
  }

  lemma EndsPlain(u: string, git: string)
    requires u != "" && u[|u| - 1] != '/' && (git == "" || git == ".git")
    ensures !HasSuffix(u + git, "/")
  {
    assert (u + git)[|u + git| - 1] != '/';
  }

  lemma NoSchemes(s: string)
    requires !HasPrefix(s, "http://") && !HasPrefix(s, "https://")
    ensures Schemes(s) == "" && s == "" + s
  {
    assert "http://https://"[..7] == "http://" && (|s| >= 15 ==> s[..15][..7] == s[..7]);
  }

  lemma OnlyLeftOut(i: GitRepoInfo, git: string, slash: string)
    requires Printable(i) && !i.isSshEndpoint && Ending(git, slash)
    requires ParseGitRepoInfo(Path(i) + git + slash) == Ok(i)
    ensures SchemeMayBeLeftOut(i)
  {
    hide *;
    var s := Path(i) + git + slash;
    var t := TrimSpace(s);
    TrimSpaceTrims(s);
    TrimmedIsParsed(s, i);
    NotSshRead(t, i);
    PathOfPrintable(i, git, slash);
    HttpIff(t, i);
    var owner, git', slash' :| HttpReads(t, i, owner, git', slash');
    ReadsPath(t, i, owner, git', slash');
    PlainStart(s, t, Path(i), git, slash);
    SchemeIsHttps(t, i);
    HttpGrammarOf(t);
    Collect(i);
  }

  lemma TrimmedIsParsed(s: string, i: GitRepoInfo)
    requires ParseGitRepoInfo(s) == Ok(i)
    ensures ParseTrimmed(TrimSpace(s)) == Ok(i)
  {
    hide ParseTrimmed, TrimSpace;
  }

  lemma Collect(i: GitRepoInfo)
    requires HasPrefix(i.endpoint, "https://") && Trimmed(Path(i)) && !IsSshV2(Path(i)) && HasInnerSlash(Path(i), 0)
    requires !HasPrefix(Path(i), "http://") && !HasPrefix(Path(i), "https://")
    ensures SchemeMayBeLeftOut(i)
  {
    hide HasPrefix, Path, IsSshV2, HasInnerSlash, Trimmed;
  }

  lemma HttpGrammarOf(t: string)
    requires IsHttp(t) && !HasPrefix(t, "http://") && !HasPrefix(t, "https://")
    ensures HasInnerSlash(t, 0)
  {
    hide HasInnerSlash, HasPrefix, OneLine;
  }

  lemma SchemeIsHttps(t: string, i: GitRepoInfo)
    requires IsHttpInfo(t, i) && !HasPrefix(t, "http://")
    ensures HasPrefix(i.endpoint, "https://")
  {
    hide GitProvider, Host;
  }

  /** A text that is read as `i` has room for its path, and starts like it if it has no scheme. */
  lemma ReadsPath(t: string, i: GitRepoInfo, owner: string, git: string, slash: string)
    requires HttpReads(t, i, owner, git, slash)
    ensures |t| >= |Schemes(t)| + |Path(i)| && Path(i) != "" && t != ""
    ensures Schemes(t) == "" ==> t[0] == Path(i)[0]
    ensures if Schemes(t) == "" then !HasPrefix(t, "http://") && !HasPrefix(t, "https://") else |Schemes(t)| >= 7
  {
    hide Host, HasPrefix;
    var path := Host(i) + "/" + owner + i.name + git;
    assert path[0] == Path(i)[0];
  }

  /** Nothing was stripped but perhaps white space in front, and that was not there either. */
  lemma PlainStart(s: string, t: string, u: string, git: string, slash: string)
    requires s == u + git + slash && t == TrimSpace(s) && Ending(git, slash) && Trimmed(t) && u != "" && t != ""
    requires |t| <= |s| && |t| >= |Schemes(t)| + |u| && (Trimmed(s) ==> t == s)
    requires !IsSpace(s[|s| - 1]) && !IsSpace(u[|u| - 1])
    requires Schemes(t) == "" ==> t[0] == u[0]
    requires Schemes(t) == "" || |Schemes(t)| >= 7
    ensures Schemes(t) == "" && t == s && Trimmed(u)
  {
    hide Schemes, TrimSpace, IsSpace;
  }

  lemma NotSshRead(t: string, i: GitRepoInfo)
    requires ParseTrimmed(t) == Ok(i) && !i.isSshEndpoint
    ensures !IsSshV2(t) && !IsSshV1(t)
  {
    hide Fields, Split, IsSshV1, IsSshV2, IsHttp;
  }
}
