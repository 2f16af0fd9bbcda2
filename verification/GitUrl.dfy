/** git_manager/parser.go: three overlapping URL grammars tried in order, and the printer.
    The last section is the copy of the printer in swiftwave_service/core/deployment.operations.go. */
module GitUrl {
  import opened Wrappers
  import opened Text

  datatype ParseError = UnknownParseError | InvalidGitUrl

  datatype GitRepoInfo = GitRepoInfo(
    isParsed: bool,
    provider: string,
    owner: string,
    name: string,
    endpoint: string,
    sshUser: string,
    isSshEndpoint: bool)

  // ------------------------------------------------------------------
  // The three grammars.  A `.` of the regular expressions is any character but a newline.
  // ------------------------------------------------------------------

  predicate OneLine(s: string) {
    forall i :: 0 <= i < |s| ==> s[i] != '\n'
  }

  /** `^.+@.+\:.+\/.+$` */
  predicate IsSshV1(s: string) {
    OneLine(s) &&
    exists i, j, k :: 1 <= i && i + 2 <= j && j + 2 <= k && k + 2 <= |s| && s[i] == '@' && s[j] == ':' && s[k] == '/'
  }

  /** `^ssh:\/\/.+@.+\/.+$` */
  predicate IsSshV2(s: string) {
    OneLine(s) && HasPrefix(s, "ssh://") &&
    exists i, k :: 7 <= i && i + 2 <= k && k + 2 <= |s| && s[i] == '@' && s[k] == '/'
  }

  /** `.+/.+` from position `o` on */
  predicate HasInnerSlash(s: string, o: nat) {
    exists k :: o + 1 <= k && k + 2 <= |s| && s[k] == '/'
  }

  /** `^(https://|http://|).+/.+$` */
  predicate IsHttp(s: string) {
    OneLine(s) &&
    ((HasPrefix(s, "https://") && HasInnerSlash(s, 8)) ||
     (HasPrefix(s, "http://") && HasInnerSlash(s, 7)) || HasInnerSlash(s, 0))
  }

  predicate SepV1(c: char) { c == '@' || c == ':' || c == '/' }

  predicate SepV2(c: char) { c == '@' || c == '/' }

  function GitProvider(endpoint: string): string {
    if Contains(endpoint, "github.com") then "github"
    else if Contains(endpoint, "gitlab.com") then "gitlab"
    else if Contains(endpoint, "bitbucket.org") then "bitbucket"
    else endpoint
  }

  /** The info that a user, an endpoint and the remaining parts make up. */
  function SshInfo(splits: seq<string>): GitRepoInfo
    requires |splits| >= 3
  {
    GitRepoInfo(true, GitProvider(splits[1]), Join(splits[2..|splits| - 1]), TrimSuffix(splits[|splits| - 1], ".git"),
        splits[1], splits[0], true)
  }

  function HttpInfo(scheme: string, splits: seq<string>): GitRepoInfo
    requires |splits| >= 2
  {
    var endpoint := scheme + splits[0];
    GitRepoInfo(true, GitProvider(endpoint), Join(splits[1..|splits| - 1]), TrimSuffix(splits[|splits| - 1], ".git"),
        endpoint, "", false)
  }

  function ParseTrimmed(url: string): Result<GitRepoInfo, ParseError> {
    if IsSshV2(url) then
      var splits := Fields(TrimPrefix(url, "ssh://"), SepV2);
      if |splits| < 3 then Err(InvalidGitUrl) else Ok(SshInfo(splits))
    else if IsSshV1(url) then
      var splits := Fields(url, SepV1);
      if |splits| < 3 then Err(InvalidGitUrl) else Ok(SshInfo(splits))
    else if IsHttp(url) then
      var scheme := if HasPrefix(url, "http://") then "http://" else "https://";
      var bare := TrimPrefix(TrimPrefix(url, "http://"), "https://");
      var splits := Split(TrimSuffix(bare, "/"));
      if |splits| < 2 then Err(InvalidGitUrl) else Ok(HttpInfo(scheme, splits))
    else Err(UnknownParseError)
  }

  function ParseGitRepoInfo(gitUrl: string): Result<GitRepoInfo, ParseError> {
    ParseTrimmed(TrimSpace(gitUrl))
  }

  function URL(i: GitRepoInfo): string {
    if !i.isParsed then ""
    else if i.isSshEndpoint then
      if i.owner == "" then
        if ':' in i.endpoint then "ssh://" + i.sshUser + "@" + i.endpoint + "/" + i.name
        else i.sshUser + "@" + i.endpoint + ":" + i.name
      else
        if ':' in i.endpoint then "ssh://" + i.sshUser + "@" + i.endpoint + "/" + i.owner + "/" + i.name
        else i.sshUser + "@" + i.endpoint + ":" + i.owner + "/" + i.name
    else
      if i.owner == "" then i.endpoint + "/" + i.name
      else i.endpoint + "/" + i.owner + "/" + i.name
  }

  // ------------------------------------------------------------------
  // Which infos survive printing and parsing
  // ------------------------------------------------------------------

  /** The fields of an ssh info that hold no separator of the grammar that reads them back. */
  predicate SshFields(i: GitRepoInfo, sep: char -> bool) {
    IsWord(i.sshUser, sep) && IsWord(i.endpoint, sep) && IsPath(i.owner, sep) && NoSep(i.name, sep)
  }

  predicate HttpFields(i: GitRepoInfo) {
    && i.sshUser == ""
    && (HasPrefix(i.endpoint, "https://") || HasPrefix(i.endpoint, "http://"))
    && NoSep(Host(i), IsSlash) && NoSep(i.name, IsSlash)
    && !IsSshV1(URL(i))
    && (HasPrefix(i.endpoint, "http://") ==> !HasPrefix(TrimPrefix(URL(i), "http://"), "https://"))
  }

  function Scheme(i: GitRepoInfo): string {
    if HasPrefix(i.endpoint, "http://") then "http://" else "https://"
  }

  function Host(i: GitRepoInfo): string {
    TrimPrefix(i.endpoint, Scheme(i))
  }

  /** An ssh endpoint without a port needs an owner, and no colon anywhere; an http URL must not
      look like `user@host:path/name`. */
  predicate Printable(i: GitRepoInfo) {
    && i.isParsed
    && i.provider == GitProvider(i.endpoint)
    && OneLine(URL(i)) && Trimmed(URL(i))
    && i.name != "" && !HasSuffix(i.name, ".git")
    && if !i.isSshEndpoint then HttpFields(i)
       else if ':' in i.endpoint then SshFields(i, SepV2)
       else i.owner != "" && SshFields(i, SepV1)
  }

  // ------------------------------------------------------------------
  // Ssh URLs
  // ------------------------------------------------------------------

  lemma WordThen(w: string, c: char, r: string, sep: char -> bool)
    requires IsWord(w, sep) && sep(c)
    ensures Fields(w + [c] + r, sep) == [w] + Fields(r, sep)
  {
    FieldsAppend(w, [c] + r, sep);
    FieldsOfWord(w, sep);
    assert w + [c] + r == w + ([c] + r);
    assert ([c] + r)[1..] == r;
  }

  /** The path part of the printed text. */
  function OwnerName(i: GitRepoInfo): string {
    if i.owner == "" then i.name else i.owner + "/" + i.name
  }

  lemma PathFields(i: GitRepoInfo, sep: char -> bool)
    requires IsPath(i.owner, sep) && IsWord(i.name, sep) && sep('/')
    ensures Fields(OwnerName(i), sep) == Fields(i.owner, sep) + [i.name]
  {
    FieldsOfWord(i.name, sep);
    FieldsBehindSlash(i.name, sep);
    if i.owner == "" {
      assert Fields("", sep) + [i.name] == [i.name];
    } else {
      hide Fields, IsPath, IsWord;
      FieldsAppend(i.owner, "/" + i.name, sep);
      assert i.owner + "/" + i.name == i.owner + ("/" + i.name);
    }
  }

  lemma FieldsBehindSlash(s: string, sep: char -> bool)
    requires sep('/')
    ensures Fields("/" + s, sep) == Fields(s, sep)
  {
    assert ("/" + s)[1..] == s;
  }

  lemma SshSplits(i: GitRepoInfo, c: char, sep: char -> bool)
    requires SshFields(i, sep) && i.name != "" && sep('/') && sep('@') && sep(c)
    ensures Fields(i.sshUser + "@" + i.endpoint + [c] + OwnerName(i), sep) ==
             [i.sshUser] + ([i.endpoint] + (Fields(i.owner, sep) + [i.name]))
  {
    var u, e, on := i.sshUser, i.endpoint, OwnerName(i);
    PathFields(i, sep);
    WordThen(u, '@', e + [c] + on, sep);
    WordThen(e, c, on, sep);
    hide *;
    assert u + "@" + e + [c] + on == u + ['@'] + (e + [c] + on);
  }

  lemma SshInfoOfParts(i: GitRepoInfo, parts: seq<string>, splits: seq<string>)
    requires i.isParsed && i.isSshEndpoint && i.provider == GitProvider(i.endpoint) && !HasSuffix(i.name, ".git")
    requires splits == [i.sshUser] + ([i.endpoint] + (parts + [i.name])) && Join(parts) == i.owner
    ensures |splits| >= 3 && SshInfo(splits) == i
  {
    assert splits[2..|splits| - 1] == parts;
  }

  lemma SshInfoOfFields(i: GitRepoInfo, c: char, sep: char -> bool)
    requires SshFields(i, sep) && i.name != "" && sep('/') && sep('@') && sep(c)
    requires i.isParsed && i.isSshEndpoint && i.provider == GitProvider(i.endpoint) && !HasSuffix(i.name, ".git")
    ensures var splits := Fields(i.sshUser + "@" + i.endpoint + [c] + OwnerName(i), sep);
            |splits| >= 3 && SshInfo(splits) == i
  {
    SshSplits(i, c, sep);
    JoinFields(i.owner, sep);
    SshInfoOfParts(i, Fields(i.owner, sep), Fields(i.sshUser + "@" + i.endpoint + [c] + OwnerName(i), sep));
  }

  /** The printed text of an ssh info. */
  lemma SshUrl(i: GitRepoInfo)
    requires i.isParsed && i.isSshEndpoint
    ensures ':' in i.endpoint ==> URL(i) == "ssh://" + (i.sshUser + "@" + i.endpoint + "/" + OwnerName(i))
    ensures ':' !in i.endpoint ==> URL(i) == i.sshUser + "@" + i.endpoint + ":" + OwnerName(i)
  {
  }

  lemma ReparseWithPort(i: GitRepoInfo)
    requires Printable(i) && i.isSshEndpoint && ':' in i.endpoint
    ensures ParseGitRepoInfo(URL(i)) == Ok(i)
  {
    SshUrl(i);
    TrimSpaceTrims(URL(i));
    var s, p := URL(i), 6 + |i.sshUser|;
    var q := p + 1 + |i.endpoint|;
    assert s[p] == '@' && s[q] == '/' && q + 2 <= |s|;
    assert IsSshV2(s);
    assert TrimPrefix(s, "ssh://") == i.sshUser + "@" + i.endpoint + "/" + OwnerName(i);
    SshInfoOfFields(i, '/', SepV2);
  }

  lemma NotSshScheme(i: GitRepoInfo)
    requires i.isParsed && i.isSshEndpoint && ':' !in i.endpoint && NoSep(i.sshUser, IsSlash)
    ensures !HasPrefix(URL(i), "ssh://")
  {
    SshUrl(i);
    var s, u, scheme := URL(i), i.sshUser, "ssh://";
    var k := if |u| < 6 then |u| else 4;
    assert s[k] == if |u| < 6 then '@' else u[4];
    assert |s| >= 6 ==> s[..6][k] != scheme[k];
  }

  lemma ReparseWithoutPort(i: GitRepoInfo)
    requires Printable(i) && i.isSshEndpoint && ':' !in i.endpoint
    ensures ParseGitRepoInfo(URL(i)) == Ok(i)
  {
    SshUrl(i);
    TrimSpaceTrims(URL(i));
    NotSshScheme(i);
    var s, p := URL(i), |i.sshUser|;
    var q := p + 1 + |i.endpoint|;
    var r := q + 1 + |i.owner|;
    assert s[p] == '@' && s[q] == ':' && s[r] == '/' && r + 2 <= |s|;
    assert IsSshV1(s);
    SshInfoOfFields(i, ':', SepV1);
  }

  // ------------------------------------------------------------------
  // Http URLs
  // ------------------------------------------------------------------

  lemma HttpUrl(i: GitRepoInfo)
    requires i.isParsed && !i.isSshEndpoint && HasPrefix(i.endpoint, Scheme(i))
    ensures URL(i) == Scheme(i) + (Host(i) + "/" + OwnerName(i))
  {
    assert i.endpoint == Scheme(i) + Host(i);
  }

  lemma HttpSplits(i: GitRepoInfo)
    requires NoSep(Host(i), IsSlash) && NoSep(i.name, IsSlash)
    ensures Split(Host(i) + "/" + OwnerName(i)) == [Host(i)] + (if i.owner == "" then [] else Split(i.owner)) + [i.name]
  {
    SplitOfWord(i.name);
    SplitOfWord(Host(i));
    SplitAppend(Host(i), OwnerName(i));
    if i.owner != "" {
      SplitAppend(i.owner, i.name);
    }
  }

  lemma HttpInfoOfParts(i: GitRepoInfo, parts: seq<string>, splits: seq<string>)
    requires i.isParsed && !i.isSshEndpoint && i.provider == GitProvider(i.endpoint) && !HasSuffix(i.name, ".git")
    requires i.sshUser == "" && i.endpoint == Scheme(i) + Host(i)
    requires splits == [Host(i)] + parts + [i.name] && Join(parts) == i.owner
    ensures |splits| >= 2 && HttpInfo(Scheme(i), splits) == i
  {
    assert splits[1..|splits| - 1] == parts;
  }

  lemma HttpGrammar(i: GitRepoInfo)
    requires Printable(i) && !i.isSshEndpoint
    ensures !IsSshV2(URL(i)) && IsHttp(URL(i))
  {
    HttpUrl(i);
    var s, scheme, rest := URL(i), Scheme(i), Host(i) + "/" + OwnerName(i);
    assert OneLine(s) && i.name != "" && |scheme| >= 7 && scheme[0] == 'h';
    EndsInName(i);
    hide *;
    SlashBeforeName(s, scheme, rest, i.name);
  }

  lemma EndsInName(i: GitRepoInfo)
    ensures var rest := Host(i) + "/" + OwnerName(i); |rest| > |i.name| && rest[|rest| - |i.name| - 1] == '/'
  {
    hide Host;
    if i.owner != "" {
      assert OwnerName(i)[|i.owner|] == '/';
    }
  }

  lemma SlashBeforeName(s: string, scheme: string, rest: string, name: string)
    requires s == scheme + rest && OneLine(s) && |scheme| >= 7 && scheme[0] == 'h'
    requires name != "" && |rest| > |name| && rest[|rest| - |name| - 1] == '/'
    ensures !IsSshV2(s) && IsHttp(s)
  {
    assert s[0] == 'h' && s[|s| - |name| - 1] == '/';
    assert HasInnerSlash(s, 0);
  }

  lemma HttpSplitsGive(i: GitRepoInfo)
    requires Printable(i) && !i.isSshEndpoint
    ensures var rest := Host(i) + "/" + OwnerName(i);
            TrimSuffix(rest, "/") == rest && |Split(rest)| >= 2 && HttpInfo(Scheme(i), Split(rest)) == i
  {
    var rest := Host(i) + "/" + OwnerName(i);
    assert rest[|rest| - 1] == i.name[|i.name| - 1] != '/';
    assert i.endpoint == Scheme(i) + Host(i);
    HttpSplits(i);
    JoinSplit(i.owner);
    assert Join([]) == "";
    hide URL, Split, Join, OwnerName, IsSshV1, GitProvider, Host, Scheme, HttpInfo, Contains;
    HttpInfoOfParts(i, if i.owner == "" then [] else Split(i.owner), Split(rest));
  }

  lemma ReparseHttp(i: GitRepoInfo)
    requires Printable(i) && !i.isSshEndpoint
    ensures ParseGitRepoInfo(URL(i)) == Ok(i)
  {
    TrimSpaceTrims(URL(i));
    HttpGrammar(i);
    BareUrl(i);
    HttpSplitsGive(i);
    hide URL, Split, OwnerName, TrimSpace, IsSshV1, IsSshV2, IsHttp, HttpInfo, Host;
    assert ParseTrimmed(URL(i)) == Ok(i);
  }

  lemma BareUrl(i: GitRepoInfo)
    requires i.isParsed && !i.isSshEndpoint && HttpFields(i)
    ensures HasPrefix(URL(i), "http://") == HasPrefix(i.endpoint, "http://")
    ensures TrimPrefix(TrimPrefix(URL(i), "http://"), "https://") == Host(i) + "/" + OwnerName(i)
  {
    HttpUrl(i);
    var s, rest := URL(i), Host(i) + "/" + OwnerName(i);
    if Scheme(i) == "http://" {
      assert s[..7] == "http://" && s[7..] == rest;
    } else {
      assert s[4] == "https://"[4] == 's';
      assert s[..8] == "https://" && s[8..] == rest;
    }
  }

  // ------------------------------------------------------------------
  // The converse: what comes back unchanged was printable
  // ------------------------------------------------------------------

  lemma JoinThree(a: string, mid: seq<string>, z: string)
    ensures |Join([a] + mid + [z])| == |a| + 1 + (if mid == [] then 0 else |Join(mid)| + 1) + |z|
  {
    if mid == [] {
      assert [a] + mid + [z] == [a, z];
    } else {
      JoinAppend([a], mid + [z]);
      JoinAppend(mid, [z]);
      assert [a] + mid + [z] == [a] + (mid + [z]);
    }
  }

  lemma TrimSuffixOf(s: string, suffix: string)
    requires suffix != ""
    ensures |TrimSuffix(s, suffix)| <= |s| && (|TrimSuffix(s, suffix)| == |s| <==> !HasSuffix(s, suffix))
    ensures HasPrefix(s, TrimSuffix(s, suffix))
  {
  }

  lemma FirstMiddleLast<T>(s: seq<T>)
    requires |s| >= 2
    ensures s == [s[0]] + s[1..|s| - 1] + [s[|s| - 1]]
  {
  }

  lemma SshInfoLength(splits: seq<string>)
    requires |splits| >= 3
    ensures |SshInfo(splits).sshUser| + |SshInfo(splits).endpoint| + 2 + |OwnerName(SshInfo(splits))|
            + |splits[|splits| - 1]| - |SshInfo(splits).name| <= |Join(splits)|
  {
    hide Join, TrimSuffix, GitProvider;
    var tail, mid, z := splits[1..], splits[2..|splits| - 1], splits[|splits| - 1];
    FirstMiddleLast(tail);
    assert tail[1..|tail| - 1] == mid;
    JoinThree(splits[1], mid, z);
    JoinHead(splits);
  }

  lemma JoinHead(splits: seq<string>)
    requires |splits| >= 2
    ensures |Join(splits)| == |splits[0]| + 1 + |Join(splits[1..])|
    ensures Join([]) == ""
  {
  }

  /** What the words that make up an ssh info say about it, and how long they are together. */
  lemma SshInfoParts(splits: seq<string>, sep: char -> bool)
    requires |splits| >= 3 && sep('/') && forall k :: 0 <= k < |splits| ==> IsWord(splits[k], sep)
    ensures SshFields(SshInfo(splits), sep)
    ensures var i := SshInfo(splits);
            && |i.sshUser| + |i.endpoint| + 2 + |OwnerName(i)| <= |Join(splits)|
            && (|i.sshUser| + |i.endpoint| + 2 + |OwnerName(i)| == |Join(splits)| ==>
                  i.name != "" && !HasSuffix(i.name, ".git"))
  {
    JoinIsPath(splits[2..|splits| - 1], sep);
    TrimSuffixOf(splits[|splits| - 1], ".git");
    SshInfoLength(splits);
    hide Join, OwnerName, IsPath;
  }

  lemma V2Returned(i: GitRepoInfo)
    requires ParseGitRepoInfo(URL(i)) == Ok(i) && IsSshV2(TrimSpace(URL(i)))
    ensures Printable(i)
  {
    var t, t' := URL(i), TrimSpace(URL(i));
    TrimSpaceTrims(t);
    var rest := TrimPrefix(t', "ssh://");
    FieldsAreWords(rest, SepV2);
    SshInfoParts(Fields(rest, SepV2), SepV2);
    SshUrl(i);
    hide TrimSpace, Fields, Join, OwnerName, URL, IsPath, SshInfo;
  }

  lemma NeedsOwner(i: GitRepoInfo)
    requires i.isParsed && i.isSshEndpoint && SshFields(i, SepV1) && i.owner == ""
    ensures !IsSshV1(URL(i))
  {
    assert NoSep(i.sshUser, IsSlash) && NoSep(i.endpoint, IsSlash) && NoSep(i.name, IsSlash);
    assert NoSep(URL(i), IsSlash);
  }

  lemma V1Returned(i: GitRepoInfo)
    requires ParseGitRepoInfo(URL(i)) == Ok(i) && !IsSshV2(TrimSpace(URL(i))) && IsSshV1(TrimSpace(URL(i)))
    ensures Printable(i)
  {
    var t, t' := URL(i), TrimSpace(URL(i));
    TrimSpaceTrims(t);
    FieldsAreWords(t', SepV1);
    SshInfoParts(Fields(t', SepV1), SepV1);
    assert ':' !in i.endpoint;
    SshUrl(i);
    hide TrimSpace, Fields, Join, OwnerName, IsPath, SshInfo;
    assert t' == t;
    if i.owner == "" {
      NeedsOwner(i);
    }
  }

  lemma SchemeOf(scheme: string, host: string, i: GitRepoInfo)
    requires (scheme == "https://" || scheme == "http://") && i.endpoint == scheme + host
    ensures Scheme(i) == scheme && Host(i) == host
  {
    var e := i.endpoint;
    assert e[..|scheme|] == scheme && e[|scheme|..] == host;
    if scheme == "https://" {
      assert e[..7][4] == 's' && "http://"[4] == ':';
    }
  }

  lemma HttpInfoLength(scheme: string, splits: seq<string>)
    requires |splits| >= 2
    ensures |splits[0]| + 1 + |OwnerName(HttpInfo(scheme, splits))| + |splits[|splits| - 1]| -
            |HttpInfo(scheme, splits).name| <= |Join(splits)|
  {
    hide Join, TrimSuffix, GitProvider;
    var mid, z := splits[1..|splits| - 1], splits[|splits| - 1];
    FirstMiddleLast(splits);
    JoinThree(splits[0], mid, z);
    JoinHead(splits);
  }

  /** The text that the http branch splits, and how long it is at most. */
  lemma HttpStripped(i: GitRepoInfo) returns (scheme: string, stripped: string)
    requires ParseGitRepoInfo(URL(i)) == Ok(i) && !i.isSshEndpoint
    ensures !IsSshV2(TrimSpace(URL(i))) && !IsSshV1(TrimSpace(URL(i))) && OneLine(TrimSpace(URL(i)))
    ensures |Split(stripped)| >= 2 && i == HttpInfo(scheme, Split(stripped))
    ensures (scheme == "https://" || scheme == "http://")
    ensures scheme == (if HasPrefix(TrimSpace(URL(i)), "http://") then "http://" else "https://")
    ensures stripped == TrimSuffix(TrimPrefix(TrimPrefix(TrimSpace(URL(i)), "http://"), "https://"), "/")
  {
    var t' := TrimSpace(URL(i));
    scheme := if HasPrefix(t', "http://") then "http://" else "https://";
    stripped := TrimSuffix(TrimPrefix(TrimPrefix(t', "http://"), "https://"), "/");
    hide TrimSpace, URL, Split, Join, IsSshV1, IsSshV2, Fields;
  }

  /** Stripping a scheme and a slash leaves no room for anything else to have been stripped. */
  lemma NothingElseStripped(t: string, t': string, scheme: string, rest: string, stripped: string)
    requires scheme == "https://" || scheme == "http://"
    requires t == scheme + rest && HasPrefix(t', scheme) && |t'| <= |t| && (|t'| == |t| ==> t' == t)
    requires scheme == (if HasPrefix(t', "http://") then "http://" else "https://")
    requires stripped == TrimSuffix(TrimPrefix(TrimPrefix(t', "http://"), "https://"), "/") && |rest| <= |stripped|
    ensures t' == t && stripped == rest && !HasSuffix(rest, "/")
    ensures scheme == "http://" ==> !HasPrefix(TrimPrefix(t, "http://"), "https://")
  {
    var once := TrimPrefix(t', "http://");
    var bare := TrimPrefix(once, "https://");
    TrimSuffixOf(bare, "/");
    if scheme == "http://" {
      assert |once| == |t'| - 7 && |bare| <= |once| && |bare| >= |rest|;
      assert t' == t;
      assert once == rest;
    } else {
      assert once == t' && |bare| == |t'| - 8;
      assert t' == t;
      assert bare == rest;
    }
  }

  /** The parts of an http info that was read from `stripped`. */
  lemma HttpParts(i: GitRepoInfo, scheme: string, stripped: string)
    requires scheme == "https://" || scheme == "http://"
    requires |Split(stripped)| >= 2 && i == HttpInfo(scheme, Split(stripped))
    ensures Scheme(i) == scheme && i.endpoint == scheme + Host(i) && i.isParsed && !i.isSshEndpoint
    ensures |Host(i) + "/" + OwnerName(i)| <= |stripped|
    ensures URL(i) == scheme + (Host(i) + "/" + OwnerName(i))
  {
    var splits := Split(stripped);
    SchemeOf(scheme, splits[0], i);
    hide Split, Join, OwnerName, TrimSuffix, GitProvider, Scheme, Host;
    HttpInfoLength(scheme, splits);
    TrimSuffixOf(splits[|splits| - 1], ".git");
    JoinSplit(stripped);
    HttpUrl(i);
  }

  lemma HttpForced(i: GitRepoInfo) returns (scheme: string)
    requires ParseGitRepoInfo(URL(i)) == Ok(i) && !i.isSshEndpoint
    ensures TrimSpace(URL(i)) == URL(i) && !IsSshV1(URL(i)) && OneLine(URL(i))
    ensures scheme == "https://" || scheme == "http://"
    ensures Scheme(i) == scheme && i.endpoint == scheme + Host(i)
    ensures scheme == "http://" ==> !HasPrefix(TrimPrefix(URL(i), "http://"), "https://")
    ensures var rest := Host(i) + "/" + OwnerName(i);
            !HasSuffix(rest, "/") && |Split(rest)| >= 2 && i == HttpInfo(scheme, Split(rest))
  {
    hide *;
    var t, rest := URL(i), Host(i) + "/" + OwnerName(i);
    TrimSpaceTrims(t);
    var stripped;
    scheme, stripped := HttpStripped(i);
    HttpParts(i, scheme, stripped);
    PlainScheme(scheme);
    TrimSpaceKeepsPrefix(scheme, rest);
    NothingElseStripped(t, TrimSpace(t), scheme, rest, stripped);
  }

  lemma PlainScheme(scheme: string)
    requires scheme == "https://" || scheme == "http://"
    ensures scheme != [] && NoSep(scheme, IsSpace)
  {
  }

  lemma HttpReturned(i: GitRepoInfo)
    requires ParseGitRepoInfo(URL(i)) == Ok(i) && !i.isSshEndpoint
    ensures Printable(i)
  {
    hide *;
    var scheme := HttpForced(i);
    TrimSpaceTrims(URL(i));
    HttpNames(i, scheme, Host(i) + "/" + OwnerName(i));
    HttpPrintable(i, scheme);
  }

  /** The fields of an http info that was split from `rest`. */
  lemma HttpNames(i: GitRepoInfo, scheme: string, rest: string)
    requires |Split(rest)| >= 2 && i == HttpInfo(scheme, Split(rest)) && rest == Host(i) + "/" + OwnerName(i)
    requires !HasSuffix(rest, "/")
    requires (scheme == "https://" || scheme == "http://") && i.endpoint == scheme + Host(i)
    ensures i.isParsed && !i.isSshEndpoint && i.sshUser == "" && i.provider == GitProvider(i.endpoint)
    ensures NoSep(Host(i), IsSlash) && NoSep(i.name, IsSlash) && i.name != "" && !HasSuffix(i.name, ".git")
  {
    var splits := Split(rest);
    var z := splits[|splits| - 1];
    SplitParts(rest);
    assert NoSep(z, IsSlash) && NoSep(splits[0], IsSlash);
    assert i.endpoint == scheme + splits[0] && i.name == TrimSuffix(z, ".git");
    assert i.isParsed && !i.isSshEndpoint && i.sshUser == "" && i.provider == GitProvider(i.endpoint);
    HttpInfoLength(scheme, splits);
    hide *;
    SchemeOf(scheme, splits[0], i);
    JoinSplit(rest);
    TrimSuffixOf(z, ".git");
    assert |z| == |i.name|;
    LastOfPath(rest, i);
  }

  /** An empty name would leave a slash at the end. */
  lemma LastOfPath(rest: string, i: GitRepoInfo)
    requires rest == Host(i) + "/" + OwnerName(i) && !HasSuffix(rest, "/")
    ensures i.name != ""
  {
    hide Host;
    assert rest[|rest| - 1] == (if i.name == "" then '/' else i.name[|i.name| - 1]);
  }

  lemma HttpPrintable(i: GitRepoInfo, scheme: string)
    requires i.isParsed && !i.isSshEndpoint && i.sshUser == "" && i.provider == GitProvider(i.endpoint)
    requires (scheme == "https://" || scheme == "http://") && i.endpoint == scheme + Host(i)
    requires NoSep(Host(i), IsSlash) && NoSep(i.name, IsSlash) && i.name != "" && !HasSuffix(i.name, ".git")
    requires OneLine(URL(i)) && Trimmed(URL(i)) && !IsSshV1(URL(i))
    requires scheme == "http://" ==> !HasPrefix(TrimPrefix(URL(i), "http://"), "https://")
    ensures Printable(i)
  {
    SchemePrefix(scheme, Host(i));
    hide OneLine, Trimmed, IsSshV1, URL, Host, HasPrefix, HasSuffix, TrimPrefix, GitProvider, NoSep;
  }

  /** Which infos survive printing and parsing: exactly the printable ones. */
  lemma RoundTrip(i: GitRepoInfo)
    ensures ParseGitRepoInfo(URL(i)) == Ok(i) <==> Printable(i)
  {
    if Printable(i) {
      if !i.isSshEndpoint {
        ReparseHttp(i);
      } else if ':' in i.endpoint {
        ReparseWithPort(i);
      } else {
        ReparseWithoutPort(i);
      }
    } else if ParseGitRepoInfo(URL(i)) == Ok(i) {
      if !i.isSshEndpoint {
        HttpReturned(i);
      } else if IsSshV2(TrimSpace(URL(i))) {
        V2Returned(i);
      } else {
        V1Returned(i);
      }
    }
  }

  // ------------------------------------------------------------------
  // What a parsed URL gives when it is printed and parsed once more
  // ------------------------------------------------------------------

  /** The checks that remain for an info that came out of the parser. */
  predicate Reprintable(i: GitRepoInfo) {
    && Trimmed(URL(i)) && i.name != "" && !HasSuffix(i.name, ".git")
    && (i.isSshEndpoint && ':' !in i.endpoint ==>
          i.owner != "" && ':' !in i.sshUser && ':' !in i.owner && ':' !in i.name)
    && (!i.isSshEndpoint ==> !IsSshV1(URL(i)))
    && (HasPrefix(URL(i), "http://") ==> !HasPrefix(TrimPrefix(URL(i), "http://"), "https://"))
  }

  predicate IsNewline(c: char) { c == '\n' }

  lemma UrlOneLine(i: GitRepoInfo)
    requires NoSep(i.sshUser, IsNewline) && NoSep(i.endpoint, IsNewline) && NoSep(i.owner, IsNewline)
    requires NoSep(i.name, IsNewline)
    ensures OneLine(URL(i))
  {
    assert NoSep("ssh://", IsNewline);
    assert NoSep(OwnerName(i), IsNewline);
    hide OwnerName;
    if i.isParsed && i.isSshEndpoint {
      SshUrl(i);
    }
  }

  lemma SshInfoOneLine(splits: seq<string>)
    requires |splits| >= 3 && forall k :: 0 <= k < |splits| ==> NoSep(splits[k], IsNewline)
    ensures OneLine(URL(SshInfo(splits)))
  {
    JoinKeeps(splits[2..|splits| - 1], IsNewline);
    TrimSuffixOf(splits[|splits| - 1], ".git");
    hide Join, TrimSuffix, GitProvider;
    UrlOneLine(SshInfo(splits));
  }

  lemma HttpInfoOneLine(scheme: string, splits: seq<string>)
    requires |splits| >= 2 && (scheme == "https://" || scheme == "http://")
    requires forall k :: 0 <= k < |splits| ==> NoSep(splits[k], IsNewline)
    ensures OneLine(URL(HttpInfo(scheme, splits)))
  {
    JoinKeeps(splits[1..|splits| - 1], IsNewline);
    TrimSuffixOf(splits[|splits| - 1], ".git");
    hide Join, TrimSuffix, GitProvider;
    assert NoSep(scheme, IsNewline);
    UrlOneLine(HttpInfo(scheme, splits));
  }

  /** Fields of the `ssh://` grammar suit the other one as soon as they hold no colon. */
  lemma WithoutColon(i: GitRepoInfo)
    requires SshFields(i, SepV2) && ':' !in i.endpoint
    ensures SshFields(i, SepV1) <==> ':' !in i.sshUser && ':' !in i.owner && ':' !in i.name
  {
    if ':' in i.sshUser {
      var k :| 0 <= k < |i.sshUser| && i.sshUser[k] == ':';
      assert SepV1(i.sshUser[k]);
    }
    if ':' in i.owner {
      var k :| 0 <= k < |i.owner| && i.owner[k] == ':';
      assert SepV1(i.owner[k]);
    }
    if ':' in i.name {
      var k :| 0 <= k < |i.name| && i.name[k] == ':';
      assert SepV1(i.name[k]);
    }
  }

  lemma ParsedSshV2(url: string)
    requires IsSshV2(url) && |Fields(TrimPrefix(url, "ssh://"), SepV2)| >= 3
    ensures var i := SshInfo(Fields(TrimPrefix(url, "ssh://"), SepV2)); Printable(i) <==> Reprintable(i)
  {
    var rest := TrimPrefix(url, "ssh://");
    FieldsAreWords(rest, SepV2);
    FieldsKeep(rest, SepV2, IsNewline);
    SshInfoParts(Fields(rest, SepV2), SepV2);
    SshInfoOneLine(Fields(rest, SepV2));
    var i := SshInfo(Fields(rest, SepV2));
    NotHttp(i);
    hide Fields, Join, OwnerName, TrimSuffix, Contains, URL, IsSshV1, IsSshV2, GitProvider;
    if ':' !in i.endpoint {
      WithoutColon(i);
    }
  }

  lemma NotHttp(i: GitRepoInfo)
    requires i.isParsed && i.isSshEndpoint && NoSep(i.sshUser, IsSlash) && NoSep(i.endpoint, IsSlash)
    ensures !HasPrefix(URL(i), "http://")
  {
    SshUrl(i);
    var s, p, u := URL(i), "http://", i.sshUser;
    if ':' in i.endpoint {
      assert s[0] == 's' && p[0] == 'h';
    } else {
      var k := if |u| < 6 then |u| else 5;
      assert s[k] == if |u| < 6 then '@' else u[5];
      assert |s| >= 7 ==> s[..7][k] != p[k];
    }
  }

  lemma ParsedSshV1(url: string)
    requires IsSshV1(url) && |Fields(url, SepV1)| >= 3
    ensures var i := SshInfo(Fields(url, SepV1)); Printable(i) <==> Reprintable(i)
  {
    FieldsAreWords(url, SepV1);
    FieldsKeep(url, SepV1, IsNewline);
    SshInfoParts(Fields(url, SepV1), SepV1);
    SshInfoOneLine(Fields(url, SepV1));
    var i := SshInfo(Fields(url, SepV1));
    assert ':' !in i.endpoint;
    NotHttp(i);
    hide OneLine, Fields, Join, OwnerName, TrimSuffix, Contains, URL, IsSshV1, IsSshV2, GitProvider;
  }

  lemma ParsedHttp(scheme: string, stripped: string)
    requires OneLine(stripped) && |Split(stripped)| >= 2 && (scheme == "https://" || scheme == "http://")
    ensures var i := HttpInfo(scheme, Split(stripped)); Printable(i) <==> Reprintable(i)
  {
    var splits := Split(stripped);
    var i := HttpInfo(scheme, splits);
    SplitParts(stripped);
    SplitKeeps(stripped, IsNewline);
    HttpInfoOneLine(scheme, splits);
    assert NoSep(splits[|splits| - 1], IsSlash);
    TrimSuffixOf(splits[|splits| - 1], ".git");
    assert NoSep(i.name, IsSlash) && NoSep(splits[0], IsSlash);
    SchemeOf(scheme, splits[0], i);
    HttpUrl(i);
    SchemePrefix(scheme, splits[0] + "/" + OwnerName(i));
    SchemePrefix(scheme, splits[0]);
    hide Split, Join, OwnerName, TrimSuffix, TrimPrefix, Contains, URL, IsSshV1, OneLine, Trimmed, HasPrefix,
        HasSuffix, Host, Scheme;
    assert i.endpoint == scheme + splits[0];
  }

  lemma SchemePrefix(scheme: string, rest: string)
    requires scheme == "https://" || scheme == "http://"
    ensures HasPrefix(scheme + rest, "http://") <==> scheme == "http://"
    ensures HasPrefix(scheme + rest, "https://") <==> scheme == "https://"
  {
    assert (scheme + rest)[4] == scheme[4] && "https://"[4] == 's' && "http://"[4] == ':';
    assert (scheme + rest)[..|scheme|] == scheme;
  }

  /** Parse, print, parse: the second parse gives the first one's info back, exactly when the
      remaining checks hold. */
  lemma ParsePrintParse(gitUrl: string, i: GitRepoInfo)
    requires ParseGitRepoInfo(gitUrl) == Ok(i)
    ensures ParseGitRepoInfo(URL(i)) == Ok(i) <==> Reprintable(i)
  {
    var url := TrimSpace(gitUrl);
    assert ParseTrimmed(url) == Ok(i);
    hide *;
    RoundTrip(i);
    if IsSshV2(url) {
      ParsesAsSshV2(url, i);
    } else if IsSshV1(url) {
      ParsesAsSshV1(url, i);
    } else {
      ParsesAsHttp(url, i);
    }
  }

  lemma ParsesAsSshV2(url: string, i: GitRepoInfo)
    requires ParseTrimmed(url) == Ok(i) && IsSshV2(url)
    ensures Printable(i) <==> Reprintable(i)
  {
    hide IsSshV1, IsSshV2, IsHttp, Fields, SshInfo, Printable, Reprintable;
    ParsedSshV2(url);
  }

  lemma ParsesAsSshV1(url: string, i: GitRepoInfo)
    requires ParseTrimmed(url) == Ok(i) && !IsSshV2(url) && IsSshV1(url)
    ensures Printable(i) <==> Reprintable(i)
  {
    hide IsSshV1, IsSshV2, IsHttp, Fields, SshInfo, Printable, Reprintable;
    ParsedSshV1(url);
  }

  lemma ParsesAsHttp(url: string, i: GitRepoInfo)
    requires ParseTrimmed(url) == Ok(i) && !IsSshV2(url) && !IsSshV1(url)
    ensures Printable(i) <==> Reprintable(i)
  {
    var scheme := if HasPrefix(url, "http://") then "http://" else "https://";
    var stripped := TrimSuffix(TrimPrefix(TrimPrefix(url, "http://"), "https://"), "/");
    hide IsSshV1, IsSshV2, Fields, Split, HttpInfo, Printable, Reprintable, HasPrefix, TrimPrefix, TrimSuffix;
    StrippedOneLine(url);
    ParsedHttp(scheme, stripped);
  }

  lemma StrippedOneLine(url: string)
    requires IsHttp(url)
    ensures OneLine(TrimSuffix(TrimPrefix(TrimPrefix(url, "http://"), "https://"), "/"))
  {
  }

  // ------------------------------------------------------------------
  // The stored copy of the fields
  // ------------------------------------------------------------------

  datatype UpstreamType = UpstreamGit | UpstreamSourceCode | UpstreamImage

  datatype GitType = GitHttp | GitSsh

  datatype Deployment = Deployment(
    upstreamType: UpstreamType,
    gitType: GitType,
    gitProvider: string,
    repositoryOwner: string,
    repositoryName: string,
    gitEndpoint: string,
    gitSshUser: string)

  /** What is stored for an application whose repository URL was parsed. */
  function Store(i: GitRepoInfo): Deployment {
    Deployment(UpstreamGit, if i.isSshEndpoint then GitSsh else GitHttp, i.provider, i.owner, i.name, i.endpoint,
        i.sshUser)
  }

  function GitRepositoryURL(d: Deployment): string {
    if d.upstreamType != UpstreamGit then ""
    else match d.gitType
      case GitHttp =>
        if d.repositoryOwner == "" then d.gitEndpoint + "/" + d.repositoryName
        else d.gitEndpoint + "/" + d.repositoryOwner + "/" + d.repositoryName
      case GitSsh =>
        if d.repositoryOwner == "" then
          if ':' in d.gitEndpoint then
            "ssh://" + d.gitSshUser + "@" + d.gitEndpoint + "/" + d.repositoryName
          else d.gitSshUser + "@" + d.gitEndpoint + ":" + d.repositoryName
        else
          if ':' in d.gitEndpoint then
            "ssh://" + d.gitSshUser + "@" + d.gitEndpoint + "/" + d.repositoryOwner + "/" + d.repositoryName
          else d.gitSshUser + "@" + d.gitEndpoint + ":" + d.repositoryOwner + "/" + d.repositoryName
  }

  /** The URL that a deployment is cloned from parses to the info that was stored, exactly when
      that info is reprintable. */
  lemma StoredUrlParsesBack(gitUrl: string, i: GitRepoInfo)
    requires ParseGitRepoInfo(gitUrl) == Ok(i)
    ensures GitRepositoryURL(Store(i)) == URL(i)
    ensures ParseGitRepoInfo(GitRepositoryURL(Store(i))) == Ok(i) <==> Reprintable(i)
  {
    ParsePrintParse(gitUrl, i);
    ParsedIsParsed(TrimSpace(gitUrl), i);
    hide Reprintable, TrimSpace, ParseGitRepoInfo, ParseTrimmed;
  }

  lemma ParsedIsParsed(url: string, i: GitRepoInfo)
    requires ParseTrimmed(url) == Ok(i)
    ensures i.isParsed
  {
    hide Fields, Split, Join, IsSshV1, IsSshV2, IsHttp, TrimPrefix, TrimSuffix;
  }
}
