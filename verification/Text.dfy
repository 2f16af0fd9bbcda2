/** The string functions of Go's `strings` package that the modelled files use. */
module Text {

  predicate HasPrefix(s: string, prefix: string) {
    |prefix| <= |s| && s[..|prefix|] == prefix
  }

  predicate HasSuffix(s: string, suffix: string) {
    |suffix| <= |s| && s[|s| - |suffix|..] == suffix
  }

  function TrimPrefix(s: string, prefix: string): string {
    if HasPrefix(s, prefix) then s[|prefix|..] else s
  }

  function TrimSuffix(s: string, suffix: string): string {
    if HasSuffix(s, suffix) then s[..|s| - |suffix|] else s
  }

  predicate Contains(s: string, sub: string) {
    exists i :: 0 <= i <= |s| && HasPrefix(s[i..], sub)
  }

  /** unicode.IsSpace */
  predicate IsSpace(c: char) {
    || c == ' ' || '\U{9}' <= c <= '\U{D}' || c == '\U{85}' || c == '\U{A0}' || c == '\U{1680}'
    || '\U{2000}' <= c <= '\U{200A}' || c == '\U{2028}' || c == '\U{2029}' || c == '\U{202F}' || c == '\U{205F}' ||
        c == '\U{3000}'
  }

  function TrimLeft(s: string): string {
    if s != [] && IsSpace(s[0]) then TrimLeft(s[1..]) else s
  }

  function TrimRight(s: string): string {
    if s != [] && IsSpace(s[|s| - 1]) then TrimRight(s[..|s| - 1]) else s
  }

  function TrimSpace(s: string): string {
    TrimRight(TrimLeft(s))
  }

  /** No leading and no trailing white space. */
  predicate Trimmed(s: string) {
    s == [] || (!IsSpace(s[0]) && !IsSpace(s[|s| - 1]))
  }

  lemma {:induction false} TrimLeftLength(s: string)
    ensures |TrimLeft(s)| <= |s| && (|TrimLeft(s)| == |s| ==> TrimLeft(s) == s)
    ensures TrimLeft(s) != [] ==> !IsSpace(TrimLeft(s)[0])
  {
    if s != [] && IsSpace(s[0]) {
      TrimLeftLength(s[1..]);
    }
  }

  lemma {:induction false} TrimRightLength(s: string)
    ensures |TrimRight(s)| <= |s| && (|TrimRight(s)| == |s| ==> TrimRight(s) == s)
    ensures TrimRight(s) != [] ==> s != [] && TrimRight(s)[0] == s[0] && !IsSpace(TrimRight(s)[|TrimRight(s)| - 1])
  {
    if s != [] && IsSpace(s[|s| - 1]) {
      TrimRightLength(s[..|s| - 1]);
    }
  }

  /** TrimSpace gives a trimmed text, and changes nothing exactly when there is nothing to trim. */
  lemma TrimSpaceTrims(s: string)
    ensures Trimmed(TrimSpace(s)) && |TrimSpace(s)| <= |s|
    ensures |TrimSpace(s)| == |s| ==> TrimSpace(s) == s
    ensures Trimmed(s) ==> TrimSpace(s) == s
  {
    TrimLeftLength(s);
    TrimRightLength(TrimLeft(s));
  }

  lemma {:induction false} TrimRightKeepsPrefix(p: string, r: string)
    requires p != [] && NoSep(p, IsSpace)
    ensures HasPrefix(TrimRight(p + r), p)
    decreases |r|
  {
    var s := p + r;
    if r == [] {
      assert s == p;
    } else if IsSpace(s[|s| - 1]) {
      assert s[..|s| - 1] == p + r[..|r| - 1];
      TrimRightKeepsPrefix(p, r[..|r| - 1]);
    }
  }

  lemma TrimSpaceKeepsPrefix(p: string, r: string)
    requires p != [] && NoSep(p, IsSpace)
    ensures HasPrefix(TrimSpace(p + r), p)
  {
    assert !IsSpace((p + r)[0]);
    TrimRightKeepsPrefix(p, r);
  }

  // ------------------------------------------------------------------
  // Joining and splitting
  // ------------------------------------------------------------------

  /** strings.Join(parts, "/") */
  function Join(parts: seq<string>): string {
    if parts == [] then ""
    else if |parts| == 1 then parts[0]
    else parts[0] + "/" + Join(parts[1..])
  }

  /** The length of the prefix of `s` without a separator. */
  function WordLength(s: string, sep: char -> bool): (k: nat)
    ensures k <= |s| && (forall i :: 0 <= i < k ==> !sep(s[i])) && (k < |s| ==> sep(s[k]))
  {
    if s == [] || sep(s[0]) then 0 else 1 + WordLength(s[1..], sep)
  }

  /** strings.FieldsFunc */
  function Fields(s: string, sep: char -> bool): seq<string>
    decreases |s|
  {
    if s == [] then []
    else if sep(s[0]) then Fields(s[1..], sep)
    else
      var k := WordLength(s, sep);
      [s[..k]] + Fields(s[k..], sep)
  }

  predicate IsSlash(c: char) { c == '/' }

  /** strings.Split(s, "/") */
  function Split(s: string): (parts: seq<string>)
    ensures parts != []
    decreases |s|
  {
    var k := WordLength(s, IsSlash);
    if k == |s| then [s] else [s[..k]] + Split(s[k + 1..])
  }

  predicate NoSep(s: string, sep: char -> bool) {
    forall i :: 0 <= i < |s| ==> !sep(s[i])
  }

  predicate IsWord(s: string, sep: char -> bool) {
    s != [] && NoSep(s, sep)
  }

  /** A slash-separated path of non-empty words: what joining fields gives. */
  predicate IsPath(s: string, sep: char -> bool) {
    && (s != [] ==> s[0] != '/' && s[|s| - 1] != '/')
    && (forall i :: 0 <= i < |s| && sep(s[i]) ==> s[i] == '/')
    && (forall i :: 0 < i < |s| && s[i] == '/' ==> s[i - 1] != '/')
  }

  lemma {:induction false} WordLengthOfPrefix(a: string, r: string, sep: char -> bool)
    requires NoSep(a, sep) && (r == [] || sep(r[0]))
    ensures WordLength(a + r, sep) == |a|
  {
    if a == [] {
      assert a + r == r;
    } else {
      assert (a + r)[1..] == a[1..] + r;
      WordLengthOfPrefix(a[1..], r, sep);
    }
  }

  /** Cutting a text at a separator cuts its list of fields. */
  lemma {:induction false} FieldsAppend(a: string, r: string, sep: char -> bool)
    requires r == [] || sep(r[0])
    ensures Fields(a + r, sep) == Fields(a, sep) + Fields(r, sep)
    decreases |a|
  {
    if a == [] {
      assert a + r == r;
    } else if sep(a[0]) {
      assert (a + r)[1..] == a[1..] + r;
      FieldsAppend(a[1..], r, sep);
    } else {
      var k := WordLength(a, sep);
      assert a + r == a[..k] + (a[k..] + r);
      WordLengthOfPrefix(a[..k], a[k..] + r, sep);
      assert (a + r)[k..] == a[k..] + r;
      FieldsAppend(a[k..], r, sep);
    }
  }

  lemma FieldsOfWord(a: string, sep: char -> bool)
    requires IsWord(a, sep)
    ensures Fields(a, sep) == [a]
  {
    assert a + [] == a;
    WordLengthOfPrefix(a, [], sep);
  }

  /** The fields are words, and joining them takes no more room than the text itself. */
  lemma {:induction false} FieldsAreWords(s: string, sep: char -> bool)
    ensures forall i :: 0 <= i < |Fields(s, sep)| ==> IsWord(Fields(s, sep)[i], sep)
    ensures |Join(Fields(s, sep))| <= |s|
    ensures s != [] && sep(s[0]) ==> |Join(Fields(s, sep))| < |s|
    decreases |s|
  {
    if s != [] {
      if sep(s[0]) {
        FieldsAreWords(s[1..], sep);
      } else {
        var k := WordLength(s, sep);
        FieldsAreWords(s[k..], sep);
      }
    }
  }

  lemma PathTail(s: string, k: nat, sep: char -> bool)
    requires IsPath(s, sep) && k < |s| && s[k] == '/'
    ensures k + 1 < |s| && IsPath(s[k + 1..], sep)
  {
    var rest := s[k + 1..];
    assert forall i :: 0 <= i < |rest| ==> rest[i] == s[k + 1 + i];
    assert s[k + 1] != '/';
  }

  lemma FieldsOfTail(s: string, k: nat, sep: char -> bool)
    requires 0 < k == WordLength(s, sep) < |s| && s[k] == '/' && sep('/')
    ensures Fields(s, sep) == [s[..k]] + Fields(s[k + 1..], sep)
  {
    assert s[k..][0] == '/' && s[k..][1..] == s[k + 1..];
    assert Fields(s[k..], sep) == Fields(s[k + 1..], sep);
  }

  /** A path of words is what its fields join to. */
  lemma {:induction false} JoinFields(s: string, sep: char -> bool)
    requires IsPath(s, sep) && sep('/')
    ensures Join(Fields(s, sep)) == s && (s != [] ==> Fields(s, sep) != [])
    decreases |s|
  {
    if s != [] {
      var k := WordLength(s, sep);
      PathStarts(s, k, sep);
      if k == |s| {
        FieldsOfWord(s, sep);
      } else {
        PathTail(s, k, sep);
        FieldsOfTail(s, k, sep);
        hide *;
        var rest := s[k + 1..];
        JoinFields(rest, sep);
        JoinWord(s[..k], Fields(rest, sep));
        CutAt(s, k);
      }
    }
  }

  lemma JoinWord(w: string, parts: seq<string>)
    requires parts != []
    ensures Join([w] + parts) == w + "/" + Join(parts)
  {
    assert ([w] + parts)[1..] == parts;
  }

  lemma CutAt(s: string, k: nat)
    requires k < |s| && s[k] == '/'
    ensures s == s[..k] + "/" + s[k + 1..]
  {
  }

  lemma PathStarts(s: string, k: nat, sep: char -> bool)
    requires IsPath(s, sep) && sep('/') && s != [] && k == WordLength(s, sep)
    ensures k > 0 && (k < |s| ==> s[k] == '/')
    ensures k == |s| ==> IsWord(s, sep)
  {
    assert !sep(s[0]);
  }

  /** Joining words gives a path. */
  lemma {:induction false} JoinIsPath(parts: seq<string>, sep: char -> bool)
    requires sep('/') && forall i :: 0 <= i < |parts| ==> IsWord(parts[i], sep)
    ensures IsPath(Join(parts), sep) && (parts != [] ==> Join(parts) != [])
  {
    if |parts| == 1 {
      assert IsWord(parts[0], sep);
    } else if |parts| > 1 {
      assert Join(parts) == parts[0] + "/" + Join(parts[1..]) && IsWord(parts[0], sep);
      hide *;
      JoinIsPath(parts[1..], sep);
      PathOfTwo(parts[0], Join(parts[1..]), sep);
    }
  }

  lemma PathOfTwo(a: string, b: string, sep: char -> bool)
    requires IsWord(a, sep) && b != [] && IsPath(b, sep) && sep('/')
    ensures IsPath(a + "/" + b, sep)
  {
    var s := a + "/" + b;
    assert forall i :: 0 <= i < |a| ==> s[i] == a[i];
    assert forall i :: 0 <= i < |b| ==> s[|a| + 1 + i] == b[i];
    assert s[|a|] == '/' && s[|s| - 1] == b[|b| - 1];
  }

  lemma {:induction false} JoinAppend(a: seq<string>, b: seq<string>)
    requires a != [] && b != []
    ensures Join(a + b) == Join(a) + "/" + Join(b)
  {
    if |a| == 1 {
      assert (a + b)[1..] == b;
    } else {
      assert (a + b)[1..] == a[1..] + b;
      JoinAppend(a[1..], b);
    }
  }

  lemma {:induction false} JoinSplit(s: string)
    ensures Join(Split(s)) == s
    decreases |s|
  {
    var k := WordLength(s, IsSlash);
    if k < |s| {
      assert Split(s) == [s[..k]] + Split(s[k + 1..]) && s[k] == '/';
      hide *;
      JoinSplit(s[k + 1..]);
      JoinWord(s[..k], Split(s[k + 1..]));
      CutAt(s, k);
    }
  }

  lemma SplitAtFirst(w: string, r: string)
    requires NoSep(w, IsSlash)
    ensures Split(w + "/" + r) == [w] + Split(r)
  {
    var s := w + "/" + r;
    assert s == w + ("/" + r);
    WordLengthOfPrefix(w, "/" + r, IsSlash);
    assert s[..|w|] == w && s[|w| + 1..] == r;
  }

  lemma Reassociate(w: string, r: string, b: string)
    ensures (w + "/" + r) + "/" + b == w + "/" + (r + "/" + b)
  {
  }

  lemma {:induction false} SplitAppend(a: string, b: string)
    ensures Split(a + "/" + b) == Split(a) + Split(b)
    decreases |a|
  {
    var k := WordLength(a, IsSlash);
    if k == |a| {
      SplitAtFirst(a, b);
    } else {
      var w, r := a[..k], a[k + 1..];
      assert a == w + "/" + r;
      SplitAppend(r, b);
      SplitAppendWord(w, r, b);
    }
  }

  lemma SplitAppendWord(w: string, r: string, b: string)
    requires NoSep(w, IsSlash)
    requires Split(r + "/" + b) == Split(r) + Split(b)
    ensures Split((w + "/" + r) + "/" + b) == Split(w + "/" + r) + Split(b)
  {
    hide Split, NoSep;
    Reassociate(w, r, b);
    SplitAtFirst(w, r);
    SplitAtFirst(w, r + "/" + b);
    assert [w] + (Split(r) + Split(b)) == ([w] + Split(r)) + Split(b);
  }

  lemma SplitOfWord(a: string)
    requires NoSep(a, IsSlash)
    ensures Split(a) == [a]
  {
    assert a + [] == a;
    WordLengthOfPrefix(a, [], IsSlash);
  }

  lemma {:induction false} SplitParts(s: string)
    ensures forall i :: 0 <= i < |Split(s)| ==> NoSep(Split(s)[i], IsSlash)
    decreases |s|
  {
    var k := WordLength(s, IsSlash);
    if k < |s| {
      SplitParts(s[k + 1..]);
    }
  }

  /** Cutting and joining invent no characters but the slash. */
  lemma {:induction false} FieldsKeep(s: string, sep: char -> bool, bad: char -> bool)
    requires NoSep(s, bad)
    ensures forall i :: 0 <= i < |Fields(s, sep)| ==> NoSep(Fields(s, sep)[i], bad)
    decreases |s|
  {
    if s != [] {
      if sep(s[0]) {
        FieldsKeep(s[1..], sep, bad);
      } else {
        var k := WordLength(s, sep);
        FieldsKeep(s[k..], sep, bad);
      }
    }
  }

  lemma {:induction false} JoinKeeps(parts: seq<string>, bad: char -> bool)
    requires !bad('/') && forall i :: 0 <= i < |parts| ==> NoSep(parts[i], bad)
    ensures NoSep(Join(parts), bad)
  {
    if |parts| > 1 {
      JoinKeeps(parts[1..], bad);
    }
  }

  lemma {:induction false} SplitKeeps(s: string, bad: char -> bool)
    requires NoSep(s, bad)
    ensures forall i :: 0 <= i < |Split(s)| ==> NoSep(Split(s)[i], bad)
    decreases |s|
  {
    var k := WordLength(s, IsSlash);
    if k < |s| {
      SplitKeeps(s[k + 1..], bad);
    }
  }
}
