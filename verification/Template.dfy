/** The variable filler of swiftwave_service/stack_parser/utils.go: repeated rewriting of the
    leftmost placeholder, with a mapping that grows while it runs. */
module Template {
  import opened Wrappers

  // ------------------------------------------------------------------
  // Placeholders
  // ------------------------------------------------------------------

  predicate NotBrace(c: char) { c != '{' && c != '}' }

  predicate IsDollar(c: char) { c == '$' }

  predicate IsHash(c: char) { c == '#' }

  /** `text[i..j]` is two opening braces, at least `min` characters of class `p`, two closing ones. */
  predicate IsHole(text: string, i: nat, j: nat, p: char -> bool, min: nat) {
    && i + 4 + min <= j <= |text|
    && text[i] == '{' && text[i + 1] == '{' && text[j - 2] == '}' && text[j - 1] == '}'
    && forall k :: i + 2 <= k < j - 2 ==> p(text[k])
  }

  function RunEnd(text: string, i: nat, p: char -> bool): (j: nat)
    requires i <= |text|
    ensures i <= j <= |text| && (forall k :: i <= k < j ==> p(text[k])) && (j < |text| ==> !p(text[j]))
    decreases |text| - i
  {
    if i < |text| && p(text[i]) then RunEnd(text, i + 1, p) else i
  }

  /** A match can only end where the run of its characters ends. */
  lemma HoleEnd(text: string, i: nat, p: char -> bool, min: nat)
    requires !p('}') && i + 2 <= |text|
    ensures forall j: nat :: IsHole(text, i, j, p, min) ==> j - 2 == RunEnd(text, i + 2, p)
  {
    var e := RunEnd(text, i + 2, p);
    forall j: nat | IsHole(text, i, j, p, min) ensures j - 2 == e {
      assert text[j - 2] == '}' && !p(text[j - 2]);
      assert !(j - 2 < e) && !(e < j - 2);
    }
  }

  datatype Range = Range(start: nat, end: nat)

  /** The match that a regular expression search from position `i` on returns. */
  function FindFrom(text: string, i: nat, p: char -> bool, min: nat): (r: Option<Range>)
    requires i <= |text| && !p('}')
    ensures r.Some? ==> i <= r.value.start && IsHole(text, r.value.start, r.value.end, p, min)
    ensures forall k: nat, j: nat :: i <= k && (r.Some? ==> k < r.value.start) ==> !IsHole(text, k, j, p, min)
    decreases |text| - i
  {
    if i + 4 > |text| then None
    else if text[i] == '{' && text[i + 1] == '{' then
      var e := RunEnd(text, i + 2, p);
      if e + 2 <= |text| && i + 2 + min <= e && text[e] == '}' && text[e + 1] == '}' then Some(Range(i, e + 2))
      else
        assert forall j: nat :: IsHole(text, i, j, p, min) ==> j - 2 == e by { HoleEnd(text, i, p, min); }
        FindFrom(text, i + 1, p, min)
    else FindFrom(text, i + 1, p, min)
  }

  /** The leftmost match in the whole text. */
  function Find(text: string, p: char -> bool, min: nat): Option<Range>
    requires !p('}')
  {
    FindFrom(text, 0, p, min)
  }

  function Placeholder(text: string): Option<Range> { Find(text, NotBrace, 0) }

  function Name(text: string, r: Range): string
    requires r.start + 4 <= r.end <= |text|
  {
    text[r.start + 2..r.end - 2]
  }

  function Replace(text: string, r: Range, value: string): string
    requires r.start <= r.end <= |text|
  {
    text[..r.start] + value + text[r.end..]
  }

  predicate IsRandomName(name: string) {
    |name| > 7 && name[..7] == "RANDOM_"
  }

  // ------------------------------------------------------------------
  // Braces: why filling ends
  // ------------------------------------------------------------------

  function Braces(s: string): nat {
    if s == "" then 0 else (if NotBrace(s[0]) then 0 else 1) + Braces(s[1..])
  }

  lemma {:induction false} BracesAppend(a: string, b: string)
    ensures Braces(a + b) == Braces(a) + Braces(b)
  {
    if a == "" {
      assert a + b == b;
    } else {
      assert (a + b)[1..] == a[1..] + b;
      BracesAppend(a[1..], b);
    }
  }

  lemma {:induction false} BracesOfRun(s: string)
    requires forall k :: 0 <= k < |s| ==> NotBrace(s[k])
    ensures Braces(s) == 0
  {
    if s != "" {
      BracesOfRun(s[1..]);
    }
  }

  /** Replacing a placeholder takes four braces away and brings in those of the value. */
  lemma BracesReplace(text: string, r: Range, value: string, p: char -> bool, min: nat)
    requires IsHole(text, r.start, r.end, p, min) && forall c :: p(c) ==> NotBrace(c)
    ensures Braces(Replace(text, r, value)) == Braces(text) - 4 + Braces(value)
  {
    var a, n, b := text[..r.start], Name(text, r), text[r.end..];
    BracesOfRun(n);
    assert Braces("{{") == 2 && Braces("}}") == 2;
    assert text == a + ("{{" + (n + ("}}" + b)));
    assert Replace(text, r, value) == a + (value + b);
    hide *;
    BracesAppend(a, "{{" + (n + ("}}" + b)));
    BracesAppend("{{", n + ("}}" + b));
    BracesAppend(n, "}}" + b);
    BracesAppend("}}", b);
    BracesAppend(a, value + b);
    BracesAppend(value, b);
  }

  // ------------------------------------------------------------------
  // Filling variables
  // ------------------------------------------------------------------

  /** The values of variables: those that are mapped, and what a RANDOM_ name will draw when it is
      met for the first time. */
  datatype Values = Values(mapping: map<string, string>, draws: string -> string) {
    function Of(name: string): Option<string> {
      if name in mapping then Some(mapping[name])
      else if IsRandomName(name) then Some(draws(name))
      else None
    }
  }

  predicate IsWordOf(s: string, length: nat, lo: char, hi: char) {
    |s| == length && forall k :: 0 <= k < |s| ==> lo <= s[k] <= hi
  }

  /** What is drawn for a name is a word of 16 letters. */
  ghost predicate DrawsWords(draws: string -> string) {
    forall n :: IsWordOf(draws(n), 16, 'a', 'z')
  }

  /** One rewriting step. */
  function FillOnce(text: string, e: Values): Option<string> {
    match Placeholder(text)
    case None => None
    case Some(r) => match e.Of(Name(text, r)) case None => None case Some(value) => Some(Replace(text, r, value))
  }

  /** The text starts, at `i`, with two opening braces, a name without braces, and two closing ones. */
  ghost predicate Opens(text: string, i: nat, name: string) {
    && (forall k :: 0 <= k < |name| ==> name[k] != '{' && name[k] != '}')
    && i <= |text| && "{{" + name + "}}" <= text[i..]
  }

  lemma OpensIsHole(text: string, i: nat, name: string)
    ensures Opens(text, i, name) <==>
            IsHole(text, i, i + 4 + |name|, NotBrace, 0) && text[i + 2..i + 2 + |name|] == name
  {
    var hole := "{{" + name + "}}";
    if Opens(text, i, name) {
      assert forall k :: 0 <= k < |hole| ==> text[i..][k] == hole[k];
      assert text[i + 2..i + 2 + |name|] == name;
    }
    if IsHole(text, i, i + 4 + |name|, NotBrace, 0) && text[i + 2..i + 2 + |name|] == name {
      assert forall k :: 0 <= k < |name| ==> name[k] == text[i + 2 + k];
      assert text[i..][..|hole|] == hole;
    }
  }

  /** What a name stands for: the mapping comes first, then the names behind `RANDOM_`. */
  lemma ValueOf(e: Values, name: string)
    ensures name in e.mapping ==> e.Of(name) == Some(e.mapping[name])
    ensures name !in e.mapping ==>
              e.Of(name) ==
              if (exists rest :: rest != "" && name == "RANDOM_" + rest) then Some(e.draws(name)) else None
  {
    if IsRandomName(name) {
      assert name == "RANDOM_" + name[7..];
    }
    if rest :| rest != "" && name == "RANDOM_" + rest {
      assert name[..7] == "RANDOM_";
    }
  }

  /** One step fills the first placeholder of the text, wherever it stands and whatever is in front of it,
      and only that one. */
  lemma FillsFirst(text: string, e: Values, i: nat, name: string)
    requires Opens(text, i, name) && forall j: nat, other :: j < i ==> !Opens(text, j, other)
    ensures FillOnce(text, e) ==
              match e.Of(name)
              case None => None
              case Some(value) => Some(text[..i] + value + text[i + |name| + 4..])
  {
    OpensIsHole(text, i, name);
    forall j: nat, end: nat | j < i ensures !IsHole(text, j, end, NotBrace, 0) {
      if IsHole(text, j, end, NotBrace, 0) {
        OpensIsHole(text, j, text[j + 2..end - 2]);
      }
    }
    var r := Placeholder(text);
    assert r.Some? && r.value.start == i;
    HoleEnd(text, i, NotBrace, 0);
    assert r.value.end == i + 4 + |name|;
  }

  /** Without a placeholder there is nothing to do. */
  lemma FillsNothing(text: string, e: Values)
    requires forall i: nat, name :: !Opens(text, i, name)
    ensures FillOnce(text, e) == None
  {
    match Placeholder(text)
    case None =>
    case Some(r) =>
      OpensIsHole(text, r.start, Name(text, r));
  }

  /** The text after `k` steps, if so many are possible. */
  function Times(text: string, e: Values, k: nat): Option<string>
    decreases k
  {
    if k == 0 then Some(text)
    else match FillOnce(text, e) case None => None case Some(next) => Times(next, e, k - 1)
  }

  /** The loop ends. */
  ghost predicate Halts(text: string, e: Values) {
    exists k: nat :: Times(text, e, k) == None
  }

  lemma {:induction false} TimesMore(text: string, e: Values, k: nat, l: nat)
    requires Times(text, e, k) == None && k <= l
    ensures Times(text, e, l) == None
    decreases k
  {
    if k > 0 && FillOnce(text, e).Some? {
      TimesMore(FillOnce(text, e).value, e, k - 1, l - 1);
    }
  }

  lemma HaltsNext(text: string, e: Values)
    ensures FillOnce(text, e).Some? ==> (Halts(text, e) <==> Halts(FillOnce(text, e).value, e))
    ensures FillOnce(text, e) == None ==> Halts(text, e)
  {
    match FillOnce(text, e)
    case None =>
      assert Times(text, e, 1) == None;
    case Some(next) =>
      if k: nat :| Times(next, e, k) == None {
        assert Times(text, e, k + 1) == None;
      }
      if k: nat :| Times(text, e, k) == None {
        assert Times(next, e, k - 1) == None;
      }
  }

  ghost predicate IsLeast(text: string, e: Values, k: nat) {
    Times(text, e, k) == None && forall j: nat :: j < k ==> Times(text, e, j).Some?
  }

  lemma {:induction false} LeastTimes(text: string, e: Values, k: nat)
    requires Times(text, e, k) == None
    ensures exists l: nat :: IsLeast(text, e, l)
    decreases k
  {
    if k > 0 && Times(text, e, k - 1) == None {
      LeastTimes(text, e, k - 1);
    } else {
      forall j: nat | j < k ensures Times(text, e, j).Some? {
        if Times(text, e, j) == None {
          TimesMore(text, e, j, k - 1);
        }
      }
      assert IsLeast(text, e, k);
    }
  }

  /** How many steps it takes to find that there is nothing left to do. */
  ghost function Steps(text: string, e: Values): (k: nat)
    requires Halts(text, e)
    ensures IsLeast(text, e, k)
  {
    var k: nat :| Times(text, e, k) == None;
    LeastTimes(text, e, k);
    var l: nat :| IsLeast(text, e, l);
    l
  }

  lemma StepsNext(text: string, e: Values)
    requires Halts(text, e) && FillOnce(text, e).Some?
    ensures Halts(FillOnce(text, e).value, e) && Steps(FillOnce(text, e).value, e) < Steps(text, e)
  {
    HaltsNext(text, e);
    var next, k := FillOnce(text, e).value, Steps(text, e);
    assert k > 0 && Times(next, e, k - 1) == None;
  }

  /** The text when no more step is possible. */
  ghost function Fill(text: string, e: Values): string
    requires Halts(text, e)
    decreases Steps(text, e)
  {
    match FillOnce(text, e)
    case None => text
    case Some(next) =>
      StepsNext(text, e);
      Fill(next, e)
  }

  /** At the end the leftmost placeholder, if there is one, names nothing that has a value. */
  lemma {:induction false} FillNormalForm(text: string, e: Values)
    requires Halts(text, e)
    ensures FillOnce(Fill(text, e), e) == None
    decreases Steps(text, e)
  {
    if FillOnce(text, e).Some? {
      StepsNext(text, e);
      FillNormalForm(FillOnce(text, e).value, e);
    }
  }

  /** The leftmost placeholder, if there is one, names neither a mapped variable nor a RANDOM_ one. */
  ghost predicate Settled(text: string, m: map<string, string>) {
    match Placeholder(text)
    case None => true
    case Some(r) => Name(text, r) !in m && !IsRandomName(Name(text, r))
  }

  /** Two mappings that give the same values, now or later. */
  ghost predicate SameValues(e: Values, e': Values) {
    forall n :: e.Of(n) == e'.Of(n)
  }

  lemma {:induction false} SameTimes(text: string, e: Values, e': Values, k: nat)
    requires SameValues(e, e')
    ensures Times(text, e, k) == Times(text, e', k)
    decreases k
  {
    if k > 0 && FillOnce(text, e).Some? {
      SameTimes(FillOnce(text, e).value, e, e', k - 1);
    }
  }

  lemma SameHalts(text: string, e: Values, e': Values)
    requires SameValues(e, e') && Halts(text, e)
    ensures Halts(text, e')
  {
    var k: nat :| Times(text, e, k) == None;
    SameTimes(text, e, e', k);
  }

  /** A value that was drawn meanwhile changes neither whether filling ends nor its result. */
  lemma {:induction false} SameFill(text: string, e: Values, e': Values)
    requires SameValues(e, e') && Halts(text, e)
    ensures Halts(text, e') && Fill(text, e') == Fill(text, e)
    decreases Steps(text, e)
  {
    SameHalts(text, e, e');
    assert FillOnce(text, e') == FillOnce(text, e);
    if FillOnce(text, e).Some? {
      StepsNext(text, e);
      StepsNext(text, e');
      SameFill(FillOnce(text, e).value, e, e');
    }
  }

  /** `m'` has what `m` has and, besides, only RANDOM_ names with what they drew. */
  ghost predicate Grown(m: map<string, string>, m': map<string, string>, draws: string -> string) {
    && (forall n :: n in m ==> n in m' && m'[n] == m[n])
    && (forall n :: n in m' && n !in m ==> IsRandomName(n) && m'[n] == draws(n))
  }

  /** A mapping grows by names behind `RANDOM_` only, each with a word of 16 lower-case letters. */
  lemma GrownByWords(m: map<string, string>, m': map<string, string>, draws: string -> string, n: string)
    requires Grown(m, m', draws) && DrawsWords(draws) && n in m' && n !in m
    ensures (exists rest :: rest != "" && n == "RANDOM_" + rest)
    ensures |m'[n]| == 16 && forall k :: 0 <= k < 16 ==> 'a' <= m'[n][k] <= 'z'
  {
    assert n == "RANDOM_" + n[7..];
  }

  lemma GrownMeans(m: map<string, string>, m': map<string, string>, draws: string -> string)
    requires Grown(m, m', draws)
    ensures SameValues(Values(m, draws), Values(m', draws))
  {
  }

  // ------------------------------------------------------------------
  // Filling ends for every text while values have fewer than four braces
  // ------------------------------------------------------------------

  ghost predicate AtMostBraces(m: map<string, string>, k: nat) {
    forall n :: n in m ==> Braces(m[n]) <= k
  }

  lemma WordHasNoBrace(s: string, length: nat, lo: char, hi: char)
    requires IsWordOf(s, length, lo, hi) && ((lo == 'a' && hi == 'z') || (lo == '0' && hi == '9'))
    ensures Braces(s) == 0
  {
    BracesOfRun(s);
  }

  lemma FillOnceShrinks(text: string, e: Values)
    requires AtMostBraces(e.mapping, 3) && DrawsWords(e.draws)
    ensures FillOnce(text, e).Some? ==> Braces(FillOnce(text, e).value) < Braces(text)
  {
    if FillOnce(text, e).Some? {
      var r := Placeholder(text).value;
      var value := e.Of(Name(text, r)).value;
      if Name(text, r) !in e.mapping {
        WordHasNoBrace(value, 16, 'a', 'z');
      }
      BracesReplace(text, r, value, NotBrace, 0);
    }
  }

  lemma {:induction false} LightHalts(text: string, e: Values)
    requires AtMostBraces(e.mapping, 3) && DrawsWords(e.draws)
    ensures Halts(text, e)
    decreases Braces(text)
  {
    HaltsNext(text, e);
    if FillOnce(text, e).Some? {
      FillOnceShrinks(text, e);
      LightHalts(FillOnce(text, e).value, e);
    }
  }

  /** A variable that stands for its own placeholder. */
  const SELF := map["A" := "{{A}}"]

  lemma SelfStep(draws: string -> string)
    ensures Braces("{{A}}") == 4 && FillOnce("{{A}}", Values(SELF, draws)) == Some("{{A}}")
  {
    SelfBraces();
    SelfPlaceholder();
    hide Braces, Placeholder;
    var t := "{{A}}";
    assert Name(t, Range(0, 5)) == "A" && Replace(t, Range(0, 5), t) == t;
  }

  lemma SelfBraces()
    ensures Braces("{{A}}") == 4
  {
    BracesAppend("{{", "A}}");
    BracesAppend("A", "}}");
    assert "{{A}}" == "{{" + "A}}" && "A}}" == "A" + "}}";
    assert Braces("{{") == 2 && Braces("}}") == 2;
  }

  lemma SelfPlaceholder()
    ensures Placeholder("{{A}}") == Some(Range(0, 5))
  {
    var t := "{{A}}";
    assert IsHole(t, 0, 5, NotBrace, 0);
    HoleEnd(t, 0, NotBrace, 0);
  }

  /** It is there after any number of steps. */
  lemma {:induction false} SelfNeverEnds(draws: string -> string, k: nat)
    ensures Times("{{A}}", Values(SELF, draws), k) == Some("{{A}}")
  {
    SelfStep(draws);
    if k > 0 {
      SelfNeverEnds(draws, k - 1);
    }
  }

  /** A bound on the braces of the values makes filling end for every text exactly when it is less
      than four. */
  lemma BoundEndsIff(k: nat)
    ensures (forall text, e: Values :: AtMostBraces(e.mapping, k) && DrawsWords(e.draws) ==> Halts(text, e)) <==> k < 4
  {
    if k < 4 {
      forall text, e: Values | AtMostBraces(e.mapping, k) && DrawsWords(e.draws) ensures Halts(text, e) {
        LightHalts(text, e);
      }
    } else {
      var draws := (n: string) => "aaaaaaaaaaaaaaaa";
      var e := Values(SELF, draws);
      SelfStep(draws);
      assert AtMostBraces(e.mapping, k) && DrawsWords(e.draws);
      if Halts("{{A}}", e) {
        var l: nat :| Times("{{A}}", e, l) == None;
        SelfNeverEnds(draws, l);
      }
    }
  }

  // ------------------------------------------------------------------
  // Filling runs of `$` and `#`
  // ------------------------------------------------------------------

  /** Rewriting the leftmost runs, one after the other, with the given draws. */
  function FillRuns(text: string, p: char -> bool, draws: seq<string>): string
    requires !p('}')
    decreases |draws|
  {
    if draws == [] || Find(text, p, 1) == None then text
    else FillRuns(Replace(text, Find(text, p, 1).value, draws[0]), p, draws[1..])
  }

  /** Each draw fits the run that it replaces: its length, and the charset. */
  ghost predicate Fits(text: string, p: char -> bool, draws: seq<string>, lo: char, hi: char)
    requires !p('}')
    decreases |draws|
  {
    draws == [] ||
    match Find(text, p, 1)
    case None => false
    case Some(r) =>
      IsWordOf(draws[0], r.end - r.start - 4, lo, hi) &&
      Fits(Replace(text, r, draws[0]), p, draws[1..], lo, hi)
  }

  lemma {:induction false} FitsMore(text: string, p: char -> bool, draws: seq<string>, draw: string, lo: char, hi: char)
    requires !p('}') && Fits(text, p, draws, lo, hi)
    requires var t := FillRuns(text, p, draws);
               Find(t, p, 1).Some? &&
               IsWordOf(draw, Find(t, p, 1).value.end - Find(t, p, 1).value.start - 4, lo, hi)
    ensures Fits(text, p, draws + [draw], lo, hi)
    ensures var t := FillRuns(text, p, draws);
              FillRuns(text, p, draws + [draw]) ==
              Replace(t, Find(t, p, 1).value, draw)
    decreases |draws|
  {
    if draws == [] {
      assert [draw][1..] == [];
    } else {
      var next := Replace(text, Find(text, p, 1).value, draws[0]);
      FitsMore(next, p, draws[1..], draw, lo, hi);
      assert (draws + [draw])[1..] == draws[1..] + [draw];
    }
  }

  /** Each run is replaced by as many characters as it had between its braces. */
  lemma {:induction false} RunsFilled(text: string, p: char -> bool, draws: seq<string>, lo: char, hi: char)
    requires !p('}') && Fits(text, p, draws, lo, hi)
    ensures |FillRuns(text, p, draws)| == |text| - 4 * |draws|
    decreases |draws|
  {
    if draws != [] {
      RunsFilled(Replace(text, Find(text, p, 1).value, draws[0]), p, draws[1..], lo, hi);
    }
  }

  ghost predicate DrawnRuns(text: string, plain: string, digits: seq<string>, letters: seq<string>) {
    && Fits(text, IsDollar, digits, '0', '9')
    && var t := FillRuns(text, IsDollar, digits);
    && Find(t, IsDollar, 1) == None
    && Fits(t, IsHash, letters, 'a', 'z')
    && plain == FillRuns(t, IsHash, letters)
    && Find(plain, IsHash, 1) == None
  }

  /** `plain` is `text` with all runs of `$` replaced by digits, and then all runs of `#` by letters. */
  ghost predicate WithoutRuns(text: string, plain: string) {
    exists digits, letters :: DrawnRuns(text, plain, digits, letters)
  }

  /** Filling the variables ends, whatever was drawn for the runs. */
  ghost predicate HelperHalts(text: string, e: Values) {
    forall plain :: WithoutRuns(text, plain) ==> Halts(plain, e)
  }

  lemma SameHelperHalts(text: string, e: Values, e': Values)
    requires SameValues(e, e') && HelperHalts(text, e)
    ensures HelperHalts(text, e')
  {
    forall plain | WithoutRuns(text, plain) ensures Halts(plain, e') {
      SameHalts(plain, e, e');
    }
  }

  // ------------------------------------------------------------------
  // The filler as the source runs it
  // ------------------------------------------------------------------

  /** generateRandomString and generateRandomNumber: any word over the charset. */
  method GenerateRandom(length: nat, lo: char, hi: char) returns (s: string)
    requires lo <= hi
    ensures IsWordOf(s, length, lo, hi)
  {
    s := "";
    while |s| < length
      invariant |s| <= length && forall k :: 0 <= k < |s| ==> lo <= s[k] <= hi
    {
      var c: char :| lo <= c <= hi;
      s := s + [c];
    }
  }

  /** The mapping that a caller passes by pointer, and what the generator draws for RANDOM_ names. */
  class Filler {
    const draws: string -> string
    var mapping: map<string, string>

    constructor (mapping: map<string, string>, draws: string -> string)
      ensures this.mapping == mapping && this.draws == draws
    {
      this.mapping, this.draws := mapping, draws;
    }

    ghost function All(): Values reads this { Values(mapping, draws) }

    /** randomNumberFiller and randomCharacterFiller. */
    method RandomFiller(text: string, p: char -> bool, lo: char, hi: char)
      returns (output: string, isUpdated: bool, ghost draw: string)
      requires !p('}') && lo <= hi
      ensures isUpdated <==> Find(text, p, 1).Some?
      ensures !isUpdated ==> output == text
      ensures isUpdated ==> var r := Find(text, p, 1).value;
                output == Replace(text, r, draw) &&
                IsWordOf(draw, r.end - r.start - 4, lo, hi)
    {
      output, isUpdated, draw := text, false, "";
      match Find(text, p, 1)
      case None =>
      case Some(r) =>
        var s := GenerateRandom(r.end - r.start - 4, lo, hi);
        output, isUpdated, draw := text[..r.start] + s + text[r.end..], true, s;
    }

    /** variableFiller: one replacement; a RANDOM_ name that has no value gets one. */
    method VariableFiller(text: string) returns (output: string, isUpdated: bool)
      modifies this`mapping
      ensures Grown(old(mapping), mapping, draws)
      ensures FillOnce(text, old(All())) == if isUpdated then Some(output) else None
      ensures !isUpdated ==> output == text && mapping == old(mapping) && Settled(text, mapping)
      // The only new name is the one that was filled.
      ensures forall n :: n in mapping && n !in old(mapping) ==> isUpdated && Name(text, Placeholder(text).value) == n
    {
      output, isUpdated := text, false;
      match Placeholder(text)
      case None =>
      case Some(r) =>
        var name := text[r.start + 2..r.end - 2];
        if name in mapping {
          output, isUpdated := text[..r.start] + mapping[name] + text[r.end..], true;
        } else if IsRandomName(name) {
          var value := draws(name);
          mapping := mapping[name := value];
          output, isUpdated := text[..r.start] + value + text[r.end..], true;
        }
    }

    /** The first two loops of variableFillerHelper. */
    method RunsFiller(text: string, p: char -> bool, lo: char, hi: char)
      returns (output: string, ghost draws: seq<string>)
      requires !p('}') && (forall c :: p(c) ==> NotBrace(c)) && ((lo == 'a' && hi == 'z') || (lo == '0' && hi == '9'))
      ensures Fits(text, p, draws, lo, hi) && output == FillRuns(text, p, draws) && Find(output, p, 1) == None
      ensures |output| == |text| - 4 * |draws|
    {
      output, draws := text, [];
      var isUpdated := true;
      while isUpdated
        invariant Fits(text, p, draws, lo, hi) && output == FillRuns(text, p, draws)
        invariant !isUpdated ==> Find(output, p, 1) == None
        decreases Braces(output), isUpdated
      {
        var next;
        ghost var draw;
        next, isUpdated, draw := RandomFiller(output, p, lo, hi);
        if isUpdated {
          BracesReplace(output, Find(output, p, 1).value, draw, p, 1);
          WordHasNoBrace(draw, |draw|, lo, hi);
          FitsMore(text, p, draws, draw, lo, hi);
          draws := draws + [draw];
        }
        output := next;
      }
      RunsFilled(text, p, draws, lo, hi);
    }

    /** variableFillerHelper: runs of `$`, runs of `#`, then variables, each as long as there is one. */
    method VariableFillerHelper(text: string) returns (output: string, ghost plain: string)
      requires HelperHalts(text, All())
      modifies this`mapping
      ensures Grown(old(mapping), mapping, draws)
      ensures WithoutRuns(text, plain) && Halts(plain, old(All())) && output == Fill(plain, old(All()))
      ensures Settled(output, mapping)
    {
      ghost var digits, letters;
      ghost var e := All();
      output, digits := RunsFiller(text, IsDollar, '0', '9');
      output, letters := RunsFiller(output, IsHash, 'a', 'z');
      plain := output;
      assert DrawnRuns(text, plain, digits, letters);
      var isUpdated := true;
      hide WithoutRuns, Times, Halts, FillOnce, Settled;
      while isUpdated
        invariant Grown(e.mapping, mapping, draws)
        invariant Halts(plain, e) && Halts(output, e) && Fill(plain, e) == Fill(output, e)
        invariant !isUpdated ==> FillOnce(output, e) == None && Settled(output, mapping)
        decreases Steps(output, e), isUpdated
      {
        ghost var before := All();
        GrownMeans(e.mapping, mapping, draws);
        SameOnce(output, e, before);
        var next;
        next, isUpdated := VariableFiller(output);
        GrownTransitive(e.mapping, before.mapping, mapping, draws);
        if isUpdated {
          StepsNext(output, e);
        }
        output := next;
      }
    }

    /** The texts of a service, filled one after the other with the same growing mapping: all of them
        with the same values, so a RANDOM_ name has one value in all of them. */
    method FillTexts(texts: seq<string>) returns (outputs: seq<string>, ghost plain: seq<string>)
      requires forall k :: 0 <= k < |texts| ==> HelperHalts(texts[k], All())
      modifies this`mapping
      ensures Grown(old(mapping), mapping, draws)
      ensures |outputs| == |plain| == |texts|
      ensures forall k :: 0 <= k < |texts| ==>
                && WithoutRuns(texts[k], plain[k]) && Halts(plain[k], old(All())) &&
                    outputs[k] == Fill(plain[k], old(All()))
                && Settled(outputs[k], mapping)
    {
      hide Fill, Settled, WithoutRuns, Halts, HelperHalts;
      ghost var e := All();
      outputs, plain := [], [];
      for i := 0 to |texts|
        invariant Grown(e.mapping, mapping, draws)
        invariant |outputs| == |plain| == i
        invariant forall k :: 0 <= k < i ==>
                    && WithoutRuns(texts[k], plain[k]) && Halts(plain[k], e) && outputs[k] == Fill(plain[k], e)
                    && Settled(outputs[k], mapping)
      {
        ghost var before := All();
        GrownMeans(e.mapping, mapping, draws);
        SameHelperHalts(texts[i], e, before);
        var output;
        ghost var p;
        output, p := VariableFillerHelper(texts[i]);
        GrownTransitive(e.mapping, before.mapping, mapping, draws);
        SameBack(e, before);
        SameFill(p, before, e);
        forall k | 0 <= k < i ensures Settled(outputs[k], mapping) {
          SettledStays(outputs[k], before.mapping, mapping, draws);
        }
        outputs, plain := outputs + [output], plain + [p];
      }
    }
  }

  lemma SameOnce(text: string, e: Values, e': Values)
    requires SameValues(e, e')
    ensures FillOnce(text, e) == FillOnce(text, e')
  {
  }

  lemma SameBack(e: Values, e': Values)
    requires SameValues(e, e')
    ensures SameValues(e', e)
  {
  }

  lemma GrownTransitive(a: map<string, string>, b: map<string, string>, c: map<string, string>, draws: string -> string)
    requires Grown(a, b, draws) && Grown(b, c, draws)
    ensures Grown(a, c, draws)
  {
  }

  /** Only RANDOM_ names are added, and no settled text waits for one. */
  lemma SettledStays(text: string, m: map<string, string>, m': map<string, string>, draws: string -> string)
    requires Settled(text, m) && Grown(m, m', draws)
    ensures Settled(text, m')
  {
  }
}
