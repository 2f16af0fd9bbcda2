/** When filling ends on texts without nested placeholders whose values hold placeholders
    themselves: exactly when no name is met again inside its own value. */
module TemplateCycles {
  import opened Wrappers
  import opened Template
  import opened TemplateSegments

  /** The values of the mapped names, as segments. */
  type Bodies = map<string, seq<Segment>>

  function RenderAll(v: Bodies): map<string, string> {
    map n | n in v :: Render(v[n])
  }

  ghost predicate BodiesOk(v: Bodies) {
    forall n :: n in v ==> NotNested(v[n], false)
  }

  // ------------------------------------------------------------------
  // Rewriting segments instead of text
  // ------------------------------------------------------------------

  /** What takes the place of a name. */
  function BodyOf(n: string, v: Bodies, draws: string -> string): Option<seq<Segment>> {
    if n in v then Some(v[n])
    else if IsRandomName(n) then Some([Literal(draws(n))])
    else None
  }

  /** The first placeholder is rewritten; what was before it is done with. */
  function SegStep(segments: seq<Segment>, v: Bodies, draws: string -> string): Option<seq<Segment>> {
    if segments == [] then None
    else match segments[0]
      case Literal(_) => SegStep(segments[1..], v, draws)
      case Hole(n) => (match BodyOf(n, v, draws) case None => None case Some(body) => Some(body + segments[1..]))
      case Run(_, _) => None
  }

  function SegTimes(segments: seq<Segment>, v: Bodies, draws: string -> string, k: nat): Option<seq<Segment>>
    decreases k
  {
    if k == 0 then Some(segments)
    else match SegStep(segments, v, draws) case None => None case Some(next) => SegTimes(next, v, draws, k - 1)
  }

  ghost predicate SegHalts(segments: seq<Segment>, v: Bodies, draws: string -> string) {
    exists k: nat :: SegTimes(segments, v, draws, k) == None
  }

  lemma OfMeans(n: string, v: Bodies, draws: string -> string)
    ensures match BodyOf(n, v, draws)
            case None => Values(RenderAll(v), draws).Of(n) == None
            case Some(body) => Values(RenderAll(v), draws).Of(n) == Some(Render(body))
  {
    if n !in v && IsRandomName(n) {
      assert Render([Literal(draws(n))]) == draws(n) + "" == draws(n);
    }
  }

  lemma BodyOk(n: string, v: Bodies, draws: string -> string)
    requires BodiesOk(v) && DrawsWords(draws) && BodyOf(n, v, draws).Some?
    ensures NotNested(BodyOf(n, v, draws).value, false)
  {
    if n !in v {
      ClosedWord(draws(n), 16, 'a', 'z');
    }
  }

  /** A step on the text behind `pre` is a step on its segments, behind a longer prefix. */
  lemma {:induction false} TextStep(pre: string, segments: seq<Segment>, v: Bodies, draws: string -> string)
    returns (pre': string)
    requires Closed(pre) && NotNested(segments, false) && BodiesOk(v) && DrawsWords(draws)
    ensures var e := Values(RenderAll(v), draws);
            match SegStep(segments, v, draws)
            case None => FillOnce(pre + Render(segments), e) == None
            case Some(next) =>
              Closed(pre') && NotNested(next, false) &&
              FillOnce(pre + Render(segments), e) == Some(pre' + Render(next))
    decreases |segments|
  {
    var e := Values(RenderAll(v), draws);
    pre' := pre;
    if segments == [] {
      assert pre + "" == pre;
      NoneInClosed(pre, e);
    } else {
      var rest := segments[1..];
      assert segments[0] in segments && SegmentOk(segments[0]);
      match segments[0]
      case Literal(s) =>
        assert Render(segments) == s + Render(rest);
        hide Render, FillOnce;
        ClosedAppend(pre, s);
        Regroup(pre, s, Render(rest));
        pre' := TextStep(pre + s, rest, v, draws);
      case Hole(n) =>
        OfMeans(n, v, draws);
        var hole, text := "{{" + n + "}}", Render(rest);
        assert Render(segments) == hole + text;
        hide Render, FillOnce;
        Regroup(pre, hole, text);
        assert pre + hole == pre + "{{" + n + "}}";
        FillHole(pre, n, text, e);
        if BodyOf(n, v, draws).Some? {
          var body := BodyOf(n, v, draws).value;
          BodyOk(n, v, draws);
          RenderAppend(body, rest);
          Regroup(pre, Render(body), text);
          assert NotNested(body + rest, false);
        }
    }
  }

  lemma {:induction false} TextTimes(pre: string, segments: seq<Segment>, v: Bodies, draws: string -> string, k: nat)
    requires Closed(pre) && NotNested(segments, false) && BodiesOk(v) && DrawsWords(draws)
    ensures Times(pre + Render(segments), Values(RenderAll(v), draws), k) == None <==>
              SegTimes(segments, v, draws, k) == None
    decreases k
  {
    hide *;
    TimesOnce(pre + Render(segments), Values(RenderAll(v), draws), k);
    SegTimesOnce(segments, v, draws, k);
    if k > 0 {
      var pre' := TextStep(pre, segments, v, draws);
      if SegStep(segments, v, draws).Some? {
        TextTimes(pre', SegStep(segments, v, draws).value, v, draws, k - 1);
      }
    }
  }

  lemma TimesOnce(text: string, e: Values, k: nat)
    ensures Times(text, e, k) ==
            if k == 0 then Some(text) else
              match FillOnce(text, e) case None => None case Some(next) => Times(next, e, k - 1)
  {
  }

  lemma SegTimesOnce(segments: seq<Segment>, v: Bodies, draws: string -> string, k: nat)
    ensures SegTimes(segments, v, draws, k) ==
            if k == 0 then Some(segments) else
              match SegStep(segments, v, draws) case None => None case Some(next) => SegTimes(next, v, draws, k - 1)
  {
  }

  lemma TextHalts(segments: seq<Segment>, v: Bodies, draws: string -> string)
    requires NotNested(segments, false) && BodiesOk(v) && DrawsWords(draws)
    ensures Halts(Render(segments), Values(RenderAll(v), draws)) <==> SegHalts(segments, v, draws)
  {
    assert "" + Render(segments) == Render(segments);
    forall k: nat ensures Times(Render(segments), Values(RenderAll(v), draws), k) == None <==>
        SegTimes(segments, v, draws, k) == None {
      TextTimes("", segments, v, draws, k);
    }
  }

  // ------------------------------------------------------------------
  // Expanding to a limited depth
  // ------------------------------------------------------------------

  /** `Done`: to the end.  `Stuck`: at a name without a value.  `Deep`: below the limit. */
  datatype Outcome = Done | Stuck | Deep

  /** What becomes of the segments when values are opened at most `depth` deep. */
  function Expand(segments: seq<Segment>, v: Bodies, depth: nat): Outcome
    decreases depth, |segments|
  {
    if segments == [] then Done
    else
      var first := ExpandOne(segments[0], v, depth);
      if first == Done then Expand(segments[1..], v, depth) else first
  }

  function ExpandOne(segment: Segment, v: Bodies, depth: nat): Outcome
    decreases depth, 0
  {
    match segment
    case Literal(_) => Done
    case Hole(n) =>
      if n in v then (if depth == 0 then Deep else Expand(v[n], v, depth - 1))
      else if IsRandomName(n) then Done
      else Stuck
    case Run(_, _) => Stuck
  }

  lemma {:induction false} ExpandAppend(a: seq<Segment>, b: seq<Segment>, v: Bodies, depth: nat)
    ensures Expand(a + b, v, depth) == if Expand(a, v, depth) == Done then Expand(b, v, depth) else Expand(a, v, depth)
    decreases |a|
  {
    if a == [] {
      assert a + b == b;
    } else {
      assert (a + b)[0] == a[0] && (a + b)[1..] == a[1..] + b;
      ExpandAppend(a[1..], b, v, depth);
    }
  }

  /** An outcome within the limit is the outcome under any higher limit. */
  lemma {:induction false} ExpandMore(segments: seq<Segment>, v: Bodies, depth: nat, more: nat)
    requires Expand(segments, v, depth) != Deep && depth <= more
    ensures Expand(segments, v, more) == Expand(segments, v, depth)
    decreases depth, |segments|
  {
    if segments != [] {
      ExpandOneMore(segments[0], v, depth, more);
      if ExpandOne(segments[0], v, depth) == Done {
        ExpandMore(segments[1..], v, depth, more);
      }
    }
  }

  lemma {:induction false} ExpandOneMore(segment: Segment, v: Bodies, depth: nat, more: nat)
    requires ExpandOne(segment, v, depth) != Deep && depth <= more
    ensures ExpandOne(segment, v, more) == ExpandOne(segment, v, depth)
    decreases depth, 0
  {
    if segment.Hole? && segment.name in v && depth > 0 {
      ExpandMore(v[segment.name], v, depth - 1, more - 1);
    }
  }

  // ------------------------------------------------------------------
  // Within a limit exactly when rewriting ends
  // ------------------------------------------------------------------

  lemma SegHaltsNext(segments: seq<Segment>, v: Bodies, draws: string -> string)
    ensures match SegStep(segments, v, draws)
            case None => SegHalts(segments, v, draws)
            case Some(next) => SegHalts(next, v, draws) ==> SegHalts(segments, v, draws)
  {
    match SegStep(segments, v, draws)
    case None => assert SegTimes(segments, v, draws, 1) == None;
    case Some(next) =>
      if k: nat :| SegTimes(next, v, draws, k) == None {
        assert SegTimes(segments, v, draws, k + 1) == None;
      }
  }

  lemma LiteralSkipped(s: string, rest: seq<Segment>, v: Bodies, draws: string -> string, k: nat)
    ensures k > 0 ==> SegTimes([Literal(s)] + rest, v, draws, k) == SegTimes(rest, v, draws, k)
  {
    assert ([Literal(s)] + rest)[1..] == rest;
  }

  lemma LiteralHalts(s: string, rest: seq<Segment>, v: Bodies, draws: string -> string)
    requires SegHalts(rest, v, draws)
    ensures SegHalts([Literal(s)] + rest, v, draws)
  {
    var k: nat :| SegTimes(rest, v, draws, k) == None;
    LiteralSkipped(s, rest, v, draws, k);
  }

  /** Segments that expand within a limit do not keep the rest from ending. */
  lemma {:induction false} ExpandedHalts(segments: seq<Segment>, rest: seq<Segment>, v: Bodies,
      draws: string -> string, depth: nat)
    requires Expand(segments, v, depth) == Stuck || (Expand(segments, v, depth) == Done && SegHalts(rest, v, draws))
    ensures SegHalts(segments + rest, v, draws)
    decreases depth, |segments|
  {
    if segments == [] {
      assert segments + rest == rest;
    } else {
      var all, tail := segments + rest, segments[1..] + rest;
      assert all[0] == segments[0] && all[1..] == tail && all == [segments[0]] + tail;
      if ExpandOne(segments[0], v, depth) == Done {
        ExpandedHalts(segments[1..], rest, v, draws, depth);
      }
      SegHaltsNext(all, v, draws);
      match segments[0]
      case Literal(s) => LiteralHalts(s, tail, v, draws);
      case Hole(n) =>
        if n in v {
          hide SegHalts;
          ExpandedHalts(v[n], tail, v, draws, depth - 1);
        } else if IsRandomName(n) {
          LiteralHalts(draws(n), tail, v, draws);
        }
      case Run(_, _) =>
    }
  }

  /** Rewriting that ends after `k` steps has opened values at most `k` deep. */
  lemma {:induction false} HaltsExpanded(segments: seq<Segment>, v: Bodies, draws: string -> string, k: nat)
    requires SegTimes(segments, v, draws, k) == None
    ensures Expand(segments, v, k) != Deep
    decreases k, |segments|
  {
    if segments != [] {
      var rest := segments[1..];
      assert segments == [segments[0]] + rest;
      match segments[0]
      case Literal(s) =>
        LiteralSkipped(s, rest, v, draws, k);
        HaltsExpanded(rest, v, draws, k);
      case Hole(n) =>
        if n in v {
          HaltsExpanded(v[n] + rest, v, draws, k - 1);
          ExpandAppend(v[n], rest, v, k - 1);
          if Expand(v[n], v, k - 1) == Done {
            ExpandMore(rest, v, k - 1, k);
          }
        } else if IsRandomName(n) {
          LiteralSkipped(draws(n), rest, v, draws, k - 1);
          HaltsExpanded(rest, v, draws, k - 1);
          ExpandMore(rest, v, k - 1, k);
        }
      case Run(_, _) =>
    }
  }

  // ------------------------------------------------------------------
  // Chains of names
  // ------------------------------------------------------------------

  ghost predicate Completes(segments: seq<Segment>, v: Bodies) {
    exists depth: nat :: Expand(segments, v, depth) == Done
  }

  /** Filling comes to the mapped name: all that is before it completes. */
  ghost predicate Meets(segments: seq<Segment>, v: Bodies, n: string) {
    n in v && exists k :: 0 <= k < |segments| && segments[k] == Hole(n) && Completes(segments[..k], v)
  }

  /** Each name is met in the value of the one before it, the first one in the segments. */
  ghost predicate IsChain(segments: seq<Segment>, v: Bodies, names: seq<string>)
    decreases |names|
  {
    names == [] || (Meets(segments, v, names[0]) && IsChain(v[names[0]], v, names[1..]))
  }

  predicate EndsIn(names: seq<string>, n: string) {
    names != [] && names[|names| - 1] == n
  }

  /** Filling comes to a name, and from its value to the same name again. */
  ghost predicate Cyclic(segments: seq<Segment>, v: Bodies) {
    exists n, outer, loop :: n in v && EndsIn(outer, n) && EndsIn(loop, n) && IsChain(segments, v, outer) &&
        IsChain(v[n], v, loop)
  }

  /** Below any limit there is a chain that is longer than the limit. */
  lemma {:induction false} DeepChain(before: seq<Segment>, segments: seq<Segment>, v: Bodies, depth: nat)
    returns (names: seq<string>)
    requires Expand(before, v, depth) == Done && Expand(segments, v, depth) == Deep
    ensures |names| == depth + 1 && IsChain(before + segments, v, names)
    decreases depth, |segments|
  {
    if ExpandOne(segments[0], v, depth) == Done {
      var before' := before + [segments[0]];
      StepOver(before, segments, v, depth);
      names := DeepChain(before', segments[1..], v, depth);
      assert before' + segments[1..] == before + segments;
    } else {
      var n := segments[0].name;
      MeetsHere(before, segments, v, n, depth);
      if depth == 0 {
        names := [n];
      } else {
        var more := DeepChain([], v[n], v, depth - 1);
        hide Expand, ExpandOne, Meets;
        assert [] + v[n] == v[n];
        names := [n] + more;
        assert names[1..] == more;
      }
    }
  }

  lemma StepOver(before: seq<Segment>, segments: seq<Segment>, v: Bodies, depth: nat)
    requires segments != [] && Expand(before, v, depth) == Done && ExpandOne(segments[0], v, depth) == Done
    ensures Expand(before + [segments[0]], v, depth) == Done
    ensures Expand(segments, v, depth) == Expand(segments[1..], v, depth)
  {
    assert [segments[0]][1..] == [] && Expand([segments[0]], v, depth) == Done;
    hide Expand, ExpandOne;
    ExpandAppend(before, [segments[0]], v, depth);
  }

  lemma MeetsHere(before: seq<Segment>, segments: seq<Segment>, v: Bodies, n: string, depth: nat)
    requires Expand(before, v, depth) == Done && segments != [] && segments[0] == Hole(n) && n in v
    ensures Meets(before + segments, v, n)
  {
    hide Expand;
    var all := before + segments;
    assert all[|before|] == Hole(n) && all[..|before|] == before;
    assert Completes(all[..|before|], v);
  }

  lemma MeetsOpens(segments: seq<Segment>, v: Bodies, n: string, depth: nat)
    requires Meets(segments, v, n) && Expand(segments, v, depth) != Deep
    ensures depth > 0 && Expand(v[n], v, depth - 1) != Deep
  {
    var k :| 0 <= k < |segments| && segments[k] == Hole(n) && Completes(segments[..k], v);
    var before, rest := segments[..k], segments[k..];
    assert segments == before + rest && rest[0] == Hole(n);
    ExpandAppend(before, rest, v, depth);
    var d: nat :| Expand(before, v, d) == Done;
    if d <= depth {
      ExpandMore(before, v, d, depth);
    } else if Expand(before, v, depth) != Deep {
      ExpandMore(before, v, depth, d);
    }
  }

  /** Along a chain the limit goes down by one for each name. */
  lemma {:induction false} ChainOpens(segments: seq<Segment>, v: Bodies, names: seq<string>, n: string, depth: nat)
    requires EndsIn(names, n) && IsChain(segments, v, names) && Expand(segments, v, depth) != Deep
    ensures |names| <= depth && n in v && Expand(v[n], v, depth - |names|) != Deep
    decreases |names|
  {
    MeetsOpens(segments, v, names[0], depth);
    if |names| > 1 {
      ChainOpens(v[names[0]], v, names[1..], n, depth - 1);
    }
  }

  lemma {:induction false} ChainSplits(segments: seq<Segment>, v: Bodies, names: seq<string>, i: nat)
    requires IsChain(segments, v, names) && i < |names|
    ensures IsChain(segments, v, names[..i + 1]) && names[i] in v && IsChain(v[names[i]], v, names[i + 1..])
    decreases |names|
  {
    if i == 0 {
      assert names[..1][1..] == [] && names[..1][0] == names[0];
    } else {
      ChainSplits(v[names[0]], v, names[1..], i - 1);
      assert names[..i + 1][1..] == names[1..][..i] && names[1..][i..] == names[i + 1..];
    }
  }

  /** A name that is met inside its own value never expands within a limit. */
  lemma {:induction false} NoWayOut(v: Bodies, n: string, names: seq<string>, depth: nat)
    requires n in v && EndsIn(names, n) && IsChain(v[n], v, names)
    ensures Expand(v[n], v, depth) == Deep
    decreases depth
  {
    if Expand(v[n], v, depth) != Deep {
      ChainOpens(v[n], v, names, n, depth);
      NoWayOut(v, n, names, depth - |names|);
    }
  }

  lemma CyclicIsDeep(segments: seq<Segment>, v: Bodies, depth: nat)
    requires Cyclic(segments, v)
    ensures Expand(segments, v, depth) == Deep
  {
    var n, outer, loop :| n in v && EndsIn(outer, n) && EndsIn(loop, n) && IsChain(segments, v, outer) &&
        IsChain(v[n], v, loop);
    if Expand(segments, v, depth) != Deep {
      ChainOpens(segments, v, outer, n, depth);
      NoWayOut(v, n, loop, depth - |outer|);
    }
  }

  lemma {:induction false} ChainNamesMapped(segments: seq<Segment>, v: Bodies, names: seq<string>)
    requires IsChain(segments, v, names)
    ensures forall n :: n in names ==> n in v
    decreases |names|
  {
    if names != [] {
      ChainNamesMapped(v[names[0]], v, names[1..]);
    }
  }

  /** Different members of a set are no more than it has. */
  lemma {:induction false} DifferentFit<T>(s: seq<T>, members: set<T>)
    requires (forall x :: x in s ==> x in members) && forall i, j :: 0 <= i < j < |s| ==> s[i] != s[j]
    ensures |s| <= |members|
    decreases |s|
  {
    if s != [] {
      DifferentFit(s[1..], members - {s[0]});
    }
  }

  /** A chain that is longer than the mapping repeats a name. */
  lemma LongChainIsCyclic(segments: seq<Segment>, v: Bodies, names: seq<string>)
    requires IsChain(segments, v, names) && |names| > |v|
    ensures Cyclic(segments, v)
  {
    ChainNamesMapped(segments, v, names);
    assert |v.Keys| == |v|;
    if forall i, j :: 0 <= i < j < |names| ==> names[i] != names[j] {
      DifferentFit(names, v.Keys);
    }
    var i: nat, j: nat :| i < j < |names| && names[i] == names[j];
    RepetitionIsCyclic(segments, v, names, i, j - i - 1);
  }

  lemma RepetitionIsCyclic(segments: seq<Segment>, v: Bodies, names: seq<string>, i: nat, k: nat)
    requires IsChain(segments, v, names) && i + 1 + k < |names| && names[i + 1 + k] == names[i]
    ensures Cyclic(segments, v)
  {
    hide IsChain;
    var n, inner := names[i], names[i + 1..];
    ChainSplits(segments, v, names, i);
    ChainSplits(v[n], v, inner, k);
    var outer, loop := names[..i + 1], inner[..k + 1];
    assert outer[i] == n && loop[k] == inner[k] == names[i + 1 + k];
    assert EndsIn(outer, n) && EndsIn(loop, n);
  }

  /** Filling ends exactly when no name is met inside its own value; and it is enough to open values
      as many levels deep as there are names, which can be done before filling. */
  lemma FillingEndsIff(segments: seq<Segment>, v: Bodies, draws: string -> string)
    requires NotNested(segments, false) && BodiesOk(v) && DrawsWords(draws)
    ensures Halts(Render(segments), Values(RenderAll(v), draws)) <==> !Cyclic(segments, v)
    ensures Halts(Render(segments), Values(RenderAll(v), draws)) <==> Expand(segments, v, |v|) != Deep
  {
    TextHalts(segments, v, draws);
    hide Halts, Render, NotNested, BodiesOk, DrawsWords;
    if k: nat :| SegTimes(segments, v, draws, k) == None {
      HaltsExpanded(segments, v, draws, k);
      if Cyclic(segments, v) {
        CyclicIsDeep(segments, v, k);
      }
    }
    if Expand(segments, v, |v|) == Deep {
      var names := DeepChain([], segments, v, |v|);
      assert [] + segments == segments;
      LongChainIsCyclic(segments, v, names);
    } else {
      SegHaltsNext([], v, draws);
      ExpandedHalts(segments, [], v, draws, |v|);
      assert segments + [] == segments;
    }
  }

  // ------------------------------------------------------------------
  // The whole helper
  // ------------------------------------------------------------------

  /** There are draws that fill the runs. */
  lemma {:induction false} RunsCanBeDrawn(text: string, p: char -> bool, letter: char, lo: char, hi: char)
    returns (draws: seq<string>)
    requires (forall c :: p(c) ==> NotBrace(c)) && !p('}') && lo <= letter <= hi && NotBrace(letter)
    ensures Fits(text, p, draws, lo, hi) && Find(FillRuns(text, p, draws), p, 1) == None
    decreases Braces(text)
  {
    match Find(text, p, 1)
    case None => draws := [];
    case Some(r) =>
      var draw := Marks(letter, r.end - r.start - 4);
      BracesReplace(text, r, draw, p, 1);
      BracesOfRun(draw);
      hide Find;
      var more := RunsCanBeDrawn(Replace(text, r, draw), p, letter, lo, hi);
      draws := [draw] + more;
      assert draws[1..] == more;
  }

  lemma SomePlain(text: string) returns (plain: string)
    ensures WithoutRuns(text, plain)
  {
    var digits := RunsCanBeDrawn(text, IsDollar, '0', '0', '9');
    var t := FillRuns(text, IsDollar, digits);
    var letters := RunsCanBeDrawn(t, IsHash, 'a', 'a', 'z');
    plain := FillRuns(t, IsHash, letters);
    assert DrawnRuns(text, plain, digits, letters);
  }

  /** Runs bring in no names. */
  function WithoutMarks(segments: seq<Segment>): (r: seq<Segment>)
    ensures |r| == |segments|
    ensures forall k :: 0 <= k < |r| ==> r[k] == if segments[k].Run? then Literal("") else segments[k]
  {
    if segments == [] then []
    else [if segments[0].Run? then Literal("") else segments[0]] + WithoutMarks(segments[1..])
  }

  lemma {:induction false} SameExpand(a: seq<Segment>, b: seq<Segment>, v: Bodies, depth: nat)
    requires |a| == |b| && forall k :: 0 <= k < |a| ==> a[k] == b[k] || (a[k].Literal? && b[k].Literal?)
    ensures Expand(a, v, depth) == Expand(b, v, depth)
    decreases |a|
  {
    if a != [] {
      SameExpand(a[1..], b[1..], v, depth);
    }
  }

  /** variableFillerHelper ends, whatever it draws for runs, exactly when no name is met inside its
      own value. */
  lemma HelperEndsIff(segments: seq<Segment>, v: Bodies, draws: string -> string)
    requires NotNested(segments, true) && ProperHoles(segments, IsDollar) && ProperHoles(segments, IsHash)
    requires BodiesOk(v) && DrawsWords(draws)
    ensures HelperHalts(Render(segments), Values(RenderAll(v), draws)) <==>
              Expand(WithoutMarks(segments), v, |v|) != Deep
    ensures HelperHalts(Render(segments), Values(RenderAll(v), draws)) <==> !Cyclic(WithoutMarks(segments), v)
  {
    var text, e, blank := Render(segments), Values(RenderAll(v), draws), WithoutMarks(segments);
    assert forall s :: s in blank ==> s in segments || s == Literal("");
    assert NotNested(blank, false);
    FillingEndsIff(blank, v, draws);
    forall plain | WithoutRuns(text, plain) ensures Halts(plain, e) <==> Expand(blank, v, |v|) != Deep {
      PlainEndsIff(segments, v, draws, plain);
    }
    var some := SomePlain(text);
  }

  lemma PlainEndsIff(segments: seq<Segment>, v: Bodies, draws: string -> string, plain: string)
    requires NotNested(segments, true) && ProperHoles(segments, IsDollar) && ProperHoles(segments, IsHash)
    requires BodiesOk(v) && DrawsWords(draws) && WithoutRuns(Render(segments), plain)
    ensures Halts(plain, Values(RenderAll(v), draws)) <==> Expand(WithoutMarks(segments), v, |v|) != Deep
  {
    var digits, drawn := HelperDraws(segments, plain);
    FillingEndsIff(drawn, v, draws);
    hide Halts, Render, Expand, NotNested, BodiesOk;
    forall k | 0 <= k < |drawn| ensures drawn[k] == WithoutMarks(segments)[k] ||
        (drawn[k].Literal? && WithoutMarks(segments)[k].Literal?) {
      assert digits[k] == segments[k] || digits[k].Literal?;
    }
    SameExpand(drawn, WithoutMarks(segments), v, |v|);
  }
}
