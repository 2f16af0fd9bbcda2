/** Stack texts without nested placeholders: when filling them ends, and what it gives. */
module TemplateSegments {
  import opened Wrappers
  import opened Template

  /** A piece of a text: as it is, a placeholder, or a run of `length` marks between braces. */
  datatype Segment = Literal(text: string) | Hole(name: string) | Run(mark: char, length: nat)

  function Marks(mark: char, length: nat): (s: string)
    ensures |s| == length && forall k :: 0 <= k < |s| ==> s[k] == mark
  {
    seq(length, _ => mark)
  }

  function RenderOne(segment: Segment): string {
    match segment
    case Literal(s) => s
    case Hole(n) => "{{" + n + "}}"
    case Run(mark, length) => "{{" + Marks(mark, length) + "}}"
  }

  function Render(segments: seq<Segment>): string {
    if segments == [] then "" else RenderOne(segments[0]) + Render(segments[1..])
  }

  /** No two opening braces in a row, and none at the end. */
  predicate Closed(s: string) {
    forall k :: 0 <= k < |s| && s[k] == '{' ==> k + 1 < |s| && s[k + 1] != '{'
  }

  ghost predicate SegmentOk(segment: Segment) {
    match segment
    case Literal(s) => Closed(s)
    case Hole(n) => forall c :: c in n ==> NotBrace(c)
    case Run(mark, length) => (IsDollar(mark) || IsHash(mark)) && length > 0
  }

  /** Nothing is nested; with `runs` there may also be runs of marks. */
  ghost predicate NotNested(segments: seq<Segment>, runs: bool) {
    forall s :: s in segments ==> SegmentOk(s) && (s.Run? ==> runs)
  }

  lemma Regroup(a: string, b: string, c: string)
    ensures a + (b + c) == a + b + c
  {
  }

  lemma {:induction false} RenderAppend(a: seq<Segment>, b: seq<Segment>)
    ensures Render(a + b) == Render(a) + Render(b)
  {
    if a == [] {
      assert a + b == b;
    } else {
      assert (a + b)[0] == a[0] && (a + b)[1..] == a[1..] + b;
      RenderAppend(a[1..], b);
      Regroup(RenderOne(a[0]), Render(a[1..]), Render(b));
    }
  }

  lemma ClosedAppend(a: string, b: string)
    requires Closed(a) && Closed(b)
    ensures Closed(a + b)
  {
  }

  lemma ClosedWord(s: string, length: nat, lo: char, hi: char)
    requires IsWordOf(s, length, lo, hi) && ((lo == 'a' && hi == 'z') || (lo == '0' && hi == '9'))
    ensures Closed(s)
  {
  }

  // ------------------------------------------------------------------
  // The leftmost placeholder
  // ------------------------------------------------------------------

  lemma NoneInClosed(s: string, e: Values)
    requires Closed(s)
    ensures FillOnce(s, e) == None
  {
  }

  lemma FindFirstHole(pre: string, n: string, post: string)
    requires Closed(pre) && forall c :: c in n ==> NotBrace(c)
    ensures Placeholder(pre + "{{" + n + "}}" + post) == Some(Range(|pre|, |pre| + |n| + 4))
  {
    var text := pre + "{{" + n + "}}" + post;
    var e := |pre| + |n| + 4;
    assert forall k :: 0 <= k < |pre| ==> text[k] == pre[k];
    assert forall k :: 0 <= k < |n| ==> text[|pre| + 2 + k] == n[k];
    assert IsHole(text, |pre|, e, NotBrace, 0);
    var r := Placeholder(text).value;
    assert r.start == |pre|;
    HoleEnd(text, |pre|, NotBrace, 0);
  }

  lemma FillHole(pre: string, n: string, post: string, e: Values)
    requires Closed(pre) && forall c :: c in n ==> NotBrace(c)
    ensures FillOnce(pre + "{{" + n + "}}" + post, e) ==
            match e.Of(n) case None => None case Some(value) => Some(pre + value + post)
  {
    var text := pre + "{{" + n + "}}" + post;
    FindFirstHole(pre, n, post);
    var r := Range(|pre|, |pre| + |n| + 4);
    assert Name(text, r) == n && text[..r.start] == pre && text[r.end..] == post;
  }

  // ------------------------------------------------------------------
  // One pass from left to right
  // ------------------------------------------------------------------

  /** Filling when the values bring in no further placeholders: it stops at the first name without
      a value. */
  function OnePass(segments: seq<Segment>, e: Values): string {
    if segments == [] then ""
    else match segments[0]
      case Literal(s) => s + OnePass(segments[1..], e)
      case Hole(n) =>
        (match e.Of(n) case None => Render(segments) case Some(value) => value + OnePass(segments[1..], e))
      case Run(_, _) => Render(segments)
  }

  /** The values of the names in use bring in no placeholder. */
  ghost predicate ClosedValues(segments: seq<Segment>, e: Values) {
    forall s :: s in segments && s.Hole? && e.Of(s.name).Some? ==> Closed(e.Of(s.name).value)
  }

  lemma {:induction false} FillAfter(pre: string, segments: seq<Segment>, e: Values)
    requires Closed(pre) && NotNested(segments, false) && ClosedValues(segments, e)
    ensures Halts(pre + Render(segments), e) && Fill(pre + Render(segments), e) == pre + OnePass(segments, e)
    decreases |segments|
  {
    if segments == [] {
      assert pre + "" == pre;
      NoneInClosed(pre, e);
      HaltsNext(pre, e);
    } else {
      var rest := segments[1..];
      var text, filled := Render(rest), OnePass(rest, e);
      assert segments[0] in segments && SegmentOk(segments[0]);
      match segments[0]
      case Literal(s) =>
        assert Render(segments) == s + text && OnePass(segments, e) == s + filled;
        hide Render, OnePass, FillOnce, Halts, Fill;
        ClosedAppend(pre, s);
        FillAfter(pre + s, rest, e);
        Regroup(pre, s, text);
        Regroup(pre, s, filled);
      case Hole(n) =>
        var hole := "{{" + n + "}}";
        assert Render(segments) == hole + text;
        assert OnePass(segments, e) == match e.Of(n) case None => hole + text case Some(value) => value + filled;
        hide Render, OnePass, FillOnce, Halts;
        Regroup(pre, hole, text);
        assert pre + hole == pre + "{{" + n + "}}";
        FillHole(pre, n, text, e);
        HaltsNext(pre + hole + text, e);
        if e.Of(n).Some? {
          var value := e.Of(n).value;
          ClosedAppend(pre, value);
          FillAfter(pre + value, rest, e);
          Regroup(pre, value, filled);
        }
    }
  }

  /** On text without nesting, and with closed values, the repeated rewriting ends and is one pass
      from left to right. */
  lemma FillIsOnePass(segments: seq<Segment>, e: Values)
    requires NotNested(segments, false) && ClosedValues(segments, e)
    ensures Halts(Render(segments), e) && Fill(Render(segments), e) == OnePass(segments, e)
  {
    hide Fill, Render, OnePass, Halts;
    FillAfter("", segments, e);
    assert "" + OnePass(segments, e) == OnePass(segments, e);
    assert "" + Render(segments) == Render(segments);
  }

  // ------------------------------------------------------------------
  // Runs of marks become words
  // ------------------------------------------------------------------

  lemma NoRunInHole(n: string, rest: string, p: char -> bool, i: nat, j: nat)
    requires (forall c :: c in n ==> NotBrace(c)) && !p('}') && !p('{') && (n == "" || exists c :: c in n && !p(c))
    requires i < |n| + 4
    ensures !IsHole("{{" + n + "}}" + rest, i, j, p, 1)
  {
    var text := "{{" + n + "}}" + rest;
    assert forall k :: 0 <= k < |n| ==> text[2 + k] == n[k];
    assert text[2 + |n|] == '}';
    assert text[0] == text[1] == '{' && text[3 + |n|] == '}';
    assert forall k :: 2 <= k < 2 + |n| ==> NotBrace(text[k]) by {
      forall k | 2 <= k < 2 + |n| ensures NotBrace(text[k]) { assert text[2 + (k - 2)] == n[k - 2]; }
    }
    var w :| 0 <= w <= |n| && (w < |n| ==> !p(n[w])) && (w == |n| ==> n == "");
    assert !p(text[2 + w]);
  }

  lemma HoleAfter(first: string, rest: string, i: nat, j: nat, p: char -> bool)
    requires |first| <= i && |first| <= j
    ensures IsHole(first + rest, i, j, p, 1) ==> IsHole(rest, i - |first|, j - |first|, p, 1)
  {
    var text := first + rest;
    assert forall k :: 0 <= k < |rest| ==> text[|first| + k] == rest[k];
    if IsHole(text, i, j, p, 1) {
      forall k | i - |first| + 2 <= k < j - |first| - 2 ensures p(rest[k]) {
        assert p(text[|first| + k]);
      }
    }
  }

  lemma NoRunInLiteral(s: string, rest: string, p: char -> bool, i: nat, j: nat)
    requires Closed(s) && i < |s|
    ensures !IsHole(s + rest, i, j, p, 1)
  {
    assert (s + rest)[i] == s[i];
    assert i + 1 < |s| ==> (s + rest)[i + 1] == s[i + 1];
  }

  /** The segment is no run of the marks `p`, nor a placeholder that reads like one. */
  ghost predicate OtherThan(segment: Segment, p: char -> bool) {
    match segment
    case Literal(_) => true
    case Hole(n) => n == "" || exists c :: c in n && !p(c)
    case Run(mark, _) => !p(mark)
  }

  lemma {:induction false} NoRun(segments: seq<Segment>, rest: string, p: char -> bool, i: nat, j: nat)
    requires NotNested(segments, true) && !p('}') && !p('{')
    requires (forall s :: s in segments ==> OtherThan(s, p)) && i < |Render(segments)|
    ensures !IsHole(Render(segments) + rest, i, j, p, 1)
    decreases |segments|
  {
    var first, tail := RenderOne(segments[0]), Render(segments[1..]);
    assert segments[0] in segments && SegmentOk(segments[0]) && OtherThan(segments[0], p);
    Regroup(first, tail, rest);
    if |first| <= i {
      if |first| <= j {
        NoRun(segments[1..], rest, p, i - |first|, j - |first|);
        HoleAfter(first, tail + rest, i, j, p);
      }
    } else {
      match segments[0]
      case Literal(s) => NoRunInLiteral(s, tail + rest, p, i, j);
      case Hole(n) => NoRunInHole(n, tail + rest, p, i, j);
      case Run(mark, length) =>
        var n := Marks(mark, length);
        assert n[0] in n && !p(n[0]);
        NoRunInHole(n, tail + rest, p, i, j);
    }
  }

  lemma NoRunFound(segments: seq<Segment>, p: char -> bool)
    requires NotNested(segments, true) && !p('}') && !p('{') && forall s :: s in segments ==> OtherThan(s, p)
    ensures Find(Render(segments), p, 1) == None
  {
    var text := Render(segments);
    assert text + "" == text;
    forall i: nat, j: nat ensures !IsHole(text, i, j, p, 1) {
      if i < |text| {
        NoRun(segments, "", p, i, j);
      }
    }
  }

  lemma HoleAt(pre: string, n: string, rest: string, p: char -> bool)
    requires n != "" && forall k :: 0 <= k < |n| ==> p(n[k])
    ensures IsHole(pre + ("{{" + n + "}}" + rest), |pre|, |pre| + |n| + 4, p, 1)
  {
    var tail := "{{" + n + "}}" + rest;
    var text := pre + tail;
    assert forall k :: 0 <= k < |tail| ==> text[|pre| + k] == tail[k];
    assert forall k :: 0 <= k < |n| ==> tail[2 + k] == n[k];
    assert tail[0] == tail[1] == '{' && tail[2 + |n|] == tail[3 + |n|] == '}';
    forall k | |pre| + 2 <= k < |pre| + |n| + 2 ensures p(text[k]) {
      assert text[|pre| + (k - |pre|)] == tail[2 + (k - |pre| - 2)] == n[k - |pre| - 2];
    }
  }

  lemma FirstMatch(text: string, p: char -> bool, i: nat, j: nat)
    requires !p('}') && IsHole(text, i, j, p, 1) && forall k: nat, l: nat :: k < i ==> !IsHole(text, k, l, p, 1)
    ensures Find(text, p, 1) == Some(Range(i, j))
  {
    HoleEnd(text, i, p, 1);
    var r := Find(text, p, 1);
    assert r.Some? && r.value.start == i;
  }

  lemma NoRunBefore(before: seq<Segment>, tail: string, p: char -> bool)
    requires NotNested(before, true) && !p('}') && !p('{') && (forall s :: s in before ==> OtherThan(s, p))
    ensures forall i: nat, j: nat :: i < |Render(before)| ==> !IsHole(Render(before) + tail, i, j, p, 1)
  {
    hide Render, IsHole, NotNested, OtherThan;
    forall i: nat, j: nat | i < |Render(before)| ensures !IsHole(Render(before) + tail, i, j, p, 1) {
      NoRun(before, tail, p, i, j);
    }
  }

  /** The leftmost run is found, and its draw takes its place. */
  lemma RunDrawn(pre: string, n: string, rest: string, p: char -> bool, draws: seq<string>, lo: char, hi: char)
    requires n != "" && !p('}') && forall k :: 0 <= k < |n| ==> p(n[k])
    requires forall i: nat, j: nat :: i < |pre| ==> !IsHole(pre + ("{{" + n + "}}" + rest), i, j, p, 1)
    requires var text := pre + ("{{" + n + "}}" + rest);
               Fits(text, p, draws, lo, hi) &&
               Find(FillRuns(text, p, draws), p, 1) == None
    ensures draws != [] && IsWordOf(draws[0], |n|, lo, hi)
    ensures Fits(pre + (draws[0] + rest), p, draws[1..], lo, hi)
    ensures FillRuns(pre + ("{{" + n + "}}" + rest), p, draws) == FillRuns(pre + (draws[0] + rest), p, draws[1..])
  {
    hide IsHole, Find, Fits, FillRuns, Replace, IsWordOf;
    HoleAt(pre, n, rest, p);
    var text, r := pre + ("{{" + n + "}}" + rest), Range(|pre|, |pre| + |n| + 4);
    FirstMatch(text, p, r.start, r.end);
    OneDraw(text, p, r, draws, lo, hi);
    ReplaceMiddle(pre, "{{" + n + "}}", rest, draws[0]);
  }

  lemma ReplaceMiddle(pre: string, run: string, rest: string, draw: string)
    ensures Replace(pre + (run + rest), Range(|pre|, |pre| + |run|), draw) == pre + (draw + rest)
  {
    var text := pre + (run + rest);
    assert text[..|pre|] == pre && text[|pre| + |run|..] == rest;
    Regroup(pre, draw, rest);
  }

  lemma OneDraw(text: string, p: char -> bool, r: Range, draws: seq<string>, lo: char, hi: char)
    requires !p('}') && Find(text, p, 1) == Some(r) && Fits(text, p, draws, lo, hi)
    requires Find(FillRuns(text, p, draws), p, 1) == None
    ensures draws != [] && r.start + 4 <= r.end <= |text| && IsWordOf(draws[0], r.end - r.start - 4, lo, hi)
    ensures Fits(Replace(text, r, draws[0]), p, draws[1..], lo, hi)
    ensures FillRuns(text, p, draws) == FillRuns(Replace(text, r, draws[0]), p, draws[1..])
  {
  }

  /** Every run of the marks `p` became a word of its own length; all else is as before. */
  ghost predicate Drawn(segments: seq<Segment>, drawn: seq<Segment>, p: char -> bool, lo: char, hi: char) {
    && |drawn| == |segments|
    && forall k :: 0 <= k < |segments| ==>
         if segments[k].Run? && p(segments[k].mark) then drawn[k].Literal? &&
             IsWordOf(drawn[k].text, segments[k].length, lo, hi)
         else drawn[k] == segments[k]
  }

  /** No placeholder reads like a run. */
  ghost predicate ProperHoles(segments: seq<Segment>, p: char -> bool) {
    forall s :: s in segments && s.Hole? ==> OtherThan(s, p)
  }

  function FirstRun(segments: seq<Segment>, p: char -> bool): (k: nat)
    ensures k <= |segments| && (k < |segments| ==> segments[k].Run? && p(segments[k].mark))
    ensures forall i :: 0 <= i < k ==> !(segments[i].Run? && p(segments[i].mark))
  {
    if segments == [] || (segments[0].Run? && p(segments[0].mark)) then 0 else 1 + FirstRun(segments[1..], p)
  }

  lemma RenderAround(before: seq<Segment>, s: Segment, after: seq<Segment>)
    ensures Render(before + [s] + after) == Render(before) + (RenderOne(s) + Render(after))
  {
    RenderAppend(before + [s], after);
    RenderAppend(before, [s]);
    assert Render([s]) == RenderOne(s) + "";
    hide Render;
    assert RenderOne(s) + "" == RenderOne(s);
    Regroup(Render(before), RenderOne(s), Render(after));
  }

  lemma NoDraw(text: string, p: char -> bool, draws: seq<string>)
    requires !p('}') && Find(text, p, 1) == None
    ensures FillRuns(text, p, draws) == text
  {
  }

  lemma DrawOne(before: seq<Segment>, run: Segment, after: seq<Segment>, draw: string, p: char -> bool, lo: char,
      hi: char)
    requires ((lo == 'a' && hi == 'z') || (lo == '0' && hi == '9')) && run.Run? && p(run.mark)
    requires IsWordOf(draw, run.length, lo, hi)
    requires NotNested(before + [run] + after, true) && ProperHoles(before + [run] + after, p)
    ensures NotNested(before + [Literal(draw)] + after, true) && ProperHoles(before + [Literal(draw)] + after, p)
    ensures forall drawn :: Drawn(before + [Literal(draw)] + after, drawn, p, lo, hi) ==>
              Drawn(before + [run] + after, drawn, p, lo, hi)
  {
    var segments, next := before + [run] + after, before + [Literal(draw)] + after;
    ClosedWord(draw, run.length, lo, hi);
    assert forall s :: s in next ==> s in segments || s == Literal(draw);
    assert forall k :: 0 <= k < |segments| ==> next[k] == if k == |before| then Literal(draw) else segments[k];
    forall drawn | Drawn(next, drawn, p, lo, hi) ensures Drawn(segments, drawn, p, lo, hi) {
      assert segments[|before|] == run && drawn[|before|] == Literal(draw);
    }
  }

  /** Replacing runs until there is none turns exactly the runs into words. */
  lemma {:induction false} RunsBecomeWords(segments: seq<Segment>, p: char -> bool, draws: seq<string>, lo: char,
      hi: char)
    returns (drawn: seq<Segment>)
    requires NotNested(segments, true) && ProperHoles(segments, p) && !p('}') && !p('{')
    requires (lo == 'a' && hi == 'z') || (lo == '0' && hi == '9')
    requires Fits(Render(segments), p, draws, lo, hi) && Find(FillRuns(Render(segments), p, draws), p, 1) == None
    ensures FillRuns(Render(segments), p, draws) == Render(drawn)
    ensures Drawn(segments, drawn, p, lo, hi) && NotNested(drawn, true)
    decreases |draws|
  {
    var k := FirstRun(segments, p);
    if k == |segments| {
      OnlyOthers(segments, segments, p);
      NoRunFound(segments, p);
      NoDraw(Render(segments), p, draws);
      drawn := segments;
    } else {
      var before, run, after := segments[..k], segments[k], segments[k + 1..];
      assert segments == before + [run] + after;
      OnlyOthers(segments, before, p);
      assert segments[k] in segments && SegmentOk(run);
      var n, pre, rest := Marks(run.mark, run.length), Render(before), Render(after);
      assert RenderOne(run) == "{{" + n + "}}";
      RenderAround(before, run, after);
      NoRunBefore(before, "{{" + n + "}}" + rest, p);
      hide *;
      RunDrawn(pre, n, rest, p, draws, lo, hi);
      DrawOne(before, run, after, draws[0], p, lo, hi);
      WordRendered(before, draws[0], after);
      drawn := RunsBecomeWords(before + [Literal(draws[0])] + after, p, draws[1..], lo, hi);
    }
  }

  lemma WordRendered(before: seq<Segment>, draw: string, after: seq<Segment>)
    ensures Render(before + [Literal(draw)] + after) == Render(before) + (draw + Render(after))
  {
    RenderAround(before, Literal(draw), after);
  }

  lemma OnlyOthers(segments: seq<Segment>, some: seq<Segment>, p: char -> bool)
    requires NotNested(segments, true) && ProperHoles(segments, p)
    requires forall s :: s in some ==> s in segments && !(s.Run? && p(s.mark))
    ensures NotNested(some, true) && forall s :: s in some ==> OtherThan(s, p)
  {
  }

  /** The first two loops of variableFillerHelper turn exactly the runs into words. */
  lemma HelperDraws(segments: seq<Segment>, plain: string) returns (digits: seq<Segment>, drawn: seq<Segment>)
    requires NotNested(segments, true) && ProperHoles(segments, IsDollar) && ProperHoles(segments, IsHash)
    requires WithoutRuns(Render(segments), plain)
    ensures Drawn(segments, digits, IsDollar, '0', '9') && Drawn(digits, drawn, IsHash, 'a', 'z')
    ensures plain == Render(drawn) && NotNested(drawn, false)
  {
    var d, l :| DrawnRuns(Render(segments), plain, d, l);
    digits := RunsBecomeWords(segments, IsDollar, d, '0', '9');
    SameHoles(segments, digits, IsDollar, '0', '9');
    drawn := RunsBecomeWords(digits, IsHash, l, 'a', 'z');
    NoRunsLeft(segments, digits, drawn);
  }

  /** variableFillerHelper on text without nesting: every run becomes a word of its own length, and
      then one pass from left to right fills the names. */
  lemma HelperIsOnePass(segments: seq<Segment>, e: Values, plain: string)
    returns (digits: seq<Segment>, drawn: seq<Segment>)
    requires NotNested(segments, true) && ProperHoles(segments, IsDollar) && ProperHoles(segments, IsHash)
    requires ClosedValues(segments, e)
    requires WithoutRuns(Render(segments), plain)
    ensures Drawn(segments, digits, IsDollar, '0', '9') && Drawn(digits, drawn, IsHash, 'a', 'z')
    ensures plain == Render(drawn) && Halts(plain, e) && Fill(plain, e) == OnePass(drawn, e)
  {
    digits, drawn := HelperDraws(segments, plain);
    assert forall s :: s in digits && s.Hole? ==> s in segments;
    assert forall s :: s in drawn && s.Hole? ==> s in digits;
    FillIsOnePass(drawn, e);
  }

  lemma SameHoles(segments: seq<Segment>, drawn: seq<Segment>, p: char -> bool, lo: char, hi: char)
    requires Drawn(segments, drawn, p, lo, hi)
    ensures forall q :: ProperHoles(segments, q) ==> ProperHoles(drawn, q)
  {
    assert forall s :: s in drawn && s.Hole? ==> s in segments;
  }

  lemma NoRunsLeft(segments: seq<Segment>, digits: seq<Segment>, drawn: seq<Segment>)
    requires NotNested(segments, true) && NotNested(drawn, true)
    requires Drawn(segments, digits, IsDollar, '0', '9') && Drawn(digits, drawn, IsHash, 'a', 'z')
    ensures NotNested(drawn, false)
  {
    forall k | 0 <= k < |drawn| ensures !drawn[k].Run? {
      assert segments[k] in segments && SegmentOk(segments[k]);
    }
  }
}
