/**
 * Running the reconciler again with the same records. On a page whose `.booking-count` elements are
 * all plain annotations (true of a page that has none, and kept by every pass), a second pass
 * creates no element, counts the same `foundMatches` and, like the first, never aborts.
 */
module Rerun {
  import opened Wrappers
  import opened Workouts
  import opened Dom
  import opened Growth
  import opened Matching

  /** A plain annotation never matches a query other than `.booking-count`. */
  lemma AnnotationsMiss(s: seq<Node>, e: nat, q: Query)
    requires AnnotationsArePlain(s) && e < |s| && MissesAnnotations(q)
    ensures IsAnnotation(s[e]) ==> !Matches(s[e], q)
  {
    if IsAnnotation(s[e]) { PlainMisses(s[e], q); }
  }

  /** The elements of `xs` are in the table and none is a `.booking-count` element. */
  predicate NoneAnnotated(s: seq<Node>, xs: seq<nat>) {
    forall e :: e in xs ==> e < |s| && !IsAnnotation(s[e])
  }

  lemma NoneAnnotatedStable(s: seq<Node>, t: seq<Node>, xs: seq<nat>)
    requires Grows(s, t) && NoneAnnotated(s, xs)
    ensures NoneAnnotated(t, xs)
  {
    forall e | e in xs ensures e < |t| && !IsAnnotation(t[e]) {
      assert NodeGrows(s[e], t[e], |s|);
    }
  }

  /** What a query other than `.booking-count` selects contains no annotation. */
  lemma SelectedNotAnnotated(s: seq<Node>, xs: seq<nat>, q: Query)
    requires AnnotationsArePlain(s) && InRange(s, xs) && MissesAnnotations(q)
    ensures NoneAnnotated(s, Select(s, xs, q))
  {
    forall e | e in Select(s, xs, q) ensures e < |s| && !IsAnnotation(s[e]) {
      SelectMember(s, xs, q, e);
      AnnotationsMiss(s, e, q);
    }
  }

  // ---------------------------------------------------------------------------
  // Strategy A

  lemma {:induction false} LinkIdFrame(s: seq<Node>, t: seq<Node>, links: seq<nat>)
    requires InRange(s, links) && InRange(t, links)
    requires forall k :: 0 <= k < |links| ==> t[links[k]].attrs == s[links[k]].attrs
    ensures LinkId(t, links) == LinkId(s, links)
    decreases |links|
  {
    if links != [] { LinkIdFrame(s, t, links[1..]); }
  }

  /** The id an old element resolves to is unchanged. */
  lemma ResolveStable(s: seq<Node>, t: seq<Node>, e: nat)
    requires Grows(s, t) && e < |s|
    ensures ResolveId(t, e) == ResolveId(s, e)
  {
    assert NodeGrows(s[e], t[e], |s|);
    assert AttributeId(t[e]) == AttributeId(s[e]);
    if AttributeId(s[e]) == "" {
      var links := QueryAll(s, e, WorkoutLinkQuery);
      QueryAllStable(s, t, e, WorkoutLinkQuery);
      AttrsKept(s, t, links);
      LinkIdFrame(s, t, links);
      assert ResolveId(t, e) == LinkId(t, links);
    }
  }

  /** Old nodes keep their attributes. */
  lemma AttrsKept(s: seq<Node>, t: seq<Node>, xs: seq<nat>)
    requires Grows(s, t) && InRange(s, xs)
    ensures InRange(t, xs)
    ensures forall k :: 0 <= k < |xs| ==> t[xs[k]].attrs == s[xs[k]].attrs
  {
    forall k | 0 <= k < |xs| ensures t[xs[k]].attrs == s[xs[k]].attrs {
      assert NodeGrows(s[xs[k]], t[xs[k]], |s|);
    }
  }

  /** How many of `cands` resolve to an id the index knows. */
  function CountMatched(nodes: seq<Node>, cands: seq<nat>, index: map<string, Workout>): (n: nat)
    requires WellFormed(nodes) && InRange(nodes, cands)
    ensures n <= |cands|
    decreases |cands|
  {
    if cands == [] then 0
    else (if MatchedA(nodes, cands[0], index) then 1 else 0) + CountMatched(nodes, cands[1..], index)
  }

  lemma {:induction false} CountStable(s: seq<Node>, t: seq<Node>, cands: seq<nat>, index: map<string, Workout>)
    requires Grows(s, t) && InRange(s, cands)
    ensures CountMatched(t, cands, index) == CountMatched(s, cands, index)
    decreases |cands|
  {
    if cands != [] {
      ResolveStable(s, t, cands[0]);
      CountStable(s, t, cands[1..], index);
    }
  }

  /** A candidate is settled when it carries an annotation or resolves to no known id. */
  predicate SettledA(nodes: seq<Node>, e: nat, index: map<string, Workout>)
    requires WellFormed(nodes) && e < |nodes|
  {
    !MatchedA(nodes, e, index) || HasAnnotation(nodes, e)
  }

  predicate AllSettledA(nodes: seq<Node>, cands: seq<nat>, index: map<string, Workout>)
    requires WellFormed(nodes)
  {
    forall e :: e in cands ==> e < |nodes| && SettledA(nodes, e, index)
  }

  lemma SettledAStable(s: seq<Node>, t: seq<Node>, e: nat, index: map<string, Workout>)
    requires Grows(s, t) && e < |s| && SettledA(s, e, index)
    ensures SettledA(t, e, index)
  {
    ResolveStable(s, t, e);
    if HasAnnotation(s, e) { AnnotationPersists(s, t, e); }
  }

  lemma AllSettledAStable(s: seq<Node>, t: seq<Node>, cands: seq<nat>, index: map<string, Workout>)
    requires Grows(s, t) && AllSettledA(s, cands, index)
    ensures AllSettledA(t, cands, index)
  {
    forall e | e in cands ensures e < |t| && SettledA(t, e, index) {
      SettledAStable(s, t, e, index);
    }
  }

  /** One candidate step grows the page and settles the candidate; on a settled one it adds nothing. */
  lemma StepAFacts(s: seq<Node>, c: nat, index: map<string, Workout>)
    requires WellFormed(s) && AnnotationsArePlain(s) && c < |s| && !IsAnnotation(s[c])
    ensures Grows(s, StepA(s, c, index))
    ensures SettledA(StepA(s, c, index), c, index)
    ensures SettledA(s, c, index) ==> |StepA(s, c, index)| == |s|
  {
    var n1 := StepA(s, c, index);
    if MatchedA(s, c, index) {
      var caption := BookedCaption(index[ResolveId(s, c).value].numBooked);
      AnnotateGrows(s, c, "div", caption);
      AnnotateIdempotent(s, c, "div", caption, "div", caption);
      AnnotateCreatesOrUpdates(s, c, "div", caption);
    } else {
      GrowsRefl(s);
    }
    ResolveStable(s, n1, c);
  }

  /** After the first candidate, the others are as unannotated and as countable as before. */
  lemma StepAPrep(s: seq<Node>, c: nat, rest: seq<nat>, index: map<string, Workout>)
    requires WellFormed(s) && AnnotationsArePlain(s) && c < |s| && InRange(s, rest)
    requires NoneAnnotated(s, [c] + rest)
    ensures var n1 := StepA(s, c, index);
      && Grows(s, n1) && SettledA(n1, c, index) && (SettledA(s, c, index) ==> |n1| == |s|)
      && InRange(n1, rest) && NoneAnnotated(n1, rest)
      && CountMatched(n1, rest, index) == CountMatched(s, rest, index)
  {
    var n1 := StepA(s, c, index);
    assert c in [c] + rest;
    StepAFacts(s, c, index);
    assert NoneAnnotated(s, rest);
    NoneAnnotatedStable(s, n1, rest);
    CountStable(s, n1, rest, index);
  }

  /** Settledness of a candidate handled before the candidates `later`. */
  lemma RunAGlue(s: seq<Node>, n1: seq<Node>, r: seq<Node>, c: nat, later: seq<nat>, index: map<string, Workout>)
    requires Grows(s, n1) && Grows(n1, r) && c < |s|
    requires SettledA(n1, c, index) && AllSettledA(r, later, index)
    requires SettledA(s, c, index) ==> |n1| == |s|
    requires AllSettledA(n1, later, index) ==> |r| == |n1|
    ensures Grows(s, r)
    ensures AllSettledA(r, [c] + later, index)
    ensures AllSettledA(s, [c] + later, index) ==> |r| == |s|
  {
    GrowsTrans(s, n1, r);
    SettledAStable(n1, r, c, index);
    if AllSettledA(s, [c] + later, index) {
      assert c in [c] + later;
      AllSettledAStable(s, n1, later, index);
    }
  }

  /**
   * Strategy A grows the page, counts the candidates that resolve to a known id, and leaves every
   * candidate settled; it adds no element when every candidate was already settled.
   */
  lemma {:induction false} RunAFacts(s: seq<Node>, cands: seq<nat>, index: map<string, Workout>)
    requires WellFormed(s) && AnnotationsArePlain(s) && InRange(s, cands) && NoneAnnotated(s, cands)
    ensures var r := RunA(s, cands, index);
      && Grows(s, r.nodes)
      && r.found == CountMatched(s, cands, index)
      && AllSettledA(r.nodes, cands, index)
      && (AllSettledA(s, cands, index) ==> |r.nodes| == |s|)
    decreases |cands|
  {
    if cands == [] {
      GrowsRefl(s);
    } else {
      var c, rest := cands[0], cands[1..];
      assert c in cands && cands == [c] + rest;
      var n1 := StepA(s, c, index);
      StepAPrep(s, c, rest, index);
      RunAFacts(n1, rest, index);
      var r := RunA(n1, rest, index);
      var hit := if MatchedA(s, c, index) then 1 else 0;
      assert RunA(s, cands, index) == AResult(r.nodes, r.found + hit);
      assert CountMatched(s, cands, index) == hit + CountMatched(s, rest, index);
      RunAGlue(s, n1, r.nodes, c, rest, index);
    }
  }

  /** A known candidate ends its step with an annotation showing its own record's booking count. */
  lemma StepAShowsCount(s: seq<Node>, c: nat, index: map<string, Workout>)
    requires WellFormed(s) && c < |s| && MatchedA(s, c, index)
    ensures var r := StepA(s, c, index);
      && c < |r| && HasAnnotation(r, c)
      && r[QueryFirst(r, c, AnnotationQuery).value].text == BookedCaption(index[ResolveId(s, c).value].numBooked)
  {
    AnnotateShowsLabel(s, c, "div", BookedCaption(index[ResolveId(s, c).value].numBooked));
  }

  /** A candidate step changes only the candidate itself or its annotation. */
  lemma StepAKeepsOther(s: seq<Node>, c0: nat, c: nat, index: map<string, Workout>)
    requires WellFormed(s) && c0 < |s| && c < |s|
    requires MatchedA(s, c0, index) && HasAnnotation(s, c0) ==> c != QueryFirst(s, c0, AnnotationQuery).value
    requires c == c0 ==> !MatchedA(s, c, index)
    ensures c < |StepA(s, c0, index)| && StepA(s, c0, index)[c] == s[c]
  {
    if MatchedA(s, c0, index) {
      var caption := BookedCaption(index[ResolveId(s, c0).value].numBooked);
      AnnotateCreatesOrUpdates(s, c0, "div", caption);
    }
  }

  /**
   * An element that is not an annotation and resolves to no known id comes out of Strategy A exactly
   * as it went in: no annotation is appended to it and nothing else about it changes.
   */
  lemma {:induction false} RunAKeepsUnmatched(s: seq<Node>, cands: seq<nat>, index: map<string, Workout>, c: nat)
    requires WellFormed(s) && AnnotationsArePlain(s) && InRange(s, cands) && NoneAnnotated(s, cands)
    requires c < |s| && !IsAnnotation(s[c]) && !MatchedA(s, c, index)
    ensures var r := RunA(s, cands, index).nodes; c < |r| && r[c] == s[c]
    decreases |cands|
  {
    if cands != [] {
      var c0, rest := cands[0], cands[1..];
      assert c0 in cands && cands == [c0] + rest;
      var n1 := StepA(s, c0, index);
      StepAKeepsOther(s, c0, c, index);
      StepAPrep(s, c0, rest, index);
      ResolveStable(s, n1, c);
      RunAKeepsUnmatched(n1, rest, index, c);
    }
  }

  // ---------------------------------------------------------------------------
  // Strategy B

  /** A name element is settled when it carries an annotation or no record's name occurs in its text. */
  predicate SettledB(nodes: seq<Node>, n: nat, ws: seq<Workout>)
    requires WellFormed(nodes) && n < |nodes|
  {
    HasAnnotation(nodes, n) || FirstNameMatch(ws, TextContent(nodes, n)).None?
  }

  predicate AllSettledB(nodes: seq<Node>, names: seq<nat>, ws: seq<Workout>)
    requires WellFormed(nodes)
  {
    forall n :: n in names ==> n < |nodes| && SettledB(nodes, n, ws)
  }

  lemma SettledBStable(s: seq<Node>, t: seq<Node>, n: nat, ws: seq<Workout>)
    requires Grows(s, t) && n < |s| && !IsAnnotation(s[n]) && SettledB(s, n, ws)
    ensures SettledB(t, n, ws)
  {
    if HasAnnotation(s, n) {
      AnnotationPersists(s, t, n);
    } else if !HasAnnotation(t, n) {
      TextStable(s, t, n);
    }
  }

  lemma AllSettledBStable(s: seq<Node>, t: seq<Node>, names: seq<nat>, ws: seq<Workout>)
    requires Grows(s, t) && NoneAnnotated(s, names) && AllSettledB(s, names, ws)
    ensures AllSettledB(t, names, ws)
  {
    forall n | n in names ensures n < |t| && SettledB(t, n, ws) {
      SettledBStable(s, t, n, ws);
    }
  }

  lemma {:induction false} NamesBFacts(s: seq<Node>, names: seq<nat>, ws: seq<Workout>)
    requires WellFormed(s) && AnnotationsArePlain(s) && InRange(s, names) && NoneAnnotated(s, names)
    ensures var r := NamesB(s, names, ws);
      && Grows(s, r)
      && AllSettledB(r, names, ws)
      && (AllSettledB(s, names, ws) ==> |r| == |s|)
    decreases |names|
  {
    var r := NamesB(s, names, ws);
    if names == [] {
      GrowsRefl(s);
    } else {
      var n, rest := names[0], names[1..];
      assert n in names;
      var n1 := StepB(s, n, ws);
      match FirstNameMatch(ws, TextContent(s, n)) {
        case None =>
          GrowsRefl(s);
        case Some(w) =>
          var caption := CountCaption(w.numBooked);
          AnnotateGrows(s, n, "span", caption);
          AnnotateIdempotent(s, n, "span", caption, "span", caption);
          AnnotateCreatesOrUpdates(s, n, "span", caption);
      }
      assert SettledB(n1, n, ws);
      assert NoneAnnotated(s, rest);
      NoneAnnotatedStable(s, n1, rest);
      NamesBFacts(n1, rest, ws);
      GrowsTrans(s, n1, r);
      NoneAnnotatedStable(s, n1, names);
      SettledBStable(n1, r, n, ws);
      if AllSettledB(s, names, ws) {
        AllSettledBStable(s, n1, rest, ws);
      }
    }
  }

  /**
   * A name element in whose text some record's name occurs ends its step with an annotation showing
   * the booking count of the first such record, and of no later one.
   */
  lemma StepBShowsFirstMatch(s: seq<Node>, n: nat, ws: seq<Workout>, w: Workout)
    requires WellFormed(s) && n < |s|
    requires FirstNameMatch(ws, TextContent(s, n)) == Some(w)
    ensures var r := StepB(s, n, ws);
      && n < |r| && HasAnnotation(r, n)
      && r[QueryFirst(r, n, AnnotationQuery).value].text == CountCaption(w.numBooked)
  {
    AnnotateShowsLabel(s, n, "span", CountCaption(w.numBooked));
  }

  /** The name elements Strategy B visits for the time elements `times`, in order. */
  function NamesUnder(nodes: seq<Node>, times: seq<nat>): (r: seq<nat>)
    requires WellFormed(nodes) && InRange(nodes, times)
    ensures InRange(nodes, r)
    decreases |times|
  {
    if times == [] then []
    else
      var here := match ParentOf(nodes, times[0])
        case None => []
        case Some(p) => QueryAll(nodes, p, NameQuery);
      here + NamesUnder(nodes, times[1..])
  }

  /** Every time element has a parent element. */
  predicate HaveParents(nodes: seq<Node>, times: seq<nat>)
    requires WellFormed(nodes) && InRange(nodes, times)
  {
    forall k :: 0 <= k < |times| ==> ParentOf(nodes, times[k]).Some?
  }

  lemma {:induction false} NamesUnderStable(s: seq<Node>, t: seq<Node>, times: seq<nat>)
    requires Grows(s, t) && InRange(s, times)
    ensures NamesUnder(t, times) == NamesUnder(s, times)
    decreases |times|
  {
    if times != [] {
      ParentStable(s, t, times[0]);
      if ParentOf(s, times[0]).Some? {
        QueryAllStable(s, t, ParentOf(s, times[0]).value, NameQuery);
      }
      NamesUnderStable(s, t, times[1..]);
    }
  }

  lemma {:induction false} NamesUnderNotAnnotated(s: seq<Node>, times: seq<nat>)
    requires WellFormed(s) && AnnotationsArePlain(s) && InRange(s, times)
    ensures NoneAnnotated(s, NamesUnder(s, times))
    decreases |times|
  {
    if times != [] {
      if ParentOf(s, times[0]).Some? {
        SelectedNotAnnotated(s, Descendants(s, ParentOf(s, times[0]).value), NameQuery);
      }
      NamesUnderNotAnnotated(s, times[1..]);
    }
  }

  lemma ParentsStable(s: seq<Node>, t: seq<Node>, times: seq<nat>)
    requires Grows(s, t) && InRange(s, times) && HaveParents(s, times)
    ensures InRange(t, times) && HaveParents(t, times)
  {
    forall k | 0 <= k < |times| ensures ParentOf(t, times[k]).Some? {
      ParentStable(s, t, times[k]);
    }
  }

  lemma {:induction false} TimesBFacts(s: seq<Node>, times: seq<nat>, ws: seq<Workout>)
    requires WellFormed(s) && AnnotationsArePlain(s) && InRange(s, times) && HaveParents(s, times)
    ensures var r := TimesB(s, times, ws);
      && !r.crashed
      && Grows(s, r.nodes)
      && AllSettledB(r.nodes, NamesUnder(s, times), ws)
      && (AllSettledB(s, NamesUnder(s, times), ws) ==> |r.nodes| == |s|)
    decreases |times|
  {
    if times == [] {
      GrowsRefl(s);
    } else {
      var p := ParentOf(s, times[0]).value;
      var names := QueryAll(s, p, NameQuery);
      var rest := times[1..];
      assert HaveParents(s, rest) by {
        forall k | 0 <= k < |rest| ensures ParentOf(s, rest[k]).Some? { assert rest[k] == times[k + 1]; }
      }
      assert NamesUnder(s, times) == names + NamesUnder(s, rest);
      SelectedNotAnnotated(s, Descendants(s, p), NameQuery);
      NamesUnderNotAnnotated(s, rest);
      var n1 := NamesB(s, names, ws);
      NamesBFacts(s, names, ws);
      ParentsStable(s, n1, rest);
      NamesUnderStable(s, n1, rest);
      assert TimesB(s, times, ws) == TimesB(n1, rest, ws);
      TimesBFacts(n1, rest, ws);
      TimesBGlue(s, n1, TimesB(n1, rest, ws).nodes, names, NamesUnder(s, rest), ws);
    }
  }

  /** Settledness of two batches of name elements, one handled before the other. */
  lemma TimesBGlue(s: seq<Node>, n1: seq<Node>, r: seq<Node>, names: seq<nat>, later: seq<nat>, ws: seq<Workout>)
    requires Grows(s, n1) && Grows(n1, r)
    requires NoneAnnotated(s, names) && NoneAnnotated(s, later)
    requires AllSettledB(n1, names, ws) && AllSettledB(r, later, ws)
    requires AllSettledB(s, names, ws) ==> |n1| == |s|
    requires AllSettledB(n1, later, ws) ==> |r| == |n1|
    ensures Grows(s, r)
    ensures AllSettledB(r, names + later, ws)
    ensures AllSettledB(s, names + later, ws) ==> |r| == |s|
  {
    GrowsTrans(s, n1, r);
    NoneAnnotatedStable(s, n1, names);
    AllSettledBStable(n1, r, names, ws);
    if AllSettledB(s, names + later, ws) {
      AllSettledBStable(s, n1, later, ws);
    }
  }

  /** The name elements Strategy B visits in container `c`. */
  function ContainerNames(nodes: seq<Node>, c: nat): (r: seq<nat>)
    requires WellFormed(nodes) && c < |nodes|
    ensures InRange(nodes, r)
  {
    var times := QueryAll(nodes, c, TimeQuery);
    if QueryFirst(nodes, c, DateQuery).Some? && |times| > 0 then NamesUnder(nodes, times) else []
  }

  lemma ContainerNamesStable(s: seq<Node>, t: seq<Node>, c: nat)
    requires Grows(s, t) && c < |s|
    ensures ContainerNames(t, c) == ContainerNames(s, c)
  {
    QueryAllStable(s, t, c, TimeQuery);
    QueryFirstStable(s, t, c, DateQuery);
    NamesUnderStable(s, t, QueryAll(s, c, TimeQuery));
  }

  /** Time elements lie below their container, so each has a parent. */
  lemma TimesHaveParents(s: seq<Node>, c: nat)
    requires WellFormed(s) && c < |s|
    ensures HaveParents(s, QueryAll(s, c, TimeQuery))
  {
    var times := QueryAll(s, c, TimeQuery);
    forall k | 0 <= k < |times| ensures ParentOf(s, times[k]).Some? {
      SelectMember(s, Descendants(s, c), TimeQuery, times[k]);
      DescendantHasParent(s, c, times[k]);
    }
  }

  lemma ContainerBFacts(s: seq<Node>, c: nat, ws: seq<Workout>)
    requires WellFormed(s) && AnnotationsArePlain(s) && c < |s|
    ensures var r := ContainerB(s, c, ws);
      && !r.crashed
      && Grows(s, r.nodes)
      && AllSettledB(r.nodes, ContainerNames(s, c), ws)
      && (AllSettledB(s, ContainerNames(s, c), ws) ==> |r.nodes| == |s|)
  {
    var times := QueryAll(s, c, TimeQuery);
    if QueryFirst(s, c, DateQuery).Some? && |times| > 0 {
      TimesHaveParents(s, c);
      TimesBFacts(s, times, ws);
    } else {
      GrowsRefl(s);
    }
  }

  /** The name elements Strategy B visits over the containers `cs`. */
  function ProcessedNames(nodes: seq<Node>, cs: seq<nat>): (r: seq<nat>)
    requires WellFormed(nodes) && InRange(nodes, cs)
    decreases |cs|
  {
    if cs == [] then [] else ContainerNames(nodes, cs[0]) + ProcessedNames(nodes, cs[1..])
  }

  lemma {:induction false} ProcessedNamesStable(s: seq<Node>, t: seq<Node>, cs: seq<nat>)
    requires Grows(s, t) && InRange(s, cs)
    ensures ProcessedNames(t, cs) == ProcessedNames(s, cs)
    decreases |cs|
  {
    if cs != [] {
      ContainerNamesStable(s, t, cs[0]);
      ProcessedNamesStable(s, t, cs[1..]);
    }
  }

  lemma {:induction false} ProcessedNotAnnotated(s: seq<Node>, cs: seq<nat>)
    requires WellFormed(s) && AnnotationsArePlain(s) && InRange(s, cs)
    ensures NoneAnnotated(s, ProcessedNames(s, cs))
    decreases |cs|
  {
    if cs != [] {
      NamesUnderNotAnnotated(s, QueryAll(s, cs[0], TimeQuery));
      ProcessedNotAnnotated(s, cs[1..]);
    }
  }

  /**
   * Strategy B never aborts on such a page, grows it and leaves every visited name element settled;
   * it adds no element when every one of them was already settled.
   */
  lemma {:induction false} RunBFacts(s: seq<Node>, cs: seq<nat>, ws: seq<Workout>)
    requires WellFormed(s) && AnnotationsArePlain(s) && InRange(s, cs)
    ensures var r := RunB(s, cs, ws);
      && !r.crashed
      && Grows(s, r.nodes)
      && AllSettledB(r.nodes, ProcessedNames(s, cs), ws)
      && (AllSettledB(s, ProcessedNames(s, cs), ws) ==> |r.nodes| == |s|)
    decreases |cs|
  {
    if cs == [] {
      GrowsRefl(s);
    } else {
      var c, rest := cs[0], cs[1..];
      var n1 := ContainerB(s, c, ws).nodes;
      ContainerBFacts(s, c, ws);
      RunBFacts(n1, rest, ws);
      RunBCombine(s, n1, RunB(n1, rest, ws).nodes, c, rest, ws);
    }
  }

  /** One container, then the rest: the facts about both parts give the facts about the whole. */
  lemma RunBCombine(s: seq<Node>, n1: seq<Node>, r: seq<Node>, c: nat, rest: seq<nat>, ws: seq<Workout>)
    requires Grows(s, n1) && Grows(n1, r) && c < |s| && InRange(s, rest)
    requires AllSettledB(n1, ContainerNames(s, c), ws)
    requires AllSettledB(s, ContainerNames(s, c), ws) ==> |n1| == |s|
    requires AllSettledB(r, ProcessedNames(n1, rest), ws)
    requires AllSettledB(n1, ProcessedNames(n1, rest), ws) ==> |r| == |n1|
    ensures Grows(s, r)
    ensures AllSettledB(r, ContainerNames(s, c) + ProcessedNames(s, rest), ws)
    ensures AllSettledB(s, ContainerNames(s, c) + ProcessedNames(s, rest), ws) ==> |r| == |s|
  {
    ProcessedNamesStable(s, n1, rest);
    NamesUnderNotAnnotated(s, QueryAll(s, c, TimeQuery));
    ProcessedNotAnnotated(s, rest);
    TimesBGlue(s, n1, r, ContainerNames(s, c), ProcessedNames(s, rest), ws);
  }

  // ---------------------------------------------------------------------------
  // The pass

  lemma CandidatesNotAnnotated(s: seq<Node>)
    requires WellFormed(s) && AnnotationsArePlain(s)
    ensures NoneAnnotated(s, Candidates(s))
  {
    SelectedNotAnnotated(s, Subtree(s, 0), CandidateQuery);
  }

  /**
   * On a page whose `.booking-count` elements are plain annotations, a pass never aborts,
   * `foundMatches` is the number of candidates whose id the index knows, and the page afterwards
   * is a growth of the page before (so its annotations are plain again).
   */
  lemma PassFacts(s: seq<Node>, ws: seq<Workout>)
    requires WellFormed(s) && AnnotationsArePlain(s)
    ensures var r := Pass(s, ws);
      && !r.crashed
      && r.found == CountMatched(s, Candidates(s), IndexById(ws))
      && Grows(s, r.nodes)
      && AnnotationsArePlain(r.nodes)
  {
    var index := IndexById(ws);
    CandidatesNotAnnotated(s);
    RunAFacts(s, Candidates(s), index);
    var a := RunA(s, Candidates(s), index);
    if a.found == 0 {
      RunBFacts(a.nodes, Containers(a.nodes), ws);
      GrowsTrans(s, a.nodes, RunB(a.nodes, Containers(a.nodes), ws).nodes);
    }
  }

  /**
   * On such a page the panel is requested exactly when no candidate resolves to a known id,
   * whatever Strategy B annotated.
   */
  lemma PanelExactlyWhenNoMatch(s: seq<Node>, ws: seq<Workout>)
    requires WellFormed(s) && AnnotationsArePlain(s)
    ensures ShowsPanel(Pass(s, ws)) <==> CountMatched(s, Candidates(s), IndexById(ws)) == 0
  {
    PassFacts(s, ws);
  }

  /** The name elements Strategy B visits on page `s`. */
  function VisitedNames(s: seq<Node>): seq<nat>
    requires WellFormed(s)
  {
    ProcessedNames(s, Containers(s))
  }

  /** Everything the pass looks at is the same on a grown page. */
  lemma ViewStable(s: seq<Node>, t: seq<Node>, index: map<string, Workout>)
    requires Grows(s, t)
    ensures Candidates(t) == Candidates(s) && Containers(t) == Containers(s)
    ensures CountMatched(t, Candidates(s), index) == CountMatched(s, Candidates(s), index)
    ensures VisitedNames(t) == VisitedNames(s)
  {
    DocumentQueryStable(s, t, CandidateQuery);
    DocumentQueryStable(s, t, ContainerQuery);
    CountStable(s, t, Candidates(s), index);
    ProcessedNamesStable(s, t, Containers(s));
  }

  /**
   * After a pass every candidate is settled and, when Strategy B ran, so is every name element it
   * visited.
   */
  lemma PassSettles(s: seq<Node>, ws: seq<Workout>)
    requires WellFormed(s) && AnnotationsArePlain(s)
    ensures var r := Pass(s, ws);
      && AllSettledA(r.nodes, Candidates(s), IndexById(ws))
      && (CountMatched(s, Candidates(s), IndexById(ws)) == 0 ==> AllSettledB(r.nodes, VisitedNames(s), ws))
  {
    var index := IndexById(ws);
    CandidatesNotAnnotated(s);
    RunAFacts(s, Candidates(s), index);
    var a := RunA(s, Candidates(s), index);
    if a.found == 0 {
      ViewStable(s, a.nodes, index);
      RunBFacts(a.nodes, Containers(a.nodes), ws);
      AllSettledAStable(a.nodes, RunB(a.nodes, Containers(a.nodes), ws).nodes, Candidates(s), index);
    }
  }

  /** A pass over a page on which everything it would touch is settled adds no element. */
  lemma PassOnSettledPage(s: seq<Node>, ws: seq<Workout>)
    requires WellFormed(s) && AnnotationsArePlain(s)
    requires AllSettledA(s, Candidates(s), IndexById(ws))
    requires CountMatched(s, Candidates(s), IndexById(ws)) == 0 ==> AllSettledB(s, VisitedNames(s), ws)
    ensures |Pass(s, ws).nodes| == |s|
  {
    var index := IndexById(ws);
    CandidatesNotAnnotated(s);
    RunAFacts(s, Candidates(s), index);
    var a := RunA(s, Candidates(s), index);
    assert |a.nodes| == |s|;
    if a.found == 0 {
      ViewStable(s, a.nodes, index);
      ProcessedNotAnnotated(s, Containers(s));
      AllSettledBStable(s, a.nodes, VisitedNames(s), ws);
      assert VisitedNames(a.nodes) == ProcessedNames(a.nodes, Containers(a.nodes));
      RunBFacts(a.nodes, Containers(a.nodes), ws);
      assert Pass(s, ws).nodes == RunB(a.nodes, Containers(a.nodes), ws).nodes;
    }
  }

  /**
   * Re-running the pass with the same records is idempotent in what it creates: the second pass
   * adds no element, counts the same `foundMatches` and does not abort either.
   */
  lemma PassTwiceAddsNothing(s: seq<Node>, ws: seq<Workout>)
    requires WellFormed(s) && AnnotationsArePlain(s)
    ensures var first := Pass(s, ws);
      var second := Pass(first.nodes, ws);
      && !first.crashed && !second.crashed
      && |second.nodes| == |first.nodes|
      && second.found == first.found
  {
    var index := IndexById(ws);
    var t := Pass(s, ws).nodes;
    PassFacts(s, ws);
    PassFacts(t, ws);
    PassSettles(s, ws);
    ViewStable(s, t, index);
    PassOnSettledPage(t, ws);
  }
}
