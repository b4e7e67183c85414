/**
 * The content script's state and its entry points: the page (element table plus the panel), the
 * last decoded payload, the guard of `displayBookingNumbers` and the pass `findAndUpdateWorkouts`,
 * written as the loops the script runs and proved equal to the functions that specify them.
 */
module ContentScript {
  import opened Wrappers
  import opened Text
  import opened Workouts
  import opened Dom
  import opened Matching
  import opened BookingPanel

  /** `querySelector`, `createElement` + `appendChild` of an empty annotation, then `textContent =`. */
  lemma CreateThenWrite(s: seq<Node>, e: nat, tag: string, caption: string)
    requires WellFormed(s) && e < |s|
    ensures SetText(AppendChild(s, e, NewAnnotation(tag, "")), |s|, caption) == AppendChild(s, e, NewAnnotation(tag, caption))
  {
    var a := SetText(AppendChild(s, e, NewAnnotation(tag, "")), |s|, caption);
    var b := AppendChild(s, e, NewAnnotation(tag, caption));
    assert |a| == |b|;
    forall i | 0 <= i < |a| ensures a[i] == b[i] {
    }
  }

  /** Strategy A over `cands`: the first candidate's step, then the rest. */
  lemma RunAFirst(s: seq<Node>, cands: seq<nat>, index: map<string, Workout>)
    requires WellFormed(s) && InRange(s, cands) && |cands| > 0
    ensures InRange(StepA(s, cands[0], index), cands[1..])
    ensures var r := RunA(StepA(s, cands[0], index), cands[1..], index);
      RunA(s, cands, index) == AResult(r.nodes, r.found + if MatchedA(s, cands[0], index) then 1 else 0)
  {
  }

  /** The first record, in collection order, whose name occurs in `text`: the `for … of` loop with `break`. */
  method FirstMatchingWorkout(ws: seq<Workout>, text: string) returns (hit: Option<Workout>)
    ensures hit == FirstNameMatch(ws, text)
  {
    var i := 0;
    while i < |ws|
      invariant 0 <= i <= |ws|
      invariant FirstNameMatch(ws[i..], text) == FirstNameMatch(ws, text)
    {
      assert ws[i..][1..] == ws[i + 1..];
      if Includes(text, ws[i].workoutType.name) {
        return Some(ws[i]);
      }
      i := i + 1;
    }
    return None;
  }

  /** The page: its element table and the floating panel, if one was created. */
  class Page {
    var nodes: seq<Node>
    var panel: Panel?

    constructor (nodes: seq<Node>)
      requires WellFormed(nodes)
      ensures this.nodes == nodes && panel == null
    {
      this.nodes := nodes;
      panel := null;
    }

    /** Create-or-update of the booking display under element `e`. */
    method AnnotateElement(e: nat, tag: string, caption: string)
      requires WellFormed(nodes) && e < |nodes|
      modifies this
      ensures nodes == Annotate(old(nodes), e, tag, caption) && panel == old(panel)
    {
      var display := QueryFirst(nodes, e, AnnotationQuery);
      if display.None? {
        var created := |nodes|;
        CreateThenWrite(nodes, e, tag, caption);
        nodes := AppendChild(nodes, e, NewAnnotation(tag, ""));
        nodes := SetText(nodes, created, caption);
      } else {
        nodes := SetText(nodes, display.value, caption);
      }
    }

    /** The id of element `e`: its attributes, else the first `workout/<digits>` among its workout links. */
    method ResolveWorkoutId(e: nat) returns (id: Option<string>)
      requires WellFormed(nodes) && e < |nodes|
      ensures id == ResolveId(nodes, e)
    {
      var fromAttributes := AttributeId(nodes[e]);
      if fromAttributes != "" {
        return Some(fromAttributes);
      }
      var links := QueryAll(nodes, e, WorkoutLinkQuery);
      ghost var goal := LinkId(nodes, links);
      assert ResolveId(nodes, e) == goal;
      assert links[0..] == links;
      var i := 0;
      while i < |links|
        invariant 0 <= i <= |links|
        invariant LinkId(nodes, links[i..]) == goal
      {
        assert links[i..][0] == links[i] && links[i..][1..] == links[i + 1..];
        var m := ExtractWorkoutId(Href(nodes[links[i]]));
        if m.Some? {
          return m;
        }
        i := i + 1;
      }
      assert links[i..] == [];
      return None;
    }

    /** The body of Strategy A's `forEach`: resolve the candidate's id and, when the index knows it, annotate. */
    method HandleCandidate(e: nat, index: map<string, Workout>) returns (hit: bool)
      requires WellFormed(nodes) && e < |nodes|
      modifies this
      ensures hit == MatchedA(old(nodes), e, index)
      ensures nodes == StepA(old(nodes), e, index) && panel == old(panel)
    {
      var id := ResolveWorkoutId(e);
      hit := id.Some? && id.value in index;
      if hit {
        AnnotateElement(e, "div", BookedCaption(index[id.value].numBooked));
      }
    }

    /** Strategy A: every candidate whose id the index knows gets its `Booked:` display. */
    method RunStrategyA(cands: seq<nat>, index: map<string, Workout>) returns (found: nat)
      requires WellFormed(nodes) && InRange(nodes, cands)
      modifies this
      ensures nodes == RunA(old(nodes), cands, index).nodes
      ensures found == RunA(old(nodes), cands, index).found
      ensures panel == old(panel)
    {
      found := 0;
      ghost var goal := RunA(nodes, cands, index);
      assert cands[0..] == cands;
      var i := 0;
      while i < |cands|
        invariant 0 <= i <= |cands|
        invariant WellFormed(nodes) && InRange(nodes, cands[i..])
        invariant RunA(nodes, cands[i..], index).nodes == goal.nodes
        invariant found + RunA(nodes, cands[i..], index).found == goal.found
        invariant panel == old(panel)
      {
        var e := cands[i];
        ghost var before := nodes;
        assert cands[i..][0] == e && cands[i..][1..] == cands[i + 1..];
        var hit := HandleCandidate(e, index);
        if hit {
          found := found + 1;
        }
        RunAFirst(before, cands[i..], index);
        i := i + 1;
      }
    }

    /** The body of the innermost `forEach`: the first record whose name occurs in the element's text. */
    method HandleName(n: nat, ws: seq<Workout>)
      requires WellFormed(nodes) && n < |nodes|
      modifies this
      ensures nodes == StepB(old(nodes), n, ws) && panel == old(panel)
    {
      var hit := FirstMatchingWorkout(ws, TextContent(nodes, n));
      if hit.Some? {
        AnnotateElement(n, "span", CountCaption(hit.value.numBooked));
      }
    }

    /** The name elements next to one time element, each annotated with its first matching record. */
    method AnnotateNames(names: seq<nat>, ws: seq<Workout>)
      requires WellFormed(nodes) && InRange(nodes, names)
      modifies this
      ensures nodes == NamesB(old(nodes), names, ws) && panel == old(panel)
    {
      ghost var goal := NamesB(nodes, names, ws);
      assert names[0..] == names;
      var i := 0;
      while i < |names|
        invariant 0 <= i <= |names|
        invariant WellFormed(nodes) && InRange(nodes, names[i..])
        invariant NamesB(nodes, names[i..], ws) == goal
        invariant panel == old(panel)
      {
        var n := names[i];
        assert names[i..][0] == n && names[i..][1..] == names[i + 1..];
        HandleName(n, ws);
        i := i + 1;
      }
    }

    /** The time elements of one container; `crashed` when one has no parent element (a TypeError). */
    method VisitTimes(times: seq<nat>, ws: seq<Workout>) returns (crashed: bool)
      requires WellFormed(nodes) && InRange(nodes, times)
      modifies this
      ensures BResult(nodes, crashed) == TimesB(old(nodes), times, ws) && panel == old(panel)
    {
      var i := 0;
      while i < |times|
        invariant 0 <= i <= |times|
        invariant WellFormed(nodes) && |old(nodes)| <= |nodes|
        invariant TimesB(nodes, times[i..], ws) == TimesB(old(nodes), times, ws)
        invariant panel == old(panel)
      {
        var t := times[i];
        assert times[i..][0] == t && times[i..][1..] == times[i + 1..];
        var parent := ParentOf(nodes, t);
        if parent.None? {
          return true;
        }
        AnnotateNames(QueryAll(nodes, parent.value, NameQuery), ws);
        i := i + 1;
      }
      return false;
    }

    /** Strategy B over the containers that hold a date element and at least one time element. */
    method RunStrategyB(containers: seq<nat>, ws: seq<Workout>) returns (crashed: bool)
      requires WellFormed(nodes) && InRange(nodes, containers)
      modifies this
      ensures BResult(nodes, crashed) == RunB(old(nodes), containers, ws) && panel == old(panel)
    {
      var i := 0;
      while i < |containers|
        invariant 0 <= i <= |containers|
        invariant WellFormed(nodes) && |old(nodes)| <= |nodes|
        invariant RunB(nodes, containers[i..], ws) == RunB(old(nodes), containers, ws)
        invariant panel == old(panel)
      {
        var c := containers[i];
        assert containers[i..][0] == c && containers[i..][1..] == containers[i + 1..];
        var dateElem := QueryFirst(nodes, c, DateQuery);
        var timeElems := QueryAll(nodes, c, TimeQuery);
        if dateElem.Some? && |timeElems| > 0 {
          crashed := VisitTimes(timeElems, ws);
          if crashed {
            return;
          }
        }
        i := i + 1;
      }
      return false;
    }

    /** `createFloatingBookingPanel`: built once from the records, afterwards only shown again. */
    method CreateFloatingBookingPanel(ws: seq<Workout>)
      requires panel == null ==> AllDisplayable(ws)
      modifies this, panel
      ensures nodes == old(nodes)
      ensures old(panel) == null ==> panel != null && fresh(panel) && panel.visible && panel.sections == PanelContent(ws)
      ensures old(panel) != null ==> panel == old(panel) && panel.visible
    {
      if panel == null {
        var sections := BuildSections(ws);
        panel := new Panel(sections);
      } else {
        panel.Show();
      }
    }

    /**
     * `findAndUpdateWorkouts` for the records `ws`: Strategy A, Strategy B when A matched nothing,
     * then the panel when A matched nothing and B did not abort.
     */
    method FindAndUpdateWorkouts(ws: seq<Workout>) returns (found: nat, crashed: bool)
      requires WellFormed(nodes)
      requires ShowsPanel(Pass(nodes, ws)) && panel == null ==> AllDisplayable(ws)
      modifies this, panel
      ensures Pass(old(nodes), ws) == PassResult(nodes, found, crashed)
      ensures ShowsPanel(PassResult(nodes, found, crashed)) && old(panel) == null ==>
        panel != null && fresh(panel) && panel.visible && panel.sections == PanelContent(ws)
      ensures ShowsPanel(PassResult(nodes, found, crashed)) && old(panel) != null ==>
        panel == old(panel) && panel.visible
      ensures !ShowsPanel(PassResult(nodes, found, crashed)) ==>
        panel == old(panel) && (panel != null ==> panel.visible == old(panel.visible))
    {
      var index := BuildIndex(ws);
      found := RunStrategyA(Candidates(nodes), index);
      crashed := false;
      if found == 0 {
        crashed := RunStrategyB(Containers(nodes), ws);
      }
      if found == 0 && !crashed {
        CreateFloatingBookingPanel(ws);
      }
    }
  }

  /** The content script: the last decoded payload (`workoutData`) and the page it works on. */
  class Script {
    var workoutData: Option<Payload>
    const page: Page

    constructor (page: Page)
      ensures workoutData == None && this.page == page
    {
      workoutData := None;
      this.page := page;
    }

    /** The records the guard lets through: present and with a truthy `workouts`. */
    predicate HasRecords()
      reads this
    {
      workoutData.Some? && workoutData.value.workouts.Some?
    }

    /** `displayBookingNumbers`: returns whether the delayed pass is scheduled. */
    method DisplayBookingNumbers() returns (scheduled: bool)
      ensures scheduled <==> workoutData.Some? && workoutData.value.workouts.Some?
    {
      if workoutData.None? || workoutData.value.workouts.None? {
        return false;
      }
      return true;
    }

    /** The fetch callback: the payload replaces the previous one wholesale, then the guard runs. */
    method ReceiveData(data: Option<Payload>) returns (scheduled: bool)
      modifies this
      ensures workoutData == data
      ensures scheduled <==> data.Some? && data.value.workouts.Some?
    {
      workoutData := data;
      scheduled := DisplayBookingNumbers();
    }

    /**
     * The scheduled pass, reading `workoutData` when it fires; without records
     * `workoutData.workouts.forEach` throws before anything changes.
     */
    method OnTimer() returns (found: nat, crashed: bool)
      requires WellFormed(page.nodes)
      requires HasRecords() && page.panel == null && ShowsPanel(Pass(page.nodes, workoutData.value.workouts.value)) ==>
        AllDisplayable(workoutData.value.workouts.value)
      modifies page, page.panel
      ensures !HasRecords() ==> crashed && found == 0 && page.nodes == old(page.nodes) && page.panel == old(page.panel)
      ensures HasRecords() ==> Pass(old(page.nodes), workoutData.value.workouts.value) == PassResult(page.nodes, found, crashed)
      ensures HasRecords() && ShowsPanel(PassResult(page.nodes, found, crashed)) && old(page.panel) == null ==>
        page.panel != null && fresh(page.panel) && page.panel.visible
        && page.panel.sections == PanelContent(workoutData.value.workouts.value)
      ensures HasRecords() && ShowsPanel(PassResult(page.nodes, found, crashed)) && old(page.panel) != null ==>
        page.panel == old(page.panel) && page.panel.visible
      ensures !(HasRecords() && ShowsPanel(PassResult(page.nodes, found, crashed))) ==>
        page.panel == old(page.panel) && (page.panel != null ==> page.panel.visible == old(page.panel.visible))
    {
      if !HasRecords() {
        return 0, true;
      }
      found, crashed := page.FindAndUpdateWorkouts(workoutData.value.workouts.value);
    }
  }
}
