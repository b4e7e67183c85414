/**
 * What one reconciliation pass does to the page (`findAndUpdateWorkouts`), as functions of the page:
 * the selectors it uses, how a workout id is read off an element, Strategy A (annotate every
 * candidate whose id is known) and Strategy B (annotate workout names by substring match).
 */
module Matching {
  import opened Wrappers
  import opened Text
  import opened Workouts
  import opened Dom

  /** `.workout-item, .class-item, [data-workout-id]` */
  const CandidateQuery := AnyOf({"workout-item", "class-item"}, {"data-workout-id"})
  /** `a[href*="workout"]` */
  const WorkoutLinkQuery := LinkHrefContaining("workout")
  /** `.calendar-item, .schedule-item, .day-item` */
  const ContainerQuery := AnyOf({"calendar-item", "schedule-item", "day-item"}, {})
  /** `.date, [data-date]` */
  const DateQuery := AnyOf({"date"}, {"data-date"})
  /** `.time, .start-time, [data-time]` */
  const TimeQuery := AnyOf({"time", "start-time"}, {"data-time"})
  /** `.workout-name, .class-name, .activity-name` */
  const NameQuery := AnyOf({"workout-name", "class-name", "activity-name"}, {})

  /**
   * The four characters every caption starts with, exactly as the source's literals hold them
   * (the UTF-8 encoding of U+1F465 BUSTS IN SILHOUETTE read back as Windows-1252).
   */
  const Badge := "\U{F0}\U{178}\U{2018}\U{A5}"

  /** Strategy A's caption, `Booked: <numBooked>` after the badge. */
  function BookedCaption(numBooked: nat): string {
    Badge + " Booked: " + NatToString(numBooked)
  }

  /** Strategy B's caption, `<numBooked>` after the badge. */
  function CountCaption(numBooked: nat): string {
    Badge + " " + NatToString(numBooked)
  }

  /** The booking count can be read back from either caption. */
  lemma CaptionsCarryCount(numBooked: nat)
    ensures var a := BookedCaption(numBooked);
      |a| > 13 && AllDigits(a[13..]) && ParseNat(a[13..]) == numBooked
    ensures var b := CountCaption(numBooked);
      |b| > 5 && AllDigits(b[5..]) && ParseNat(b[5..]) == numBooked
  {
    ParseNatToString(numBooked);
    assert BookedCaption(numBooked)[13..] == NatToString(numBooked);
    assert CountCaption(numBooked)[5..] == NatToString(numBooked);
  }

  // ---------------------------------------------------------------------------
  // Reading a workout id off an element

  const Marker := "workout/"

  /** The longest run of digits `s` starts with. */
  function DigitRun(s: string): (r: string)
    ensures StartsWith(s, r) && AllDigits(r)
    ensures |r| < |s| ==> !IsDigit(s[|r|])
    ensures s != [] && IsDigit(s[0]) ==> r != []
  {
    if s != [] && IsDigit(s[0]) then [s[0]] + DigitRun(s[1..]) else []
  }

  /** `/workout\/(\d+)/` matches `h` at position `p`. */
  predicate MatchesAt(h: string, p: nat) {
    p + 9 <= |h| && h[p..p + 8] == Marker && IsDigit(h[p + 8])
  }

  /** The digits captured by the leftmost match at or after `p`. */
  function ScanFrom(h: string, p: nat): (r: Option<string>)
    ensures r.Some? ==> r.value != [] && AllDigits(r.value)
    decreases |h| - p
  {
    if p + 9 > |h| then None
    else if MatchesAt(h, p) then Some(DigitRun(h[p + 8..]))
    else ScanFrom(h, p + 1)
  }

  /** `href.match(/workout\/(\d+)/)` and its group 1. */
  function ExtractWorkoutId(href: string): (r: Option<string>)
    ensures r.Some? ==> r.value != [] && AllDigits(r.value)
  {
    ScanFrom(href, 0)
  }

  lemma {:induction false} ScanFromSpec(h: string, p: nat)
    ensures ScanFrom(h, p).None? <==> forall q: nat :: p <= q ==> !MatchesAt(h, q)
    ensures ScanFrom(h, p).Some? ==>
      exists q: nat :: p <= q && MatchesAt(h, q) && (forall j: nat :: p <= j < q ==> !MatchesAt(h, j))
                   && ScanFrom(h, p).value == DigitRun(h[q + 8..])
    decreases |h| - p
  {
    if p + 9 > |h| {
    } else if MatchesAt(h, p) {
    } else {
      ScanFromSpec(h, p + 1);
      if ScanFrom(h, p).Some? {
        var q: nat :| p + 1 <= q && MatchesAt(h, q) && (forall j: nat :: p + 1 <= j < q ==> !MatchesAt(h, j))
                    && ScanFrom(h, p + 1).value == DigitRun(h[q + 8..]);
        assert forall j: nat :: p <= j < q ==> !MatchesAt(h, j);
      } else {
        assert forall q: nat :: p <= q ==> !MatchesAt(h, q) by {
          forall q: nat | p <= q ensures !MatchesAt(h, q) {
            if q > p { assert p + 1 <= q; }
          }
        }
      }
    }
  }

  /**
   * The id a link yields: the whole digit run after the leftmost `workout/` that a digit follows;
   * none when no `workout/` is followed by a digit.
   */
  lemma ExtractWorkoutIdSpec(h: string)
    ensures ExtractWorkoutId(h).None? <==> forall q: nat :: !MatchesAt(h, q)
    ensures ExtractWorkoutId(h).Some? ==>
      exists q: nat :: MatchesAt(h, q) && (forall j: nat :: j < q ==> !MatchesAt(h, j))
                   && ExtractWorkoutId(h).value == DigitRun(h[q + 8..])
  {
    ScanFromSpec(h, 0);
  }

  /** `getAttribute(name)`, an absent attribute reading as the empty string (both are falsy). */
  function AttrOrEmpty(n: Node, name: string): string {
    if name in n.attrs then n.attrs[name] else ""
  }

  /**
   * `element.dataset.workoutId || element.getAttribute("data-id") || element.getAttribute("data-workout-id")`,
   * the empty string standing for every falsy outcome.
   */
  function AttributeId(n: Node): string {
    var viaDataset := AttrOrEmpty(n, "data-workout-id");
    var viaDataId := AttrOrEmpty(n, "data-id");
    var viaAttribute := AttrOrEmpty(n, "data-workout-id");
    if viaDataset != "" then viaDataset else if viaDataId != "" then viaDataId else viaAttribute
  }

  /** `data-workout-id` wins over `data-id`; the third alternative never adds anything. */
  lemma AttributeIdPriority(n: Node)
    ensures AttrOrEmpty(n, "data-workout-id") != "" ==> AttributeId(n) == AttrOrEmpty(n, "data-workout-id")
    ensures AttrOrEmpty(n, "data-workout-id") == "" ==> AttributeId(n) == AttrOrEmpty(n, "data-id")
    ensures AttributeId(n) == "" <==> AttrOrEmpty(n, "data-workout-id") == "" && AttrOrEmpty(n, "data-id") == ""
  {
  }

  function Href(n: Node): string {
    AttrOrEmpty(n, "href")
  }

  /** The id of the first link in `links` whose href carries one. */
  function LinkId(nodes: seq<Node>, links: seq<nat>): Option<string>
    requires InRange(nodes, links)
  {
    if links == [] then None
    else match ExtractWorkoutId(Href(nodes[links[0]]))
      case Some(id) => Some(id)
      case None => LinkId(nodes, links[1..])
  }

  lemma {:induction false} LinkIdSpec(nodes: seq<Node>, links: seq<nat>)
    requires InRange(nodes, links)
    ensures LinkId(nodes, links).None? <==>
      forall k :: 0 <= k < |links| ==> ExtractWorkoutId(Href(nodes[links[k]])).None?
    ensures LinkId(nodes, links).Some? ==>
      exists k :: 0 <= k < |links| && ExtractWorkoutId(Href(nodes[links[k]])) == LinkId(nodes, links)
               && forall j :: 0 <= j < k ==> ExtractWorkoutId(Href(nodes[links[j]])).None?
    decreases |links|
  {
    if links != [] && ExtractWorkoutId(Href(nodes[links[0]])).None? {
      LinkIdSpec(nodes, links[1..]);
      if LinkId(nodes, links).Some? {
        var k :| 0 <= k < |links[1..]| && ExtractWorkoutId(Href(nodes[links[1..][k]])) == LinkId(nodes, links[1..])
                 && forall j :: 0 <= j < k ==> ExtractWorkoutId(Href(nodes[links[1..][j]])).None?;
        assert links[k + 1] == links[1..][k];
        assert forall j :: 0 <= j < k + 1 ==> ExtractWorkoutId(Href(nodes[links[j]])).None? by {
          forall j | 0 <= j < k + 1 ensures ExtractWorkoutId(Href(nodes[links[j]])).None? {
            if j > 0 { assert links[j] == links[1..][j - 1]; }
          }
        }
      } else {
        forall k | 0 <= k < |links| ensures ExtractWorkoutId(Href(nodes[links[k]])).None? {
          if k > 0 { assert links[k] == links[1..][k - 1]; }
        }
      }
    }
  }

  /** The workout id of element `e`: its attribute id, else the id in its first workout link. */
  function ResolveId(nodes: seq<Node>, e: nat): Option<string>
    requires WellFormed(nodes) && e < |nodes|
  {
    var a := AttributeId(nodes[e]);
    if a != "" then Some(a) else LinkId(nodes, QueryAll(nodes, e, WorkoutLinkQuery))
  }

  /** An attribute id always wins; links are consulted only without one; an id is never empty. */
  lemma ResolveIdSpec(nodes: seq<Node>, e: nat)
    requires WellFormed(nodes) && e < |nodes|
    ensures AttributeId(nodes[e]) != "" ==> ResolveId(nodes, e) == Some(AttributeId(nodes[e]))
    ensures var links := QueryAll(nodes, e, WorkoutLinkQuery);
      ResolveId(nodes, e).None? <==>
        AttributeId(nodes[e]) == "" && forall k :: 0 <= k < |links| ==> ExtractWorkoutId(Href(nodes[links[k]])).None?
    ensures ResolveId(nodes, e).Some? ==> ResolveId(nodes, e).value != ""
  {
    var links := QueryAll(nodes, e, WorkoutLinkQuery);
    LinkIdSpec(nodes, links);
    if AttributeId(nodes[e]) == "" && LinkId(nodes, links).Some? {
      var k :| 0 <= k < |links| && ExtractWorkoutId(Href(nodes[links[k]])) == LinkId(nodes, links);
    }
  }

  // ---------------------------------------------------------------------------
  // Strategy A

  /** Element `e` resolves to an id the index knows. */
  predicate MatchedA(nodes: seq<Node>, e: nat, index: map<string, Workout>)
    requires WellFormed(nodes) && e < |nodes|
  {
    var id := ResolveId(nodes, e);
    id.Some? && id.value in index
  }

  /** One candidate: a known one gets a `div` annotation with its record's count. */
  function StepA(nodes: seq<Node>, e: nat, index: map<string, Workout>): (r: seq<Node>)
    requires WellFormed(nodes) && e < |nodes|
    ensures WellFormed(r) && |nodes| <= |r|
  {
    if MatchedA(nodes, e, index) then
      AnnotateCreatesOrUpdates(nodes, e, "div", BookedCaption(index[ResolveId(nodes, e).value].numBooked));
      Annotate(nodes, e, "div", BookedCaption(index[ResolveId(nodes, e).value].numBooked))
    else nodes
  }

  datatype AResult = AResult(nodes: seq<Node>, found: nat)

  /** Strategy A over the candidates `cands`, in order: the page afterwards and `foundMatches`. */
  function RunA(nodes: seq<Node>, cands: seq<nat>, index: map<string, Workout>): (r: AResult)
    requires WellFormed(nodes) && InRange(nodes, cands)
    ensures WellFormed(r.nodes) && |nodes| <= |r.nodes| && r.found <= |cands|
    decreases |cands|
  {
    if cands == [] then AResult(nodes, 0)
    else
      var rest := RunA(StepA(nodes, cands[0], index), cands[1..], index);
      AResult(rest.nodes, rest.found + if MatchedA(nodes, cands[0], index) then 1 else 0)
  }

  function Candidates(nodes: seq<Node>): seq<nat>
    requires WellFormed(nodes)
  {
    DocumentQueryAll(nodes, CandidateQuery)
  }

  // ---------------------------------------------------------------------------
  // Strategy B

  /** The first record, in collection order, whose workout-type name occurs in `text`. */
  function FirstNameMatch(ws: seq<Workout>, text: string): Option<Workout> {
    if ws == [] then None
    else if Includes(text, ws[0].workoutType.name) then Some(ws[0])
    else FirstNameMatch(ws[1..], text)
  }

  lemma {:induction false} FirstNameMatchSpec(ws: seq<Workout>, text: string)
    ensures FirstNameMatch(ws, text).None? <==> forall k :: 0 <= k < |ws| ==> !Includes(text, ws[k].workoutType.name)
    ensures FirstNameMatch(ws, text).Some? ==>
      exists k :: 0 <= k < |ws| && ws[k] == FirstNameMatch(ws, text).value && Includes(text, ws[k].workoutType.name)
               && forall j :: 0 <= j < k ==> !Includes(text, ws[j].workoutType.name)
    decreases |ws|
  {
    if ws != [] && !Includes(text, ws[0].workoutType.name) {
      FirstNameMatchSpec(ws[1..], text);
      if FirstNameMatch(ws, text).Some? {
        var k :| 0 <= k < |ws[1..]| && ws[1..][k] == FirstNameMatch(ws, text).value
                 && Includes(text, ws[1..][k].workoutType.name)
                 && forall j :: 0 <= j < k ==> !Includes(text, ws[1..][j].workoutType.name);
        assert ws[k + 1] == ws[1..][k];
        forall j | 0 <= j < k + 1 ensures !Includes(text, ws[j].workoutType.name) {
          if j > 0 { assert ws[j] == ws[1..][j - 1]; }
        }
      } else {
        forall k | 0 <= k < |ws| ensures !Includes(text, ws[k].workoutType.name) {
          if k > 0 { assert ws[k] == ws[1..][k - 1]; }
        }
      }
    }
  }

  /** One name element: annotated with a `span` holding the count of its first matching record. */
  function StepB(nodes: seq<Node>, n: nat, ws: seq<Workout>): (r: seq<Node>)
    requires WellFormed(nodes) && n < |nodes|
    ensures WellFormed(r) && |nodes| <= |r|
  {
    match FirstNameMatch(ws, TextContent(nodes, n))
    case None => nodes
    case Some(w) =>
      AnnotateCreatesOrUpdates(nodes, n, "span", CountCaption(w.numBooked));
      Annotate(nodes, n, "span", CountCaption(w.numBooked))
  }

  /** The name elements found next to one time element, in order. */
  function NamesB(nodes: seq<Node>, names: seq<nat>, ws: seq<Workout>): (r: seq<Node>)
    requires WellFormed(nodes) && InRange(nodes, names)
    ensures WellFormed(r) && |nodes| <= |r|
    decreases |names|
  {
    if names == [] then nodes else NamesB(StepB(nodes, names[0], ws), names[1..], ws)
  }

  /** The page afterwards, and whether a `parentElement` of null aborted the pass. */
  datatype BResult = BResult(nodes: seq<Node>, crashed: bool)

  /** The time elements of one container: the name elements under each one's parent. */
  function TimesB(nodes: seq<Node>, times: seq<nat>, ws: seq<Workout>): (r: BResult)
    requires WellFormed(nodes) && InRange(nodes, times)
    ensures WellFormed(r.nodes) && |nodes| <= |r.nodes|
    decreases |times|
  {
    if times == [] then BResult(nodes, false)
    else match ParentOf(nodes, times[0])
      case None => BResult(nodes, true)
      case Some(p) => TimesB(NamesB(nodes, QueryAll(nodes, p, NameQuery), ws), times[1..], ws)
  }

  /** One container, visited only when it holds a date element and at least one time element. */
  function ContainerB(nodes: seq<Node>, c: nat, ws: seq<Workout>): (r: BResult)
    requires WellFormed(nodes) && c < |nodes|
    ensures WellFormed(r.nodes) && |nodes| <= |r.nodes|
  {
    var times := QueryAll(nodes, c, TimeQuery);
    if QueryFirst(nodes, c, DateQuery).Some? && |times| > 0 then TimesB(nodes, times, ws)
    else BResult(nodes, false)
  }

  /** Strategy B over the containers, in order, stopping at an abort. */
  function RunB(nodes: seq<Node>, containers: seq<nat>, ws: seq<Workout>): (r: BResult)
    requires WellFormed(nodes) && InRange(nodes, containers)
    ensures WellFormed(r.nodes) && |nodes| <= |r.nodes|
    decreases |containers|
  {
    if containers == [] then BResult(nodes, false)
    else
      var first := ContainerB(nodes, containers[0], ws);
      if first.crashed then first else RunB(first.nodes, containers[1..], ws)
  }

  function Containers(nodes: seq<Node>): seq<nat>
    requires WellFormed(nodes)
  {
    DocumentQueryAll(nodes, ContainerQuery)
  }

  // ---------------------------------------------------------------------------
  // The pass

  /** The page afterwards, `foundMatches`, and whether Strategy B aborted. */
  datatype PassResult = PassResult(nodes: seq<Node>, found: nat, crashed: bool)

  /** `findAndUpdateWorkouts` on the page, for the records `ws`, before the panel step. */
  function Pass(nodes: seq<Node>, ws: seq<Workout>): (r: PassResult)
    requires WellFormed(nodes)
    ensures WellFormed(r.nodes) && |nodes| <= |r.nodes|
    ensures r.crashed ==> r.found == 0
  {
    var a := RunA(nodes, Candidates(nodes), IndexById(ws));
    if a.found == 0 then
      var b := RunB(a.nodes, Containers(a.nodes), ws);
      PassResult(b.nodes, 0, b.crashed)
    else PassResult(a.nodes, a.found, false)
  }

  /** The floating panel is asked for exactly when Strategy A matched nothing and the pass did not abort. */
  predicate ShowsPanel(r: PassResult) {
    r.found == 0 && !r.crashed
  }
}
