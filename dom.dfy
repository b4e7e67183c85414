/**
 * The page as the reconciler sees it: a table of element nodes, node 0 being the document's root.
 * A node lists its children by position in the table, and every child sits after its parent
 * (a tree numbered in document order has this shape). Document order is preorder.
 */
module Dom {
  import opened Wrappers
  import opened Text

  const BookingCount := "booking-count"

  /** An element: tag name, class list, attributes, its own text (placed before its children) and its children. */
  datatype Node = Node(tag: string, classes: set<string>, attrs: map<string, string>, text: string, children: seq<nat>)

  /**
   * The selectors the reconciler uses: a group of `.class` and `[attribute]` alternatives
   * (`.a, .b, [c]`), or `a[href*="fragment"]`.
   */
  datatype Query = AnyOf(classNames: set<string>, attrNames: set<string>) | LinkHrefContaining(fragment: string)

  predicate Matches(n: Node, q: Query) {
    match q
    case AnyOf(cs, ns) => cs * n.classes != {} || ns * n.attrs.Keys != {}
    case LinkHrefContaining(f) => n.tag == "a" && "href" in n.attrs && Includes(n.attrs["href"], f)
  }

  /** `.booking-count` */
  const AnnotationQuery := AnyOf({BookingCount}, {})

  predicate IsAnnotation(n: Node) {
    BookingCount in n.classes
  }

  /** An annotation exactly as the reconciler creates it: that class alone, no attribute, no child. */
  predicate PlainAnnotation(n: Node) {
    n.classes == {BookingCount} && n.attrs == map[] && n.children == []
  }

  /** Every `.booking-count` element on the page is a plain annotation. */
  predicate AnnotationsArePlain(nodes: seq<Node>) {
    forall i :: 0 <= i < |nodes| && IsAnnotation(nodes[i]) ==> PlainAnnotation(nodes[i])
  }

  predicate WellFormed(nodes: seq<Node>) {
    && |nodes| > 0
    && forall i, k :: 0 <= i < |nodes| && 0 <= k < |nodes[i].children| ==> i < nodes[i].children[k] < |nodes|
  }

  predicate InRange(nodes: seq<Node>, s: seq<nat>) {
    forall k :: 0 <= k < |s| ==> s[k] < |nodes|
  }

  // ---------------------------------------------------------------------------
  // Document order

  /** `x` followed by its descendants, in document order. */
  function Subtree(nodes: seq<Node>, x: nat): (r: seq<nat>)
    requires WellFormed(nodes) && x < |nodes|
    ensures |r| > 0 && r[0] == x
    ensures forall k :: 0 <= k < |r| ==> x <= r[k] < |nodes|
    ensures forall y :: y in r ==> x <= y < |nodes|
    decreases |nodes| - x, 1
  {
    [x] + Forest(nodes, nodes[x].children, x)
  }

  /** The subtrees of the children `cs` of `p`, one after another. */
  function Forest(nodes: seq<Node>, cs: seq<nat>, p: nat): (r: seq<nat>)
    requires WellFormed(nodes)
    requires forall k :: 0 <= k < |cs| ==> p < cs[k] < |nodes|
    ensures forall k :: 0 <= k < |r| ==> p < r[k] < |nodes|
    ensures forall y :: y in r ==> p < y < |nodes|
    decreases |nodes| - p, 0, |cs|
  {
    if cs == [] then [] else Subtree(nodes, cs[0]) + Forest(nodes, cs[1..], p)
  }

  function Descendants(nodes: seq<Node>, x: nat): (r: seq<nat>)
    requires WellFormed(nodes) && x < |nodes|
    ensures forall k :: 0 <= k < |r| ==> x < r[k] < |nodes|
    ensures forall y :: y in r ==> x < y < |nodes|
  {
    Forest(nodes, nodes[x].children, x)
  }

  /** The nodes of `s` that match `q`, in their order. */
  function Select(nodes: seq<Node>, s: seq<nat>, q: Query): (r: seq<nat>)
    requires InRange(nodes, s)
    ensures InRange(nodes, r)
  {
    if s == [] then []
    else (if Matches(nodes[s[0]], q) then [s[0]] else []) + Select(nodes, s[1..], q)
  }

  /** `element.querySelectorAll(q)`: matching descendants in document order. */
  function QueryAll(nodes: seq<Node>, x: nat, q: Query): seq<nat>
    requires WellFormed(nodes) && x < |nodes|
  {
    Select(nodes, Descendants(nodes, x), q)
  }

  /** `element.querySelector(q)`: the first matching descendant. */
  function QueryFirst(nodes: seq<Node>, x: nat, q: Query): (r: Option<nat>)
    requires WellFormed(nodes) && x < |nodes|
    ensures r.None? <==> QueryAll(nodes, x, q) == []
    ensures r.Some? ==> r.value in QueryAll(nodes, x, q) && x < r.value < |nodes| && Matches(nodes[r.value], q)
    ensures r.Some? ==> NoneBefore(nodes, Descendants(nodes, x), q, r.value)
  {
    var all := QueryAll(nodes, x, q);
    if all == [] then None
    else
      SelectMember(nodes, Descendants(nodes, x), q, all[0]);
      SelectFirst(nodes, Descendants(nodes, x), q, all[0]);
      Some(all[0])
  }

  /** `document.querySelectorAll(q)` */
  function DocumentQueryAll(nodes: seq<Node>, q: Query): seq<nat>
    requires WellFormed(nodes)
  {
    Select(nodes, Subtree(nodes, 0), q)
  }

  function Texts(nodes: seq<Node>, s: seq<nat>): string
    requires InRange(nodes, s)
  {
    if s == [] then "" else nodes[s[0]].text + Texts(nodes, s[1..])
  }

  /** `element.textContent`: every text of the subtree in document order. */
  function TextContent(nodes: seq<Node>, x: nat): string
    requires WellFormed(nodes) && x < |nodes|
  {
    Texts(nodes, Subtree(nodes, x))
  }

  /** `element.parentElement`: the node whose children list `x`; None for a root or a detached node. */
  function ParentOf(nodes: seq<Node>, x: nat): (r: Option<nat>)
    requires WellFormed(nodes) && x < |nodes|
    ensures r.Some? ==> r.value < x && x in nodes[r.value].children
    ensures r.None? ==> forall j :: 0 <= j < |nodes| ==> x !in nodes[j].children
  {
    ParentFrom(nodes, x, 0)
  }

  function ParentFrom(nodes: seq<Node>, x: nat, j: nat): (r: Option<nat>)
    requires WellFormed(nodes) && x < |nodes| && j <= x
    ensures r.Some? ==> j <= r.value < x && x in nodes[r.value].children
    ensures r.None? ==> forall i :: j <= i < |nodes| ==> x !in nodes[i].children
    decreases x - j
  {
    if j == x then None
    else if x in nodes[j].children then Some(j)
    else ParentFrom(nodes, x, j + 1)
  }

  // ---------------------------------------------------------------------------
  // Edits

  /** `node.textContent = s`: the node's text becomes `s` and its children are detached. */
  function SetText(nodes: seq<Node>, x: nat, s: string): (r: seq<Node>)
    requires WellFormed(nodes) && x < |nodes|
    ensures WellFormed(r) && |r| == |nodes|
  {
    nodes[x := nodes[x].(text := s, children := [])]
  }

  /** `parent.appendChild(n)` for a freshly created childless `n`. */
  function AppendChild(nodes: seq<Node>, x: nat, n: Node): (r: seq<Node>)
    requires WellFormed(nodes) && x < |nodes| && n.children == []
    ensures WellFormed(r) && |r| == |nodes| + 1
  {
    var r := nodes[x := nodes[x].(children := nodes[x].children + [|nodes|])] + [n];
    assert forall i, k :: 0 <= i < |r| && 0 <= k < |r[i].children| ==> i < r[i].children[k] < |r| by {
      forall i, k | 0 <= i < |r| && 0 <= k < |r[i].children| ensures i < r[i].children[k] < |r| {
        if i != x && i < |nodes| { assert r[i] == nodes[i]; }
      }
    }
    r
  }

  /** A freshly created annotation element. */
  function NewAnnotation(tag: string, caption: string): (n: Node)
    ensures PlainAnnotation(n)
  {
    Node(tag, {BookingCount}, map[], caption, [])
  }

  /**
   * Create-or-update of a booking-count annotation under `e`: the first `.booking-count`
   * descendant gets the caption as its text; without one, a new annotation child is appended.
   */
  function Annotate(nodes: seq<Node>, e: nat, tag: string, caption: string): (r: seq<Node>)
    requires WellFormed(nodes) && e < |nodes|
    ensures WellFormed(r)
  {
    match QueryFirst(nodes, e, AnnotationQuery)
    case Some(b) => SetText(nodes, b, caption)
    case None => AppendChild(nodes, e, NewAnnotation(tag, caption))
  }

  predicate HasAnnotation(nodes: seq<Node>, e: nat)
    requires WellFormed(nodes) && e < |nodes|
  {
    QueryFirst(nodes, e, AnnotationQuery).Some?
  }

  // ---------------------------------------------------------------------------
  // Lemmas about document order

  lemma {:induction false} ForestMember(nodes: seq<Node>, cs: seq<nat>, p: nat, y: nat)
    requires WellFormed(nodes)
    requires forall k :: 0 <= k < |cs| ==> p < cs[k] < |nodes|
    ensures y in Forest(nodes, cs, p) <==> exists k :: 0 <= k < |cs| && y in Subtree(nodes, cs[k])
    decreases |cs|
  {
    if cs != [] {
      ForestMember(nodes, cs[1..], p, y);
      if y in Forest(nodes, cs, p) && y !in Subtree(nodes, cs[0]) {
        var k :| 0 <= k < |cs[1..]| && y in Subtree(nodes, cs[1..][k]);
        assert cs[1..][k] == cs[k + 1];
      }
      if exists k :: 0 <= k < |cs| && y in Subtree(nodes, cs[k]) {
        var k :| 0 <= k < |cs| && y in Subtree(nodes, cs[k]);
        if k > 0 { assert cs[k] == cs[1..][k - 1]; }
      }
    }
  }

  lemma {:induction false} SelectMember(nodes: seq<Node>, s: seq<nat>, q: Query, x: nat)
    requires InRange(nodes, s)
    ensures x in Select(nodes, s, q) <==> x in s && x < |nodes| && Matches(nodes[x], q)
    decreases |s|
  {
    if s != [] {
      SelectMember(nodes, s[1..], q, x);
      assert x in s <==> x == s[0] || x in s[1..];
    }
  }

  /** `.booking-count` matches exactly the annotations. */
  lemma AnnotationQueryMatches(n: Node)
    ensures Matches(n, AnnotationQuery) <==> IsAnnotation(n)
  {
    if IsAnnotation(n) { assert BookingCount in {BookingCount} * n.classes; }
  }

  lemma {:induction false} ForestAppend(nodes: seq<Node>, a: seq<nat>, b: seq<nat>, p: nat)
    requires WellFormed(nodes)
    requires forall k :: 0 <= k < |a| ==> p < a[k] < |nodes|
    requires forall k :: 0 <= k < |b| ==> p < b[k] < |nodes|
    ensures Forest(nodes, a + b, p) == Forest(nodes, a, p) + Forest(nodes, b, p)
    decreases |a|
  {
    if a == [] {
      assert a + b == b;
    } else {
      assert (a + b)[0] == a[0] && (a + b)[1..] == a[1..] + b;
      ForestAppend(nodes, a[1..], b, p);
      var head := Subtree(nodes, a[0]);
      assert Forest(nodes, a + b, p) == head + Forest(nodes, a[1..] + b, p);
      assert Forest(nodes, a, p) == head + Forest(nodes, a[1..], p);
    }
  }

  lemma {:induction false} SelectAppend(nodes: seq<Node>, a: seq<nat>, b: seq<nat>, q: Query)
    requires InRange(nodes, a) && InRange(nodes, b)
    ensures Select(nodes, a + b, q) == Select(nodes, a, q) + Select(nodes, b, q)
    decreases |a|
  {
    if a == [] {
      assert a + b == b;
    } else {
      assert (a + b)[0] == a[0] && (a + b)[1..] == a[1..] + b;
      SelectAppend(nodes, a[1..], b, q);
      var head := if Matches(nodes[a[0]], q) then [a[0]] else [];
      assert Select(nodes, a + b, q) == head + Select(nodes, a[1..] + b, q);
      assert Select(nodes, a, q) == head + Select(nodes, a[1..], q);
    }
  }

  /** Selection only looks at the nodes selected from. */
  lemma {:induction false} SelectFrame(nodes: seq<Node>, nodes': seq<Node>, s: seq<nat>, q: Query)
    requires InRange(nodes, s) && InRange(nodes', s)
    requires forall x :: x in s ==> Matches(nodes'[x], q) == Matches(nodes[x], q)
    ensures Select(nodes', s, q) == Select(nodes, s, q)
    decreases |s|
  {
    if s != [] { SelectFrame(nodes, nodes', s[1..], q); }
  }

  /** A subtree depends only on the children lists of the nodes from its root on. */
  lemma {:induction false} SubtreeFrame(nodes: seq<Node>, nodes': seq<Node>, x: nat)
    requires WellFormed(nodes) && WellFormed(nodes') && x < |nodes| <= |nodes'|
    requires forall j :: x <= j < |nodes| ==> nodes'[j].children == nodes[j].children
    ensures Subtree(nodes', x) == Subtree(nodes, x)
    decreases |nodes| - x, 1
  {
    ForestFrame(nodes, nodes', nodes[x].children, x);
  }

  lemma {:induction false} ForestFrame(nodes: seq<Node>, nodes': seq<Node>, cs: seq<nat>, p: nat)
    requires WellFormed(nodes) && WellFormed(nodes') && |nodes| <= |nodes'|
    requires forall k :: 0 <= k < |cs| ==> p < cs[k] < |nodes|
    requires forall j :: p < j < |nodes| ==> nodes'[j].children == nodes[j].children
    ensures Forest(nodes', cs, p) == Forest(nodes, cs, p)
    decreases |nodes| - p, 0, |cs|
  {
    if cs != [] {
      SubtreeFrame(nodes, nodes', cs[0]);
      ForestFrame(nodes, nodes', cs[1..], p);
    }
  }

  /** A node stays in a subtree as long as no children list before it changes. */
  lemma {:induction false} ReachPreserved(nodes: seq<Node>, nodes': seq<Node>, e: nat, y: nat)
    requires WellFormed(nodes) && WellFormed(nodes') && e < |nodes| <= |nodes'|
    requires y in Subtree(nodes, e)
    requires forall j :: 0 <= j < y ==> nodes'[j].children == nodes[j].children
    ensures y in Subtree(nodes', e)
    decreases y - e
  {
    if y != e {
      assert y in Forest(nodes, nodes[e].children, e);
      ForestMember(nodes, nodes[e].children, e, y);
      var k :| 0 <= k < |nodes[e].children| && y in Subtree(nodes, nodes[e].children[k]);
      var c := nodes[e].children[k];
      assert e < c <= y;
      ReachPreserved(nodes, nodes', c, y);
      ForestMember(nodes', nodes'[e].children, e, y);
      assert nodes'[e].children[k] == c;
    }
  }

  /** A node below `e` has a parent. */
  lemma {:induction false} DescendantHasParent(nodes: seq<Node>, e: nat, y: nat)
    requires WellFormed(nodes) && e < |nodes|
    requires y in Descendants(nodes, e)
    ensures ParentOf(nodes, y).Some?
    decreases y - e
  {
    ForestMember(nodes, nodes[e].children, e, y);
    var k :| 0 <= k < |nodes[e].children| && y in Subtree(nodes, nodes[e].children[k]);
    var c := nodes[e].children[k];
    if y != c {
      DescendantHasParent(nodes, c, y);
    } else {
      assert y in nodes[e].children;
    }
  }

  // ---------------------------------------------------------------------------
  // Create-or-update

  /**
   * The create-or-update, as the whole new table: with an annotation below `e`, the first one gets
   * the caption as its text and loses its children, and nothing else changes; without one, `e`
   * gains a new annotation as its last child, and nothing else changes.
   */
  lemma AnnotateCreatesOrUpdates(nodes: seq<Node>, e: nat, tag: string, caption: string)
    requires WellFormed(nodes) && e < |nodes|
    ensures var r := Annotate(nodes, e, tag, caption);
      && (HasAnnotation(nodes, e) ==>
            var b := QueryFirst(nodes, e, AnnotationQuery).value;
            r == nodes[b := nodes[b].(text := caption, children := [])])
      && (!HasAnnotation(nodes, e) ==>
            r == nodes[e := nodes[e].(children := nodes[e].children + [|nodes|])] + [NewAnnotation(tag, caption)])
  {
  }

  /** After the create-or-update `e` has an annotation, so a second one adds no node: re-running is idempotent. */
  lemma AnnotateIdempotent(nodes: seq<Node>, e: nat, tag: string, caption: string, tag': string, caption': string)
    requires WellFormed(nodes) && e < |nodes|
    ensures HasAnnotation(Annotate(nodes, e, tag, caption), e)
    ensures |Annotate(Annotate(nodes, e, tag, caption), e, tag', caption')| == |Annotate(nodes, e, tag, caption)|
  {
    var r := Annotate(nodes, e, tag, caption);
    var all := QueryAll(nodes, e, AnnotationQuery);
    if all != [] {
      var b := all[0];
      SelectMember(nodes, Descendants(nodes, e), AnnotationQuery, b);
      assert b in Subtree(nodes, e);
      ReachPreserved(nodes, r, e, b);
      assert b in Descendants(r, e);
      SelectMember(r, Descendants(r, e), AnnotationQuery, b);
    } else {
      var n := |nodes|;
      var k := |r[e].children| - 1;
      assert r[e].children[k] == n;
      assert n in Subtree(r, n);
      ForestMember(r, r[e].children, e, n);
      AnnotationQueryMatches(r[n]);
      SelectMember(r, Descendants(r, e), AnnotationQuery, n);
    }
  }

  /** The annotation a later `querySelector(".booking-count")` finds under `e` shows the caption just written. */
  lemma AnnotateShowsLabel(nodes: seq<Node>, e: nat, tag: string, caption: string)
    requires WellFormed(nodes) && e < |nodes|
    ensures var r := Annotate(nodes, e, tag, caption);
      QueryFirst(r, e, AnnotationQuery).Some? && r[QueryFirst(r, e, AnnotationQuery).value].text == caption
  {
    if QueryAll(nodes, e, AnnotationQuery) != [] {
      UpdateKeepsFirst(nodes, e, caption);
    } else {
      CreateIsFirst(nodes, e, tag, caption);
    }
  }

  /** Writing the first annotation's text keeps it the first annotation, even when that detaches its children. */
  lemma UpdateKeepsFirst(nodes: seq<Node>, e: nat, caption: string)
    requires WellFormed(nodes) && e < |nodes|
    requires QueryAll(nodes, e, AnnotationQuery) != []
    ensures var b := QueryAll(nodes, e, AnnotationQuery)[0];
      var all := QueryAll(SetText(nodes, b, caption), e, AnnotationQuery);
      all != [] && all[0] == b
  {
    var d := Descendants(nodes, e);
    var b := QueryAll(nodes, e, AnnotationQuery)[0];
    var r := SetText(nodes, b, caption);
    SelectFirst(nodes, d, AnnotationQuery, b);
    assert SelectsFirst(nodes, d, AnnotationQuery, b);
    assert e < b;
    ForestCut(nodes, r, b, nodes[e].children, e);
    var d' := Descendants(r, e);
    assert Before(d', b) == Before(d, b);
    SelectFrame(nodes, r, Before(d, b), AnnotationQuery);
    SelectFirst(r, d', AnnotationQuery, b);
    assert SelectsFirst(r, d', AnnotationQuery, b);
  }

  /** The elements of `s` before the first occurrence of `b`; all of `s` when `b` does not occur. */
  function Before(s: seq<nat>, b: nat): (r: seq<nat>)
    ensures |r| <= |s| && r == s[..|r|] && b !in r
    ensures b !in s ==> r == s
  {
    if s == [] then []
    else if s[0] == b then []
    else [s[0]] + Before(s[1..], b)
  }

  lemma {:induction false} BeforeAppend(a: seq<nat>, c: seq<nat>, b: nat)
    ensures b in a ==> Before(a + c, b) == Before(a, b)
    ensures b !in a ==> Before(a + c, b) == a + Before(c, b)
    decreases |a|
  {
    if a == [] {
      assert a + c == c;
    } else {
      assert (a + c)[0] == a[0] && (a + c)[1..] == a[1..] + c;
      BeforeAppend(a[1..], c, b);
      if a[0] != b {
        assert Before(a + c, b) == [a[0]] + Before(a[1..] + c, b);
        assert b in a <==> b in a[1..];
      }
    }
  }

  /** `r` is `nodes` with the children of `b` cleared, every other node keeping its children. */
  predicate CutAt(nodes: seq<Node>, r: seq<Node>, b: nat)
    requires |r| == |nodes| && b < |nodes|
  {
    r[b].children == [] && forall j :: 0 <= j < |nodes| && j != b ==> r[j].children == nodes[j].children
  }

  /**
   * Clearing the children of `b` changes a subtree only after the first occurrence of `b`, and
   * leaves a subtree without `b` as it was.
   */
  lemma {:induction false} SubtreeCut(nodes: seq<Node>, r: seq<Node>, b: nat, x: nat)
    requires WellFormed(nodes) && WellFormed(r) && |r| == |nodes| && b < |nodes| && x < |nodes|
    requires CutAt(nodes, r, b)
    ensures b in Subtree(nodes, x) ==> b in Subtree(r, x) && Before(Subtree(r, x), b) == Before(Subtree(nodes, x), b)
    ensures b !in Subtree(nodes, x) ==> Subtree(r, x) == Subtree(nodes, x)
    decreases |nodes| - x, 1
  {
    if x == b {
      assert Subtree(r, x) == [x] + Forest(r, [], x);
    } else {
      var f, f' := Forest(nodes, nodes[x].children, x), Forest(r, nodes[x].children, x);
      ForestCut(nodes, r, b, nodes[x].children, x);
      assert Subtree(nodes, x) == [x] + f && Subtree(r, x) == [x] + f';
      assert ([x] + f)[0] == x && ([x] + f)[1..] == f;
      assert ([x] + f')[0] == x && ([x] + f')[1..] == f';
    }
  }

  lemma {:induction false} ForestCut(nodes: seq<Node>, r: seq<Node>, b: nat, cs: seq<nat>, p: nat)
    requires WellFormed(nodes) && WellFormed(r) && |r| == |nodes| && b < |nodes|
    requires CutAt(nodes, r, b)
    requires forall k :: 0 <= k < |cs| ==> p < cs[k] < |nodes|
    ensures b in Forest(nodes, cs, p) ==> b in Forest(r, cs, p) && Before(Forest(r, cs, p), b) == Before(Forest(nodes, cs, p), b)
    ensures b !in Forest(nodes, cs, p) ==> Forest(r, cs, p) == Forest(nodes, cs, p)
    decreases |nodes| - p, 0, |cs|
  {
    if cs != [] {
      SubtreeCut(nodes, r, b, cs[0]);
      ForestCut(nodes, r, b, cs[1..], p);
      var s, f := Subtree(nodes, cs[0]), Forest(nodes, cs[1..], p);
      var s', f' := Subtree(r, cs[0]), Forest(r, cs[1..], p);
      assert Forest(nodes, cs, p) == s + f && Forest(r, cs, p) == s' + f';
      CutConcat(s, f, s', f', b);
    }
  }

  /** Two parts that agree up to the first `b` give a concatenation that agrees up to the first `b`. */
  lemma CutConcat(s: seq<nat>, f: seq<nat>, s': seq<nat>, f': seq<nat>, b: nat)
    requires b in s ==> b in s' && Before(s', b) == Before(s, b)
    requires b !in s ==> s' == s
    requires b in f ==> b in f' && Before(f', b) == Before(f, b)
    requires b !in f ==> f' == f
    ensures b in s + f ==> b in s' + f' && Before(s' + f', b) == Before(s + f, b)
    ensures b !in s + f ==> s' + f' == s + f
  {
    BeforeAppend(s, f, b);
    BeforeAppend(s', f', b);
  }

  /** The first node `s` selects is `b` exactly when `b` occurs in `s`, matches, and no node before it matches. */
  lemma {:induction false} SelectFirst(nodes: seq<Node>, s: seq<nat>, q: Query, b: nat)
    requires InRange(nodes, s) && b < |nodes|
    ensures SelectsFirst(nodes, s, q, b) <==> b in s && Matches(nodes[b], q) && NoneBefore(nodes, s, q, b)
    decreases |s|
  {
    if s != [] {
      if s[0] == b {
        SelectFirstAtHead(nodes, s, q, b);
      } else {
        SelectFirst(nodes, s[1..], q, b);
        SelectFirstPastHead(nodes, s, q, b);
      }
    }
  }

  /** The first node `s` selects is `b`. */
  predicate SelectsFirst(nodes: seq<Node>, s: seq<nat>, q: Query, b: nat)
    requires InRange(nodes, s)
  {
    var sel := Select(nodes, s, q);
    sel != [] && sel[0] == b
  }

  /** No node of `s` before the first `b` matches. */
  predicate NoneBefore(nodes: seq<Node>, s: seq<nat>, q: Query, b: nat)
    requires InRange(nodes, s)
  {
    Select(nodes, Before(s, b), q) == []
  }

  lemma SelectFirstAtHead(nodes: seq<Node>, s: seq<nat>, q: Query, b: nat)
    requires InRange(nodes, s) && b < |nodes| && s != [] && s[0] == b
    ensures SelectsFirst(nodes, s, q, b) <==> Matches(nodes[b], q)
    ensures NoneBefore(nodes, s, q, b)
  {
    var head := if Matches(nodes[b], q) then [b] else [];
    assert Select(nodes, s, q) == head + Select(nodes, s[1..], q);
    assert Before(s, b) == [];
    if !Matches(nodes[b], q) && Select(nodes, s, q) != [] {
      SelectMember(nodes, s[1..], q, Select(nodes, s, q)[0]);
    }
  }

  lemma SelectFirstPastHead(nodes: seq<Node>, s: seq<nat>, q: Query, b: nat)
    requires InRange(nodes, s) && b < |nodes| && s != [] && s[0] != b
    requires SelectsFirst(nodes, s[1..], q, b) <==> b in s[1..] && Matches(nodes[b], q) && NoneBefore(nodes, s[1..], q, b)
    ensures SelectsFirst(nodes, s, q, b) <==> b in s && Matches(nodes[b], q) && NoneBefore(nodes, s, q, b)
  {
    var rest := s[1..];
    var before := Before(rest, b);
    assert Before(s, b) == [s[0]] + before;
    assert ([s[0]] + before)[0] == s[0] && ([s[0]] + before)[1..] == before;
    assert b in s <==> b in rest;
    if Matches(nodes[s[0]], q) {
      assert Select(nodes, s, q) == [s[0]] + Select(nodes, rest, q);
      assert Select(nodes, Before(s, b), q) == [s[0]] + Select(nodes, before, q);
    } else {
      assert Select(nodes, s, q) == Select(nodes, rest, q);
      assert Select(nodes, Before(s, b), q) == Select(nodes, before, q);
    }
  }

  lemma CreateIsFirst(nodes: seq<Node>, e: nat, tag: string, caption: string)
    requires WellFormed(nodes) && e < |nodes|
    requires QueryAll(nodes, e, AnnotationQuery) == []
    ensures QueryAll(AppendChild(nodes, e, NewAnnotation(tag, caption)), e, AnnotationQuery) == [|nodes|]
  {
    var r := AppendChild(nodes, e, NewAnnotation(tag, caption));
    var n := |nodes|;
    var cs := nodes[e].children;
    assert r[e].children == cs + [n];
    ForestAppend(r, cs, [n], e);
    assert Forest(r, [n], e) == [n] by {
      assert r[n].children == [];
      assert Subtree(r, n) == [n];
    }
    ForestFrame(nodes, r, cs, e);
    var d := Forest(nodes, cs, e);
    assert Descendants(r, e) == d + [n];
    SelectAppend(r, d, [n], AnnotationQuery);
    SelectFrame(nodes, r, d, AnnotationQuery);
    AnnotationQueryMatches(r[n]);
  }
}
