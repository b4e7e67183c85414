/**
 * How a page changes under the reconciler when every `.booking-count` element is a plain annotation:
 * annotation texts are rewritten and annotation leaves are appended, nothing else. Every query the
 * reconciler makes for something other than `.booking-count` gives the same answer afterwards.
 */
module Growth {
  import opened Wrappers
  import opened Dom

  /** Node `a` became node `b`; `n` is the size of the table before the change. */
  predicate NodeGrows(a: Node, b: Node, n: nat) {
    && b.tag == a.tag && b.classes == a.classes && b.attrs == a.attrs
    && (IsAnnotation(a) || b.text == a.text)
    && |a.children| <= |b.children| && b.children[..|a.children|] == a.children
    && forall k :: |a.children| <= k < |b.children| ==> b.children[k] >= n
  }

  /** `t` is `s` with annotation texts rewritten and annotation leaves appended. */
  ghost predicate Grows(s: seq<Node>, t: seq<Node>) {
    && WellFormed(s) && WellFormed(t) && AnnotationsArePlain(s) && AnnotationsArePlain(t)
    && |s| <= |t|
    && (forall i :: 0 <= i < |s| ==> NodeGrows(s[i], t[i], |s|))
    && (forall i :: |s| <= i < |t| ==> IsAnnotation(t[i]))
  }

  /** A query that no plain annotation matches: anything but `.booking-count`. */
  predicate MissesAnnotations(q: Query) {
    match q
    case AnyOf(cs, _) => BookingCount !in cs
    case LinkHrefContaining(_) => true
  }

  lemma PlainMisses(n: Node, q: Query)
    requires PlainAnnotation(n) && MissesAnnotations(q)
    ensures !Matches(n, q)
  {
    if q.AnyOf? {
      assert n.classes == {BookingCount};
      assert q.classNames * n.classes == {};
      assert q.attrNames * n.attrs.Keys == {};
    }
  }

  lemma GrowsRefl(s: seq<Node>)
    requires WellFormed(s) && AnnotationsArePlain(s)
    ensures Grows(s, s)
  {
    forall i | 0 <= i < |s| ensures NodeGrows(s[i], s[i], |s|) {
      assert s[i].children[..|s[i].children|] == s[i].children;
    }
  }

  lemma GrowsTrans(a: seq<Node>, b: seq<Node>, c: seq<Node>)
    requires Grows(a, b) && Grows(b, c)
    ensures Grows(a, c)
  {
    forall i | 0 <= i < |a| ensures NodeGrows(a[i], c[i], |a|) {
      var x, y, z := a[i], b[i], c[i];
      assert NodeGrows(x, y, |a|) && NodeGrows(y, z, |b|);
      assert z.children[..|x.children|] == x.children by {
        assert z.children[..|y.children|][..|x.children|] == z.children[..|x.children|];
      }
      forall k | |x.children| <= k < |z.children| ensures z.children[k] >= |a| {
        if k < |y.children| {
          assert z.children[k] == z.children[..|y.children|][k] == y.children[k];
        }
      }
    }
    forall i | |a| <= i < |c| ensures IsAnnotation(c[i]) {
      if i < |b| { assert NodeGrows(b[i], c[i], |b|); }
    }
  }

  lemma SetTextGrows(s: seq<Node>, b: nat, text: string)
    requires WellFormed(s) && AnnotationsArePlain(s) && b < |s| && IsAnnotation(s[b])
    ensures Grows(s, SetText(s, b, text))
  {
    var t := SetText(s, b, text);
    forall i | 0 <= i < |s| ensures NodeGrows(s[i], t[i], |s|) {
      assert t[i].children[..|s[i].children|] == s[i].children;
    }
  }

  lemma AppendGrows(s: seq<Node>, e: nat, n: Node)
    requires WellFormed(s) && AnnotationsArePlain(s) && e < |s| && !IsAnnotation(s[e]) && PlainAnnotation(n)
    ensures Grows(s, AppendChild(s, e, n))
  {
    var t := AppendChild(s, e, n);
    forall i | 0 <= i < |s| ensures NodeGrows(s[i], t[i], |s|) {
      assert t[i].children[..|s[i].children|] == s[i].children;
    }
    forall i | 0 <= i < |t| && IsAnnotation(t[i]) ensures PlainAnnotation(t[i]) {
      if i < |s| { assert i != e; }
    }
  }

  /** The create-or-update of an annotation under an element that is not one is a growth. */
  lemma AnnotateGrows(s: seq<Node>, e: nat, tag: string, caption: string)
    requires WellFormed(s) && AnnotationsArePlain(s) && e < |s| && !IsAnnotation(s[e])
    ensures Grows(s, Annotate(s, e, tag, caption))
  {
    match QueryFirst(s, e, AnnotationQuery)
    case Some(b) =>
      AnnotationQueryMatches(s[b]);
      SetTextGrows(s, b, caption);
    case None =>
      AppendGrows(s, e, NewAnnotation(tag, caption));
  }

  // ---------------------------------------------------------------------------
  // Document order after a growth: the old nodes in their old order, annotations in between

  /** The indices of `xs` below `n`, in order. */
  function Strip(xs: seq<nat>, n: nat): (r: seq<nat>)
    ensures forall y :: y in r <==> y in xs && y < n
    ensures forall k :: 0 <= k < |r| ==> r[k] < n
  {
    if xs == [] then [] else (if xs[0] < n then [xs[0]] else []) + Strip(xs[1..], n)
  }

  lemma {:induction false} StripAppend(a: seq<nat>, b: seq<nat>, n: nat)
    ensures Strip(a + b, n) == Strip(a, n) + Strip(b, n)
    decreases |a|
  {
    if a == [] {
      assert a + b == b;
    } else {
      assert (a + b)[0] == a[0] && (a + b)[1..] == a[1..] + b;
      StripAppend(a[1..], b, n);
    }
  }

  lemma {:induction false} StripAll(xs: seq<nat>, n: nat)
    requires forall k :: 0 <= k < |xs| ==> xs[k] < n
    ensures Strip(xs, n) == xs
    decreases |xs|
  {
    if xs != [] { StripAll(xs[1..], n); }
  }

  lemma {:induction false} StripSubtree(s: seq<Node>, t: seq<Node>, x: nat)
    requires Grows(s, t) && x < |s|
    ensures Strip(Subtree(t, x), |s|) == Subtree(s, x)
    decreases |t| - x, 1
  {
    var cs := s[x].children;
    var added := t[x].children[|cs|..];
    ChildrenGrow(s, t, x);
    var oldPart, newPart := Forest(t, cs, x), Forest(t, added, x);
    ForestAppend(t, cs, added, x);
    assert Subtree(t, x) == [x] + (oldPart + newPart);
    StripForest(s, t, cs, x);
    StripFresh(s, t, added, x);
    StripParts(x, oldPart, newPart, |s|);
  }

  lemma StripParts(x: nat, a: seq<nat>, b: seq<nat>, n: nat)
    requires x < n
    ensures Strip([x] + (a + b), n) == [x] + (Strip(a, n) + Strip(b, n))
  {
    StripAppend([x], a + b, n);
    StripAppend(a, b, n);
    assert Strip([x], n) == [x];
  }

  /** The children of an old node: its old children, all old, then appended ones, all new. */
  lemma ChildrenGrow(s: seq<Node>, t: seq<Node>, x: nat)
    requires Grows(s, t) && x < |s|
    ensures |s[x].children| <= |t[x].children|
    ensures t[x].children == s[x].children + t[x].children[|s[x].children|..]
    ensures forall k :: 0 <= k < |s[x].children| ==> x < s[x].children[k] < |s|
    ensures var added := t[x].children[|s[x].children|..];
      forall k :: 0 <= k < |added| ==> x < added[k] < |t| && added[k] >= |s|
  {
    var cs, ds := s[x].children, t[x].children;
    assert NodeGrows(s[x], t[x], |s|);
    assert ds == cs + ds[|cs|..];
    var added := ds[|cs|..];
    forall k | 0 <= k < |added| ensures x < added[k] < |t| && added[k] >= |s| {
      assert added[k] == ds[|cs| + k];
    }
  }

  lemma {:induction false} StripForest(s: seq<Node>, t: seq<Node>, cs: seq<nat>, p: nat)
    requires Grows(s, t)
    requires forall k :: 0 <= k < |cs| ==> p < cs[k] < |s|
    ensures Strip(Forest(t, cs, p), |s|) == Forest(s, cs, p)
    decreases |t| - p, 0, |cs|
  {
    if cs != [] {
      StripSubtree(s, t, cs[0]);
      StripForest(s, t, cs[1..], p);
      StripAppend(Subtree(t, cs[0]), Forest(t, cs[1..], p), |s|);
    }
  }

  /** Appended annotations are leaves, so their subtrees hold nothing old. */
  lemma {:induction false} StripFresh(s: seq<Node>, t: seq<Node>, fs: seq<nat>, p: nat)
    requires Grows(s, t)
    requires forall k :: 0 <= k < |fs| ==> p < fs[k] < |t| && fs[k] >= |s|
    ensures Strip(Forest(t, fs, p), |s|) == []
    decreases |fs|
  {
    if fs != [] {
      var f := fs[0];
      assert IsAnnotation(t[f]) && t[f].children == [];
      assert Subtree(t, f) == [f];
      StripFresh(s, t, fs[1..], p);
      StripAppend(Subtree(t, f), Forest(t, fs[1..], p), |s|);
    }
  }

  lemma StripDescendants(s: seq<Node>, t: seq<Node>, x: nat)
    requires Grows(s, t) && x < |s|
    ensures Strip(Descendants(t, x), |s|) == Descendants(s, x)
  {
    StripSubtree(s, t, x);
    assert Subtree(t, x) == [x] + Descendants(t, x);
    assert Subtree(s, x) == [x] + Descendants(s, x);
    StripAppend([x], Descendants(t, x), |s|);
    assert Strip([x], |s|) == [x];
    assert Descendants(s, x) == Subtree(s, x)[1..];
    assert Strip(Descendants(t, x), |s|) == ([x] + Strip(Descendants(t, x), |s|))[1..];
  }

  // ---------------------------------------------------------------------------
  // Queries after a growth

  lemma {:induction false} SelectIgnoresFresh(s: seq<Node>, t: seq<Node>, xs: seq<nat>, q: Query)
    requires Grows(s, t) && InRange(t, xs) && MissesAnnotations(q)
    ensures Select(t, xs, q) == Select(s, Strip(xs, |s|), q)
    decreases |xs|
  {
    if xs != [] {
      SelectIgnoresFresh(s, t, xs[1..], q);
      var x, rest := xs[0], xs[1..];
      assert Select(t, xs, q) == (if Matches(t[x], q) then [x] else []) + Select(t, rest, q);
      assert Strip(xs, |s|) == (if x < |s| then [x] else []) + Strip(rest, |s|);
      if x >= |s| {
        PlainMisses(t[x], q);
        assert Select(t, xs, q) == Select(t, rest, q);
        assert Strip(xs, |s|) == Strip(rest, |s|);
      } else {
        assert NodeGrows(s[x], t[x], |s|);
        assert Matches(s[x], q) == Matches(t[x], q);
        var r := Strip(xs, |s|);
        assert r == [x] + Strip(rest, |s|);
        assert r[0] == x && r[1..] == Strip(rest, |s|);
        assert Select(s, r, q) == (if Matches(s[x], q) then [x] else []) + Select(s, Strip(rest, |s|), q);
      }
    }
  }

  /** `element.querySelectorAll(q)` for a query other than `.booking-count` is unchanged. */
  lemma QueryAllStable(s: seq<Node>, t: seq<Node>, x: nat, q: Query)
    requires Grows(s, t) && x < |s| && MissesAnnotations(q)
    ensures QueryAll(t, x, q) == QueryAll(s, x, q)
  {
    SelectIgnoresFresh(s, t, Descendants(t, x), q);
    StripDescendants(s, t, x);
  }

  lemma QueryFirstStable(s: seq<Node>, t: seq<Node>, x: nat, q: Query)
    requires Grows(s, t) && x < |s| && MissesAnnotations(q)
    ensures QueryFirst(t, x, q) == QueryFirst(s, x, q)
  {
    QueryAllStable(s, t, x, q);
  }

  /** `document.querySelectorAll(q)` for a query other than `.booking-count` is unchanged. */
  lemma DocumentQueryStable(s: seq<Node>, t: seq<Node>, q: Query)
    requires Grows(s, t) && MissesAnnotations(q)
    ensures DocumentQueryAll(t, q) == DocumentQueryAll(s, q)
  {
    SelectIgnoresFresh(s, t, Subtree(t, 0), q);
    StripSubtree(s, t, 0);
  }

  /** An element that had an annotation still has one. */
  lemma AnnotationPersists(s: seq<Node>, t: seq<Node>, x: nat)
    requires Grows(s, t) && x < |s| && HasAnnotation(s, x)
    ensures HasAnnotation(t, x)
  {
    var b := QueryFirst(s, x, AnnotationQuery).value;
    SelectMember(s, Descendants(s, x), AnnotationQuery, b);
    StripDescendants(s, t, x);
    assert b in Descendants(t, x);
    assert NodeGrows(s[b], t[b], |s|);
    SelectMember(t, Descendants(t, x), AnnotationQuery, b);
  }

  /** The parent of an old node is unchanged. */
  lemma ParentStable(s: seq<Node>, t: seq<Node>, x: nat)
    requires Grows(s, t) && x < |s|
    ensures ParentOf(t, x) == ParentOf(s, x)
  {
    ParentFromStable(s, t, x, 0);
  }

  lemma {:induction false} ParentFromStable(s: seq<Node>, t: seq<Node>, x: nat, j: nat)
    requires Grows(s, t) && x < |s| && j <= x
    ensures ParentFrom(t, x, j) == ParentFrom(s, x, j)
    decreases x - j
  {
    if j < x {
      var a, b := s[j].children, t[j].children;
      assert NodeGrows(s[j], t[j], |s|);
      assert b == a + b[|a|..];
      assert x in b <==> x in a;
      ParentFromStable(s, t, x, j + 1);
    }
  }

  lemma {:induction false} TextsFrame(s: seq<Node>, t: seq<Node>, xs: seq<nat>)
    requires InRange(s, xs) && InRange(t, xs)
    requires forall k :: 0 <= k < |xs| ==> t[xs[k]].text == s[xs[k]].text
    ensures Texts(t, xs) == Texts(s, xs)
    decreases |xs|
  {
    if xs != [] { TextsFrame(s, t, xs[1..]); }
  }

  /** An element that is not an annotation and still has none below it shows the same text. */
  lemma TextStable(s: seq<Node>, t: seq<Node>, x: nat)
    requires Grows(s, t) && x < |s| && !IsAnnotation(s[x]) && !HasAnnotation(t, x)
    ensures TextContent(t, x) == TextContent(s, x)
  {
    var d := Descendants(t, x);
    forall k | 0 <= k < |d| ensures d[k] < |s| && !IsAnnotation(t[d[k]]) {
      SelectMember(t, d, AnnotationQuery, d[k]);
      AnnotationQueryMatches(t[d[k]]);
    }
    StripAll(d, |s|);
    StripDescendants(s, t, x);
    var sub := Subtree(t, x);
    assert sub == [x] + d;
    assert Subtree(s, x) == sub;
    forall k | 0 <= k < |sub| ensures t[sub[k]].text == s[sub[k]].text {
      var y := sub[k];
      assert NodeGrows(s[y], t[y], |s|);
      if k > 0 { assert y == d[k - 1]; }
    }
    TextsFrame(s, t, sub);
  }
}
