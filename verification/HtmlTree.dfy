/** Building the tree from start tags, end tags and text, and the tree that well-nested markup is read back as. */
module HtmlTree {
  import opened Wrappers
  import opened HtmlSelection

  datatype State = State(nodes: seq<Node>, current: nat)

  type Attrs = map<string, string>

  // ----- what each event does -----

  const INITIAL := State([Node(ROOT_TAG, map[], None, [], [])], 0)

  /** A start tag adds a child to the current node, and is the current node from then on unless it is void. */
  function Open(s: State, tag: string, attrs: Attrs): State
    requires s.current < |s.nodes|
  {
    var n := |s.nodes|;
    var parent := s.nodes[s.current];
    State(
      s.nodes[s.current := parent.(children := parent.children + [n])] + [Node(tag, attrs, Some(s.current), [], [])],
      if IsVoid(tag) then s.current else n)
  }

  /** The nearest node with the tag at or above a node; the root does not count. */
  function Nearest(nodes: seq<Node>, node: nat, tag: string): Option<nat>
    requires Linked(nodes) && node < |nodes|
    decreases node
  {
    if node == 0 then None
    else
      assert Attached(nodes, node);
      if nodes[node].tag == tag then Some(node) else Nearest(nodes, nodes[node].parent.value, tag)
  }

  /** An end tag closes the nearest open node with that tag, and does nothing if there is none. */
  function Close(s: State, tag: string): State
    requires Linked(s.nodes) && s.current < |s.nodes|
  {
    match Nearest(s.nodes, s.current, tag)
    case None => s
    case Some(node) => NearestIsAbove(s.nodes, s.current, tag); s.(current := s.nodes[node].parent.value)
  }

  function SelfClose(s: State, tag: string, attrs: Attrs): State
    requires s.current < |s.nodes|
  {
    var started := Open(s, tag, attrs);
    var node := started.nodes[started.current];
    if node.tag == tag then started.(current := if node.parent.Some? then node.parent.value else 0) else started
  }

  /** Text is kept with the current node; blank text is dropped. */
  function Text(s: State, value: string): State
    requires s.current < |s.nodes|
  {
    var node := s.nodes[s.current];
    if value == "" then s else s.(nodes := s.nodes[s.current := node.(texts := node.texts + [value])])
  }

  lemma {:induction false} NearestIsAbove(nodes: seq<Node>, node: nat, tag: string)
    requires Linked(nodes) && node < |nodes|
    ensures var found := Nearest(nodes, node, tag);
            && (found.Some? ==>
                  && 0 < found.value <= node && nodes[found.value].tag == tag
                  && nodes[found.value].parent.Some? && nodes[found.value].parent.value < |nodes|
                  && (found.value == node || Above(nodes, found.value, node)))
            && (forall other: nat ::
                  0 < other < |nodes| && (other == node || Above(nodes, other, node)) && nodes[other].tag == tag ==>
                  found.Some? && (other == found.value || Above(nodes, other, found.value)))
    decreases node
  {
    if node > 0 {
      assert Attached(nodes, node);
      if nodes[node].tag != tag {
        NearestIsAbove(nodes, nodes[node].parent.value, tag);
      }
    }
  }

  // ----- what every event keeps -----

  /** The tree is well formed, its root is the document, and neither the current node nor any parent is void. */
  ghost predicate WellFormed(s: State) {
    && Linked(s.nodes) && s.current < |s.nodes|
    && s.nodes[0].tag == ROOT_TAG
    && !IsVoid(s.nodes[s.current].tag)
    && (forall i :: 0 <= i < |s.nodes| && s.nodes[i].children != [] ==> !IsVoid(s.nodes[i].tag))
  }

  lemma InitialIsWellFormed()
    ensures WellFormed(INITIAL)
  {
    assert Owns(INITIAL.nodes, 0);
  }

  lemma OpenKeeps(s: State, tag: string, attrs: Attrs)
    requires WellFormed(s)
    ensures WellFormed(Open(s, tag, attrs))
  {
    var t, n, c := Open(s, tag, attrs), |s.nodes|, s.current;
    assert forall i :: 0 <= i < n && i != c ==> t.nodes[i] == s.nodes[i];
    assert t.nodes[c].children == s.nodes[c].children + [n];
    forall i: nat | 0 < i < |t.nodes|
      ensures Attached(t.nodes, i)
    {
      if i < n {
        assert Attached(s.nodes, i);
        assert i in s.nodes[s.nodes[i].parent.value].children;
      } else {
        assert n in t.nodes[c].children;
      }
    }
    forall i: nat | i < |t.nodes|
      ensures Owns(t.nodes, i)
    {
      if i < n {
        OpenOwns(s, tag, attrs, i);
      }
    }
  }

  lemma OpenOwns(s: State, tag: string, attrs: Attrs, i: nat)
    requires WellFormed(s) && i < |s.nodes|
    ensures Owns(Open(s, tag, attrs).nodes, i)
  {
    var t, n, c := Open(s, tag, attrs), |s.nodes|, s.current;
    assert Owns(s.nodes, i);
    hide Linked, IsVoid;
    assert t.nodes[i].children == if i == c then s.nodes[i].children + [n] else s.nodes[i].children;
    forall child <- t.nodes[i].children
      ensures i < child < |t.nodes| && t.nodes[child].parent == Some(i)
    {
      assert child in s.nodes[i].children || child == n;
    }
    forall j, k | 0 <= j < k < |t.nodes[i].children|
      ensures t.nodes[i].children[j] < t.nodes[i].children[k]
    {
      assert s.nodes[i].children[j] in s.nodes[i].children;
    }
  }

  lemma CloseKeeps(s: State, tag: string)
    requires WellFormed(s)
    ensures WellFormed(Close(s, tag))
  {
    NearestIsAbove(s.nodes, s.current, tag);
    var found := Nearest(s.nodes, s.current, tag);
    if found.Some? {
      assert Attached(s.nodes, found.value);
    }
  }

  lemma TextKeeps(s: State, value: string)
    requires WellFormed(s)
    ensures WellFormed(Text(s, value))
  {
    var t := Text(s, value);
    forall i: nat | 0 < i < |t.nodes|
      ensures Attached(t.nodes, i)
    {
      assert Attached(s.nodes, i);
    }
    forall i: nat | i < |t.nodes|
      ensures Owns(t.nodes, i)
    {
      assert Owns(s.nodes, i);
    }
  }

  /** A self-closing tag adds a node and leaves the current one current, whether its tag is void or not. */
  lemma SelfCloseKeeps(s: State, tag: string, attrs: Attrs)
    requires WellFormed(s)
    ensures WellFormed(SelfClose(s, tag, attrs))
    ensures SelfClose(s, tag, attrs) == Open(s, tag, attrs).(current := s.current)
  {
    OpenKeeps(s, tag, attrs);
    assert Open(s, tag, attrs).nodes[s.current].tag == s.nodes[s.current].tag;
  }

  class TreeBuilder {
    var state: State

    ghost predicate Valid()
      reads this
    {
      WellFormed(state)
    }

    constructor ()
      ensures Valid() && state == INITIAL
    {
      InitialIsWellFormed();
      state := INITIAL;
    }

    method StartTag(tag: string, attrs: Attrs)
      requires Valid()
      modifies this
      ensures Valid() && state == Open(old(state), tag, attrs)
    {
      OpenKeeps(state, tag, attrs);
      var nodes, n, parent := state.nodes, |state.nodes|, state.current;
      nodes := nodes[parent := nodes[parent].(children := nodes[parent].children + [n])];
      nodes := nodes + [Node(tag, attrs, Some(parent), [], [])];
      state := state.(nodes := nodes);
      if !IsVoid(tag) {
        state := state.(current := n);
      }
    }

    method StartEndTag(tag: string, attrs: Attrs)
      requires Valid()
      modifies this
      ensures Valid() && state == Open(old(state), tag, attrs).(current := old(state).current)
    {
      SelfCloseKeeps(state, tag, attrs);
      StartTag(tag, attrs);
      var node := state.nodes[state.current];
      if node.tag == tag {
        state := state.(current := if node.parent.Some? then node.parent.value else 0);
      }
    }

    /** Climbs from the current node to the nearest one with the tag. */
    method EndTag(tag: string)
      requires Valid()
      modifies this
      ensures Valid() && state == Close(old(state), tag)
    {
      CloseKeeps(state, tag);
      hide Linked;
      var nodes, node: nat := state.nodes, state.current;
      ParentOf(nodes, node);
      ghost var found := Nearest(nodes, node, tag);
      while nodes[node].parent.Some? && nodes[node].tag != tag
        invariant node < |nodes| && Linked(nodes) && (nodes[node].parent.Some? <==> node > 0)
        invariant Nearest(nodes, node, tag) == found
        invariant state == old(state)
        decreases node
      {
        ParentOf(nodes, node);
        node := nodes[node].parent.value;
        ParentOf(nodes, node);
      }
      if nodes[node].parent.Some? {
        state := state.(current := nodes[node].parent.value);
      }
    }

    method Data(value: string)
      requires Valid()
      modifies this
      ensures Valid() && state == Text(old(state), value)
    {
      TextKeeps(state, value);
      if value != "" {
        var node := state.nodes[state.current];
        state := state.(nodes := state.nodes[state.current := node.(texts := node.texts + [value])]);
      }
    }
  }

  lemma ParentOf(nodes: seq<Node>, node: nat)
    requires Linked(nodes) && node < |nodes|
    ensures nodes[node].parent.Some? <==> node > 0
    ensures nodes[node].parent.Some? ==> nodes[node].parent.value < node
  {
    if node > 0 {
      assert Attached(nodes, node);
    }
  }

  // ----- reading well-nested markup back -----

  datatype Markup =
    | Element(tag: string, attrs: Attrs, inner: seq<Markup>)
    | Leaf(tag: string, attrs: Attrs)
    | Words(value: string)

  /** Elements are not void and texts are not blank; a void tag stands for a leaf. */
  predicate Proper(m: Markup) {
    match m
    case Element(tag, _, inner) => !IsVoid(tag) && forall i :: 0 <= i < |inner| ==> Proper(inner[i])
    case Leaf(_, _) => true
    case Words(value) => value != ""
  }

  predicate AllProper(ms: seq<Markup>) {
    forall i :: 0 <= i < |ms| ==> Proper(ms[i])
  }

  function Size(m: Markup): nat {
    match m
    case Element(_, _, inner) => 1 + SizeAll(inner)
    case Leaf(_, _) => 1
    case Words(_) => 0
  }

  function SizeAll(ms: seq<Markup>): nat {
    if ms == [] then 0 else Size(ms[0]) + SizeAll(ms[1..])
  }

  /** The numbers that consecutive pieces of markup get when the first free number is `start`. */
  function Roots(start: nat, ms: seq<Markup>): seq<nat>
    decreases |ms|
  {
    if ms == [] then []
    else (if ms[0].Words? then [] else [start]) + Roots(start + Size(ms[0]), ms[1..])
  }

  function TextsOf(ms: seq<Markup>): seq<string> {
    if ms == [] then [] else (if ms[0].Words? then [ms[0].value] else []) + TextsOf(ms[1..])
  }

  /** The markup is in the tree from this number on, below this parent. */
  predicate Holds(nodes: seq<Node>, start: nat, parent: nat, m: Markup)
    decreases m
  {
    match m
    case Words(_) => true
    case Leaf(tag, attrs) => start < |nodes| && nodes[start] == Node(tag, attrs, Some(parent), [], [])
    case Element(tag, attrs, inner) =>
      && start < |nodes|
      && nodes[start] == Node(tag, attrs, Some(parent), Roots(start + 1, inner), TextsOf(inner))
      && HoldsAll(nodes, start + 1, start, inner)
  }

  predicate HoldsAll(nodes: seq<Node>, start: nat, parent: nat, ms: seq<Markup>)
    decreases ms
  {
    ms == [] || (Holds(nodes, start, parent, ms[0]) && HoldsAll(nodes, start + Size(ms[0]), parent, ms[1..]))
  }

  ghost function Feed(s: State, m: Markup): State
    requires WellFormed(s)
    ensures WellFormed(Feed(s, m))
    decreases m
  {
    match m
    case Words(value) => TextKeeps(s, value); Text(s, value)
    case Leaf(tag, attrs) => SelfCloseKeeps(s, tag, attrs); SelfClose(s, tag, attrs)
    case Element(tag, attrs, inner) =>
      OpenKeeps(s, tag, attrs);
      var filled := FeedAll(Open(s, tag, attrs), inner);
      CloseKeeps(filled, tag);
      Close(filled, tag)
  }

  ghost function FeedAll(s: State, ms: seq<Markup>): State
    requires WellFormed(s)
    ensures WellFormed(FeedAll(s, ms))
    decreases ms
  {
    if ms == [] then s else FeedAll(Feed(s, ms[0]), ms[1..])
  }

  /** Nodes from a number up to another are the same in both lists. */
  ghost predicate SameBetween(a: seq<Node>, b: seq<Node>, start: nat, end: nat) {
    end <= |a| && end <= |b| && forall i :: start <= i < end ==> a[i] == b[i]
  }

  lemma {:induction false} HoldsStays(a: seq<Node>, b: seq<Node>, start: nat, parent: nat, m: Markup)
    requires Holds(a, start, parent, m) && SameBetween(a, b, start, start + Size(m))
    ensures Holds(b, start, parent, m)
    decreases m
  {
    if m.Element? {
      HoldsAllStays(a, b, start + 1, start, m.inner);
    }
  }

  lemma {:induction false} HoldsAllStays(a: seq<Node>, b: seq<Node>, start: nat, parent: nat, ms: seq<Markup>)
    requires HoldsAll(a, start, parent, ms) && SameBetween(a, b, start, start + SizeAll(ms))
    ensures HoldsAll(b, start, parent, ms)
    decreases ms
  {
    if ms != [] {
      HoldsStays(a, b, start, parent, ms[0]);
      HoldsAllStays(a, b, start + Size(ms[0]), parent, ms[1..]);
    }
  }

  ghost predicate SameElsewhere(a: seq<Node>, b: seq<Node>, node: nat) {
    |a| <= |b| && forall i :: 0 <= i < |a| && i != node ==> b[i] == a[i]
  }

  ghost predicate GrownAt(a: seq<Node>, b: seq<Node>, node: nat, children: seq<nat>, texts: seq<string>) {
    && node < |a| && node < |b|
    && b[node] == a[node].(children := a[node].children + children, texts := a[node].texts + texts)
  }

  /** From one state to the other exactly this markup was added at the current node. */
  ghost predicate Added(s: State, t: State, ms: seq<Markup>) {
    && t.current == s.current
    && |t.nodes| == |s.nodes| + SizeAll(ms)
    && SameElsewhere(s.nodes, t.nodes, s.current)
    && GrownAt(s.nodes, t.nodes, s.current, Roots(|s.nodes|, ms), TextsOf(ms))
    && HoldsAll(t.nodes, |s.nodes|, s.current, ms)
  }

  lemma GrownTwice(
    a: seq<Node>, b: seq<Node>, c: seq<Node>, node: nat, children: seq<nat>, texts: seq<string>, more: seq<nat>,
    words: seq<string>)
    requires GrownAt(a, b, node, children, texts) && GrownAt(b, c, node, more, words)
    ensures GrownAt(a, c, node, children + more, texts + words)
  {
    assert (a[node].children + children) + more == a[node].children + (children + more);
    assert (a[node].texts + texts) + words == a[node].texts + (texts + words);
  }

  lemma AddedNothing(s: State)
    requires s.current < |s.nodes|
    ensures Added(s, s, [])
  {
    assert s.nodes[s.current].children + [] == s.nodes[s.current].children;
    assert s.nodes[s.current].texts + [] == s.nodes[s.current].texts;
  }

  lemma OnePiece(nodes: seq<Node>, parent: nat, m: Markup, n: nat)
    ensures SizeAll([m]) == Size(m)
    ensures Roots(n, [m]) == if m.Words? then [] else [n]
    ensures TextsOf([m]) == if m.Words? then [m.value] else []
    ensures HoldsAll(nodes, n, parent, [m]) == Holds(nodes, n, parent, m)
  {
    assert [m][0] == m && [m][1..] == [];
    assert SizeAll([]) == 0 && Roots(n + Size(m), []) == [] && TextsOf([]) == [];
    assert HoldsAll(nodes, n + Size(m), parent, []);
  }

  lemma PieceAndRest(nodes: seq<Node>, parent: nat, m: Markup, rest: seq<Markup>, n: nat)
    ensures SizeAll([m] + rest) == SizeAll([m]) + SizeAll(rest)
    ensures Roots(n, [m] + rest) == Roots(n, [m]) + Roots(n + SizeAll([m]), rest)
    ensures TextsOf([m] + rest) == TextsOf([m]) + TextsOf(rest)
    ensures HoldsAll(nodes, n, parent, [m] + rest)
            == (HoldsAll(nodes, n, parent, [m]) && HoldsAll(nodes, n + SizeAll([m]), parent, rest))
  {
    OnePiece(nodes, parent, m, n);
    var ms := [m] + rest;
    assert ms[0] == m && ms[1..] == rest;
  }

  lemma SameTwice(a: seq<Node>, b: seq<Node>, c: seq<Node>, node: nat)
    requires SameElsewhere(a, b, node) && SameElsewhere(b, c, node)
    ensures SameElsewhere(a, c, node)
  {
    forall i | 0 <= i < |a| && i != node
      ensures c[i] == a[i]
    {
      assert b[i] == a[i];
    }
  }

  lemma PieceStays(a: seq<Node>, b: seq<Node>, start: nat, parent: nat, m: Markup)
    requires HoldsAll(a, start, parent, [m]) && parent < start && |a| == start + SizeAll([m])
    requires SameElsewhere(a, b, parent)
    ensures HoldsAll(b, start, parent, [m])
  {
    assert SameBetween(a, b, start, start + SizeAll([m]));
    HoldsAllStays(a, b, start, parent, [m]);
  }

  /** One piece after another. */
  lemma AddedThen(s: State, t: State, u: State, m: Markup, rest: seq<Markup>)
    requires Added(s, t, [m]) && Added(t, u, rest) && s.current < |s.nodes|
    ensures Added(s, u, [m] + rest)
  {
    var n, c := |s.nodes|, s.current;
    hide SizeAll, Roots, TextsOf, HoldsAll, SameElsewhere, GrownAt;
    PieceAndRest(u.nodes, c, m, rest, n);
    PieceStays(t.nodes, u.nodes, n, c, m);
    SameTwice(s.nodes, t.nodes, u.nodes, c);
    GrownTwice(s.nodes, t.nodes, u.nodes, c, Roots(n, [m]), TextsOf([m]), Roots(n + SizeAll([m]), rest), TextsOf(rest));
  }

  lemma FeedWords(s: State, value: string)
    requires s.current < |s.nodes| && value != ""
    ensures Added(s, Text(s, value), [Words(value)])
  {
    var ms := [Words(value)];
    OnePiece(Text(s, value).nodes, s.current, ms[0], |s.nodes|);
    var node := s.nodes[s.current];
    assert node.children + [] == node.children;
    assert HoldsAll(Text(s, value).nodes, |s.nodes|, s.current, ms);
  }

  lemma FeedLeaf(s: State, tag: string, attrs: Attrs)
    requires s.current < |s.nodes|
    ensures Added(s, Open(s, tag, attrs).(current := s.current), [Leaf(tag, attrs)])
  {
    var ms, t := [Leaf(tag, attrs)], Open(s, tag, attrs);
    OnePiece(t.nodes, s.current, ms[0], |s.nodes|);
    assert s.nodes[s.current].texts + [] == s.nodes[s.current].texts;
    assert Holds(t.nodes, |s.nodes|, s.current, ms[0]);
    assert HoldsAll(t.nodes, |s.nodes|, s.current, ms);
  }

  /** After its contents the element itself is the nearest open node with its tag. */
  lemma CloseElement(filled: State, n: nat, c: nat, tag: string)
    requires Linked(filled.nodes) && filled.current == n < |filled.nodes|
    requires filled.nodes[n].tag == tag && filled.nodes[n].parent == Some(c)
    ensures Close(filled, tag) == filled.(current := c)
  {
  }

  lemma FilledElement(s: State, tag: string, attrs: Attrs, inner: seq<Markup>, filled: State)
    requires s.current < |s.nodes| && !IsVoid(tag)
    requires Added(Open(s, tag, attrs), filled, inner)
    ensures filled.current == |s.nodes| < |filled.nodes|
    ensures filled.nodes[|s.nodes|] == Node(tag, attrs, Some(s.current), Roots(|s.nodes| + 1, inner), TextsOf(inner))
    ensures Added(s, filled.(current := s.current), [Element(tag, attrs, inner)])
  {
    hide IsVoid;
    var n, c, m, begun := |s.nodes|, s.current, Element(tag, attrs, inner), Open(s, tag, attrs);
    assert [] + Roots(n + 1, inner) == Roots(n + 1, inner) && [] + TextsOf(inner) == TextsOf(inner);
    assert begun.nodes[n] == Node(tag, attrs, Some(c), [], []);
    assert begun.nodes[c] == s.nodes[c].(children := s.nodes[c].children + [n]);
    assert s.nodes[c].texts + [] == s.nodes[c].texts;
    assert Holds(filled.nodes, n, c, m);
    OnePiece(filled.nodes, c, m, n);
    hide Roots, TextsOf, SizeAll, Size;
    forall i | 0 <= i < n && i != c
      ensures filled.nodes[i] == s.nodes[i]
    {
      assert begun.nodes[i] == s.nodes[i];
    }
  }

  /** Feeding markup adds exactly that markup below the current node, in document order, and leaves the current
      node current. */
  lemma {:induction false} FeedAdds(s: State, m: Markup)
    requires WellFormed(s) && Proper(m)
    ensures Added(s, Feed(s, m), [m])
    decreases m
  {
    hide Added, Open, Close, Text, SelfClose, Roots, TextsOf, Linked;
    if m.Element? {
      OpenKeeps(s, m.tag, m.attrs);
      assert AllProper(m.inner);
      var filled := FeedAll(Open(s, m.tag, m.attrs), m.inner);
      FeedAllAdds(Open(s, m.tag, m.attrs), m.inner);
      FilledElement(s, m.tag, m.attrs, m.inner, filled);
      CloseElement(filled, |s.nodes|, s.current, m.tag);
    } else if m.Leaf? {
      SelfCloseKeeps(s, m.tag, m.attrs);
      FeedLeaf(s, m.tag, m.attrs);
    } else {
      FeedWords(s, m.value);
    }
  }

  lemma {:induction false} FeedAllAdds(s: State, ms: seq<Markup>)
    requires WellFormed(s) && AllProper(ms)
    ensures Added(s, FeedAll(s, ms), ms)
    decreases ms
  {
    if ms == [] {
      AddedNothing(s);
    } else {
      FeedAdds(s, ms[0]);
      FeedAllAdds(Feed(s, ms[0]), ms[1..]);
      assert [ms[0]] + ms[1..] == ms;
      AddedThen(s, Feed(s, ms[0]), FeedAll(s, ms), ms[0], ms[1..]);
    }
  }

  /** A document of well-nested markup is read back as that markup below the root, and as nothing else. */
  lemma MarkupIsReadBack(ms: seq<Markup>)
    requires AllProper(ms)
    ensures WellFormed(INITIAL)
    ensures var t := FeedAll(INITIAL, ms);
            && |t.nodes| == 1 + SizeAll(ms) && t.current == 0
            && t.nodes[0] == Node(ROOT_TAG, map[], None, Roots(1, ms), TextsOf(ms))
            && HoldsAll(t.nodes, 1, 0, ms)
  {
    InitialIsWellFormed();
    FeedAllAdds(INITIAL, ms);
    assert [] + Roots(1, ms) == Roots(1, ms) && [] + TextsOf(ms) == TextsOf(ms);
  }
}
