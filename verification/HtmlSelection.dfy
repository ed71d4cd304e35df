/** A tree built from markup as it is read, and the nodes that a list of descendant selectors picks from it. Nodes
    are numbered in the order in which they are made; tags come in lower case, as the parser hands them out. */
module HtmlSelection {
  import opened Collections
  import opened Wrappers

  datatype Node = Node(tag: string, attrs: map<string, string>, parent: Option<nat>, children: seq<nat>, texts: seq<string>)

  const ROOT_TAG := "document"

  predicate IsVoid(tag: string) {
    tag in {"area", "base", "br", "col", "embed", "hr", "img", "input", "link", "meta", "source", "track", "wbr"}
  }

  /** Thirteen elements have no content; no other element, the root among them, is void. */
  lemma VoidElements()
    ensures forall tag :: IsVoid(tag) <==>
              || tag == "area" || tag == "base" || tag == "br" || tag == "col" || tag == "embed" || tag == "hr"
              || tag == "img" || tag == "input" || tag == "link" || tag == "meta" || tag == "source"
              || tag == "track" || tag == "wbr"
    ensures !IsVoid(ROOT_TAG)
  {
  }

  // ----- well-formed trees -----

  /** Parents come before their children, and parents and children name each other. */
  ghost predicate Linked(nodes: seq<Node>) {
    && nodes != [] && nodes[0].parent.None?
    && (forall i :: 0 < i < |nodes| ==> Attached(nodes, i))
    && (forall i :: 0 <= i < |nodes| ==> Owns(nodes, i))
  }

  ghost predicate Attached(nodes: seq<Node>, i: nat)
    requires i < |nodes|
  {
    nodes[i].parent.Some? && nodes[i].parent.value < i && i in nodes[nodes[i].parent.value].children
  }

  ghost predicate Owns(nodes: seq<Node>, i: nat)
    requires i < |nodes|
  {
    && (forall child <- nodes[i].children :: i < child < |nodes| && nodes[child].parent == Some(i))
    && (forall j, k :: 0 <= j < k < |nodes[i].children| ==> nodes[i].children[j] < nodes[i].children[k])
  }

  /** One node is above another. */
  ghost predicate Above(nodes: seq<Node>, ancestor: nat, node: nat)
    requires Linked(nodes)
    decreases node
  {
    0 < node < |nodes| && assert Attached(nodes, node);
      (nodes[node].parent == Some(ancestor) || Above(nodes, ancestor, nodes[node].parent.value))
  }

  lemma {:induction false} AboveIsEarlier(nodes: seq<Node>, ancestor: nat, node: nat)
    requires Linked(nodes) && Above(nodes, ancestor, node)
    ensures ancestor < node < |nodes|
    decreases node
  {
    assert Attached(nodes, node);
    if nodes[node].parent != Some(ancestor) {
      AboveIsEarlier(nodes, ancestor, nodes[node].parent.value);
    }
  }

  /** Above is transitive, and what is above a node is its parent or above that. */
  lemma {:induction false} AboveChild(nodes: seq<Node>, ancestor: nat, child: nat, node: nat)
    requires Linked(nodes) && 0 < child < |nodes| && nodes[child].parent == Some(ancestor)
    requires node == child || Above(nodes, child, node)
    ensures Above(nodes, ancestor, node)
    decreases node
  {
    if node != child {
      assert Attached(nodes, node);
      if nodes[node].parent != Some(child) {
        AboveChild(nodes, ancestor, child, nodes[node].parent.value);
      } else {
        AboveChild(nodes, ancestor, child, child);
      }
    }
  }

  // ----- descendants -----

  /** The nodes below one, in document order. */
  function Descendants(nodes: seq<Node>, node: nat): seq<nat>
    requires Linked(nodes) && node < |nodes|
    decreases |nodes| - node, |nodes[node].children| + 1
  {
    assert Owns(nodes, node);
    DescendantsOf(nodes, node, nodes[node].children)
  }

  function DescendantsOf(nodes: seq<Node>, node: nat, children: seq<nat>): seq<nat>
    requires Linked(nodes) && node < |nodes|
    requires forall child <- children :: node < child < |nodes|
    decreases |nodes| - node, |children|
  {
    if children == [] then []
    else
      assert children[0] in children && forall child <- children[1..] :: child in children;
      [children[0]] + Descendants(nodes, children[0]) + DescendantsOf(nodes, node, children[1..])
  }

  /** A node is listed exactly when it is one of the children or below one of them. */
  lemma {:induction false} DescendantsOfMeans(nodes: seq<Node>, node: nat, children: seq<nat>, other: nat)
    requires Linked(nodes) && node < |nodes|
    requires forall child <- children :: node < child < |nodes|
    ensures other in DescendantsOf(nodes, node, children) <==>
              exists child <- children :: other == child || Above(nodes, child, other)
    decreases |nodes| - node, |children|
  {
    if children != [] {
      var first, rest := children[0], children[1..];
      assert children == [first] + rest;
      assert first in children && forall child <- rest :: child in children;
      DescendantsMean(nodes, first, other);
      DescendantsOfMeans(nodes, node, rest, other);
    }
  }

  /** The descendants of a node are exactly the nodes it is above. */
  lemma {:induction false} DescendantsMean(nodes: seq<Node>, node: nat, other: nat)
    requires Linked(nodes) && node < |nodes|
    ensures other in Descendants(nodes, node) <==> Above(nodes, node, other)
    decreases |nodes| - node, |nodes[node].children| + 1
  {
    assert Owns(nodes, node);
    var children := nodes[node].children;
    DescendantsOfMeans(nodes, node, children, other);
    if child :| child in children && (other == child || Above(nodes, child, other)) {
      AboveChild(nodes, node, child, other);
    }
    if Above(nodes, node, other) {
      ChildOnTheWay(nodes, node, other);
    }
  }

  lemma {:induction false} ChildOnTheWay(nodes: seq<Node>, node: nat, other: nat)
    requires Linked(nodes) && node < |nodes| && Above(nodes, node, other)
    ensures exists child <- nodes[node].children :: other == child || Above(nodes, child, other)
    decreases other
  {
    assert Attached(nodes, other);
    if nodes[other].parent != Some(node) {
      ChildOnTheWay(nodes, node, nodes[other].parent.value);
      var child :| child in nodes[node].children
        && (nodes[other].parent.value == child || Above(nodes, child, nodes[other].parent.value));
      assert Above(nodes, child, other);
    }
  }

  // ----- selecting -----

  /** The reference meaning of a descendant selector: the node matches the last part, and some node above it,
      itself below the scope, the parts before; no parts at all stand for the scope. */
  ghost predicate Selects(
    nodes: seq<Node>, matches: (Node, string) -> bool, scope: nat, parts: seq<string>, node: nat)
    requires Linked(nodes)
    decreases |parts|
  {
    if parts == [] then node == scope
    else
      && node < |nodes| && matches(nodes[node], parts[|parts| - 1])
      && exists ancestor: nat :: Above(nodes, ancestor, node) && Selects(nodes, matches, scope, parts[..|parts| - 1], ancestor)
  }

  /** The node matches the part and is below one of the nodes. */
  ghost predicate MatchesBelow(
    nodes: seq<Node>, matches: (Node, string) -> bool, from: seq<nat>, part: string, node: nat)
    requires Linked(nodes)
  {
    && node < |nodes| && matches(nodes[node], part)
    && exists ancestor: nat :: ancestor in from && Above(nodes, ancestor, node)
  }

  /** The matching descendants of some nodes. */
  method Narrow(nodes: seq<Node>, matches: (Node, string) -> bool, from: seq<nat>, part: string) returns (found: seq<nat>)
    requires Linked(nodes) && forall node <- from :: node < |nodes|
    ensures forall node: nat :: node in found <==> MatchesBelow(nodes, matches, from, part, node)
  {
    hide Linked, Descendants, Above;
    found := [];
    for i := 0 to |from|
      invariant forall node: nat :: node in found <==> MatchesBelow(nodes, matches, from[..i], part, node)
    {
      assert from[..i + 1] == from[..i] + [from[i]];
      assert from[i] in from;
      var below := Descendants(nodes, from[i]);
      DescendantsOfEach(nodes, from[i]);
      for j := 0 to |below|
        invariant forall node: nat :: node in found <==>
                    || MatchesBelow(nodes, matches, from[..i], part, node)
                    || (node < |nodes| && matches(nodes[node], part) && node in below[..j])
      {
        assert below[..j + 1] == below[..j] + [below[j]];
        assert below[j] in below;
        if matches(nodes[below[j]], part) {
          found := found + [below[j]];
        }
      }
      assert below[..|below|] == below;
    }
    assert from[..|from|] == from;
  }

  lemma DescendantsOfEach(nodes: seq<Node>, node: nat)
    requires Linked(nodes) && node < |nodes|
    ensures forall other: nat :: other in Descendants(nodes, node) <==> Above(nodes, node, other)
    ensures forall other <- Descendants(nodes, node) :: other < |nodes|
  {
    forall other: nat
      ensures other in Descendants(nodes, node) <==> Above(nodes, node, other)
    {
      DescendantsMean(nodes, node, other);
    }
    forall other | other in Descendants(nodes, node)
      ensures other < |nodes|
    {
      AboveIsEarlier(nodes, node, other);
    }
  }

  /** Follows the parts from the scope down. */
  method Follow(nodes: seq<Node>, matches: (Node, string) -> bool, scope: nat, parts: seq<string>) returns (found: seq<nat>)
    requires Linked(nodes) && scope < |nodes|
    ensures forall node: nat :: node in found <==> Selects(nodes, matches, scope, parts, node)
    ensures forall node <- found :: node < |nodes|
  {
    hide Linked, Above;
    found := [scope];
    for k := 0 to |parts|
      invariant forall node: nat :: node in found <==> Selects(nodes, matches, scope, parts[..k], node)
      invariant forall node <- found :: node < |nodes|
    {
      ghost var before := found;
      found := Narrow(nodes, matches, found, parts[k]);
      assert parts[..k + 1][..k] == parts[..k];
      forall node: nat
        ensures node in found <==> Selects(nodes, matches, scope, parts[..k + 1], node)
      {
        assert MatchesBelow(nodes, matches, before, parts[k], node) <==>
               && node < |nodes| && matches(nodes[node], parts[k])
               && exists ancestor: nat :: Above(nodes, ancestor, node) && Selects(nodes, matches, scope, parts[..k], ancestor);
      }
    }
    assert parts[..|parts|] == parts;
  }

  /** Some selector with at least one part picks the node. */
  ghost predicate PickedBy(
    nodes: seq<Node>, matches: (Node, string) -> bool, scope: nat, selectors: seq<seq<string>>, node: nat)
    requires Linked(nodes)
  {
    exists parts <- selectors :: parts != [] && Selects(nodes, matches, scope, parts, node)
  }

  lemma OneMoreSelector(
    nodes: seq<Node>, matches: (Node, string) -> bool, scope: nat, selectors: seq<seq<string>>, i: nat)
    requires Linked(nodes) && i < |selectors|
    ensures forall node: nat :: PickedBy(nodes, matches, scope, selectors[..i + 1], node) <==>
              || PickedBy(nodes, matches, scope, selectors[..i], node)
              || (selectors[i] != [] && Selects(nodes, matches, scope, selectors[i], node))
  {
    hide Linked, Selects;
    assert selectors[..i + 1] == selectors[..i] + [selectors[i]];
  }

  /** The nodes picked by any of the selectors, each once; a selector without parts picks nothing. */
  method SelectAll(nodes: seq<Node>, matches: (Node, string) -> bool, scope: nat, selectors: seq<seq<string>>)
    returns (picked: seq<nat>)
    requires Linked(nodes) && scope < |nodes|
    ensures Distinct(picked)
    ensures forall node: nat :: node in picked <==> PickedBy(nodes, matches, scope, selectors, node)
  {
    picked := [];
    for i := 0 to |selectors|
      invariant Distinct(picked)
      invariant forall node: nat :: node in picked <==> PickedBy(nodes, matches, scope, selectors[..i], node)
    {
      hide Linked, Selects;
      OneMoreSelector(nodes, matches, scope, selectors, i);
      hide PickedBy;
      if selectors[i] == [] {
        continue;
      }
      var found := Follow(nodes, matches, scope, selectors[i]);
      for j := 0 to |found|
        invariant Distinct(picked)
        invariant forall node: nat :: node in picked <==>
                    PickedBy(nodes, matches, scope, selectors[..i], node) || node in found[..j]
      {
        assert found[..j + 1] == found[..j] + [found[j]];
        if found[j] !in picked {
          picked := picked + [found[j]];
        }
      }
      assert found[..|found|] == found;
    }
    assert selectors[..|selectors|] == selectors;
  }
}
