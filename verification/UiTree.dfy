/** Numbering the elements of a UI hierarchy: the flat scan, the recursive counter, and proof that
    both give a node the same number and that `parent` is the nearest meaningful ancestor. */
module UiTree {
  import opened Common

  /** The attributes of a `node` element that the source reads or writes. */
  datatype Name =
    | Text | ResourceId | Class | ContentDesc | BoundsAttr | NodeIdAttr | ActionsAttr
    | Checkable | Checked | Clickable | Enabled | Focused | Scrollable | Password
    | LongClickable | Selected | Editable | Package | HintText | ErrorText

  type Attrs = map<Name, string>

  /** A `node` element of the hierarchy document. */
  datatype Node = Node(attrs: Attrs, children: seq<Node>)

  function Attr(attrs: Attrs, name: Name, default: string): string {
    if name in attrs then attrs[name] else default
  }

  predicate Meaningful(attrs: Attrs) {
    || Attr(attrs, Text, "") != ""
    || Attr(attrs, ContentDesc, "") != ""
    || Attr(attrs, Clickable, "false") == "true"
  }

  /** A node of the built tree: its number if it is meaningful, and the number of its parent. */
  datatype Item = Item(i: Option<nat>, parent: Option<nat>, children: seq<Item>)

  // ---------------------------------------------------------------- document order

  /** All nodes in document order, as an XML iterator yields them. */
  function Preorder(nodes: seq<Node>): seq<Node> {
    if nodes == [] then [] else [nodes[0]] + Preorder(nodes[0].children) + Preorder(nodes[1..])
  }

  function ItemsInOrder(items: seq<Item>): seq<Item> {
    if items == [] then [] else [items[0]] + ItemsInOrder(items[0].children) + ItemsInOrder(items[1..])
  }

  /** The path of child positions to each node, in document order.  A node is a strict ancestor of
      another exactly when its path is a proper prefix of the other's. */
  function Paths(nodes: seq<Node>, prefix: seq<nat>, from: nat): seq<seq<nat>>
    decreases nodes
  {
    if nodes == [] then []
    else
      var path := prefix + [from];
      [path] + Paths(nodes[0].children, path, 0) + Paths(nodes[1..], prefix, from + 1)
  }

  // ---------------------------------------------------------------- the two numberings

  function Own(node: Node, i: nat): Option<nat> {
    if Meaningful(node.attrs) then Some(i) else None
  }

  function Weight(node: Node): nat {
    if Meaningful(node.attrs) then 1 else 0
  }

  /** The flat scan: `i` counts the meaningful nodes seen so far. */
  function ScanFrom(flat: seq<Node>, i: nat): seq<Option<nat>> {
    if flat == [] then [] else [Own(flat[0], i)] + ScanFrom(flat[1..], i + Weight(flat[0]))
  }

  function CountMeaningful(flat: seq<Node>): nat {
    if flat == [] then 0 else Weight(flat[0]) + CountMeaningful(flat[1..])
  }

  function Inner(i: Option<nat>, parent: Option<nat>): Option<nat> {
    if i.Some? then i else parent
  }

  /** The recursive counter: the item, and the counter after it. */
  function Visit(node: Node, parent: Option<nat>, counter: nat): (Item, nat)
    decreases node, 1
  {
    var i := if Meaningful(node.attrs) then Some(counter) else None;
    var (children, after) := VisitAll(node.children, Inner(i, parent), if i.Some? then counter + 1 else counter);
    (Item(i, parent, children), after)
  }

  function VisitAll(nodes: seq<Node>, parent: Option<nat>, counter: nat): (r: (seq<Item>, nat))
    ensures |r.0| == |nodes|
    decreases nodes, 0
  {
    if nodes == [] then ([], counter)
    else
      var (first, middle) := Visit(nodes[0], parent, counter);
      var (rest, after) := VisitAll(nodes[1..], parent, middle);
      ([first] + rest, after)
  }

  function Indices(items: seq<Item>): seq<Option<nat>> {
    seq(|items|, k requires 0 <= k < |items| => items[k].i)
  }

  lemma {:induction false} CountConcat(a: seq<Node>, b: seq<Node>)
    ensures CountMeaningful(a + b) == CountMeaningful(a) + CountMeaningful(b)
  {
    if a == [] {
      assert a + b == b;
    } else {
      assert (a + b)[1..] == a[1..] + b;
      CountConcat(a[1..], b);
    }
  }

  lemma {:induction false} ScanConcat(a: seq<Node>, b: seq<Node>, i: nat)
    ensures ScanFrom(a + b, i) == ScanFrom(a, i) + ScanFrom(b, i + CountMeaningful(a))
  {
    if a == [] {
      assert a + b == b;
    } else {
      assert (a + b)[1..] == a[1..] + b;
      ScanConcat(a[1..], b, i + Weight(a[0]));
    }
  }

  lemma IndicesConcat(a: seq<Item>, b: seq<Item>)
    ensures Indices(a + b) == Indices(a) + Indices(b)
  {
  }

  lemma PreorderParts(nodes: seq<Node>)
    requires nodes != []
    ensures Preorder([nodes[0]]) == [nodes[0]] + Preorder(nodes[0].children)
    ensures Preorder(nodes) == Preorder([nodes[0]]) + Preorder(nodes[1..])
  {
    assert [nodes[0]][1..] == [];
  }

  lemma InOrderParts(items: seq<Item>)
    requires items != []
    ensures ItemsInOrder([items[0]]) == [items[0]] + ItemsInOrder(items[0].children)
    ensures ItemsInOrder(items) == ItemsInOrder([items[0]]) + ItemsInOrder(items[1..])
  {
    assert [items[0]][1..] == [];
  }

  lemma VisitParts(nodes: seq<Node>, parent: Option<nat>, counter: nat)
    requires nodes != []
    ensures var (first, middle) := Visit(nodes[0], parent, counter);
            var (rest, after) := VisitAll(nodes[1..], parent, middle);
            var items := VisitAll(nodes, parent, counter).0;
            VisitAll(nodes, parent, counter).1 == after && items[0] == first && items[1..] == rest
  {
  }

  /** The numbers of an item and of what is below it. */
  lemma NodeThenChildren(item: Item, node: Node, counter: nat)
    requires item.i == Own(node, counter)
    ensures Indices(ItemsInOrder([item])) == [item.i] + Indices(ItemsInOrder(item.children))
    ensures ScanFrom(Preorder([node]), counter)
            == [item.i] + ScanFrom(Preorder(node.children), counter + Weight(node))
    ensures CountMeaningful(Preorder([node])) == Weight(node) + CountMeaningful(Preorder(node.children))
  {
    PreorderParts([node]);
    InOrderParts([item]);
    IndicesConcat([item], ItemsInOrder(item.children));
    assert ([node] + Preorder(node.children))[1..] == Preorder(node.children);
  }

  lemma {:induction false} NodeNumberingAgrees(node: Node, parent: Option<nat>, counter: nat)
    ensures var (item, after) := Visit(node, parent, counter);
            && Indices(ItemsInOrder([item])) == ScanFrom(Preorder([node]), counter)
            && after == counter + CountMeaningful(Preorder([node]))
    decreases node, 1
  {
    var item := Visit(node, parent, counter).0;
    NumberingsAgree(node.children, Inner(item.i, parent), counter + Weight(node));
    assert item.children == VisitAll(node.children, Inner(item.i, parent), counter + Weight(node)).0;
    NodeThenChildren(item, node, counter);
  }

  /** The recursive counter and the flat scan give every node, in document order, the same number. */
  lemma {:induction false} NumberingsAgree(nodes: seq<Node>, parent: Option<nat>, counter: nat)
    ensures var (items, after) := VisitAll(nodes, parent, counter);
            && Indices(ItemsInOrder(items)) == ScanFrom(Preorder(nodes), counter)
            && after == counter + CountMeaningful(Preorder(nodes))
    decreases nodes, 0
  {
    if nodes != [] {
      var (first, middle) := Visit(nodes[0], parent, counter);
      NodeNumberingAgrees(nodes[0], parent, counter);
      NumberingsAgree(nodes[1..], parent, middle);
      VisitParts(nodes, parent, counter);
      PreorderParts(nodes);
      var items := VisitAll(nodes, parent, counter).0;
      InOrderParts(items);
      IndicesConcat(ItemsInOrder([first]), ItemsInOrder(items[1..]));
      ScanConcat(Preorder([nodes[0]]), Preorder(nodes[1..]), counter);
      CountConcat(Preorder([nodes[0]]), Preorder(nodes[1..]));
    }
  }

  // ---------------------------------------------------------------- parents are nearest ancestors

  /** Every path of a list of siblings continues `prefix` with a position from `from` on. */
  predicate Continues(path: seq<nat>, prefix: seq<nat>, from: nat) {
    prefix < path && path[|prefix|] >= from
  }

  lemma {:induction false} PathsContinue(nodes: seq<Node>, prefix: seq<nat>, from: nat)
    ensures |Paths(nodes, prefix, from)| == |Preorder(nodes)|
    ensures forall path | path in Paths(nodes, prefix, from) :: Continues(path, prefix, from)
    decreases nodes
  {
    if nodes != [] {
      var path := prefix + [from];
      PathsContinue(nodes[0].children, path, 0);
      PathsContinue(nodes[1..], prefix, from + 1);
      forall p | p in Paths(nodes[0].children, path, 0)
        ensures Continues(p, prefix, from)
      {
        assert p[|prefix|] == path[|prefix|];
      }
    }
  }

  /** `parent` is the number of the nearest numbered strict ancestor of position `k`, or `outer` if
      the list holds none. */
  ghost predicate ParentIsNearest(paths: seq<seq<nat>>, indices: seq<Option<nat>>, k: nat,
                                  parent: Option<nat>, outer: Option<nat>)
    requires |paths| == |indices| && k < |paths|
  {
    || (parent == outer && forall q: nat | q < |paths| && indices[q].Some? :: !(paths[q] < paths[k]))
    || exists p: nat :: IsNearest(paths, indices, k, p) && indices[p] == parent
  }

  ghost predicate IsNearest(paths: seq<seq<nat>>, indices: seq<Option<nat>>, k: nat, p: nat)
    requires |paths| == |indices| && k < |paths|
  {
    && p < |paths| && indices[p].Some? && paths[p] < paths[k]
    && forall q: nat | q < |paths| && indices[q].Some? && paths[q] < paths[k] :: paths[q] <= paths[p]
  }

  lemma ItemsMatchNodes(nodes: seq<Node>, parent: Option<nat>, counter: nat)
    ensures |ItemsInOrder(VisitAll(nodes, parent, counter).0)| == |Preorder(nodes)|
  {
    NumberingsAgree(nodes, parent, counter);
    ScanLength(Preorder(nodes), counter);
  }

  lemma {:induction false} ScanLength(flat: seq<Node>, i: nat)
    ensures |ScanFrom(flat, i)| == |flat|
  {
    if flat != [] {
      ScanLength(flat[1..], i + Weight(flat[0]));
    }
  }

  lemma IndicesOfThree(first: Item, below: seq<Item>, rest: seq<Item>)
    ensures Indices([first] + below + rest) == [first.i] + Indices(below) + Indices(rest)
  {
    IndicesConcat([first], below);
    IndicesConcat([first] + below, rest);
    assert Indices([first]) == [first.i];
  }

  function Parents(items: seq<Item>): seq<Option<nat>> {
    seq(|items|, k requires 0 <= k < |items| => items[k].parent)
  }

  lemma ParentsOfThree(first: Item, below: seq<Item>, rest: seq<Item>)
    ensures Parents([first] + below + rest) == [first.parent] + Parents(below) + Parents(rest)
  {
  }

  ghost predicate AllNearest(paths: seq<seq<nat>>, numbers: seq<Option<nat>>, parents: seq<Option<nat>>,
                             outer: Option<nat>)
  {
    && |paths| == |numbers| == |parents|
    && forall k: nat | k < |paths| :: ParentIsNearest(paths, numbers, k, parents[k], outer)
  }

  lemma {:induction false} ParentsNearest(nodes: seq<Node>, outer: Option<nat>, counter: nat,
                                          prefix: seq<nat>, from: nat)
    ensures var items := ItemsInOrder(VisitAll(nodes, outer, counter).0);
            AllNearest(Paths(nodes, prefix, from), Indices(items), Parents(items), outer)
    decreases nodes
  {
    if nodes == [] {
      PathsContinue(nodes, prefix, from);
      ItemsMatchNodes(nodes, outer, counter);
    } else {
      var node := nodes[0];
      var inner := Inner(Own(node, counter), outer);
      var (first, middle) := Visit(node, outer, counter);
      ParentsNearest(node.children, inner, counter + Weight(node), prefix + [from], 0);
      ParentsNearest(nodes[1..], outer, middle, prefix, from + 1);
      VisitParts(nodes, outer, counter);
      InOrderParts(VisitAll(nodes, outer, counter).0);
      JoinNearest(nodes, first, VisitAll(nodes[1..], outer, middle).0, outer, prefix, from);
    }
  }

  /** The lists of the first node's descendants and of the later nodes, joined. */
  lemma JoinNearest(nodes: seq<Node>, first: Item, rest: seq<Item>, outer: Option<nat>, prefix: seq<nat>, from: nat)
    requires nodes != [] && first.parent == outer
    requires var lower := ItemsInOrder(first.children);
             AllNearest(Paths(nodes[0].children, prefix + [from], 0), Indices(lower), Parents(lower),
                        Inner(first.i, outer))
    requires var later := ItemsInOrder(rest);
             AllNearest(Paths(nodes[1..], prefix, from + 1), Indices(later), Parents(later), outer)
    ensures var items := [first] + ItemsInOrder(first.children) + ItemsInOrder(rest);
            AllNearest(Paths(nodes, prefix, from), Indices(items), Parents(items), outer)
  {
    var path, lower, later := prefix + [from], ItemsInOrder(first.children), ItemsInOrder(rest);
    var ps, qs := Paths(nodes[0].children, path, 0), Paths(nodes[1..], prefix, from + 1);
    PathsContinue(nodes[0].children, path, 0);
    PathsContinue(nodes[1..], prefix, from + 1);
    IndicesOfThree(first, lower, later);
    ParentsOfThree(first, lower, later);
    assert Arranged(path, prefix, from, ps, qs);
    CombineNearest(first.i, path, prefix, from, ps, Indices(lower), Parents(lower),
                   qs, Indices(later), Parents(later), outer);
  }

  /** How the paths of a first node (`path`), of its descendants (`ps`) and of its later siblings
      and their descendants (`qs`) lie to each other. */
  ghost predicate Arranged(path: seq<nat>, prefix: seq<nat>, from: nat, ps: seq<seq<nat>>, qs: seq<seq<nat>>) {
    && path == prefix + [from]
    && (forall p | p in ps :: Continues(p, path, 0))
    && (forall q | q in qs :: Continues(q, prefix, from + 1))
  }

  lemma CombineNearest(i: Option<nat>, path: seq<nat>, prefix: seq<nat>, from: nat,
                       ps: seq<seq<nat>>, ns: seq<Option<nat>>, us: seq<Option<nat>>,
                       qs: seq<seq<nat>>, js: seq<Option<nat>>, vs: seq<Option<nat>>, outer: Option<nat>)
    requires Arranged(path, prefix, from, ps, qs)
    requires AllNearest(ps, ns, us, Inner(i, outer)) && AllNearest(qs, js, vs, outer)
    ensures AllNearest([path] + ps + qs, [i] + ns + js, [outer] + us + vs, outer)
  {
    var paths, numbers, parents := [path] + ps + qs, [i] + ns + js, [outer] + us + vs;
    forall k: nat | k < |paths|
      ensures ParentIsNearest(paths, numbers, k, parents[k], outer)
    {
      if k == 0 {
        RootHasNoAncestor(path, prefix, from, ps, qs, numbers, outer);
      } else if k <= |ps| {
        NearestBelow(i, path, prefix, from, ps, ns, qs, js, k - 1, us[k - 1], outer);
        assert parents[k] == us[k - 1];
      } else {
        var at := k - 1 - |ps|;
        NearestAfter(i, path, prefix, from, ps, ns, qs, js, at, vs[at], outer);
        assert parents[k] == vs[at];
      }
    }
  }

  /** A path under a later sibling, and one at or under the first node, are no prefixes of each other. */
  lemma Unrelated(p: seq<nat>, q: seq<nat>, path: seq<nat>, prefix: seq<nat>, from: nat)
    requires path == prefix + [from] && path <= p && Continues(q, prefix, from + 1)
    ensures !(p < q) && !(q < p) && p != q
  {
    assert p[|prefix|] == path[|prefix|] == from;
    assert q[|prefix|] >= from + 1;
  }

  lemma RootHasNoAncestor(path: seq<nat>, prefix: seq<nat>, from: nat, ps: seq<seq<nat>>, qs: seq<seq<nat>>,
                          numbers: seq<Option<nat>>, outer: Option<nat>)
    requires Arranged(path, prefix, from, ps, qs) && |numbers| == 1 + |ps| + |qs|
    ensures ParentIsNearest([path] + ps + qs, numbers, 0, outer, outer)
  {
    var paths := [path] + ps + qs;
    forall q: nat | q < |paths|
      ensures !(paths[q] < path)
    {
      if 1 <= q <= |ps| {
        assert paths[q] == ps[q - 1] && ps[q - 1] in ps;
      } else if |ps| < q {
        assert paths[q] == qs[q - 1 - |ps|] && qs[q - 1 - |ps|] in qs;
        Unrelated(path, paths[q], path, prefix, from);
      }
    }
  }

  /** Below the first node, only the first node and its descendants can be ancestors. */
  lemma AncestorsBelow(path: seq<nat>, prefix: seq<nat>, from: nat, ps: seq<seq<nat>>, qs: seq<seq<nat>>,
                       k: nat, q: nat)
    requires Arranged(path, prefix, from, ps, qs) && k < |ps| && q < 1 + |ps| + |qs|
    requires ([path] + ps + qs)[q] < ps[k]
    ensures q <= |ps| && (q > 0 ==> ps[q - 1] < ps[k])
  {
    assert ps[k] in ps;
    if q > |ps| {
      var x := qs[q - 1 - |ps|];
      assert x in qs && ([path] + ps + qs)[q] == x;
      Unrelated(ps[k], x, path, prefix, from);
    } else if q > 0 {
      assert ([path] + ps + qs)[q] == ps[q - 1];
    }
  }

  lemma NearestBelow(i: Option<nat>, path: seq<nat>, prefix: seq<nat>, from: nat,
                     ps: seq<seq<nat>>, ns: seq<Option<nat>>, qs: seq<seq<nat>>, js: seq<Option<nat>>,
                     k: nat, parent: Option<nat>, outer: Option<nat>)
    requires Arranged(path, prefix, from, ps, qs) && |ps| == |ns| && |qs| == |js| && k < |ps|
    requires ParentIsNearest(ps, ns, k, parent, Inner(i, outer))
    ensures ParentIsNearest([path] + ps + qs, [i] + ns + js, k + 1, parent, outer)
  {
    var paths, numbers := [path] + ps + qs, [i] + ns + js;
    assert paths[k + 1] == ps[k] && ps[k] in ps && paths[0] == path && numbers[0] == i;
    forall q: nat | q < |paths| && paths[q] < ps[k]
      ensures q <= |ps| && (q > 0 ==> ps[q - 1] < ps[k] && paths[q] == ps[q - 1] && numbers[q] == ns[q - 1])
    {
      AncestorsBelow(path, prefix, from, ps, qs, k, q);
      assert q > 0 ==> paths[q] == ps[q - 1] && numbers[q] == ns[q - 1];
    }
    if p: nat :| IsNearest(ps, ns, k, p) && ns[p] == parent {
      assert paths[p + 1] == ps[p] && ps[p] in ps && numbers[p + 1] == ns[p];
      assert IsNearest(paths, numbers, k + 1, p + 1);
    } else if i.Some? {
      assert IsNearest(paths, numbers, k + 1, 0);
    }
  }

  /** Beside or below a later sibling, only later siblings and their descendants can be ancestors. */
  lemma AncestorsAfter(path: seq<nat>, prefix: seq<nat>, from: nat, ps: seq<seq<nat>>, qs: seq<seq<nat>>,
                       k: nat, q: nat)
    requires Arranged(path, prefix, from, ps, qs) && k < |qs| && q < 1 + |ps| + |qs|
    requires ([path] + ps + qs)[q] < qs[k]
    ensures q > |ps| && qs[q - 1 - |ps|] < qs[k]
  {
    assert qs[k] in qs;
    var x := ([path] + ps + qs)[q];
    if q == 0 {
      Unrelated(path, qs[k], path, prefix, from);
    } else if q <= |ps| {
      assert x == ps[q - 1] && x in ps;
      Unrelated(x, qs[k], path, prefix, from);
    } else {
      assert x == qs[q - 1 - |ps|];
    }
  }

  lemma NearestAfter(i: Option<nat>, path: seq<nat>, prefix: seq<nat>, from: nat,
                     ps: seq<seq<nat>>, ns: seq<Option<nat>>, qs: seq<seq<nat>>, js: seq<Option<nat>>,
                     k: nat, parent: Option<nat>, outer: Option<nat>)
    requires Arranged(path, prefix, from, ps, qs) && |ps| == |ns| && |qs| == |js| && k < |qs|
    requires ParentIsNearest(qs, js, k, parent, outer)
    ensures ParentIsNearest([path] + ps + qs, [i] + ns + js, k + 1 + |ps|, parent, outer)
  {
    var paths, numbers, n := [path] + ps + qs, [i] + ns + js, 1 + |ps|;
    assert paths[k + n] == qs[k];
    forall q: nat | q < |paths| && paths[q] < qs[k]
      ensures q >= n && qs[q - n] < qs[k] && paths[q] == qs[q - n] && numbers[q] == js[q - n]
    {
      AncestorsAfter(path, prefix, from, ps, qs, k, q);
      assert paths[q] == qs[q - n] && numbers[q] == js[q - n];
    }
    if p: nat :| IsNearest(qs, js, k, p) && js[p] == parent {
      assert paths[p + n] == qs[p] && numbers[p + n] == js[p];
      assert IsNearest(paths, numbers, k + n, p + n);
    }
  }

  // ---------------------------------------------------------------- document order, told by positions

  /** The node at a path of child positions; the siblings are counted from `from`. */
  function NodeAt(nodes: seq<Node>, from: nat, path: seq<nat>): Option<Node>
    decreases |path|
  {
    if path == [] || path[0] < from || path[0] - from >= |nodes| then None
    else
      var node := nodes[path[0] - from];
      if |path| == 1 then Some(node) else NodeAt(node.children, 0, path[1..])
  }

  /** A node before its descendants, and a sibling with all its descendants before later siblings. */
  predicate Precedes(a: seq<nat>, b: seq<nat>) {
    b != [] && (a == [] || a[0] < b[0] || (a[0] == b[0] && Precedes(a[1..], b[1..])))
  }

  lemma {:induction false} PrecedesBelow(prefix: seq<nat>, a: seq<nat>, b: seq<nat>)
    requires prefix <= a && prefix <= b
    ensures Precedes(a, b) <==> Precedes(a[|prefix|..], b[|prefix|..])
  {
    if prefix != [] {
      PrecedesBelow(prefix[1..], a[1..], b[1..]);
      assert a[1..][|prefix| - 1..] == a[|prefix|..] && b[1..][|prefix| - 1..] == b[|prefix|..];
    } else {
      assert a[0..] == a && b[0..] == b;
    }
  }

  /** The node at `path`, which continues `prefix`. */
  predicate LeadsTo(nodes: seq<Node>, prefix: seq<nat>, from: nat, path: seq<nat>, node: Node) {
    prefix <= path && NodeAt(nodes, from, path[|prefix|..]) == Some(node)
  }

  predicate AllLeadTo(nodes: seq<Node>, prefix: seq<nat>, from: nat, paths: seq<seq<nat>>, found: seq<Node>) {
    |paths| == |found| && forall k | 0 <= k < |paths| :: LeadsTo(nodes, prefix, from, paths[k], found[k])
  }

  predicate Ascending(paths: seq<seq<nat>>) {
    forall j, k | 0 <= j < k < |paths| :: Precedes(paths[j], paths[k])
  }

  lemma LeadsFirst(nodes: seq<Node>, prefix: seq<nat>, from: nat, path: seq<nat>, node: Node)
    requires nodes != [] && Continues(path, prefix + [from], 0)
    requires LeadsTo(nodes[0].children, prefix + [from], 0, path, node)
    ensures LeadsTo(nodes, prefix, from, path, node)
  {
    assert path[|prefix|] == (prefix + [from])[|prefix|] == from;
    assert path[|prefix|..][1..] == path[|prefix + [from]|..];
  }

  lemma LeadsLater(nodes: seq<Node>, prefix: seq<nat>, from: nat, path: seq<nat>, node: Node)
    requires nodes != [] && Continues(path, prefix, from + 1) && LeadsTo(nodes[1..], prefix, from + 1, path, node)
    ensures LeadsTo(nodes, prefix, from, path, node)
  {
  }

  lemma {:induction false} PathsLead(nodes: seq<Node>, prefix: seq<nat>, from: nat)
    ensures AllLeadTo(nodes, prefix, from, Paths(nodes, prefix, from), Preorder(nodes))
    decreases nodes
  {
    if nodes != [] {
      var path := prefix + [from];
      var ps, qs := Paths(nodes[0].children, path, 0), Paths(nodes[1..], prefix, from + 1);
      var ms, ns := Preorder(nodes[0].children), Preorder(nodes[1..]);
      PathsLead(nodes[0].children, path, 0);
      PathsLead(nodes[1..], prefix, from + 1);
      PathsContinue(nodes[0].children, path, 0);
      PathsContinue(nodes[1..], prefix, from + 1);
      assert path[|prefix|..] == [from];
      forall k | 0 <= k < |ps|
        ensures LeadsTo(nodes, prefix, from, ps[k], ms[k])
      {
        assert ps[k] in ps;
        LeadsFirst(nodes, prefix, from, ps[k], ms[k]);
      }
      forall k | 0 <= k < |qs|
        ensures LeadsTo(nodes, prefix, from, qs[k], ns[k])
      {
        assert qs[k] in qs;
        LeadsLater(nodes, prefix, from, qs[k], ns[k]);
      }
      JoinLeads(nodes, prefix, from, path, ps, qs, ms, ns);
    }
  }

  lemma JoinLeads(nodes: seq<Node>, prefix: seq<nat>, from: nat, path: seq<nat>, ps: seq<seq<nat>>,
                  qs: seq<seq<nat>>, ms: seq<Node>, ns: seq<Node>)
    requires nodes != [] && LeadsTo(nodes, prefix, from, path, nodes[0])
    requires AllLeadTo(nodes, prefix, from, ps, ms) && AllLeadTo(nodes, prefix, from, qs, ns)
    ensures AllLeadTo(nodes, prefix, from, [path] + ps + qs, [nodes[0]] + ms + ns)
  {
  }

  /** At or under the first node comes before a later sibling and what is under it. */
  lemma FirstComesBefore(p: seq<nat>, q: seq<nat>, path: seq<nat>, prefix: seq<nat>, from: nat)
    requires path == prefix + [from] && path <= p && Continues(q, prefix, from + 1)
    ensures Precedes(p, q)
  {
    assert p[|prefix|] == path[|prefix|] == from;
    PrecedesBelow(prefix, p, q);
  }

  lemma JoinAscending(path: seq<nat>, prefix: seq<nat>, from: nat, ps: seq<seq<nat>>, qs: seq<seq<nat>>)
    requires Arranged(path, prefix, from, ps, qs) && Ascending(ps) && Ascending(qs)
    ensures Ascending([path] + ps + qs)
  {
    var paths := [path] + ps + qs;
    forall j, k | 0 <= j < k < |paths|
      ensures Precedes(paths[j], paths[k])
    {
      assert j > 0 ==> paths[j] == if j <= |ps| then ps[j - 1] else qs[j - 1 - |ps|];
      assert paths[k] == if k <= |ps| then ps[k - 1] else qs[k - 1 - |ps|];
      if j <= |ps| && |ps| < k {
        assert paths[k] in qs && (j > 0 ==> paths[j] in ps);
        FirstComesBefore(paths[j], paths[k], path, prefix, from);
      } else if j == 0 {
        assert paths[k] in ps;
        PrecedesBelow(path, path, paths[k]);
      }
    }
  }

  lemma {:induction false} PathsAscend(nodes: seq<Node>, prefix: seq<nat>, from: nat)
    ensures Ascending(Paths(nodes, prefix, from))
    decreases nodes
  {
    if nodes != [] {
      var path := prefix + [from];
      PathsAscend(nodes[0].children, path, 0);
      PathsAscend(nodes[1..], prefix, from + 1);
      PathsContinue(nodes[0].children, path, 0);
      PathsContinue(nodes[1..], prefix, from + 1);
      JoinAscending(path, prefix, from, Paths(nodes[0].children, path, 0), Paths(nodes[1..], prefix, from + 1));
    }
  }

  lemma {:induction false} PathsComplete(nodes: seq<Node>, prefix: seq<nat>, from: nat, path: seq<nat>)
    requires NodeAt(nodes, from, path).Some?
    ensures prefix + path in Paths(nodes, prefix, from)
    decreases nodes
  {
    var own := prefix + [from];
    if path[0] > from {
      PathsComplete(nodes[1..], prefix, from + 1, path);
    } else if |path| > 1 {
      PathsComplete(nodes[0].children, own, 0, path[1..]);
      assert own + path[1..] == prefix + path;
    } else {
      assert path == [from];
    }
  }

  /** The paths of a document are its positions: each leads to the node listed at the same place,
      every position that holds a node is listed, and they are listed in document order. */
  lemma DocumentOrder(nodes: seq<Node>)
    ensures var paths, flat := Paths(nodes, [], 0), Preorder(nodes);
            && |paths| == |flat| && Ascending(paths)
            && (forall k | 0 <= k < |paths| :: NodeAt(nodes, 0, paths[k]) == Some(flat[k]))
            && (forall path :: NodeAt(nodes, 0, path).Some? ==> path in paths)
  {
    var paths, flat := Paths(nodes, [], 0), Preorder(nodes);
    PathsAscend(nodes, [], 0);
    PathsLead(nodes, [], 0);
    forall k | 0 <= k < |paths|
      ensures NodeAt(nodes, 0, paths[k]) == Some(flat[k])
    {
      assert LeadsTo(nodes, [], 0, paths[k], flat[k]) && paths[k][0..] == paths[k];
    }
    forall path | NodeAt(nodes, 0, path).Some?
      ensures path in paths
    {
      PathsComplete(nodes, [], 0, path);
      assert [] + path == path;
    }
  }
}
