/** The parent, children, siblings and ancestors maps of a UI hierarchy, and the numbering code. */
module UiRelations {
  import opened Common
  import opened UiTree

  // ---------------------------------------------------------------- the numbered items

  /** The items that carry a number, in document order. */
  function Numbered(items: seq<Item>): seq<Item> {
    if items == [] then [] else IfNumbered(items[0]) + Numbered(items[1..])
  }

  function IfNumbered(item: Item): seq<Item> {
    if item.i.Some? then [item] else []
  }

  function ItemsOf(nodes: seq<Node>): seq<Item> {
    ItemsInOrder(VisitAll(nodes, None, 0).0)
  }

  /** The source hangs a list of several top-level nodes under an unnumbered root; a single
      top-level node is the root itself. */
  function Root(items: seq<Item>): Item {
    if |items| == 1 then items[0] else Item(None, None, items)
  }

  lemma RootAddsNoNumber(items: seq<Item>)
    ensures Numbered(ItemsInOrder([Root(items)])) == Numbered(ItemsInOrder(items))
  {
    var root := Root(items);
    assert [root][1..] == [];
    if |items| == 1 {
      assert items == [root];
    } else {
      assert ItemsInOrder([root]) == [root] + ItemsInOrder(items);
      assert ([root] + ItemsInOrder(items))[1..] == ItemsInOrder(items);
    }
  }

  /** `m` holds the numbered items, those numbered `from`, `from + 1`, ..., each at its place. */
  ghost predicate NumberedFrom(items: seq<Item>, m: seq<Item>, from: nat) {
    && (forall j | 0 <= j < |m| :: m[j].i == Some(from + j))
    && (forall k | 0 <= k < |items| && items[k].i.Some? ::
          from <= items[k].i.value < from + |m| && m[items[k].i.value - from] == items[k])
  }

  lemma NumberedCons(first: Item, items: seq<Item>, m: seq<Item>, from: nat)
    requires first.i.Some? ==> first.i.value == from
    requires NumberedFrom(items, m, if first.i.Some? then from + 1 else from)
    ensures NumberedFrom([first] + items, (if first.i.Some? then [first] else []) + m, from)
  {
    var all, m' := [first] + items, (if first.i.Some? then [first] else []) + m;
    forall k | 0 <= k < |all| && all[k].i.Some?
      ensures from <= all[k].i.value < from + |m'| && m'[all[k].i.value - from] == all[k]
    {
      if k > 0 {
        assert all[k] == items[k - 1];
      }
    }
  }

  lemma {:induction false} NumberedAreItems(items: seq<Item>)
    ensures forall t | t in Numbered(items) :: t in items
  {
    if items != [] {
      NumberedAreItems(items[1..]);
    }
  }

  lemma ScanTail(items: seq<Item>, flat: seq<Node>, from: nat)
    requires items != [] && flat != [] && Indices(items) == ScanFrom(flat, from)
    ensures items[0].i == Own(flat[0], from)
    ensures Indices(items[1..]) == ScanFrom(flat[1..], from + Weight(flat[0]))
  {
    assert Indices(items)[0] == items[0].i;
    assert Indices(items[1..]) == Indices(items)[1..];
  }

  lemma {:induction false} NumberedExact(items: seq<Item>, flat: seq<Node>, from: nat)
    requires Indices(items) == ScanFrom(flat, from)
    ensures NumberedFrom(items, Numbered(items), from)
    decreases items
  {
    ScanLength(flat, from);
    if items != [] {
      ScanTail(items, flat, from);
      NumberedExact(items[1..], flat[1..], from + Weight(flat[0]));
      NumberedCons(items[0], items[1..], Numbered(items[1..]), from);
      assert items == [items[0]] + items[1..];
    }
  }

  function ParentsAt(m: seq<Item>): seq<Option<nat>> {
    seq(|m|, j requires 0 <= j < |m| => m[j].parent)
  }

  function DirectAt(m: seq<Item>): seq<seq<nat>> {
    seq(|m|, j requires 0 <= j < |m| => NumbersOf(m[j].children))
  }

  /** The parents of the numbered items among `items` and below them, in document order. */
  function ParentsIn(items: seq<Item>): seq<Option<nat>> {
    ParentsAt(Numbered(ItemsInOrder(items)))
  }

  /** Their numbered direct children. */
  function DirectIn(items: seq<Item>): seq<seq<nat>> {
    DirectAt(Numbered(ItemsInOrder(items)))
  }

  /** The parents dictionary: its keys are the numbers 0, 1, ... in this order. */
  function ParentsOf(nodes: seq<Node>): seq<Option<nat>> {
    ParentsIn([Root(VisitAll(nodes, None, 0).0)])
  }

  /** What the recursive collection leaves in the children dictionary: numbered direct children. */
  function DirectOf(nodes: seq<Node>): seq<seq<nat>> {
    DirectIn([Root(VisitAll(nodes, None, 0).0)])
  }

  function NumberOf(item: Item): seq<nat> {
    if item.i.Some? then [item.i.value] else []
  }

  function NumbersOf(items: seq<Item>): seq<nat> {
    if items == [] then [] else NumberOf(items[0]) + NumbersOf(items[1..])
  }

  // ---------------------------------------------------------------- facts about the built tree

  /** A child's `parent` field is its parent's number, or what the parent itself inherits. */
  ghost predicate Wired(t: Item) {
    && (t.i.Some? && t.parent.Some? ==> t.parent.value < t.i.value)
    && (forall c | c in t.children :: c.parent == Inner(t.i, t.parent))
    && NumbersRise(t.children)
  }

  ghost predicate NumbersRise(items: seq<Item>) {
    forall a, b | 0 <= a < b < |items| && items[a].i.Some? && items[b].i.Some? :: items[a].i.value < items[b].i.value
  }

  /** The items of siblings: their parent, and numbers that rise between two counter values. */
  ghost predicate SiblingsNumbered(items: seq<Item>, parent: Option<nat>, counter: nat, after: nat) {
    && counter <= after
    && (forall c | c in items :: c.parent == parent && (c.i.Some? ==> counter <= c.i.value < after))
    && NumbersRise(items)
  }

  lemma {:induction false} SiblingsAreNumbered(nodes: seq<Node>, parent: Option<nat>, counter: nat)
    ensures var (items, after) := VisitAll(nodes, parent, counter); SiblingsNumbered(items, parent, counter, after)
    decreases nodes
  {
    if nodes != [] {
      var (first, middle) := Visit(nodes[0], parent, counter);
      SiblingsAreNumbered(nodes[0].children, Inner(first.i, parent), if first.i.Some? then counter + 1 else counter);
      SiblingsAreNumbered(nodes[1..], parent, middle);
      var (rest, after) := VisitAll(nodes[1..], parent, middle);
      PrependNumbered(first, rest, parent, counter, middle, after);
    }
  }

  lemma PrependNumbered(first: Item, rest: seq<Item>, parent: Option<nat>, counter: nat, middle: nat, after: nat)
    requires first.parent == parent && counter <= middle && (first.i.Some? ==> first.i.value == counter < middle)
    requires SiblingsNumbered(rest, parent, middle, after)
    ensures SiblingsNumbered([first] + rest, parent, counter, after)
  {
    var items := [first] + rest;
    assert forall c :: c in items <==> c == first || c in rest;
    forall a, b | 0 <= a < b < |items| && items[a].i.Some? && items[b].i.Some?
      ensures items[a].i.value < items[b].i.value
    {
      assert items[b] == rest[b - 1] && rest[b - 1] in rest;
      assert a > 0 ==> items[a] == rest[a - 1];
    }
  }

  ghost predicate Closed(items: seq<Item>, flat: seq<Item>) {
    && (forall c | c in items :: c in flat)
    && (forall t, c | t in flat && c in t.children :: c in flat)
    && (forall t | t in flat :: Wired(t))
  }

  lemma {:induction false} TreeIsWired(nodes: seq<Node>, parent: Option<nat>, counter: nat)
    requires parent.Some? ==> parent.value < counter
    ensures var items := VisitAll(nodes, parent, counter).0; Closed(items, ItemsInOrder(items))
    decreases nodes
  {
    if nodes != [] {
      var (first, middle) := Visit(nodes[0], parent, counter);
      var inner := if first.i.Some? then counter + 1 else counter;
      SiblingsAreNumbered(nodes[0].children, Inner(first.i, parent), inner);
      TreeIsWired(nodes[0].children, Inner(first.i, parent), inner);
      TreeIsWired(nodes[1..], parent, middle);
      var (rest, after) := VisitAll(nodes[1..], parent, middle);
      var items := VisitAll(nodes, parent, counter).0;
      assert items == [first] + rest && items[1..] == rest;
      PrependClosed(first, ItemsInOrder(first.children), rest, ItemsInOrder(rest));
    }
  }

  lemma PrependClosed(first: Item, below: seq<Item>, rest: seq<Item>, later: seq<Item>)
    requires Closed(first.children, below) && Closed(rest, later) && Wired(first)
    ensures Closed([first] + rest, [first] + below + later)
  {
    var flat := [first] + below + later;
    assert forall t :: t in flat <==> t == first || t in below || t in later;
  }

  /** What the loops of the relation builder rely on. */
  ghost predicate WellFormed(parent: seq<Option<nat>>, direct: seq<seq<nat>>) {
    && |parent| == |direct|
    && (forall j | 0 <= j < |parent| && parent[j].Some? :: parent[j].value < j)
    && (forall j | 0 <= j < |direct| :: NoDuplicates(direct[j]))
    && (forall j, c | 0 <= j < |direct| && c in direct[j] :: c < |parent| && parent[c] == Some(j))
  }

  predicate Ascends(xs: seq<nat>) {
    forall i, j | 0 <= i < j < |xs| :: xs[i] < xs[j]
  }

  lemma AscendsCons(x: nat, xs: seq<nat>)
    requires Ascends(xs) && forall y | y in xs :: x < y
    ensures Ascends([x] + xs)
  {
    var all := [x] + xs;
    assert forall k | 0 < k < |all| :: all[k] == xs[k - 1] && xs[k - 1] in xs;
  }

  lemma AscendsSnoc(xs: seq<nat>, x: nat)
    requires Ascends(xs) && forall y | y in xs :: y < x
    ensures Ascends(xs + [x])
  {
    var all := xs + [x];
    assert forall k | 0 <= k < |xs| :: all[k] == xs[k] && xs[k] in xs;
  }

  predicate NoDuplicates<T(==)>(xs: seq<T>) {
    forall i, j | 0 <= i < j < |xs| :: xs[i] != xs[j]
  }

  lemma {:induction false} NumbersOfRising(items: seq<Item>)
    requires NumbersRise(items)
    ensures forall x | x in NumbersOf(items) :: exists c :: c in items && c.i == Some(x)
    ensures NoDuplicates(NumbersOf(items)) && Ascends(NumbersOf(items))
  {
    if items != [] {
      var rest := items[1..];
      assert NumbersRise(rest);
      NumbersOfRising(rest);
      forall x | x in NumbersOf(rest)
        ensures items[0].i.Some? ==> items[0].i.value < x
        ensures exists c :: c in items && c.i == Some(x)
      {
        var c :| c in rest && c.i == Some(x);
        var b :| 0 <= b < |rest| && rest[b] == c;
        assert items[b + 1] == c && c in items;
      }
      if items[0].i.Some? {
        assert items[0] in items;
        AscendsCons(items[0].i.value, NumbersOf(rest));
      }
    }
  }

  lemma DocumentIsWellFormed(nodes: seq<Node>)
    ensures WellFormed(ParentsOf(nodes), DirectOf(nodes))
    ensures Numbered(ItemsInOrder([Root(VisitAll(nodes, None, 0).0)])) == Numbered(ItemsOf(nodes))
  {
    TreeIsWired(nodes, None, 0);
    NumberingsAgree(nodes, None, 0);
    RootAddsNoNumber(VisitAll(nodes, None, 0).0);
    var items := ItemsOf(nodes);
    NumberedExact(items, Preorder(nodes), 0);
    var m := Numbered(items);
    NumberedAreItems(items);
    forall j | 0 <= j < |m|
      ensures ParentsOf(nodes)[j].Some? ==> ParentsOf(nodes)[j].value < j
      ensures NoDuplicates(DirectOf(nodes)[j])
      ensures forall c | c in DirectOf(nodes)[j] :: c < |m| && ParentsOf(nodes)[c] == Some(j)
    {
      assert Wired(m[j]) && m[j].i == Some(j);
      NumbersOfRising(m[j].children);
      ChildrenAreNumbered(items, m[j], j);
    }
  }

  lemma ChildrenAreNumbered(items: seq<Item>, t: Item, j: nat)
    requires NumberedFrom(items, Numbered(items), 0) && t in items && t.i == Some(j)
    requires Wired(t) && forall c | c in t.children :: c in items
    ensures forall x | x in NumbersOf(t.children) ::
              x < |Numbered(items)| && Numbered(items)[x].parent == Some(j)
  {
    NumbersOfRising(t.children);
    forall x | x in NumbersOf(t.children)
      ensures x < |Numbered(items)| && Numbered(items)[x].parent == Some(j)
    {
      var c :| c in t.children && c.i == Some(x);
      var k :| 0 <= k < |items| && items[k] == c;
      assert Numbered(items)[x] == c;
    }
  }

  // ---------------------------------------------------------------- ancestors

  /** Following parents from `j` upwards. */
  function Chain(parent: seq<Option<nat>>, j: nat): seq<nat>
    requires j < |parent|
  {
    if parent[j].None? || parent[j].value >= j then [] else [parent[j].value] + Chain(parent, parent[j].value)
  }

  lemma {:induction false} PathsAreDistinct(nodes: seq<Node>, prefix: seq<nat>, from: nat)
    ensures NoDuplicates(Paths(nodes, prefix, from))
    decreases nodes
  {
    if nodes != [] {
      var path := prefix + [from];
      var ps, qs := Paths(nodes[0].children, path, 0), Paths(nodes[1..], prefix, from + 1);
      PathsAreDistinct(nodes[0].children, path, 0);
      PathsAreDistinct(nodes[1..], prefix, from + 1);
      PathsContinue(nodes[0].children, path, 0);
      PathsContinue(nodes[1..], prefix, from + 1);
      forall p, q | p in ps && q in qs
        ensures p != q && p != path && q != path
      {
        assert p[|prefix|] == path[|prefix|];
      }
      var all := [path] + ps + qs;
      forall i, j | 0 <= i < j < |all|
        ensures all[i] != all[j]
      {
        assert 1 <= i <= |ps| ==> all[i] in ps;
        assert 1 <= j <= |ps| ==> all[j] in ps;
        assert |ps| < j ==> all[j] == qs[j - 1 - |ps|] && all[j] in qs;
        assert |ps| < i ==> all[i] == qs[i - 1 - |ps|];
      }
    }
  }

  /** Number `x` is the number of a strict ancestor of position `k`. */
  ghost predicate NumbersAncestor(paths: seq<seq<nat>>, numbers: seq<Option<nat>>, x: nat, k: nat)
    requires k < |paths| == |numbers|
  {
    exists q: nat :: q < |numbers| && numbers[q] == Some(x) && paths[q] < paths[k]
  }

  ghost predicate NamesAncestor(nodes: seq<Node>, x: nat, k: nat)
    requires k < |Paths(nodes, [], 0)| == |ItemsOf(nodes)|
  {
    NumbersAncestor(Paths(nodes, [], 0), Indices(ItemsOf(nodes)), x, k)
  }

  /** Every numbered ancestor is the nearest one or an ancestor of it. */
  lemma NearestComesFirst(paths: seq<seq<nat>>, numbers: seq<Option<nat>>, x: nat, k: nat, p: nat)
    requires k < |paths| == |numbers| && NoDuplicates(paths) && IsNearest(paths, numbers, k, p)
    ensures NumbersAncestor(paths, numbers, x, k) <==> numbers[p] == Some(x) || NumbersAncestor(paths, numbers, x, p)
  {
    if NumbersAncestor(paths, numbers, x, k) {
      var q: nat :| q < |numbers| && numbers[q] == Some(x) && paths[q] < paths[k];
      assert paths[q] <= paths[p];
      assert paths[q] == paths[p] ==> q == p;
    }
    if NumbersAncestor(paths, numbers, x, p) {
      var q: nat :| q < |numbers| && numbers[q] == Some(x) && paths[q] < paths[p];
      assert paths[q] < paths[k];
    }
  }

  lemma Aligned(nodes: seq<Node>)
    ensures |Paths(nodes, [], 0)| == |ItemsOf(nodes)| == |Preorder(nodes)|
  {
    PathsContinue(nodes, [], 0);
    ItemsMatchNodes(nodes, None, 0);
  }

  /** A number names one position only. */
  lemma OneNumberOnePosition(nodes: seq<Node>, k: nat, k': nat)
    requires k < |ItemsOf(nodes)| && k' < |ItemsOf(nodes)|
    requires ItemsOf(nodes)[k].i.Some? && ItemsOf(nodes)[k].i == ItemsOf(nodes)[k'].i
    ensures k == k'
  {
    NumberingsAgree(nodes, None, 0);
    ScanRises(Preorder(nodes), 0);
    assert Indices(ItemsOf(nodes))[k] == ItemsOf(nodes)[k].i && Indices(ItemsOf(nodes))[k'] == ItemsOf(nodes)[k'].i;
  }

  predicate Rises(numbers: seq<Option<nat>>, from: nat) {
    && (forall k | 0 <= k < |numbers| && numbers[k].Some? :: from <= numbers[k].value)
    && (forall a, b | 0 <= a < b < |numbers| && numbers[a].Some? && numbers[b].Some? ::
          numbers[a].value < numbers[b].value)
  }

  lemma {:induction false} ScanRises(flat: seq<Node>, i: nat)
    ensures Rises(ScanFrom(flat, i), i)
  {
    if flat != [] {
      ScanRises(flat[1..], i + Weight(flat[0]));
    }
  }

  /** Every number there is names exactly one node. */
  lemma NumberNamesOneNode(nodes: seq<Node>, j: nat)
    requires j < |ParentsOf(nodes)|
    ensures exists k :: && 0 <= k < |ItemsOf(nodes)| && ItemsOf(nodes)[k].i == Some(j)
                        && forall k' | 0 <= k' < |ItemsOf(nodes)| && ItemsOf(nodes)[k'].i == Some(j) :: k' == k
  {
    DocumentIsWellFormed(nodes);
    NumberingsAgree(nodes, None, 0);
    NumberedExact(ItemsOf(nodes), Preorder(nodes), 0);
    NumberedAreItems(ItemsOf(nodes));
    var t := Numbered(ItemsOf(nodes))[j];
    assert t in Numbered(ItemsOf(nodes));
    var k :| 0 <= k < |ItemsOf(nodes)| && ItemsOf(nodes)[k] == t;
    forall k' | 0 <= k' < |ItemsOf(nodes)| && ItemsOf(nodes)[k'].i == Some(j)
      ensures k' == k
    {
      OneNumberOnePosition(nodes, k, k');
    }
  }

  /** The chain from a numbered node holds exactly the numbers of its numbered strict ancestors. */
  lemma {:induction false} ChainIsExact(nodes: seq<Node>, j: nat, k: nat)
    requires k < |Paths(nodes, [], 0)| == |ItemsOf(nodes)| && ItemsOf(nodes)[k].i == Some(j)
    requires j < |ParentsOf(nodes)|
    ensures forall x :: x in Chain(ParentsOf(nodes), j) <==> NamesAncestor(nodes, x, k)
    decreases j
  {
    var items, paths, parent := ItemsOf(nodes), Paths(nodes, [], 0), ParentsOf(nodes);
    ParentOfNumber(nodes, j, k);
    ParentsNearest(nodes, None, 0, [], 0);
    assert Parents(items)[k] == items[k].parent;
    assert ParentIsNearest(paths, Indices(items), k, items[k].parent, None);
    if parent[j].Some? {
      var p: nat :| IsNearest(paths, Indices(items), k, p) && Indices(items)[p] == parent[j];
      ChainIsExact(nodes, parent[j].value, p);
      PathsAreDistinct(nodes, [], 0);
      forall x
        ensures NamesAncestor(nodes, x, k) <==> x == parent[j].value || NamesAncestor(nodes, x, p)
      {
        NearestComesFirst(paths, Indices(items), x, k, p);
      }
    }
  }

  lemma ParentOfNumber(nodes: seq<Node>, j: nat, k: nat)
    requires k < |ItemsOf(nodes)| && ItemsOf(nodes)[k].i == Some(j)
    ensures j < |ParentsOf(nodes)| && ParentsOf(nodes)[j] == ItemsOf(nodes)[k].parent
    ensures ParentsOf(nodes)[j].Some? ==> ParentsOf(nodes)[j].value < j
  {
    DocumentIsWellFormed(nodes);
    NumberingsAgree(nodes, None, 0);
    NumberedExact(ItemsOf(nodes), Preorder(nodes), 0);
  }

  predicate Descends(c: seq<nat>, below: nat) {
    && (forall a | 0 <= a < |c| :: c[a] < below)
    && (forall a, b | 0 <= a < b < |c| :: c[a] > c[b])
  }

  lemma {:induction false} ChainDescends(parent: seq<Option<nat>>, j: nat)
    requires j < |parent|
    ensures Descends(Chain(parent, j), j)
  {
    if parent[j].Some? && parent[j].value < j {
      ChainDescends(parent, parent[j].value);
      var rest: seq<nat> := Chain(parent, parent[j].value);
      assert Descends([parent[j].value] + rest, j);
    }
  }

  // ---------------------------------------------------------------- the collection

  lemma {:induction false} InOrderConcat(a: seq<Item>, b: seq<Item>)
    ensures ItemsInOrder(a + b) == ItemsInOrder(a) + ItemsInOrder(b)
    decreases |a|
  {
    if a == [] {
      assert a + b == b;
    } else {
      assert (a + b)[1..] == a[1..] + b;
      InOrderConcat(a[1..], b);
    }
  }

  lemma NumberedCat(item: Item, items: seq<Item>)
    ensures Numbered([item] + items) == IfNumbered(item) + Numbered(items)
    ensures NumbersOf([item] + items) == NumberOf(item) + NumbersOf(items)
  {
    assert ([item] + items)[1..] == items;
  }

  lemma Associates<X>(a: seq<X>, b: seq<X>, c: seq<X>)
    ensures (a + b) + c == a + (b + c)
  {
  }

  lemma {:induction false} NumberedConcat(a: seq<Item>, b: seq<Item>)
    ensures Numbered(a + b) == Numbered(a) + Numbered(b)
    decreases |a|
  {
    if a == [] {
      assert a + b == b;
    } else {
      var first, rest := [a[0]], a[1..];
      assert a == first + rest;
      calc {
        Numbered(a + b);
      ==  { Associates(first, rest, b); }
        Numbered(first + (rest + b));
      ==  { NumberedCat(a[0], rest + b); }
        IfNumbered(a[0]) + Numbered(rest + b);
      ==  { NumberedConcat(rest, b); }
        IfNumbered(a[0]) + (Numbered(rest) + Numbered(b));
      ==  { Associates(IfNumbered(a[0]), Numbered(rest), Numbered(b)); }
        IfNumbered(a[0]) + Numbered(rest) + Numbered(b);
      ==  { NumberedCat(a[0], rest); }
        Numbered(a) + Numbered(b);
      }
    }
  }

  lemma {:induction false} NumbersConcat(a: seq<Item>, b: seq<Item>)
    ensures NumbersOf(a + b) == NumbersOf(a) + NumbersOf(b)
    decreases |a|
  {
    if a == [] {
      assert a + b == b;
    } else {
      var first, rest := [a[0]], a[1..];
      assert a == first + rest;
      calc {
        NumbersOf(a + b);
      ==  { Associates(first, rest, b); }
        NumbersOf(first + (rest + b));
      ==  { NumberedCat(a[0], rest + b); }
        NumberOf(a[0]) + NumbersOf(rest + b);
      ==  { NumbersConcat(rest, b); }
        NumberOf(a[0]) + (NumbersOf(rest) + NumbersOf(b));
      ==  { Associates(NumberOf(a[0]), NumbersOf(rest), NumbersOf(b)); }
        NumberOf(a[0]) + NumbersOf(rest) + NumbersOf(b);
      ==  { NumberedCat(a[0], rest); }
        NumbersOf(a) + NumbersOf(b);
      }
    }
  }

  lemma AtConcat(a: seq<Item>, b: seq<Item>)
    ensures ParentsAt(a + b) == ParentsAt(a) + ParentsAt(b)
    ensures DirectAt(a + b) == DirectAt(a) + DirectAt(b)
  {
  }

  lemma InConcat(a: seq<Item>, b: seq<Item>)
    ensures ParentsIn(a + b) == ParentsIn(a) + ParentsIn(b)
    ensures DirectIn(a + b) == DirectIn(a) + DirectIn(b)
  {
    InOrderConcat(a, b);
    NumberedConcat(ItemsInOrder(a), ItemsInOrder(b));
    AtConcat(Numbered(ItemsInOrder(a)), Numbered(ItemsInOrder(b)));
  }

  lemma OrderOfItem(t: Item)
    ensures ItemsInOrder([t]) == [t] + ItemsInOrder(t.children)
    ensures NumbersOf([t]) == NumberOf(t)
  {
    assert [t][1..] == [];
  }

  lemma InItem(t: Item)
    ensures ParentsIn([t]) == (if t.i.Some? then [t.parent] else []) + ParentsIn(t.children)
    ensures DirectIn([t]) == (if t.i.Some? then [NumbersOf(t.children)] else []) + DirectIn(t.children)
  {
    var below := Numbered(ItemsInOrder(t.children));
    OrderOfItem(t);
    NumberedCat(t, ItemsInOrder(t.children));
    AtConcat(IfNumbered(t), below);
    assert ParentsAt(IfNumbered(t)) == if t.i.Some? then [t.parent] else [];
    assert DirectAt(IfNumbered(t)) == if t.i.Some? then [NumbersOf(t.children)] else [];
  }

  lemma {:induction false} NumbersOfNumbered(items: seq<Item>)
    ensures |NumbersOf(items)| == |Numbered(items)|
    ensures forall k | 0 <= k < |NumbersOf(items)| :: Numbered(items)[k].i == Some(NumbersOf(items)[k])
  {
    if items != [] {
      NumbersOfNumbered(items[1..]);
      assert Numbered(items) == IfNumbered(items[0]) + Numbered(items[1..]);
      assert NumbersOf(items) == NumberOf(items[0]) + NumbersOf(items[1..]);
    }
  }

  predicate CountsUp(numbers: seq<nat>, from: nat) {
    forall k | 0 <= k < |numbers| :: numbers[k] == from + k
  }

  lemma CountsUpSplit(a: seq<nat>, b: seq<nat>, from: nat)
    requires CountsUp(a + b, from)
    ensures CountsUp(a, from) && CountsUp(b, from + |a|)
  {
    assert forall k | 0 <= k < |a| :: (a + b)[k] == a[k];
    assert forall k | 0 <= k < |b| :: (a + b)[|a| + k] == b[k];
  }

  /** The numbers in and below `items` are `from`, `from + 1`, ... */
  ghost predicate Dense(items: seq<Item>, from: nat) {
    CountsUp(NumbersOf(ItemsInOrder(items)), from)
  }

  lemma DenseSplit(a: seq<Item>, b: seq<Item>, from: nat)
    requires Dense(a + b, from)
    ensures Dense(a, from) && Dense(b, from + |ParentsIn(a)|)
  {
    InOrderConcat(a, b);
    NumbersConcat(ItemsInOrder(a), ItemsInOrder(b));
    NumbersOfNumbered(ItemsInOrder(a));
    CountsUpSplit(NumbersOf(ItemsInOrder(a)), NumbersOf(ItemsInOrder(b)), from);
  }

  lemma DenseItem(t: Item, from: nat)
    requires Dense([t], from)
    ensures t.i.Some? ==> t.i.value == from
    ensures Dense(t.children, if t.i.Some? then from + 1 else from)
  {
    OrderOfItem(t);
    NumberedCat(t, ItemsInOrder(t.children));
    CountsUpSplit(NumberOf(t), NumbersOf(ItemsInOrder(t.children)), from);
    assert t.i.Some? ==> NumberOf(t)[0] == from;
  }

  lemma RootIsDense(nodes: seq<Node>)
    ensures Dense([Root(VisitAll(nodes, None, 0).0)], 0)
  {
    var all := ItemsInOrder([Root(VisitAll(nodes, None, 0).0)]);
    DocumentIsWellFormed(nodes);
    NumberingsAgree(nodes, None, 0);
    NumberedExact(ItemsOf(nodes), Preorder(nodes), 0);
    NumbersOfNumbered(all);
    assert Numbered(all) == Numbered(ItemsOf(nodes));
  }

  /** The children dictionary with the entry of `node`, which has its first `k` children. */
  function WithOwn(before: seq<seq<nat>>, node: Item, k: nat): seq<seq<nat>>
    requires k <= |node.children|
  {
    if node.i.Some? then before + [NumbersOf(node.children[..k])] else before
  }

  lemma UpdateMiddle<X>(a: seq<X>, x: X, y: X, b: seq<X>)
    ensures (a + [x] + b)[|a|] == x
    ensures (a + [x] + b)[|a| := y] == a + [y] + b
  {
  }

  lemma OwnGrows(before: seq<seq<nat>>, node: Item, k: nat, below: seq<seq<nat>>)
    requires k < |node.children| && (node.i.Some? ==> node.i.value == |before|)
    ensures var child, cs := node.children[k], WithOwn(before, node, k) + below;
            WithOwn(before, node, k + 1) + below ==
            if node.i.Some? && child.i.Some?
            then cs[node.i.value := cs[node.i.value] + [child.i.value]]
            else cs
  {
    var had, child := NumbersOf(node.children[..k]), node.children[k];
    assert node.children[..k + 1] == node.children[..k] + [child];
    NumbersConcat(node.children[..k], [child]);
    OrderOfItem(child);
    if node.i.Some? {
      if child.i.Some? {
        UpdateMiddle(before, had, had + [child.i.value], below);
      } else {
        assert had + [] == had;
      }
    }
  }

  /** The dictionaries with the entries of `node` and of what lies below its first `k` children. */
  ghost predicate Collected(parent0: seq<Option<nat>>, children0: seq<seq<nat>>, node: Item, k: nat,
                            parent: seq<Option<nat>>, children: seq<seq<nat>>)
  {
    && k <= |node.children|
    && parent == parent0 + (if node.i.Some? then [node.parent] else []) + ParentsIn(node.children[..k])
    && children == WithOwn(children0, node, k) + DirectIn(node.children[..k])
  }

  lemma CollectedFirst(parent: seq<Option<nat>>, children: seq<seq<nat>>, node: Item)
    ensures Collected(parent, children, node, 0,
                      if node.i.Some? then parent + [node.parent] else parent,
                      if node.i.Some? then children + [[]] else children)
  {
    assert node.children[..0] == [] && ParentsIn([]) == [] && DirectIn([]) == [];
    assert NumbersOf([]) == [];
  }

  lemma CollectedLast(parent0: seq<Option<nat>>, children0: seq<seq<nat>>, node: Item,
                      parent: seq<Option<nat>>, children: seq<seq<nat>>)
    requires Collected(parent0, children0, node, |node.children|, parent, children)
    ensures parent == parent0 + ParentsIn([node]) && children == children0 + DirectIn([node])
  {
    assert node.children[..|node.children|] == node.children;
    InItem(node);
  }

  /** What the loop over the children needs at the `k`-th. */
  lemma CollectOne(node: Item, k: nat, from: nat)
    requires Dense([node], from) && k < |node.children|
    ensures var done, child := node.children[..k], node.children[k];
            && Dense([child], from + (if node.i.Some? then 1 else 0) + |ParentsIn(done)|)
            && ParentsIn(node.children[..k + 1]) == ParentsIn(done) + ParentsIn([child])
            && DirectIn(node.children[..k + 1]) == DirectIn(done) + DirectIn([child])
            && |DirectIn(done)| == |ParentsIn(done)|
  {
    var done, child := node.children[..k], node.children[k];
    assert node.children[..k + 1] == done + [child];
    assert node.children == (done + [child]) + node.children[k + 1..];
    DenseItem(node, from);
    var start := if node.i.Some? then from + 1 else from;
    DenseSplit(done + [child], node.children[k + 1..], start);
    DenseSplit(done, [child], start);
    InConcat(done, [child]);
  }

  lemma CollectedNext(parent0: seq<Option<nat>>, children0: seq<seq<nat>>, node: Item, k: nat,
                      parent: seq<Option<nat>>, children: seq<seq<nat>>)
    requires Collected(parent0, children0, node, k, parent, children) && k < |node.children|
    requires |parent0| == |children0| && Dense([node], |parent0|)
    ensures |parent| == |children| && Dense([node.children[k]], |parent|)
    ensures node.i.Some? ==> node.i.value < |children|
    ensures var child := node.children[k];
            var parent', children' := parent + ParentsIn([child]), children + DirectIn([child]);
            Collected(parent0, children0, node, k + 1, parent',
                      if node.i.Some? && child.i.Some?
                      then children'[node.i.value := children'[node.i.value] + [child.i.value]]
                      else children')
  {
    var child, below := node.children[k], DirectIn(node.children[..k]);
    CollectOne(node, k, |parent0|);
    DenseItem(node, |parent0|);
    assert children + DirectIn([child]) == WithOwn(children0, node, k) + (below + DirectIn([child]));
    OwnGrows(children0, node, k, below + DirectIn([child]));
  }

  /** The two dictionaries that the recursive collection fills, keyed 0, 1, ... */
  class Collector {
    var parent: seq<Option<nat>>
    var children: seq<seq<nat>>

    constructor ()
      ensures parent == [] && children == []
    {
      parent, children := [], [];
    }

    method Collect(node: Item)
      requires |parent| == |children| && Dense([node], |parent|)
      modifies this
      ensures parent == old(parent) + ParentsIn([node])
      ensures children == old(children) + DirectIn([node])
      decreases node, 1
    {
      ghost var parent0, children0 := parent, children;
      CollectedFirst(parent, children, node);
      if node.i.Some? {
        parent, children := parent + [node.parent], children + [[]];
      }
      for k := 0 to |node.children|
        invariant Collected(parent0, children0, node, k, parent, children)
      {
        CollectChild(node, k, parent0, children0);
      }
      CollectedLast(parent0, children0, node, parent, children);
    }

    /** The loop's body: the `k`-th child, and its number among the children of `node`. */
    method CollectChild(node: Item, k: nat, ghost parent0: seq<Option<nat>>, ghost children0: seq<seq<nat>>)
      requires |parent0| == |children0| && Dense([node], |parent0|) && k < |node.children|
      requires Collected(parent0, children0, node, k, parent, children)
      modifies this
      ensures Collected(parent0, children0, node, k + 1, parent, children)
      decreases node, 0
    {
      var child := node.children[k];
      CollectedNext(parent0, children0, node, k, parent, children);
      Collect(child);
      if node.i.Some? && child.i.Some? {
        var idx := node.i.value;
        children := children[idx := children[idx] + [child.i.value]];
      }
    }
  }

  // ---------------------------------------------------------------- the four maps

  /** `cs` lists, once each, the numbers whose parent is `j`: first the direct children, then the
      others in ascending order. */
  ghost predicate ChildrenExact(parent: seq<Option<nat>>, direct: seq<nat>, j: nat, cs: seq<nat>) {
    && NoDuplicates(cs) && (forall c: nat :: c in cs <==> c < |parent| && parent[c] == Some(j))
    && direct <= cs && Ascends(cs[|direct|..])
  }

  /** `ss` lists, once each and in ascending order, the other numbers with the parent of `j`. */
  ghost predicate SiblingsExact(parent: seq<Option<nat>>, j: nat, ss: seq<nat>)
    requires j < |parent|
  {
    Ascends(ss) && forall s: nat :: s in ss <==> s < |parent| && s != j && parent[s] == parent[j]
  }

  /** The children of `j` after the numbers below `upTo` have been looked at: its direct children in
      document order, then descendants in the order of their numbers. */
  function ChildrenUpTo(parent: seq<Option<nat>>, direct: seq<nat>, j: nat, upTo: nat): seq<nat>
    requires upTo <= |parent|
  {
    if upTo == 0 then direct
    else
      var before := ChildrenUpTo(parent, direct, j, upTo - 1);
      if parent[upTo - 1] == Some(j) && upTo - 1 !in before then before + [upTo - 1] else before
  }

  /** The other numbers below `upTo` with the parent of `j`, in their order. */
  function SiblingsUpTo(parent: seq<Option<nat>>, j: nat, upTo: nat): seq<nat>
    requires j < |parent| && upTo <= |parent|
  {
    if upTo == 0 then []
    else
      SiblingsUpTo(parent, j, upTo - 1)
      + if parent[upTo - 1] == parent[j] && upTo - 1 != j then [upTo - 1] else []
  }

  lemma {:induction false} ChildrenUpToExact(parent: seq<Option<nat>>, direct: seq<nat>, j: nat, upTo: nat)
    requires upTo <= |parent| && NoDuplicates(direct)
    requires forall c | c in direct :: c < |parent| && parent[c] == Some(j)
    ensures var cs := ChildrenUpTo(parent, direct, j, upTo);
            && NoDuplicates(cs)
            && (forall c: nat :: c in cs <==> c in direct || (c < upTo && parent[c] == Some(j)))
            && direct <= cs && Ascends(cs[|direct|..]) && (forall c | c in cs[|direct|..] :: c < upTo)
  {
    if upTo > 0 {
      ChildrenUpToExact(parent, direct, j, upTo - 1);
      var before := ChildrenUpTo(parent, direct, j, upTo - 1);
      AscendsSnoc(before[|direct|..], upTo - 1);
      assert (before + [upTo - 1])[|direct|..] == before[|direct|..] + [upTo - 1];
    }
  }

  lemma {:induction false} SiblingsUpToExact(parent: seq<Option<nat>>, j: nat, upTo: nat)
    requires j < |parent| && upTo <= |parent|
    ensures var ss := SiblingsUpTo(parent, j, upTo);
            && Ascends(ss)
            && (forall s: nat :: s in ss <==> s < upTo && s != j && parent[s] == parent[j])
  {
    if upTo > 0 {
      SiblingsUpToExact(parent, j, upTo - 1);
      AscendsSnoc(SiblingsUpTo(parent, j, upTo - 1), upTo - 1);
    }
  }

  /** What `parse_relations` promises of its maps, given the parents and the direct children. */
  ghost predicate Exact(parent: seq<Option<nat>>, direct: seq<seq<nat>>,
                        children: seq<seq<nat>>, siblings: seq<seq<nat>>, ancestors: seq<seq<nat>>)
  {
    && |children| == |direct| == |siblings| == |ancestors| == |parent|
    && (forall j | 0 <= j < |parent| ::
          && children[j] == ChildrenUpTo(parent, direct[j], j, |parent|)
          && ChildrenExact(parent, direct[j], j, children[j]))
    && (forall j | 0 <= j < |parent| ::
          && siblings[j] == SiblingsUpTo(parent, j, |parent|)
          && SiblingsExact(parent, j, siblings[j]))
    && (forall j | 0 <= j < |parent| :: ancestors[j] == Chain(parent, j))
  }

  /** The built tree, walked once to fill the first two dictionaries. */
  method CollectTree(nodes: seq<Node>) returns (parent: seq<Option<nat>>, direct: seq<seq<nat>>)
    ensures parent == ParentsOf(nodes) && direct == DirectOf(nodes)
  {
    var indexer := new TreeIndexer();
    var items := indexer.VisitList(nodes, None);
    var collector := new Collector();
    RootIsDense(nodes);
    assert items == VisitAll(nodes, None, 0).0;
    collector.Collect(Root(items));
    parent, direct := collector.parent, collector.children;
    assert parent == [] + ParentsOf(nodes) && direct == [] + DirectOf(nodes);
  }

  method ParseRelations(nodes: seq<Node>)
    returns (parent: seq<Option<nat>>, children: seq<seq<nat>>, siblings: seq<seq<nat>>, ancestors: seq<seq<nat>>)
    ensures parent == ParentsOf(nodes)
    ensures Exact(parent, DirectOf(nodes), children, siblings, ancestors)
  {
    DocumentIsWellFormed(nodes);
    parent, children := CollectTree(nodes);
    children := AdoptDescendants(parent, children);
    siblings, ancestors := [], [];
    for j := 0 to |parent|
      invariant |siblings| == |ancestors| == j
      invariant forall k | 0 <= k < j :: ancestors[k] == Chain(parent, k)
      invariant forall k | 0 <= k < j ::
                  siblings[k] == SiblingsUpTo(parent, k, |parent|) && SiblingsExact(parent, k, siblings[k])
    {
      var others := SiblingsOf(parent, j);
      var chain := AncestorsOf(parent, j);
      siblings, ancestors := siblings + [others], ancestors + [chain];
    }
  }

  /** Descendants whose nearest numbered ancestor is not their direct parent join its children. */
  method AdoptDescendants(parent: seq<Option<nat>>, direct: seq<seq<nat>>) returns (children: seq<seq<nat>>)
    requires WellFormed(parent, direct)
    ensures |children| == |parent|
    ensures forall j | 0 <= j < |parent| ::
              && children[j] == ChildrenUpTo(parent, direct[j], j, |parent|)
              && ChildrenExact(parent, direct[j], j, children[j])
  {
    children := direct;
    for idx := 0 to |parent|
      invariant |children| == |parent|
      invariant forall j | 0 <= j < |parent| :: children[j] == ChildrenUpTo(parent, direct[j], j, idx)
    {
      if parent[idx].Some? && idx !in children[parent[idx].value] {
        var p := parent[idx].value;
        children := children[p := children[p] + [idx]];
      }
    }
    forall j | 0 <= j < |parent|
      ensures ChildrenExact(parent, direct[j], j, children[j])
    {
      ChildrenUpToExact(parent, direct[j], j, |parent|);
    }
  }

  method SiblingsOf(parent: seq<Option<nat>>, j: nat) returns (others: seq<nat>)
    requires j < |parent|
    ensures others == SiblingsUpTo(parent, j, |parent|) && SiblingsExact(parent, j, others)
  {
    others := [];
    for other := 0 to |parent|
      invariant others == SiblingsUpTo(parent, j, other)
    {
      if parent[other] == parent[j] && other != j {
        others := others + [other];
      }
    }
    SiblingsUpToExact(parent, j, |parent|);
  }

  method AncestorsOf(parent: seq<Option<nat>>, j: nat) returns (chain: seq<nat>)
    requires j < |parent| && forall k | 0 <= k < |parent| && parent[k].Some? :: parent[k].value < k
    ensures chain == Chain(parent, j)
  {
    chain := [];
    var p: Option<nat> := parent[j];
    ghost var at: nat := j;
    while p.Some?
      invariant at <= j && p == parent[at]
      invariant chain + Chain(parent, at) == Chain(parent, j)
      decreases at
    {
      ghost var rest := Chain(parent, p.value);
      assert chain + ([p.value] + rest) == (chain + [p.value]) + rest;
      chain := chain + [p.value];
      at := p.value;
      p := parent[p.value];
    }
    assert chain + [] == chain;
  }

  /** The maps of a document are exact relations of its tree: a numbered node's `parent` is its
      nearest numbered strict ancestor, a smaller number; its `ancestors` are exactly its numbered
      strict ancestors, nearest first. */
  lemma RelationsAreExact(nodes: seq<Node>, j: nat, k: nat)
    requires k < |Paths(nodes, [], 0)| == |ItemsOf(nodes)| && ItemsOf(nodes)[k].i == Some(j)
    ensures j < |ParentsOf(nodes)|
    ensures ParentIsNearest(Paths(nodes, [], 0), Indices(ItemsOf(nodes)), k, ParentsOf(nodes)[j], None)
    ensures ParentsOf(nodes)[j].Some? ==> ParentsOf(nodes)[j].value < j
    ensures var chain := Chain(ParentsOf(nodes), j);
            && (forall x :: x in chain <==> NamesAncestor(nodes, x, k))
            && Descends(chain, j)
  {
    ParentOfNumber(nodes, j, k);
    ParentsNearest(nodes, None, 0, [], 0);
    assert Parents(ItemsOf(nodes))[k] == ItemsOf(nodes)[k].parent;
    ChainIsExact(nodes, j, k);
    ChainDescends(ParentsOf(nodes), j);
  }

  // ---------------------------------------------------------------- direct children

  predicate IsChildPath(path: seq<nat>, child: seq<nat>) {
    |child| == |path| + 1 && path < child
  }

  /** Number `c` is the number of a child of position `k`. */
  ghost predicate NumbersChild(paths: seq<seq<nat>>, numbers: seq<Option<nat>>, c: nat, k: nat)
    requires k < |paths| == |numbers|
  {
    exists q: nat :: q < |numbers| && numbers[q] == Some(c) && IsChildPath(paths[k], paths[q])
  }

  /** Number `c` is the number of a path of length `depth`. */
  ghost predicate NumbersAt(paths: seq<seq<nat>>, numbers: seq<Option<nat>>, c: nat, depth: nat)
    requires |paths| == |numbers|
  {
    exists q: nat :: q < |numbers| && numbers[q] == Some(c) && |paths[q]| == depth
  }

  ghost predicate ChildrenMatch(paths: seq<seq<nat>>, numbers: seq<Option<nat>>, k: nat, cs: seq<nat>)
    requires k < |paths| == |numbers|
  {
    forall c: nat :: c in cs <==> NumbersChild(paths, numbers, c, k)
  }

  ghost predicate TopMatches(paths: seq<seq<nat>>, numbers: seq<Option<nat>>, depth: nat, cs: seq<nat>) {
    |paths| == |numbers| && forall c: nat :: c in cs <==> NumbersAt(paths, numbers, c, depth)
  }

  ghost predicate AllMatch(paths: seq<seq<nat>>, numbers: seq<Option<nat>>, direct: seq<seq<nat>>) {
    |paths| == |numbers| == |direct| && forall k | 0 <= k < |direct| :: ChildrenMatch(paths, numbers, k, direct[k])
  }

  /** The numbered direct children of each item. */
  function DirectEach(items: seq<Item>): seq<seq<nat>> {
    seq(|items|, k requires 0 <= k < |items| => NumbersOf(items[k].children))
  }

  lemma TopJoins(i: Option<nat>, path: seq<nat>, prefix: seq<nat>, from: nat, ps: seq<seq<nat>>,
                 ns: seq<Option<nat>>, qs: seq<seq<nat>>, js: seq<Option<nat>>, own: seq<nat>, cs: seq<nat>)
    requires Arranged(path, prefix, from, ps, qs) && |ps| == |ns| && own == if i.Some? then [i.value] else []
    requires TopMatches(qs, js, |prefix| + 1, cs)
    ensures TopMatches([path] + ps + qs, [i] + ns + js, |prefix| + 1, own + cs)
  {
    var paths, numbers, n := [path] + ps + qs, [i] + ns + js, 1 + |ps|;
    forall q | 0 < q < n
      ensures |paths[q]| > |path|
    {
      assert paths[q] == ps[q - 1] && ps[q - 1] in ps;
    }
    forall c: nat
      ensures c in own + cs <==> NumbersAt(paths, numbers, c, |prefix| + 1)
    {
      if NumbersAt(paths, numbers, c, |prefix| + 1) {
        var q: nat :| q < |numbers| && numbers[q] == Some(c) && |paths[q]| == |prefix| + 1;
        if q >= n {
          assert paths[q] == qs[q - n] && numbers[q] == js[q - n];
          assert NumbersAt(qs, js, c, |prefix| + 1);
        }
      }
      if c in cs {
        var q: nat :| q < |js| && js[q] == Some(c) && |qs[q]| == |prefix| + 1;
        assert paths[q + n] == qs[q] && numbers[q + n] == js[q];
      }
      if c in own {
        assert paths[0] == path && numbers[0] == i;
      }
    }
  }

  lemma {:induction false} TopsMatch(nodes: seq<Node>, outer: Option<nat>, counter: nat, prefix: seq<nat>, from: nat)
    ensures var items := VisitAll(nodes, outer, counter).0;
            TopMatches(Paths(nodes, prefix, from), Indices(ItemsInOrder(items)), |prefix| + 1, NumbersOf(items))
    decreases nodes
  {
    var path := prefix + [from];
    ItemsMatchNodes(nodes, outer, counter);
    PathsContinue(nodes, prefix, from);
    if nodes != [] {
      var node, inner := nodes[0], Inner(Own(nodes[0], counter), outer);
      var (first, middle) := Visit(node, outer, counter);
      var rest := VisitAll(nodes[1..], outer, middle).0;
      TopsMatch(nodes[1..], outer, middle, prefix, from + 1);
      ItemsMatchNodes(node.children, inner, counter + Weight(node));
      PathsContinue(node.children, path, 0);
      PathsContinue(nodes[1..], prefix, from + 1);
      VisitParts(nodes, outer, counter);
      InOrderParts(VisitAll(nodes, outer, counter).0);
      var below := ItemsInOrder(first.children);
      IndicesOfThree(first, below, ItemsInOrder(rest));
      TopJoins(first.i, path, prefix, from, Paths(node.children, path, 0), Indices(below),
               Paths(nodes[1..], prefix, from + 1), Indices(ItemsInOrder(rest)), NumberOf(first), NumbersOf(rest));
    }
  }

  lemma MatchFirst(i: Option<nat>, path: seq<nat>, prefix: seq<nat>, from: nat, ps: seq<seq<nat>>,
                   ns: seq<Option<nat>>, qs: seq<seq<nat>>, js: seq<Option<nat>>, cs: seq<nat>)
    requires Arranged(path, prefix, from, ps, qs) && |qs| == |js| && TopMatches(ps, ns, |path| + 1, cs)
    ensures ChildrenMatch([path] + ps + qs, [i] + ns + js, 0, cs)
  {
    var paths, numbers, n := [path] + ps + qs, [i] + ns + js, 1 + |ps|;
    forall c: nat
      ensures c in cs <==> NumbersChild(paths, numbers, c, 0)
    {
      if NumbersChild(paths, numbers, c, 0) {
        var q: nat :| q < |numbers| && numbers[q] == Some(c) && IsChildPath(paths[0], paths[q]);
        if q >= n {
          assert paths[q] == qs[q - n] && qs[q - n] in qs;
          Unrelated(path, paths[q], path, prefix, from);
        } else {
          assert q > 0 && paths[q] == ps[q - 1] && numbers[q] == ns[q - 1];
          assert NumbersAt(ps, ns, c, |path| + 1);
        }
      }
      if c in cs {
        var q: nat :| q < |ns| && ns[q] == Some(c) && |ps[q]| == |path| + 1;
        assert paths[q + 1] == ps[q] && numbers[q + 1] == ns[q] && ps[q] in ps;
      }
    }
  }

  lemma MatchBelow(i: Option<nat>, path: seq<nat>, prefix: seq<nat>, from: nat, ps: seq<seq<nat>>,
                   ns: seq<Option<nat>>, qs: seq<seq<nat>>, js: seq<Option<nat>>, k: nat, cs: seq<nat>)
    requires Arranged(path, prefix, from, ps, qs) && |qs| == |js| && k < |ps| == |ns|
    requires ChildrenMatch(ps, ns, k, cs)
    ensures ChildrenMatch([path] + ps + qs, [i] + ns + js, k + 1, cs)
  {
    var paths, numbers := [path] + ps + qs, [i] + ns + js;
    assert paths[k + 1] == ps[k] && ps[k] in ps;
    forall c: nat
      ensures c in cs <==> NumbersChild(paths, numbers, c, k + 1)
    {
      if NumbersChild(paths, numbers, c, k + 1) {
        var q: nat :| q < |numbers| && numbers[q] == Some(c) && IsChildPath(paths[k + 1], paths[q]);
        if q > |ps| {
          var at := q - 1 - |ps|;
          assert paths[q] == qs[at] && qs[at] in qs;
          Unrelated(ps[k], qs[at], path, prefix, from);
        } else {
          assert q > 0 && paths[q] == ps[q - 1] && numbers[q] == ns[q - 1];
          assert NumbersChild(ps, ns, c, k);
        }
      }
      if c in cs {
        var q: nat :| q < |ns| && ns[q] == Some(c) && IsChildPath(ps[k], ps[q]);
        assert paths[q + 1] == ps[q] && numbers[q + 1] == ns[q];
      }
    }
  }

  lemma MatchAfter(i: Option<nat>, path: seq<nat>, prefix: seq<nat>, from: nat, ps: seq<seq<nat>>,
                   ns: seq<Option<nat>>, qs: seq<seq<nat>>, js: seq<Option<nat>>, k: nat, cs: seq<nat>)
    requires Arranged(path, prefix, from, ps, qs) && |ps| == |ns| && k < |qs| == |js|
    requires ChildrenMatch(qs, js, k, cs)
    ensures ChildrenMatch([path] + ps + qs, [i] + ns + js, k + 1 + |ps|, cs)
  {
    var paths, numbers, n := [path] + ps + qs, [i] + ns + js, 1 + |ps|;
    assert paths[k + n] == qs[k] && qs[k] in qs;
    forall c: nat
      ensures c in cs <==> NumbersChild(paths, numbers, c, k + n)
    {
      if NumbersChild(paths, numbers, c, k + n) {
        var q: nat :| q < |numbers| && numbers[q] == Some(c) && IsChildPath(paths[k + n], paths[q]);
        if q < n {
          assert paths[q] == (if q == 0 then path else ps[q - 1]) && (q > 0 ==> ps[q - 1] in ps);
          Unrelated(paths[q], qs[k], path, prefix, from);
        } else {
          assert paths[q] == qs[q - n] && numbers[q] == js[q - n];
          assert NumbersChild(qs, js, c, k);
        }
      }
      if c in cs {
        var q: nat :| q < |js| && js[q] == Some(c) && IsChildPath(qs[k], qs[q]);
        assert paths[q + n] == qs[q] && numbers[q + n] == js[q];
      }
    }
  }

  lemma MatchJoins(i: Option<nat>, path: seq<nat>, prefix: seq<nat>, from: nat, ps: seq<seq<nat>>,
                   ns: seq<Option<nat>>, ds: seq<seq<nat>>, qs: seq<seq<nat>>, js: seq<Option<nat>>,
                   es: seq<seq<nat>>, cs: seq<nat>)
    requires Arranged(path, prefix, from, ps, qs) && TopMatches(ps, ns, |path| + 1, cs)
    requires AllMatch(ps, ns, ds) && AllMatch(qs, js, es)
    ensures AllMatch([path] + ps + qs, [i] + ns + js, [cs] + ds + es)
  {
    var direct := [cs] + ds + es;
    forall k: nat | k < |direct|
      ensures ChildrenMatch([path] + ps + qs, [i] + ns + js, k, direct[k])
    {
      if k == 0 {
        MatchFirst(i, path, prefix, from, ps, ns, qs, js, cs);
      } else if k <= |ps| {
        MatchBelow(i, path, prefix, from, ps, ns, qs, js, k - 1, ds[k - 1]);
      } else {
        MatchAfter(i, path, prefix, from, ps, ns, qs, js, k - 1 - |ps|, es[k - 1 - |ps|]);
      }
    }
  }

  lemma DirectOfThree(first: Item, below: seq<Item>, rest: seq<Item>)
    ensures DirectEach([first] + below + rest)
            == [NumbersOf(first.children)] + DirectEach(below) + DirectEach(rest)
  {
  }

  lemma {:induction false} ChildrenMatchAll(nodes: seq<Node>, outer: Option<nat>, counter: nat,
                                            prefix: seq<nat>, from: nat)
    ensures var items := ItemsInOrder(VisitAll(nodes, outer, counter).0);
            AllMatch(Paths(nodes, prefix, from), Indices(items), DirectEach(items))
    decreases nodes
  {
    var path := prefix + [from];
    ItemsMatchNodes(nodes, outer, counter);
    PathsContinue(nodes, prefix, from);
    if nodes != [] {
      var node, inner := nodes[0], Inner(Own(nodes[0], counter), outer);
      var (first, middle) := Visit(node, outer, counter);
      var below, rest := ItemsInOrder(first.children), ItemsInOrder(VisitAll(nodes[1..], outer, middle).0);
      ChildrenMatchAll(node.children, inner, counter + Weight(node), path, 0);
      ChildrenMatchAll(nodes[1..], outer, middle, prefix, from + 1);
      TopsMatch(node.children, inner, counter + Weight(node), path, 0);
      PathsContinue(node.children, path, 0);
      PathsContinue(nodes[1..], prefix, from + 1);
      VisitParts(nodes, outer, counter);
      InOrderParts(VisitAll(nodes, outer, counter).0);
      IndicesOfThree(first, below, rest);
      DirectOfThree(first, below, rest);
      MatchJoins(first.i, path, prefix, from, Paths(node.children, path, 0), Indices(below), DirectEach(below),
                 Paths(nodes[1..], prefix, from + 1), Indices(rest), DirectEach(rest), NumbersOf(first.children));
    }
  }

  /** What the walk records as the direct children of the node numbered `j`, at position `k`, are the
      numbers of the positions one step below it, in ascending order. */
  lemma DirectIsExact(nodes: seq<Node>, j: nat, k: nat)
    requires k < |Paths(nodes, [], 0)| == |ItemsOf(nodes)| && ItemsOf(nodes)[k].i == Some(j)
    ensures j < |DirectOf(nodes)| && Ascends(DirectOf(nodes)[j])
    ensures ChildrenMatch(Paths(nodes, [], 0), Indices(ItemsOf(nodes)), k, DirectOf(nodes)[j])
  {
    var items := ItemsOf(nodes);
    ChildrenMatchAll(nodes, None, 0, [], 0);
    assert DirectEach(items)[k] == NumbersOf(items[k].children);
    NumberingsAgree(nodes, None, 0);
    NumberedExact(items, Preorder(nodes), 0);
    RootAddsNoNumber(VisitAll(nodes, None, 0).0);
    TreeIsWired(nodes, None, 0);
    assert items[k] in items && Wired(items[k]);
    NumbersOfRising(items[k].children);
  }

  // ---------------------------------------------------------------- the numbering code

  /** The recursive walk with one shared counter. */
  class TreeIndexer {
    var counter: nat

    constructor ()
      ensures counter == 0
    {
      counter := 0;
    }

    method VisitNode(node: Node, parent: Option<nat>) returns (item: Item)
      modifies this
      ensures (item, counter) == Visit(node, parent, old(counter))
      decreases node, 1
    {
      var i: Option<nat> := None;
      if Meaningful(node.attrs) {
        i := Some(counter);
        counter := counter + 1;
      }
      var children := VisitList(node.children, if i.Some? then i else parent);
      item := Item(i, parent, children);
    }

    method VisitList(nodes: seq<Node>, parent: Option<nat>) returns (items: seq<Item>)
      modifies this
      ensures (items, counter) == VisitAll(nodes, parent, old(counter))
      decreases nodes, 0
    {
      items := [];
      assert nodes[0..] == nodes;
      assert items + VisitAll(nodes, parent, counter).0 == VisitAll(nodes, parent, counter).0;
      for k := 0 to |nodes|
        invariant |items| == k
        invariant var (rest, after) := VisitAll(nodes[k..], parent, counter);
                  (items + rest, after) == VisitAll(nodes, parent, old(counter))
      {
        ghost var at := counter;
        assert nodes[k..][1..] == nodes[k + 1..];
        var item := VisitNode(nodes[k], parent);
        ghost var rest := VisitAll(nodes[k + 1..], parent, counter).0;
        assert VisitAll(nodes[k..], parent, at).0 == [item] + rest;
        assert items + ([item] + rest) == (items + [item]) + rest;
        items := items + [item];
      }
      assert items + [] == items;
    }
  }

  /** The flat scan, and the numbers it hands out in document order. */
  method Scan(nodes: seq<Node>) returns (numbers: seq<Option<nat>>)
    ensures numbers == ScanFrom(Preorder(nodes), 0)
  {
    var flat, i := Preorder(nodes), 0;
    numbers := [];
    for k := 0 to |flat|
      invariant numbers + ScanFrom(flat[k..], i) == ScanFrom(flat, 0)
    {
      Associates(numbers, [Own(flat[k], i)], ScanFrom(flat[k + 1..], i + Weight(flat[k])));
      if Meaningful(flat[k].attrs) {
        numbers := numbers + [Some(i)];
        i := i + 1;
      } else {
        numbers := numbers + [None];
      }
    }
  }
}
