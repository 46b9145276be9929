/**
 * The request-type picker: a recursive walk that flattens the category tree into
 * groups, the scoped subtree search, and the exclusion filter. Names are compared
 * by a parameter, any total preorder.
 */
module CatalogTree {
  import opened Common
  import opened Sorting

  datatype RequestType = RequestType(id: string, name: string, description: Option<string>, displayOrder: int)

  datatype Category = Category(id: string, name: string, displayOrder: int, requestTypes: seq<RequestType>, children: seq<Category>)

  datatype Item = Item(id: string, name: string, description: Option<string>)

  datatype Group = Group(categoryId: string, path: seq<string>, items: seq<Item>)

  type NameOrder = (string, string) -> bool

  function Siblings(le: NameOrder): (Category, Category) -> bool {
    (a: Category, b: Category) => a.displayOrder < b.displayOrder || (a.displayOrder == b.displayOrder && le(a.name, b.name))
  }

  function TypeOrder(le: NameOrder): (RequestType, RequestType) -> bool {
    (a: RequestType, b: RequestType) => a.displayOrder < b.displayOrder || (a.displayOrder == b.displayOrder && le(a.name, b.name))
  }

  function ToItem(): RequestType -> Item { (t: RequestType) => Item(t.id, t.name, t.description) }

  /** The group of one category, if it has request types. */
  function Own(le: NameOrder, node: Category, path: seq<string>): seq<Group> {
    if node.requestTypes == [] then []
    else [Group(node.id, path, Map(ToItem(), Sort(TypeOrder(le), node.requestTypes)))]
  }

  // ----- the simple form -------------------------------------------------------

  /** Groups in preorder, siblings as they come, each with its path from the root. */
  function Groups(le: NameOrder, node: Category, parent: seq<string>): seq<Group>
    decreases node, 1
  {
    var path := parent + [node.name];
    Own(le, node, path) + ForestGroups(le, node.children, path)
  }

  function ForestGroups(le: NameOrder, nodes: seq<Category>, parent: seq<string>): seq<Group>
    decreases nodes, 0
  {
    if nodes == [] then [] else Groups(le, nodes[0], parent) + ForestGroups(le, nodes[1..], parent)
  }

  /** The tree with every sibling list sorted. */
  function Ordered(le: NameOrder, node: Category): Category
    decreases node, 1
  {
    node.(children := Sort(Siblings(le), EachOrdered(le, node.children)))
  }

  function EachOrdered(le: NameOrder, nodes: seq<Category>): (r: seq<Category>)
    ensures |r| == |nodes|
    ensures forall i :: 0 <= i < |r| ==> r[i] == Ordered(le, nodes[i])
    decreases nodes, 0
  {
    if nodes == [] then [] else [Ordered(le, nodes[0])] + EachOrdered(le, nodes[1..])
  }

  function OrderedForest(le: NameOrder, nodes: seq<Category>): seq<Category> {
    Sort(Siblings(le), EachOrdered(le, nodes))
  }

  /** What `flattenTree` returns. */
  function Flattened(le: NameOrder, tree: seq<Category>): seq<Group> {
    ForestGroups(le, OrderedForest(le, tree), [])
  }

  lemma {:induction false} ForestAppend(le: NameOrder, xs: seq<Category>, ys: seq<Category>, parent: seq<string>)
    ensures ForestGroups(le, xs + ys, parent) == ForestGroups(le, xs, parent) + ForestGroups(le, ys, parent)
  {
    if xs == [] {
      assert xs + ys == ys;
    } else {
      assert (xs + ys)[1..] == xs[1..] + ys;
      ForestAppend(le, xs[1..], ys, parent);
    }
  }

  function OrderEach(le: NameOrder): Category -> Category { (c: Category) => Ordered(le, c) }

  lemma MapIsEach(le: NameOrder, nodes: seq<Category>)
    ensures Map(OrderEach(le), nodes) == EachOrdered(le, nodes)
  {
    hide Ordered;
  }

  lemma OrderedCompares(le: NameOrder)
    ensures forall a, b :: Siblings(le)(OrderEach(le)(a), OrderEach(le)(b)) == Siblings(le)(a, b)
  {
    hide Sort;
  }

  /** Ordering the subtrees does not change how siblings compare, so the two sorts commute. */
  lemma OrderedSorted(le: NameOrder, nodes: seq<Category>)
    ensures OrderedForest(le, nodes) == EachOrdered(le, Sort(Siblings(le), nodes))
  {
    hide Ordered, Sort, Siblings, OrderEach, EachOrdered;
    OrderedCompares(le);
    SortMap(OrderEach(le), Siblings(le), Siblings(le), nodes);
    MapIsEach(le, nodes);
    MapIsEach(le, Sort(Siblings(le), nodes));
  }

  lemma GroupsOfOrdered(le: NameOrder, node: Category, parent: seq<string>)
    ensures Groups(le, Ordered(le, node), parent) ==
            Own(le, node, parent + [node.name]) + ForestGroups(le, OrderedForest(le, node.children), parent + [node.name])
  {
    hide Sort, ForestGroups;
  }

  lemma SortedMember(le: NameOrder, nodes: seq<Category>, i: nat)
    requires i < |Sort(Siblings(le), nodes)|
    ensures Sort(Siblings(le), nodes)[i] in nodes
  {
    SortPermutes(Siblings(le), nodes);
    assert Sort(Siblings(le), nodes)[i] in multiset(nodes);
  }

  // ----- the walk --------------------------------------------------------------

  class Flattener {
    var groups: seq<Group>

    constructor ()
      ensures groups == []
    {
      groups := [];
    }

    method Walk(le: NameOrder, node: Category, parent: seq<string>)
      modifies this
      ensures groups == old(groups) + Groups(le, Ordered(le, node), parent)
      decreases node, 1
    {
      hide Sort, Ordered, Groups, ForestGroups, OrderedForest;
      var path := parent + [node.name];
      GroupsOfOrdered(le, node, parent);
      if |node.requestTypes| > 0 {
        groups := groups + [Group(node.id, path, Map(ToItem(), Sort(TypeOrder(le), node.requestTypes)))];
      }
      assert groups == old(groups) + Own(le, node, path);
      WalkForest(le, node.children, path);
    }

    method WalkForest(le: NameOrder, nodes: seq<Category>, parent: seq<string>)
      modifies this
      ensures groups == old(groups) + ForestGroups(le, OrderedForest(le, nodes), parent)
      decreases nodes, 0
    {
      hide Sort, Ordered, Groups, ForestGroups, OrderedForest;
      var sorted := Sort(Siblings(le), nodes);
      OrderedSorted(le, nodes);
      var ordered := EachOrdered(le, sorted);
      NoGroups(le, parent);
      assert ordered[..0] == [];
      for i := 0 to |sorted|
        invariant groups == old(groups) + ForestGroups(le, ordered[..i], parent)
      {
        SortedMember(le, nodes, i);
        assert ordered[..i + 1] == ordered[..i] + [ordered[i]];
        ForestSnoc(le, ordered[..i], ordered[i], parent);
        Walk(le, sorted[i], parent);
      }
      assert ordered[..|sorted|] == ordered;
    }
  }

  lemma NoGroups(le: NameOrder, parent: seq<string>)
    ensures ForestGroups(le, [], parent) == []
  {
  }

  lemma ForestSnoc(le: NameOrder, nodes: seq<Category>, node: Category, parent: seq<string>)
    ensures ForestGroups(le, nodes + [node], parent) == ForestGroups(le, nodes, parent) + Groups(le, node, parent)
  {
    ForestAppend(le, nodes, [node], parent);
    assert [node][1..] == [];
    assert ForestGroups(le, [node], parent) == Groups(le, node, parent);
  }

  /** `flattenTree`. */
  method FlattenTree(le: NameOrder, tree: seq<Category>) returns (groups: seq<Group>)
    ensures groups == Flattened(le, tree)
  {
    var f := new Flattener();
    f.WalkForest(le, tree, []);
    groups := f.groups;
  }

  // ----- sorting loses nothing -------------------------------------------------

  lemma {:induction false} ForestPermutes(le: NameOrder, xs: seq<Category>, ys: seq<Category>, parent: seq<string>)
    requires multiset(xs) == multiset(ys)
    ensures multiset(ForestGroups(le, xs, parent)) == multiset(ForestGroups(le, ys, parent))
    decreases |xs|
  {
    if xs == [] {
      OnlyEmptyPermutes(ys);
    } else {
      hide Groups, ForestGroups;
      var before, after := TakeOut(xs, ys);
      ForestPermutes(le, xs[1..], before + after, parent);
      ForestAppend(le, before, [xs[0]] + after, parent);
      ForestCons(le, xs[0], after, parent);
      ForestAppend(le, before, after, parent);
      ForestCons(le, xs[0], xs[1..], parent);
    }
  }

  lemma ForestCons(le: NameOrder, node: Category, nodes: seq<Category>, parent: seq<string>)
    ensures ForestGroups(le, [node] + nodes, parent) == Groups(le, node, parent) + ForestGroups(le, nodes, parent)
  {
    assert ([node] + nodes)[1..] == nodes;
  }

  lemma {:induction false} OrderedKeepsGroups(le: NameOrder, node: Category, parent: seq<string>)
    ensures multiset(Groups(le, Ordered(le, node), parent)) == multiset(Groups(le, node, parent))
    decreases node, 2
  {
    GroupsOfOrdered(le, node, parent);
    OrderedForestKeepsGroups(le, node.children, parent + [node.name]);
  }

  lemma {:induction false} OrderedForestKeepsGroups(le: NameOrder, nodes: seq<Category>, parent: seq<string>)
    ensures multiset(ForestGroups(le, OrderedForest(le, nodes), parent)) == multiset(ForestGroups(le, nodes, parent))
    decreases nodes, 1
  {
    hide Sort;
    SortPermutes(Siblings(le), EachOrdered(le, nodes));
    ForestPermutes(le, OrderedForest(le, nodes), EachOrdered(le, nodes), parent);
    EachKeepsGroups(le, nodes, parent);
  }

  lemma {:induction false} EachKeepsGroups(le: NameOrder, nodes: seq<Category>, parent: seq<string>)
    ensures multiset(ForestGroups(le, EachOrdered(le, nodes), parent)) == multiset(ForestGroups(le, nodes, parent))
    decreases nodes, 0
  {
    hide Sort, Groups, Ordered;
    if nodes != [] {
      OrderedKeepsGroups(le, nodes[0], parent);
      EachKeepsGroups(le, nodes[1..], parent);
      ForestCons(le, Ordered(le, nodes[0]), EachOrdered(le, nodes[1..]), parent);
    }
  }

  function Items(groups: seq<Group>): seq<Item> {
    if groups == [] then [] else groups[0].items + Items(groups[1..])
  }

  /** All request types of the tree, as they come. */
  function TreeItems(node: Category): seq<Item>
    decreases node, 1
  {
    Map(ToItem(), node.requestTypes) + ForestItems(node.children)
  }

  function ForestItems(nodes: seq<Category>): seq<Item>
    decreases nodes, 0
  {
    if nodes == [] then [] else TreeItems(nodes[0]) + ForestItems(nodes[1..])
  }

  lemma {:induction false} ItemsAppend(g: seq<Group>, h: seq<Group>)
    ensures Items(g + h) == Items(g) + Items(h)
  {
    if g == [] {
      assert g + h == h;
    } else {
      assert (g + h)[1..] == g[1..] + h;
      ItemsAppend(g[1..], h);
    }
  }

  lemma {:induction false} ItemsPermute(g: seq<Group>, h: seq<Group>)
    requires multiset(g) == multiset(h)
    ensures multiset(Items(g)) == multiset(Items(h))
    decreases |g|
  {
    if g == [] {
      OnlyEmptyPermutes(h);
    } else {
      hide Items;
      var before, after := TakeOut(g, h);
      ItemsPermute(g[1..], before + after);
      ItemsAppend(before, [g[0]] + after);
      ItemsAppend([g[0]], after);
      ItemsAppend(before, after);
      ItemsAppend([g[0]], g[1..]);
    }
  }

  lemma OwnItems(le: NameOrder, node: Category, path: seq<string>)
    ensures multiset(Items(Own(le, node, path))) == multiset(Map(ToItem(), node.requestTypes))
  {
    hide Sort;
    if node.requestTypes != [] {
      SortPermutes(TypeOrder(le), node.requestTypes);
      MapPermutes(ToItem(), Sort(TypeOrder(le), node.requestTypes), node.requestTypes);
      assert Own(le, node, path)[1..] == [];
    }
  }

  lemma {:induction false} GroupItems(le: NameOrder, node: Category, parent: seq<string>)
    ensures multiset(Items(Groups(le, node, parent))) == multiset(TreeItems(node))
    decreases node, 1
  {
    hide Own, Items;
    var path := parent + [node.name];
    OwnItems(le, node, path);
    ForestGroupItems(le, node.children, path);
    ItemsAppend(Own(le, node, path), ForestGroups(le, node.children, path));
  }

  lemma {:induction false} ForestGroupItems(le: NameOrder, nodes: seq<Category>, parent: seq<string>)
    ensures multiset(Items(ForestGroups(le, nodes, parent))) == multiset(ForestItems(nodes))
    decreases nodes, 0
  {
    if nodes != [] {
      hide Groups, TreeItems;
      GroupItems(le, nodes[0], parent);
      ForestGroupItems(le, nodes[1..], parent);
      ItemsAppend(Groups(le, nodes[0], parent), ForestGroups(le, nodes[1..], parent));
    }
  }

  ghost predicate SiblingsSorted(le: NameOrder, node: Category)
    decreases node
  {
    SiblingsAscend(le, node.children) && forall c :: c in node.children ==> SiblingsSorted(le, c)
  }

  /** By display order, then by name. */
  ghost predicate SiblingsAscend(le: NameOrder, nodes: seq<Category>) {
    forall i, j :: 0 <= i < j < |nodes| ==>
      || nodes[i].displayOrder < nodes[j].displayOrder
      || (nodes[i].displayOrder == nodes[j].displayOrder && le(nodes[i].name, nodes[j].name))
  }

  ghost predicate TypesAscend(le: NameOrder, types: seq<RequestType>) {
    forall i, j :: 0 <= i < j < |types| ==>
      || types[i].displayOrder < types[j].displayOrder
      || (types[i].displayOrder == types[j].displayOrder && le(types[i].name, types[j].name))
  }

  lemma SortedAscends(le: NameOrder, nodes: seq<Category>, types: seq<RequestType>)
    ensures Sorted(Siblings(le), nodes) ==> SiblingsAscend(le, nodes)
    ensures Sorted(TypeOrder(le), types) ==> TypesAscend(le, types)
  {
    var f, g := Siblings(le), TypeOrder(le);
    if Sorted(f, nodes) { assert forall i, j :: 0 <= i < j < |nodes| ==> f(nodes[i], nodes[j]); }
    if Sorted(g, types) { assert forall i, j :: 0 <= i < j < |types| ==> g(types[i], types[j]); }
  }

  lemma SiblingsIsPreorder(le: NameOrder)
    requires TotalPreorder(le)
    ensures TotalPreorder(Siblings(le))
  {
    var f := Siblings(le);
    assert forall a, b :: f(a, b) <==> a.displayOrder < b.displayOrder || (a.displayOrder == b.displayOrder && le(a.name, b.name));
  }

  /** Every sibling list of the ordered tree ascends by display order, then by name. */
  lemma {:induction false} OrderedIsSorted(le: NameOrder, node: Category)
    requires TotalPreorder(le)
    ensures SiblingsSorted(le, Ordered(le, node))
    decreases node
  {
    hide TotalPreorder, Sort, Sorted, SiblingsAscend;
    SiblingsIsPreorder(le);
    var each := EachOrdered(le, node.children);
    SortSorts(Siblings(le), each);
    SortedAscends(le, Ordered(le, node).children, []);
    SortPermutes(Siblings(le), each);
    forall c | c in Ordered(le, node).children ensures SiblingsSorted(le, c) {
      assert c in multiset(Ordered(le, node).children);
      assert c in each;
      var i :| 0 <= i < |each| && each[i] == c;
      OrderedIsSorted(le, node.children[i]);
    }
  }

  lemma ForestIsSorted(le: NameOrder, nodes: seq<Category>)
    requires TotalPreorder(le)
    ensures SiblingsAscend(le, OrderedForest(le, nodes))
    ensures forall c :: c in OrderedForest(le, nodes) ==> SiblingsSorted(le, c)
  {
    hide TotalPreorder, Sort, Sorted, SiblingsSorted, Ordered, SiblingsAscend;
    SiblingsIsPreorder(le);
    var each := EachOrdered(le, nodes);
    SortSorts(Siblings(le), each);
    SortedAscends(le, OrderedForest(le, nodes), []);
    SortPermutes(Siblings(le), each);
    forall c | c in OrderedForest(le, nodes) ensures SiblingsSorted(le, c) {
      assert c in multiset(OrderedForest(le, nodes));
      assert c in each;
      var i :| 0 <= i < |each| && each[i] == c;
      OrderedIsSorted(le, nodes[i]);
    }
  }

  /** The items show these request types, one by one. */
  ghost predicate Show(items: seq<Item>, types: seq<RequestType>) {
    |items| == |types| && forall i :: 0 <= i < |items| ==> items[i] == Item(types[i].id, types[i].name, types[i].description)
  }

  /** The group lists the request types of this category, all of them, by display order, then by name. */
  ghost predicate ListsTypesOf(le: NameOrder, g: Group, n: Category) {
    && g.categoryId == n.id
    && exists types :: multiset(types) == multiset(n.requestTypes) && TypesAscend(le, types) && Show(g.items, types)
  }

  /** A place in the tree: which root, which child of it, and so on. */
  predicate IsPlace(nodes: seq<Category>, place: seq<nat>)
    decreases place
  {
    place != [] && place[0] < |nodes| && (|place| == 1 || IsPlace(nodes[place[0]].children, place[1..]))
  }

  function CategoryAt(nodes: seq<Category>, place: seq<nat>): Category
    requires IsPlace(nodes, place)
    decreases place
  {
    if |place| == 1 then nodes[place[0]] else CategoryAt(nodes[place[0]].children, place[1..])
  }

  /** The names from the root down to the place. */
  function NamesTo(nodes: seq<Category>, place: seq<nat>): seq<string>
    requires IsPlace(nodes, place)
    decreases place
  {
    [nodes[place[0]].name] + if |place| == 1 then [] else NamesTo(nodes[place[0]].children, place[1..])
  }

  /** The group of the category at this place, under its names from the root. */
  ghost predicate GroupOfPlace(le: NameOrder, g: Group, nodes: seq<Category>, place: seq<nat>, parent: seq<string>) {
    && IsPlace(nodes, place)
    && CategoryAt(nodes, place).requestTypes != []
    && ListsTypesOf(le, g, CategoryAt(nodes, place))
    && g.path == parent + NamesTo(nodes, place)
  }

  function Below(place: seq<nat>): seq<nat> { [0] + place }

  function Beside(place: seq<nat>): seq<nat>
    requires place != []
  {
    [place[0] + 1] + place[1..]
  }

  lemma PlaceBelow(nodes: seq<Category>, place: seq<nat>)
    requires nodes != [] && IsPlace(nodes[0].children, place)
    ensures IsPlace(nodes, Below(place))
    ensures CategoryAt(nodes, Below(place)) == CategoryAt(nodes[0].children, place)
    ensures NamesTo(nodes, Below(place)) == [nodes[0].name] + NamesTo(nodes[0].children, place)
  {
    assert Below(place)[1..] == place;
  }

  lemma PlaceBeside(nodes: seq<Category>, place: seq<nat>)
    requires nodes != [] && IsPlace(nodes[1..], place)
    ensures place != [] && IsPlace(nodes, Beside(place))
    ensures CategoryAt(nodes, Beside(place)) == CategoryAt(nodes[1..], place)
    ensures NamesTo(nodes, Beside(place)) == NamesTo(nodes[1..], place)
  {
    assert Beside(place)[1..] == place[1..];
  }

  lemma RootPlace(nodes: seq<Category>)
    requires nodes != []
    ensures IsPlace(nodes, [0]) && CategoryAt(nodes, [0]) == nodes[0] && NamesTo(nodes, [0]) == [nodes[0].name]
  {
  }

  lemma PlaceCases(nodes: seq<Category>, place: seq<nat>)
    requires IsPlace(nodes, place)
    ensures nodes != []
    ensures || place == [0]
            || (exists p :: place == Below(p) && IsPlace(nodes[0].children, p))
            || (exists p :: p != [] && place == Beside(p) && IsPlace(nodes[1..], p))
  {
    if place[0] > 0 {
      var p := [place[0] - 1] + place[1..];
      assert p[1..] == place[1..];
      assert place == Beside(p);
    } else if |place| > 1 {
      assert place == Below(place[1..]);
    }
  }

  lemma GroupBelow(le: NameOrder, g: Group, nodes: seq<Category>, place: seq<nat>, parent: seq<string>)
    requires nodes != [] && GroupOfPlace(le, g, nodes[0].children, place, parent + [nodes[0].name])
    ensures GroupOfPlace(le, g, nodes, Below(place), parent)
  {
    hide ListsTypesOf, IsPlace, CategoryAt, NamesTo;
    PlaceBelow(nodes, place);
    assert parent + [nodes[0].name] + NamesTo(nodes[0].children, place) == parent + ([nodes[0].name] + NamesTo(nodes[0].children, place));
  }

  lemma GroupBeside(le: NameOrder, g: Group, nodes: seq<Category>, place: seq<nat>, parent: seq<string>)
    requires nodes != [] && GroupOfPlace(le, g, nodes[1..], place, parent)
    ensures place != [] && GroupOfPlace(le, g, nodes, Beside(place), parent)
  {
    hide ListsTypesOf, IsPlace, CategoryAt, NamesTo;
    PlaceBeside(nodes, place);
  }

  lemma WhereGroupsComeFrom(le: NameOrder, nodes: seq<Category>, parent: seq<string>, g: Group)
    requires nodes != []
    ensures var path := parent + [nodes[0].name];
            g in ForestGroups(le, nodes, parent) <==>
            g in Own(le, nodes[0], path) || g in ForestGroups(le, nodes[0].children, path) || g in ForestGroups(le, nodes[1..], parent)
  {
    hide Own;
  }

  lemma TypeOrderIsPreorder(le: NameOrder)
    requires TotalPreorder(le)
    ensures TotalPreorder(TypeOrder(le))
  {
    var f := TypeOrder(le);
    assert forall a, b :: f(a, b) <==> a.displayOrder < b.displayOrder || (a.displayOrder == b.displayOrder && le(a.name, b.name));
  }

  lemma OwnListsTypes(le: NameOrder, node: Category, path: seq<string>)
    requires TotalPreorder(le)
    ensures forall g :: g in Own(le, node, path) ==> g.path == path && node.requestTypes != [] && ListsTypesOf(le, g, node)
    ensures node.requestTypes != [] ==> |Own(le, node, path)| == 1
  {
    TypeOrderIsPreorder(le);
    var sorted := Sort(TypeOrder(le), node.requestTypes);
    SortSorts(TypeOrder(le), node.requestTypes);
    SortPermutes(TypeOrder(le), node.requestTypes);
    SortedAscends(le, [], sorted);
    hide TotalPreorder, Sort, Sorted, TypeOrder, TypesAscend;
    assert Show(Map(ToItem(), sorted), sorted);
  }

  lemma RootGroup(le: NameOrder, nodes: seq<Category>, parent: seq<string>, g: Group)
    requires TotalPreorder(le) && nodes != [] && g in Own(le, nodes[0], parent + [nodes[0].name])
    ensures GroupOfPlace(le, g, nodes, [0], parent)
  {
    OwnListsTypes(le, nodes[0], parent + [nodes[0].name]);
    hide TotalPreorder, Own, ListsTypesOf;
    RootPlace(nodes);
  }

  /** Every group is the group of some place. */
  lemma {:induction false} GroupsHavePlaces(le: NameOrder, nodes: seq<Category>, parent: seq<string>, g: Group) returns (place: seq<nat>)
    requires TotalPreorder(le) && g in ForestGroups(le, nodes, parent)
    ensures GroupOfPlace(le, g, nodes, place, parent)
    decreases nodes
  {
    assert nodes != [];
    hide TotalPreorder, Own, ForestGroups, GroupOfPlace;
    var path := parent + [nodes[0].name];
    WhereGroupsComeFrom(le, nodes, parent, g);
    if g in Own(le, nodes[0], path) {
      RootGroup(le, nodes, parent, g);
      place := [0];
    } else if g in ForestGroups(le, nodes[0].children, path) {
      var below := GroupsHavePlaces(le, nodes[0].children, path, g);
      GroupBelow(le, g, nodes, below, parent);
      place := Below(below);
    } else {
      var beside := GroupsHavePlaces(le, nodes[1..], parent, g);
      GroupBeside(le, g, nodes, beside, parent);
      place := Beside(beside);
    }
  }

  /** Every place with request types has its group. */
  lemma {:induction false} PlacesHaveGroups(le: NameOrder, nodes: seq<Category>, parent: seq<string>, place: seq<nat>) returns (g: Group)
    requires TotalPreorder(le) && IsPlace(nodes, place) && CategoryAt(nodes, place).requestTypes != []
    ensures g in ForestGroups(le, nodes, parent) && GroupOfPlace(le, g, nodes, place, parent)
    decreases nodes
  {
    PlaceCases(nodes, place);
    hide TotalPreorder, Own, ForestGroups, GroupOfPlace, IsPlace, CategoryAt;
    var path := parent + [nodes[0].name];
    if place == [0] {
      RootPlace(nodes);
      OwnListsTypes(le, nodes[0], path);
      g := Own(le, nodes[0], path)[0];
      RootGroup(le, nodes, parent, g);
    } else if below :| place == Below(below) && IsPlace(nodes[0].children, below) {
      PlaceBelow(nodes, below);
      g := PlacesHaveGroups(le, nodes[0].children, path, below);
      GroupBelow(le, g, nodes, below, parent);
    } else {
      var beside :| beside != [] && place == Beside(beside) && IsPlace(nodes[1..], beside);
      PlaceBeside(nodes, beside);
      g := PlacesHaveGroups(le, nodes[1..], parent, beside);
      GroupBeside(le, g, nodes, beside, parent);
    }
    WhereGroupsComeFrom(le, nodes, parent, g);
  }

  /**
   * The order of the result, and what is in it. The walked tree ascends at the root and
   * below. Every group is that of one place of the tree, under the names from the root,
   * with exactly its request types in order; and every place with request types has one.
   */
  lemma FlatteningSorts(le: NameOrder, tree: seq<Category>)
    requires TotalPreorder(le)
    ensures SiblingsAscend(le, OrderedForest(le, tree))
    ensures forall c :: c in OrderedForest(le, tree) ==> SiblingsSorted(le, c)
    ensures forall g :: g in Flattened(le, tree) ==> exists place :: GroupOfPlace(le, g, tree, place, [])
    ensures forall place :: IsPlace(tree, place) && CategoryAt(tree, place).requestTypes != [] ==>
              exists g :: g in Flattened(le, tree) && GroupOfPlace(le, g, tree, place, [])
  {
    hide TotalPreorder, SiblingsAscend, SiblingsSorted, OrderedForest, GroupOfPlace, ForestGroups, Flattened, CategoryAt, IsPlace;
    ForestIsSorted(le, tree);
    FlatteningPermutes(le, tree);
    forall g | g in Flattened(le, tree) ensures exists place :: GroupOfPlace(le, g, tree, place, []) {
      assert g in multiset(Flattened(le, tree));
      assert g in ForestGroups(le, tree, []);
      var place := GroupsHavePlaces(le, tree, [], g);
    }
    forall place | IsPlace(tree, place) && CategoryAt(tree, place).requestTypes != []
      ensures exists g :: g in Flattened(le, tree) && GroupOfPlace(le, g, tree, place, [])
    {
      var g := PlacesHaveGroups(le, tree, [], place);
      assert g in multiset(ForestGroups(le, tree, []));
      assert g in Flattened(le, tree);
    }
  }

  /**
   * Flattening loses, adds and repeats nothing: its groups are, up to order, one
   * per category with request types, each under its path from the root, and its
   * items are all request types of the tree.
   */
  lemma FlatteningPermutes(le: NameOrder, tree: seq<Category>)
    ensures multiset(Flattened(le, tree)) == multiset(ForestGroups(le, tree, []))
    ensures multiset(Items(Flattened(le, tree))) == multiset(ForestItems(tree))
  {
    hide ForestGroups, OrderedForest, Items, ForestItems;
    OrderedForestKeepsGroups(le, tree, []);
    ItemsPermute(Flattened(le, tree), ForestGroups(le, tree, []));
    ForestGroupItems(le, tree, []);
  }

  // ----- scope and exclusion ---------------------------------------------------

  /** The recursive search for the category a picker is scoped to. */
  function Find(nodes: seq<Category>, id: string): Option<Category>
    decreases nodes
  {
    if nodes == [] then None
    else if nodes[0].id == id then Some(nodes[0])
    else
      var hit := Find(nodes[0].children, id);
      if hit.Some? then hit else Find(nodes[1..], id)
  }

  /** Every category of the tree in preorder, as it comes. */
  function AllNodes(nodes: seq<Category>): seq<Category>
    decreases nodes
  {
    if nodes == [] then [] else [nodes[0]] + AllNodes(nodes[0].children) + AllNodes(nodes[1..])
  }

  function FirstWithId(nodes: seq<Category>, id: string): (r: Option<Category>)
    ensures r.None? <==> forall n :: n in nodes ==> n.id != id
    ensures r.Some? ==> r.value in nodes && r.value.id == id
  {
    if nodes == [] then None else if nodes[0].id == id then Some(nodes[0]) else FirstWithId(nodes[1..], id)
  }

  lemma {:induction false} FirstWithIdAppend(xs: seq<Category>, ys: seq<Category>, id: string)
    ensures FirstWithId(xs + ys, id) == if FirstWithId(xs, id).Some? then FirstWithId(xs, id) else FirstWithId(ys, id)
  {
    if xs == [] {
      assert xs + ys == ys;
    } else {
      assert (xs + ys)[1..] == xs[1..] + ys;
      FirstWithIdAppend(xs[1..], ys, id);
    }
  }

  /** The search finds a category exactly when the tree has one with that id, and it finds the first in preorder. */
  lemma {:induction false} FindIsFirstInPreorder(nodes: seq<Category>, id: string)
    ensures Find(nodes, id) == FirstWithId(AllNodes(nodes), id)
    decreases nodes
  {
    if nodes != [] {
      var node := nodes[0];
      FindIsFirstInPreorder(node.children, id);
      FindIsFirstInPreorder(nodes[1..], id);
      hide FirstWithId;
      FirstWithIdAppend([node] + AllNodes(node.children), AllNodes(nodes[1..]), id);
      FirstWithIdAppend([node], AllNodes(node.children), id);
      SingleWithId(node, id);
    }
  }

  lemma SingleWithId(node: Category, id: string)
    ensures FirstWithId([node], id) == if node.id == id then Some(node) else None
  {
  }

  function Scoped(tree: seq<Category>, root: Option<string>): seq<Category> {
    if root.None? || root.value == "" then tree
    else match Find(tree, root.value) case None => [] case Some(node) => [node]
  }

  /** Without a scope the whole tree; with one, the first category in preorder that has the id, or nothing. */
  lemma ScopedExactly(tree: seq<Category>, root: Option<string>)
    ensures root == None || root == Some("") ==> Scoped(tree, root) == tree
    ensures root.Some? && root.value != "" ==>
              var first := FirstWithId(AllNodes(tree), root.value);
              Scoped(tree, root) == if first.Some? then [first.value] else []
  {
    if root.Some? { FindIsFirstInPreorder(tree, root.value); }
  }

  function Keep(items: seq<Item>, excluded: set<string>): seq<Item> {
    if items == [] then []
    else (if items[0].id in excluded then [] else [items[0]]) + Keep(items[1..], excluded)
  }

  function Exclude(groups: seq<Group>, excluded: set<string>): seq<Group> {
    if groups == [] then []
    else
      var kept := Keep(groups[0].items, excluded);
      (if kept == [] then [] else [groups[0].(items := kept)]) + Exclude(groups[1..], excluded)
  }

  /** The groups the picker offers. */
  function Offered(le: NameOrder, tree: seq<Category>, root: Option<string>, excludeIds: seq<string>): seq<Group> {
    var raw := Flattened(le, Scoped(tree, root));
    if excludeIds == [] then raw else Exclude(raw, set id | id in excludeIds)
  }

  lemma {:induction false} KeepAppend(xs: seq<Item>, ys: seq<Item>, excluded: set<string>)
    ensures Keep(xs + ys, excluded) == Keep(xs, excluded) + Keep(ys, excluded)
  {
    if xs == [] {
      assert xs + ys == ys;
    } else {
      assert (xs + ys)[1..] == xs[1..] + ys;
      KeepAppend(xs[1..], ys, excluded);
    }
  }

  lemma {:induction false} KeepCount(items: seq<Item>, excluded: set<string>, x: Item)
    ensures multiset(Keep(items, excluded))[x] == if x.id in excluded then 0 else multiset(items)[x]
  {
    if items != [] {
      var rest := Keep(items[1..], excluded);
      KeepCount(items[1..], excluded, x);
      assert items == [items[0]] + items[1..];
      assert multiset(items) == multiset{items[0]} + multiset(items[1..]);
      if items[0].id in excluded {
        assert Keep(items, excluded) == rest;
      } else {
        assert multiset(Keep(items, excluded)) == multiset{items[0]} + multiset(rest);
      }
    }
  }

  lemma KeepPermutes(xs: seq<Item>, ys: seq<Item>, excluded: set<string>)
    requires multiset(xs) == multiset(ys)
    ensures multiset(Keep(xs, excluded)) == multiset(Keep(ys, excluded))
  {
    forall x ensures multiset(Keep(xs, excluded))[x] == multiset(Keep(ys, excluded))[x] {
      KeepCount(xs, excluded, x);
      KeepCount(ys, excluded, x);
    }
  }

  /** Exclusion removes exactly the excluded items, keeps the order of the rest, and leaves no empty group. */
  lemma {:induction false} ExclusionIsExact(groups: seq<Group>, excluded: set<string>)
    ensures Items(Exclude(groups, excluded)) == Keep(Items(groups), excluded)
    ensures forall x :: multiset(Items(Exclude(groups, excluded)))[x] == if x.id in excluded then 0 else multiset(Items(groups))[x]
    ensures forall g :: g in Exclude(groups, excluded) ==> g.items != []
  {
    forall x ensures multiset(Keep(Items(groups), excluded))[x] == if x.id in excluded then 0 else multiset(Items(groups))[x] {
      KeepCount(Items(groups), excluded, x);
    }
    if groups != [] {
      ExclusionIsExact(groups[1..], excluded);
      KeepAppend(groups[0].items, Items(groups[1..]), excluded);
      var kept := Keep(groups[0].items, excluded);
      hide Keep;
      if kept == [] {
        assert Exclude(groups, excluded) == Exclude(groups[1..], excluded);
      } else {
        assert Exclude(groups, excluded)[1..] == Exclude(groups[1..], excluded);
      }
    }
  }

  lemma {:induction false} KeepNothing(items: seq<Item>)
    ensures Keep(items, {}) == items
  {
    if items != [] { KeepNothing(items[1..]); }
  }

  lemma {:induction false} NoEmptyGroup(le: NameOrder, node: Category, parent: seq<string>)
    ensures forall g :: g in Groups(le, node, parent) ==> g.items != []
    decreases node, 1
  {
    NoEmptyGroups(le, node.children, parent + [node.name]);
    SortPermutes(TypeOrder(le), node.requestTypes);
    hide Sort;
    assert node.requestTypes != [] ==> Sort(TypeOrder(le), node.requestTypes) != [] by {
      assert |multiset(Sort(TypeOrder(le), node.requestTypes))| == |multiset(node.requestTypes)|;
    }
  }

  lemma {:induction false} NoEmptyGroups(le: NameOrder, nodes: seq<Category>, parent: seq<string>)
    ensures forall g :: g in ForestGroups(le, nodes, parent) ==> g.items != []
    decreases nodes, 0
  {
    if nodes != [] {
      NoEmptyGroup(le, nodes[0], parent);
      NoEmptyGroups(le, nodes[1..], parent);
    }
  }

  /**
   * What the picker offers: the request types under the scoped category that are
   * not excluded, each as often as the catalog lists it, and no empty group.
   */
  lemma PickerOffersExactly(le: NameOrder, tree: seq<Category>, root: Option<string>, excludeIds: seq<string>)
    ensures var groups := Offered(le, tree, root, excludeIds);
            && (forall x :: multiset(Items(groups))[x] ==
                  if x.id in excludeIds then 0 else multiset(ForestItems(Scoped(tree, root)))[x])
            && forall g :: g in groups ==> g.items != []
  {
    hide Items, Keep, Exclude, ForestItems, Scoped;
    var scoped, excluded := Scoped(tree, root), set id | id in excludeIds;
    var raw := Flattened(le, scoped);
    FlatteningPermutes(le, scoped);
    KeepPermutes(Items(raw), ForestItems(scoped), excluded);
    if excludeIds == [] {
      KeepNothing(Items(raw));
      assert excluded == {};
      NoEmptyGroups(le, OrderedForest(le, scoped), []);
    } else {
      ExclusionIsExact(raw, excluded);
    }
  }
}
