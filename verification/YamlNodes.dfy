/**
 The YAML merge on nodes that are updated in place: a node is overwritten, or its
 fields are merged, dropped and appended to, and the nodes taken over from `want`
 are shared with it, as in the source.
 */
module YamlNodes {
  import opened YamlMerge

  /** A key node, which a merge only moves, and the node of its value. */
  datatype Field<T(!new, ==)> = Field(form: T, comments: Comments<T>, key: T, value: YamlNode<T>)

  /** `head` is the node without a mapping's content; a sequence is only ever replaced whole. */
  class YamlNode<T(!new, ==)> {
    var head: Node<T>
    var fields: seq<Field<T>>
    ghost var repr: set<YamlNode<T>>

    /** A decoded node; the fields of a mapping come with the nodes decoded for them. */
    constructor (head: Node<T>, fields: seq<Field<T>>, ghost below: set<YamlNode<T>>)
      requires forall i :: 0 <= i < |fields| ==> fields[i].value.Valid() && fields[i].value.repr <= below
      requires forall i, j :: 0 <= i < j < |fields| ==> fields[i].value.repr !! fields[j].value.repr
      ensures Valid() && this.head == head && this.fields == fields && repr == {this} + below
    {
      this.head, this.fields := head, fields;
      repr := {this} + below;
    }

    /** A tree: the values below are valid, apart from each other, and do not lead back here. */
    ghost predicate Valid()
      reads this, repr
      decreases repr
    {
      && this in repr
      && (head.Mapping? ==>
            && (forall i :: 0 <= i < |fields| ==>
                  && fields[i].value in repr && fields[i].value.repr <= repr && this !in fields[i].value.repr
                  && fields[i].value.Valid())
            && (forall i, j :: 0 <= i < j < |fields| ==> fields[i].value.repr !! fields[j].value.repr))
    }

    ghost function Tree(): Node<T>
      requires Valid()
      reads this, repr
      decreases repr
    {
      if !head.Mapping? then head
      else
        Mapping(head.form, head.comments, seq(|fields|, i requires 0 <= i < |fields| && Valid() && head.Mapping? reads this, repr =>
          Entry(fields[i].form, fields[i].comments, fields[i].key, fields[i].value.Tree())))
    }

    /** Everything that is not a mapping merged with a mapping, or a scalar that stays. */
    method Replace(want: YamlNode<T>)
      requires Valid() && want.Valid() && repr !! want.repr
      modifies this
      ensures Valid() && want.Valid() && repr <= old(repr) + want.repr
      ensures Tree() == old(want.Tree()).(comments := old(Tree()).comments) && want.Tree() == old(want.Tree())
    {
      head, fields := want.head.(comments := head.comments), want.fields;
      repr := {this} + want.repr;
      assert Valid();
    }
  }

  // ------------------------------------------------------------------
  // Lists of nodes and the trees they stand for
  // ------------------------------------------------------------------

  function Values<T(!new, ==)>(fields: seq<Field<T>>): (r: seq<YamlNode<T>>)
    ensures |r| == |fields| && forall i :: 0 <= i < |r| ==> r[i] == fields[i].value
  {
    seq(|fields|, i requires 0 <= i < |fields| => fields[i].value)
  }

  /** `node` stands for `tree` and lives within `nodes`. */
  ghost predicate Holds<T(!new)>(node: YamlNode<T>, tree: Node<T>, nodes: set<YamlNode<T>>)
    reads node, node.repr
  {
    node.Valid() && node.Tree() == tree && node.repr <= nodes
  }

  ghost predicate AllHold<T(!new)>(values: seq<YamlNode<T>>, trees: seq<Node<T>>, nodes: seq<set<YamlNode<T>>>, from: nat)
    requires |values| == |trees| == |nodes|
    reads *
  {
    forall i :: from <= i < |values| ==> Holds(values[i], trees[i], nodes[i])
  }

  /** The entries of fields whose values stand for `trees`. */
  function Entries<T(!new, ==)>(fields: seq<Field<T>>, trees: seq<Node<T>>): (r: seq<Entry<T>>)
    requires |fields| == |trees|
    ensures |r| == |fields|
    ensures forall i :: 0 <= i < |r| ==> r[i] == Entry(fields[i].form, fields[i].comments, fields[i].key, trees[i])
  {
    seq(|fields|, i requires 0 <= i < |fields| => Entry(fields[i].form, fields[i].comments, fields[i].key, trees[i]))
  }

  ghost function TreesOf<T(!new)>(node: YamlNode<T>): (r: seq<Node<T>>)
    requires node.Valid() && node.head.Mapping?
    reads node, node.repr
    ensures |r| == |node.fields| && forall i :: 0 <= i < |r| ==> r[i] == node.fields[i].value.Tree()
  {
    seq(|node.fields|, i requires 0 <= i < |node.fields| && node.Valid() && node.head.Mapping? reads node, node.repr =>
      node.fields[i].value.Tree())
  }

  ghost function NodesOf<T(!new)>(node: YamlNode<T>): (r: seq<set<YamlNode<T>>>)
    requires node.Valid() && node.head.Mapping?
    reads node, node.repr
    ensures |r| == |node.fields| && forall i :: 0 <= i < |r| ==> r[i] == node.fields[i].value.repr
  {
    seq(|node.fields|, i requires 0 <= i < |node.fields| && node.Valid() && node.head.Mapping? reads node, node.repr =>
      node.fields[i].value.repr)
  }

  ghost predicate Apart<T(!new)>(nodes: seq<set<YamlNode<T>>>) {
    forall i, j :: 0 <= i < j < |nodes| ==> nodes[i] !! nodes[j]
  }

  /** A valid mapping, seen as the list of its values. */
  lemma OpenNode<T(!new)>(node: YamlNode<T>)
    requires node.Valid() && node.head.Mapping?
    ensures AllHold(Values(node.fields), TreesOf(node), NodesOf(node), 0) && Apart(NodesOf(node))
    ensures node.Tree() == Mapping(node.head.form, node.head.comments, Entries(node.fields, TreesOf(node)))
    ensures forall i :: 0 <= i < |NodesOf(node)| ==> NodesOf(node)[i] <= node.repr && node !in NodesOf(node)[i]
  {
  }

  /** And back: values that stand for trees, apart from each other and from the node, make it a valid mapping. */
  lemma CloseNode<T(!new)>(node: YamlNode<T>, trees: seq<Node<T>>, nodes: seq<set<YamlNode<T>>>)
    requires node.head.Mapping? && node in node.repr && |node.fields| == |trees| == |nodes|
    requires AllHold(Values(node.fields), trees, nodes, 0) && Apart(nodes)
    requires forall i :: 0 <= i < |nodes| ==> nodes[i] <= node.repr && node !in nodes[i]
    ensures node.Valid()
    ensures node.Tree() == Mapping(node.head.form, node.head.comments, Entries(node.fields, trees))
  {
    forall i | 0 <= i < |node.fields|
      ensures node.fields[i].value.Valid() && node.fields[i].value.repr <= nodes[i] && node.fields[i].value.Tree() == trees[i]
      ensures node.fields[i].value in node.fields[i].value.repr
    {
      assert Holds(Values(node.fields)[i], trees[i], nodes[i]);
    }
  }

  // ------------------------------------------------------------------
  // Room for each key
  // ------------------------------------------------------------------

  /** The nodes of two mappings, by key. */
  datatype Rooms<!T(!new, ==)> = Rooms(mine: seq<Entry<T>>, mineNodes: seq<set<YamlNode<T>>>,
                                      theirs: seq<Entry<T>>, theirNodes: seq<set<YamlNode<T>>>)
  {
    ghost predicate Ok() {
      && |mine| == |mineNodes| && |theirs| == |theirNodes| && Apart(mineNodes) && Apart(theirNodes)
      && forall i, j :: 0 <= i < |mineNodes| && 0 <= j < |theirNodes| ==> mineNodes[i] !! theirNodes[j]
    }

    ghost function Of(key: T): set<YamlNode<T>>
      requires Ok()
    {
      (if Has(mine, key) then mineNodes[Find(mine, key)] else {}) + (if Has(theirs, key) then theirNodes[Find(theirs, key)] else {})
    }
  }

  lemma RoomsApart<T(!new)>(rooms: Rooms<T>, one: T, other: T)
    requires rooms.Ok() && one != other
    ensures rooms.Of(one) !! rooms.Of(other)
  {
  }

  // ------------------------------------------------------------------
  // The merge
  // ------------------------------------------------------------------

  method MappingValue<T(!new, ==)>(fields: seq<Field<T>>, ghost trees: seq<Node<T>>, key: T) returns (at: nat)
    requires |fields| == |trees|
    ensures at == Find(Entries(fields, trees), key)
  {
    at := 0;
    while at < |fields| && fields[at].key != key
      invariant at <= |fields| && forall j :: 0 <= j < at ==> fields[j].key != key
    {
      at := at + 1;
    }
    ghost var entries := Entries(fields, trees);
    assert at < |fields| ==> entries[at].key == key;
    assert forall j :: 0 <= j < at ==> entries[j].key != key;
  }

  /** What holds of the fields kept so far. */
  ghost predicate Keeps<T(!new)>(rooms: Rooms<T>, kept: seq<Field<T>>, trees: seq<Node<T>>, nodes: seq<set<YamlNode<T>>>)
    reads *
  {
    && rooms.Ok() && |kept| == |trees| == |nodes| && AllHold(Values(kept), trees, nodes, 0)
    && forall m :: 0 <= m < |kept| ==> nodes[m] == rooms.Of(kept[m].key)
  }

  /** One more field with a key of its own. */
  lemma KeepsOneMore<T(!new)>(rooms: Rooms<T>, kept: seq<Field<T>>, trees: seq<Node<T>>, nodes: seq<set<YamlNode<T>>>,
                              field: Field<T>, tree: Node<T>)
    requires Keeps(rooms, kept, trees, nodes) && Holds(field.value, tree, rooms.Of(field.key))
    ensures Keeps(rooms, kept + [field], trees + [tree], nodes + [rooms.Of(field.key)])
    ensures Entries(kept + [field], trees + [tree]) == Entries(kept, trees) + [Entry(field.form, field.comments, field.key, tree)]
  {
    var values, more := Values(kept), Values(kept + [field]);
    forall i | 0 <= i < |more| ensures Holds(more[i], (trees + [tree])[i], (nodes + [rooms.Of(field.key)])[i]) {
      assert i < |kept| ==> more[i] == values[i] && Holds(values[i], trees[i], nodes[i]);
    }
  }

  /** The keys kept before field `i` have other rooms than it. */
  lemma KeptElsewhere<T(!new)>(rooms: Rooms<T>, into: Node<T>, kept: seq<Field<T>>, trees: seq<Node<T>>, i: nat, m: nat)
    requires rooms.Ok() && into.Mapping? && rooms.mine == into.entries && Distinct(into.entries) && i < |into.entries|
    requires |kept| == |trees| && Entries(kept, trees) == Kept(into, rooms.theirs, i) && m < |kept|
    ensures rooms.Of(kept[m].key) !! rooms.Of(into.entries[i].key)
  {
    var key := into.entries[i].key;
    KeptHolds(into, rooms.theirs, i, key);
    HasAt(into.entries, i);
    assert Entries(kept, trees)[m].key == kept[m].key;
    RoomsApart(rooms, kept[m].key, key);
  }

  /** One value merged in place, in its own room: the fields kept before and the ones still to come do not notice. */
  method MergeField<T(!new, ==)>(field: Field<T>, want: YamlNode<T>, ghost rooms: Rooms<T>, ghost kept: seq<Field<T>>,
                                 ghost trees: seq<Node<T>>, ghost nodes: seq<set<YamlNode<T>>>, ghost all: seq<YamlNode<T>>,
                                 ghost mine: seq<Node<T>>, ghost mineNodes: seq<set<YamlNode<T>>>, ghost i: nat)
    requires Keeps(rooms, kept, trees, nodes)
    requires i < |all| == |mine| == |mineNodes| && all[i] == field.value && AllHold(all, mine, mineNodes, i) && Apart(mineNodes)
    requires mineNodes[i] <= rooms.Of(field.key) && forall m :: 0 <= m < |kept| ==> nodes[m] !! rooms.Of(field.key)
    requires want.Valid() && want.repr <= rooms.Of(field.key) && want.repr !! mineNodes[i]
    requires Proper(mine[i]) && Proper(want.Tree())
    modifies field.value.repr
    ensures Keeps(rooms, kept + [field], trees + [Merge(mine[i], old(want.Tree()))], nodes + [rooms.Of(field.key)])
    ensures AllHold(all, mine, mineNodes, i + 1)
    decreases field.value.repr, 2
  {
    assert Holds(all[i], mine[i], mineNodes[i]);
    ghost var wanted := want.Tree();
    MergeInto(field.value, want);
    KeepsOneMore(rooms, kept, trees, nodes, field, Merge(mine[i], wanted));
  }

  /** Two lists of fields, the trees their values stand for and the nodes those live in. */
  ghost predicate Opened<T(!new)>(fields: seq<Field<T>>, trees: seq<Node<T>>, wanted: seq<Field<T>>, theirs: seq<Node<T>>,
                                  rooms: Rooms<T>, foot: set<YamlNode<T>>)
  {
    && |fields| == |trees| && |wanted| == |theirs| && rooms.Ok()
    && rooms.mine == Entries(fields, trees) && rooms.theirs == Entries(wanted, theirs)
    && Distinct(rooms.mine) && Distinct(rooms.theirs)
    && (forall i :: 0 <= i < |trees| ==> Proper(trees[i]) && rooms.mineNodes[i] <= foot)
    && (forall i :: 0 <= i < |theirs| ==> Proper(theirs[i]) && rooms.theirNodes[i] !! foot)
  }

  /** The room of a key that both lists have. */
  lemma SharedRoom<T(!new)>(rooms: Rooms<T>, i: nat, at: nat)
    requires rooms.Ok() && Distinct(rooms.mine) && i < |rooms.mine|
    requires at == Find(rooms.theirs, rooms.mine[i].key) < |rooms.theirs|
    ensures rooms.Of(rooms.mine[i].key) == rooms.mineNodes[i] + rooms.theirNodes[at]
  {
    HasAt(rooms.mine, i);
  }

  /** Where the first loop stands before field `i`. */
  ghost predicate Standing<T(!new)>(fields: seq<Field<T>>, mine: seq<Node<T>>, wanted: seq<Field<T>>, theirs: seq<Node<T>>,
                                    rooms: Rooms<T>, tree: Node<T>, i: nat,
                                    kept: seq<Field<T>>, trees: seq<Node<T>>, nodes: seq<set<YamlNode<T>>>)
    reads *
  {
    && |fields| == |mine| == |rooms.mineNodes| && |wanted| == |theirs| == |rooms.theirNodes|
    && tree.Mapping? && tree.entries == rooms.mine && i <= |fields| == |rooms.mine|
    && AllHold(Values(fields), mine, rooms.mineNodes, i) && AllHold(Values(wanted), theirs, rooms.theirNodes, 0)
    && Keeps(rooms, kept, trees, nodes) && Entries(kept, trees) == Kept(tree, rooms.theirs, i)
  }

  /** A field whose key is still wanted. */
  method KeepField<T(!new, ==)>(fields: seq<Field<T>>, ghost mine: seq<Node<T>>, wanted: seq<Field<T>>, ghost theirs: seq<Node<T>>,
                                ghost rooms: Rooms<T>, ghost tree: Node<T>, i: nat, at: nat, ghost foot: set<YamlNode<T>>,
                                ghost kept: seq<Field<T>>, ghost trees: seq<Node<T>>, ghost nodes: seq<set<YamlNode<T>>>)
    requires Opened(fields, mine, wanted, theirs, rooms, foot) && Standing(fields, mine, wanted, theirs, rooms, tree, i, kept, trees, nodes)
    requires i < |fields| && at == Find(rooms.theirs, fields[i].key) < |wanted|
    modifies foot
    ensures Standing(fields, mine, wanted, theirs, rooms, tree, i + 1, kept + [fields[i]], trees + [Merge(mine[i], theirs[at])],
                     nodes + [rooms.Of(fields[i].key)])
    decreases foot, 3
  {
    SharedRoom(rooms, i, at);
    forall m | 0 <= m < |kept| ensures nodes[m] !! rooms.Of(fields[i].key) {
      KeptElsewhere(rooms, tree, kept, trees, i, m);
    }
    assert Holds(Values(fields)[i], mine[i], rooms.mineNodes[i]);
    assert Holds(Values(wanted)[at], theirs[at], rooms.theirNodes[at]);
    MergeField(fields[i], wanted[at].value, rooms, kept, trees, nodes, Values(fields), mine, rooms.mineNodes, i);
    KeptGrows(fields, mine, wanted, theirs, rooms, tree, i, at, kept, trees);
  }

  lemma KeptGrows<T(!new)>(fields: seq<Field<T>>, mine: seq<Node<T>>, wanted: seq<Field<T>>, theirs: seq<Node<T>>, rooms: Rooms<T>,
                           tree: Node<T>, i: nat, at: nat, kept: seq<Field<T>>, trees: seq<Node<T>>)
    requires |fields| == |mine| && |wanted| == |theirs| && |kept| == |trees| && i < |fields| && tree.Mapping?
    requires tree.entries == rooms.mine == Entries(fields, mine) && rooms.theirs == Entries(wanted, theirs)
    requires at == Find(rooms.theirs, fields[i].key) < |wanted| && Entries(kept, trees) == Kept(tree, rooms.theirs, i)
    ensures Entries(kept + [fields[i]], trees + [Merge(mine[i], theirs[at])]) == Kept(tree, rooms.theirs, i + 1)
  {
    var field, merged := fields[i], Merge(mine[i], theirs[at]);
    assert Entries(kept + [field], trees + [merged]) == Entries(kept, trees) + [Entry(field.form, field.comments, field.key, merged)];
  }

  /** The first loop: the fields whose key is still wanted, their values merged in place. */
  method KeepFields<T(!new, ==)>(fields: seq<Field<T>>, wanted: seq<Field<T>>, ghost mine: seq<Node<T>>,
                                 ghost theirs: seq<Node<T>>, ghost rooms: Rooms<T>, ghost tree: Node<T>, ghost foot: set<YamlNode<T>>)
    returns (kept: seq<Field<T>>, ghost trees: seq<Node<T>>, ghost nodes: seq<set<YamlNode<T>>>)
    requires Opened(fields, mine, wanted, theirs, rooms, foot)
    requires Standing(fields, mine, wanted, theirs, rooms, tree, 0, [], [], [])
    modifies foot
    ensures Standing(fields, mine, wanted, theirs, rooms, tree, |fields|, kept, trees, nodes)
    decreases foot, 4
  {
    kept, trees, nodes := [], [], [];
    for i := 0 to |fields|
      invariant Standing(fields, mine, wanted, theirs, rooms, tree, i, kept, trees, nodes)
    {
      var at := MappingValue(wanted, theirs, fields[i].key);
      if at < |wanted| {
        KeepField(fields, mine, wanted, theirs, rooms, tree, i, at, foot, kept, trees, nodes);
        kept, trees, nodes := kept + [fields[i]], trees + [Merge(mine[i], theirs[at])], nodes + [rooms.Of(fields[i].key)];
      }
    }
  }

  /** A wanted field lives in the room of its key. */
  lemma WantedRoom<T(!new)>(rooms: Rooms<T>, i: nat)
    requires rooms.Ok() && Distinct(rooms.theirs) && i < |rooms.theirs|
    ensures rooms.theirNodes[i] <= rooms.Of(rooms.theirs[i].key)
  {
    HasAt(rooms.theirs, i);
  }

  /** Where the second loop stands before wanted field `i`, having begun with the entries `start`. */
  ghost predicate Appending<T(!new)>(rooms: Rooms<T>, start: seq<Entry<T>>, i: nat,
                                     more: seq<Field<T>>, trees: seq<Node<T>>, nodes: seq<set<YamlNode<T>>>)
    requires i <= |rooms.theirs|
    reads *
  {
    Keeps(rooms, more, trees, nodes) && Entries(more, trees) == Appended(start, rooms.theirs, i)
  }

  lemma AppendNext<T(!new)>(rooms: Rooms<T>, start: seq<Entry<T>>, i: nat, more: seq<Field<T>>, trees: seq<Node<T>>,
                            nodes: seq<set<YamlNode<T>>>, field: Field<T>, tree: Node<T>)
    requires i < |rooms.theirs| && Appending(rooms, start, i, more, trees, nodes)
    requires rooms.theirs[i] == Entry(field.form, field.comments, field.key, tree)
    requires Holds(field.value, tree, rooms.Of(field.key))
    ensures if Has(Entries(more, trees), field.key) then Appending(rooms, start, i + 1, more, trees, nodes)
            else Appending(rooms, start, i + 1, more + [field], trees + [tree], nodes + [rooms.Of(field.key)])
  {
    KeepsOneMore(rooms, more, trees, nodes, field, tree);
  }

  lemma WantedHolds<T(!new)>(rooms: Rooms<T>, wanted: seq<Field<T>>, theirs: seq<Node<T>>, i: nat)
    requires rooms.Ok() && Distinct(rooms.theirs) && |wanted| == |theirs| == |rooms.theirNodes|
    requires rooms.theirs == Entries(wanted, theirs) && i < |wanted| && AllHold(Values(wanted), theirs, rooms.theirNodes, 0)
    ensures Holds(wanted[i].value, theirs[i], rooms.Of(wanted[i].key))
  {
    WantedRoom(rooms, i);
    assert Holds(Values(wanted)[i], theirs[i], rooms.theirNodes[i]);
  }

  /** One wanted field: appended unless its key is there. */
  method AppendField<T(!new, ==)>(field: Field<T>, ghost tree: Node<T>, ghost rooms: Rooms<T>, ghost start: seq<Entry<T>>, ghost i: nat,
                                  fields: seq<Field<T>>, ghost fieldTrees: seq<Node<T>>, ghost fieldNodes: seq<set<YamlNode<T>>>)
    returns (more: seq<Field<T>>, ghost trees: seq<Node<T>>, ghost nodes: seq<set<YamlNode<T>>>)
    requires i < |rooms.theirs| && Appending(rooms, start, i, fields, fieldTrees, fieldNodes)
    requires rooms.theirs[i] == Entry(field.form, field.comments, field.key, tree)
    requires Holds(field.value, tree, rooms.Of(field.key))
    ensures Appending(rooms, start, i + 1, more, trees, nodes)
  {
    var at := MappingValue(fields, fieldTrees, field.key);
    AppendNext(rooms, start, i, fields, fieldTrees, fieldNodes, field, tree);
    more, trees, nodes := fields, fieldTrees, fieldNodes;
    if at == |fields| {
      more, trees, nodes := fields + [field], fieldTrees + [tree], fieldNodes + [rooms.Of(field.key)];
    }
  }

  /** The second loop: the wanted fields whose key is not there yet are appended, their nodes shared. */
  method AppendFields<T(!new, ==)>(wanted: seq<Field<T>>, ghost theirs: seq<Node<T>>, ghost rooms: Rooms<T>,
                                   kept: seq<Field<T>>, ghost keptTrees: seq<Node<T>>, ghost keptNodes: seq<set<YamlNode<T>>>)
    returns (more: seq<Field<T>>, ghost trees: seq<Node<T>>, ghost nodes: seq<set<YamlNode<T>>>)
    requires Keeps(rooms, kept, keptTrees, keptNodes) && |wanted| == |theirs| && rooms.theirs == Entries(wanted, theirs)
    requires AllHold(Values(wanted), theirs, rooms.theirNodes, 0) && Distinct(rooms.theirs)
    ensures Keeps(rooms, more, trees, nodes)
    ensures Entries(more, trees) == Appended(Entries(kept, keptTrees), rooms.theirs, |wanted|)
  {
    ghost var start := Entries(kept, keptTrees);
    more, trees, nodes := kept, keptTrees, keptNodes;
    for i := 0 to |wanted|
      invariant Appending(rooms, start, i, more, trees, nodes)
    {
      WantedHolds(rooms, wanted, theirs, i);
      more, trees, nodes := AppendField(wanted[i], theirs[i], rooms, start, i, more, trees, nodes);
    }
  }

  /** Distinct keys have rooms of their own. */
  lemma KeepsApart<T(!new)>(rooms: Rooms<T>, kept: seq<Field<T>>, trees: seq<Node<T>>, nodes: seq<set<YamlNode<T>>>)
    requires Keeps(rooms, kept, trees, nodes) && Distinct(Entries(kept, trees))
    ensures Apart(nodes)
  {
    forall i, j | 0 <= i < j < |nodes| ensures nodes[i] !! nodes[j] {
      assert Entries(kept, trees)[i].key != Entries(kept, trees)[j].key;
      RoomsApart(rooms, kept[i].key, kept[j].key);
    }
  }

  lemma OpenBoth<T(!new)>(into: YamlNode<T>, want: YamlNode<T>)
    requires into.Valid() && want.Valid() && into.repr !! want.repr && into.head.Mapping? && want.head.Mapping?
    requires Proper(into.Tree()) && Proper(want.Tree())
    ensures var rooms := Rooms(into.Tree().entries, NodesOf(into), want.Tree().entries, NodesOf(want));
            && Opened(into.fields, TreesOf(into), want.fields, TreesOf(want), rooms, into.repr - {into})
            && Standing(into.fields, TreesOf(into), want.fields, TreesOf(want), rooms, into.Tree(), 0, [], [], [])
  {
    OpenNode(into);
    OpenNode(want);
  }

  /** The node takes over a new list of fields. */
  method SetFields<T(!new, ==)>(into: YamlNode<T>, more: seq<Field<T>>, ghost trees: seq<Node<T>>, ghost nodes: seq<set<YamlNode<T>>>,
                                ghost rooms: Rooms<T>, ghost within: set<YamlNode<T>>)
    requires Keeps(rooms, more, trees, nodes) && Apart(nodes) && into.head.Mapping? && into in within
    requires forall i :: 0 <= i < |nodes| ==> nodes[i] <= within && into !in nodes[i]
    modifies into
    ensures into.Valid() && into.repr == within
    ensures into.Tree() == Mapping(old(into.head).form, old(into.head).comments, Entries(more, trees))
  {
    into.fields := more;
    into.repr := within;
    CloseNode(into, trees, nodes);
  }

  lemma RoomsWithin<T(!new)>(rooms: Rooms<T>, into: YamlNode<T>, mine: set<YamlNode<T>>, theirs: set<YamlNode<T>>, key: T)
    requires rooms.Ok() && into !in theirs
    requires forall i :: 0 <= i < |rooms.mineNodes| ==> rooms.mineNodes[i] <= mine && into !in rooms.mineNodes[i]
    requires forall i :: 0 <= i < |rooms.theirNodes| ==> rooms.theirNodes[i] <= theirs
    ensures rooms.Of(key) <= mine + theirs && into !in rooms.Of(key)
  {
  }

  /** The fields the two loops end with are those of the merged tree. */
  lemma MergedFields<T(!new)>(tree: Node<T>, wanted: Node<T>, rooms: Rooms<T>, more: seq<Field<T>>, trees: seq<Node<T>>,
                              nodes: seq<set<YamlNode<T>>>)
    requires tree.Mapping? && wanted.Mapping? && Distinct(tree.entries) && Distinct(wanted.entries)
    requires Keeps(rooms, more, trees, nodes)
    requires Entries(more, trees) == Appended(Kept(tree, wanted.entries, |tree.entries|), wanted.entries, |wanted.entries|)
    ensures Apart(nodes) && Mapping(tree.form, tree.comments, Entries(more, trees)) == Merge(tree, wanted)
  {
    MergedMapping(tree, wanted, tree.form);
    KeepsApart(rooms, more, trees, nodes);
  }

  /** The mapping case. */
  method MergeMapping<T(!new, ==)>(into: YamlNode<T>, want: YamlNode<T>)
    requires into.Valid() && want.Valid() && into.repr !! want.repr && into.head.Mapping? && want.head.Mapping?
    requires Proper(into.Tree()) && Proper(want.Tree())
    modifies into.repr
    ensures into.Valid() && into.repr <= old(into.repr) + want.repr
    ensures into.Tree() == Merge(old(into.Tree()), old(want.Tree()))
    decreases into.repr, 0
  {
    ghost var tree, wanted, mine, theirs := into.Tree(), want.Tree(), TreesOf(into), TreesOf(want);
    ghost var rooms := Rooms(tree.entries, NodesOf(into), wanted.entries, NodesOf(want));
    ghost var within := into.repr + want.repr;
    OpenBoth(into, want);
    OpenNode(into);
    OpenNode(want);
    forall key ensures rooms.Of(key) <= within && into !in rooms.Of(key) {
      RoomsWithin(rooms, into, into.repr, want.repr, key);
    }
    var kept, keptTrees, keptNodes := KeepFields(into.fields, want.fields, mine, theirs, rooms, tree, into.repr - {into});
    var more, trees, nodes := AppendFields(want.fields, theirs, rooms, kept, keptTrees, keptNodes);
    MergedFields(tree, wanted, rooms, more, trees, nodes);
    SetFields(into, more, trees, nodes, rooms, within);
  }

  method MergeInto<T(!new, ==)>(into: YamlNode<T>, want: YamlNode<T>)
    requires into.Valid() && want.Valid() && into.repr !! want.repr
    requires Proper(into.Tree()) && Proper(want.Tree())
    modifies into.repr
    ensures into.Valid() && into.repr <= old(into.repr) + want.repr
    ensures into.Tree() == Merge(old(into.Tree()), old(want.Tree()))
    decreases into.repr, 1
  {
    if into.head.Mapping? && want.head.Mapping? {
      MergeMapping(into, want);
    } else if into.head.Scalar? && want.head.Scalar? && into.head.text == want.head.text {
      return;
    } else {
      into.Replace(want);
    }
  }
}
