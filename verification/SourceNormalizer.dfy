/** What normalisation guarantees about every document it accepts. Provenance is placed: the last
    origin of a node is the pointer of its position, below aliases and merge keys as well. Expansion
    is bounded by the budget, an alias being charged what its anchor cost. Explicit keys take
    precedence over merged ones, and the first merged mapping over later ones. */
module SourceNormalizer {
  import opened SourcePointer
  import opened SourceReading
  import opened SourceTree
  import opened Wrappers

  // ---- Adding an alias origin ----

  lemma {:induction false} SumSame(a: seq<nat>, b: seq<nat>)
    requires |a| == |b| && forall i | 0 <= i < |a| :: a[i] == b[i]
    ensures Sum(a) == Sum(b)
  {
    assert a == b;
  }

  /** Placing a tree somewhere else does not change its size. */
  lemma {:induction false} AddOriginSize(n: Node, span: Span, path: string)
    ensures Size(AddOrigin(n, span, path)) == Size(n)
  {
    var m := AddOrigin(n, span, path);
    SizeOf(n);
    SizeOf(m);
    match n.value {
      case Leaf(_) =>
      case Sequence(items) =>
        forall i | 0 <= i < |items| ensures Size(m.value.items[i]) == Size(items[i]) {
          AddOriginSize(items[i], span, path + "/" + IndexToken(i));
        }
        SumSame(Sizes(m.value.items), Sizes(items));
      case Mapping(entries) =>
        forall i | 0 <= i < |entries| ensures Size(m.value.entries[i].node) == Size(entries[i].node) {
          AddOriginSize(entries[i].node, span, path + "/" + Escape(entries[i].key));
        }
        SumSame(Sizes(Nodes(m.value.entries)), Sizes(Nodes(entries)));
    }
  }

  lemma {:induction false} AddOriginPlaced(n: Node, span: Span, path: string)
    requires Keyed(n)
    ensures Placed(AddOrigin(n, span, path), path)
  {
    match n.value {
      case Leaf(_) =>
      case Sequence(items) =>
        forall i | 0 <= i < |items| ensures Placed(AddOrigin(items[i], span, path + "/" + IndexToken(i)), path + "/" + IndexToken(i)) {
          AddOriginPlaced(items[i], span, path + "/" + IndexToken(i));
        }
      case Mapping(entries) =>
        forall i | 0 <= i < |entries|
          ensures Placed(AddOrigin(entries[i].node, span, path + "/" + Escape(entries[i].key)), path + "/" + Escape(entries[i].key))
        {
          AddOriginPlaced(entries[i].node, span, path + "/" + Escape(entries[i].key));
        }
    }
  }

  lemma {:induction false} PlacedIsKeyed(n: Node, path: string)
    requires Placed(n, path)
    ensures Keyed(n)
  {
    match n.value {
      case Leaf(_) =>
      case Sequence(items) =>
        forall i | 0 <= i < |items| ensures Keyed(items[i]) { PlacedIsKeyed(items[i], path + "/" + IndexToken(i)); }
      case Mapping(entries) =>
        forall i | 0 <= i < |entries| ensures Keyed(entries[i].node) { PlacedIsKeyed(entries[i].node, path + "/" + Escape(entries[i].key)); }
    }
  }

  /** The tree without its provenance. */
  function Content(n: Node): Node {
    Node(match n.value
         case Leaf(s) => Leaf(s)
         case Sequence(items) => Sequence(seq(|items|, i requires 0 <= i < |items| => Content(items[i])))
         case Mapping(entries) => Mapping(seq(|entries|, i requires 0 <= i < |entries| => Entry(entries[i].key, Content(entries[i].node)))),
         n.tag, [])
  }

  /** An alias stands for the same content as its anchor. */
  lemma {:induction false} AddOriginContent(n: Node, span: Span, path: string)
    ensures Content(AddOrigin(n, span, path)) == Content(n)
  {
    var m := AddOrigin(n, span, path);
    match n.value {
      case Leaf(_) =>
      case Sequence(items) =>
        forall i | 0 <= i < |items| ensures Content(m.value.items[i]) == Content(items[i]) {
          AddOriginContent(items[i], span, path + "/" + IndexToken(i));
        }
        assert Content(m).value.items == Content(n).value.items;
      case Mapping(entries) =>
        forall i | 0 <= i < |entries| ensures Content(m.value.entries[i].node) == Content(entries[i].node) {
          AddOriginContent(entries[i].node, span, path + "/" + Escape(entries[i].key));
        }
        assert Content(m).value.entries == Content(n).value.entries;
    }
  }

  // ---- Entries ----

  ghost predicate Distinct(entries: seq<Entry>) {
    forall i, j | 0 <= i < j < |entries| :: entries[i].key != entries[j].key
  }

  ghost predicate EntriesPlaced(entries: seq<Entry>, path: string) {
    && Distinct(entries)
    && forall i | 0 <= i < |entries| :: Placed(entries[i].node, path + "/" + Escape(entries[i].key))
  }

  lemma {:induction false} NotFound(entries: seq<Entry>, key: string)
    ensures Find(entries, key).None? <==> forall i | 0 <= i < |entries| :: entries[i].key != key
  {
    if entries != [] { NotFound(entries[1..], key); }
  }

  lemma {:induction false} FindAppend(entries: seq<Entry>, e: Entry, key: string)
    ensures Find(entries + [e], key) == if Find(entries, key).Some? then Find(entries, key) else if e.key == key then Some(e.node) else None
  {
    if entries == [] {
      assert [e][1..] == [];
    } else {
      assert (entries + [e])[1..] == entries[1..] + [e];
      FindAppend(entries[1..], e, key);
    }
  }

  lemma AppendPlaced(entries: seq<Entry>, e: Entry, path: string)
    requires EntriesPlaced(entries, path) && Find(entries, e.key).None? && Placed(e.node, path + "/" + Escape(e.key))
    ensures EntriesPlaced(entries + [e], path)
    ensures Total(Nodes(entries + [e])) == Total(Nodes(entries)) + Size(e.node)
  {
    NotFound(entries, e.key);
    NodesAppend(entries, e);
    TotalAppend(Nodes(entries), e.node);
  }

  lemma OrInsertPlaced(entries: seq<Entry>, e: Entry, path: string)
    requires EntriesPlaced(entries, path) && Placed(e.node, path + "/" + Escape(e.key))
    ensures EntriesPlaced(OrInsert(entries, e), path)
    ensures Total(Nodes(OrInsert(entries, e))) <= Total(Nodes(entries)) + Size(e.node)
  {
    if Find(entries, e.key).None? { AppendPlaced(entries, e, path); }
  }

  lemma SplitLast(entries: seq<Entry>)
    requires entries != []
    ensures Total(Nodes(entries)) == Total(Nodes(entries[..|entries| - 1])) + Size(entries[|entries| - 1].node)
  {
    var n := |entries| - 1;
    assert entries == entries[..n] + [entries[n]];
    NodesAppend(entries[..n], entries[n]);
    TotalAppend(Nodes(entries[..n]), entries[n].node);
  }

  lemma {:induction false} InheritPlaced(inherited: seq<Entry>, mapping: seq<Entry>, span: Span, path: string)
    requires EntriesPlaced(inherited, path) && forall i | 0 <= i < |mapping| :: Keyed(mapping[i].node)
    ensures EntriesPlaced(Inherit(inherited, mapping, span, path), path)
    ensures Total(Nodes(Inherit(inherited, mapping, span, path))) <= Total(Nodes(inherited)) + Total(Nodes(mapping))
  {
    if mapping != [] {
      var n := |mapping| - 1;
      var e := mapping[n];
      var pointer := path + "/" + Escape(e.key);
      InheritPlaced(inherited, mapping[..n], span, path);
      AddOriginPlaced(e.node, span, pointer);
      AddOriginSize(e.node, span, pointer);
      OrInsertPlaced(Inherit(inherited, mapping[..n], span, path), Entry(e.key, AddOrigin(e.node, span, pointer)), path);
      SplitLast(mapping);
    }
  }

  lemma {:induction false} InheritAllPlaced(inherited: seq<Entry>, nodes: seq<Node>, span: Span, path: string)
    requires EntriesPlaced(inherited, path) && forall i | 0 <= i < |nodes| :: Keyed(nodes[i])
    requires InheritAll(inherited, nodes, span, path).Some?
    ensures EntriesPlaced(InheritAll(inherited, nodes, span, path).value, path)
    ensures Total(Nodes(InheritAll(inherited, nodes, span, path).value)) <= Total(Nodes(inherited)) + Total(nodes)
  {
    if nodes != [] {
      var n := |nodes| - 1;
      InheritAllPlaced(inherited, nodes[..n], span, path);
      var rest := InheritAll(inherited, nodes[..n], span, path).value;
      InheritPlaced(rest, nodes[n].value.entries, span, path);
      SizeOf(nodes[n]);
      assert nodes == nodes[..n] + [nodes[n]];
      TotalAppend(nodes[..n], nodes[n]);
    }
  }

  lemma {:induction false} FillInPlaced(values: seq<Entry>, inherited: seq<Entry>, path: string)
    requires EntriesPlaced(values, path) && forall i | 0 <= i < |inherited| :: Placed(inherited[i].node, path + "/" + Escape(inherited[i].key))
    ensures EntriesPlaced(FillIn(values, inherited), path)
    ensures Total(Nodes(FillIn(values, inherited))) <= Total(Nodes(values)) + Total(Nodes(inherited))
  {
    if inherited != [] {
      var n := |inherited| - 1;
      FillInPlaced(values, inherited[..n], path);
      OrInsertPlaced(FillIn(values, inherited[..n]), inherited[n], path);
      SplitLast(inherited);
    }
  }

  // ---- Budget and provenance ----

  ghost predicate SoundAnchors(anchors: map<nat, Anchor>) {
    forall id | id in anchors :: Keyed(anchors[id].node) && Size(anchors[id].node) <= anchors[id].cost
  }

  ghost predicate ItemsPlaced(items: seq<Node>, path: string) {
    forall i | 0 <= i < |items| :: Placed(items[i], path + "/" + IndexToken(i))
  }

  ghost function Held(c: Collected): nat {
    Total(Nodes(c.values)) + Total(Nodes(c.inherited))
  }

  lemma FinishSound(c: Cursor, spent: nat, value: Value, span: Span, anchor: nat, tag: Option<string>, path: string)
    requires SoundAnchors(c.anchors)
    requires value.Sequence? ==> ItemsPlaced(value.items, path)
    requires value.Mapping? ==> EntriesPlaced(value.entries, path)
    requires Size(Node(value, tag, [Origin(path, span)])) <= spent
    ensures
      var r := Finish(c, spent, value, span, anchor, tag, path);
      Placed(r.value, path) && SoundAnchors(r.cursor.anchors) && Size(r.value) <= spent
  {
    var node := Node(value, tag, [Origin(path, span)]);
    assert Placed(node, path);
    PlacedIsKeyed(node, path);
  }

  ghost predicate Sound(read: Read<Node>, path: string, budget: nat) {
    SoundAnchors(read.cursor.anchors) && Placed(read.value, path) && Size(read.value) + read.cursor.remaining <= budget
  }

  lemma LeafDone(c: Cursor, scalar: Scalar, span: Span, anchor: nat, tag: Option<string>, path: string)
    requires SoundAnchors(c.anchors)
    ensures Sound(Finish(c, 1, Leaf(scalar), span, anchor, tag, path), path, c.remaining + 1)
  {
    SizeOf(Node(Leaf(scalar), tag, [Origin(path, span)]));
    FinishSound(c, 1, Leaf(scalar), span, anchor, tag, path);
  }

  lemma SequenceDone(c: Cursor, budget: nat, items: seq<Node>, span: Span, anchor: nat, tag: Option<string>, path: string)
    requires SoundAnchors(c.anchors) && ItemsPlaced(items, path) && Total(items) + c.remaining < budget
    ensures Sound(Finish(c, budget - c.remaining, Sequence(items), span, anchor, tag, path), path, budget)
  {
    SizeOf(Node(Sequence(items), tag, [Origin(path, span)]));
    FinishSound(c, budget - c.remaining, Sequence(items), span, anchor, tag, path);
  }

  lemma MappingDone(c: Cursor, budget: nat, collected: Collected, span: Span, anchor: nat, tag: Option<string>, path: string)
    requires SoundAnchors(c.anchors) && EntriesPlaced(collected.values, path) && EntriesPlaced(collected.inherited, path)
    requires Held(collected) + c.remaining < budget
    ensures Sound(Finish(c, budget - c.remaining, Mapping(FillIn(collected.values, collected.inherited)), span, anchor, tag, path), path, budget)
  {
    FillInPlaced(collected.values, collected.inherited, path);
    EntriesDone(c, budget, FillIn(collected.values, collected.inherited), span, anchor, tag, path);
  }

  lemma EntriesDone(c: Cursor, budget: nat, entries: seq<Entry>, span: Span, anchor: nat, tag: Option<string>, path: string)
    requires SoundAnchors(c.anchors) && EntriesPlaced(entries, path) && Total(Nodes(entries)) + c.remaining < budget
    ensures Sound(Finish(c, budget - c.remaining, Mapping(entries), span, anchor, tag, path), path, budget)
  {
    SizeOf(Node(Mapping(entries), tag, [Origin(path, span)]));
    FinishSound(c, budget - c.remaining, Mapping(entries), span, anchor, tag, path);
  }

  lemma AliasDone(c: Cursor, id: nat, span: Span, path: string)
    requires SoundAnchors(c.anchors) && id in c.anchors && c.anchors[id].cost <= c.remaining
    ensures Sound(Read(AddOrigin(c.anchors[id].node, span, path), c.(remaining := c.remaining - c.anchors[id].cost)), path, c.remaining)
  {
    AddOriginPlaced(c.anchors[id].node, span, path);
    AddOriginSize(c.anchors[id].node, span, path);
  }

  /** Every tree read is placed where it was read and no larger than the budget it
    * used; an alias is charged what its anchor cost. */
  lemma {:induction false} ReadNodeSound(c: Cursor, path: string, depth: nat, classify: Classify)
    requires SoundAnchors(c.anchors) && ReadNode(c, path, depth, classify).Ok?
    ensures Sound(ReadNode(c, path, depth, classify).value, path, c.remaining)
    decreases |c.events|, 1
  {
    var span := c.events[0].span;
    var next := Cursor(c.events[1..], c.anchors, c.remaining - 1);
    match c.events[0].event {
      case ScalarEvent(text, style, anchor, tag) => LeafDone(next, classify(text, style, tag), span, anchor, tag, path);
      case SequenceStart(_, _) => SequenceSound(c, path, depth, classify);
      case MappingStart(_, _) => MappingSound(c, path, depth, classify);
      case Alias(id) => AliasDone(next, id, span, path);
      case SequenceEnd =>
      case MappingEnd =>
    }
  }

  lemma {:induction false} SequenceSound(c: Cursor, path: string, depth: nat, classify: Classify)
    requires SoundAnchors(c.anchors) && ReadNode(c, path, depth, classify).Ok? && c.events[0].event.SequenceStart?
    ensures Sound(ReadNode(c, path, depth, classify).value, path, c.remaining)
    decreases |c.events|, 0
  {
    var e := c.events[0];
    var next := Cursor(c.events[1..], c.anchors, c.remaining - 1);
    ReadItemsSound(next, path, depth, classify, []);
    var read := ReadItems(next, path, depth, classify, []).value;
    SequenceDone(Advance(read.cursor), c.remaining, read.value, Span(e.span.start, read.cursor.events[0].span.end), e.event.anchor, e.event.tag, path);
  }

  lemma {:induction false} MappingSound(c: Cursor, path: string, depth: nat, classify: Classify)
    requires SoundAnchors(c.anchors) && ReadNode(c, path, depth, classify).Ok? && c.events[0].event.MappingStart?
    ensures Sound(ReadNode(c, path, depth, classify).value, path, c.remaining)
    decreases |c.events|, 0
  {
    var e := c.events[0];
    var next := Cursor(c.events[1..], c.anchors, c.remaining - 1);
    var nothing := Collected([], []);
    assert Held(nothing) == 0 && EntriesPlaced(nothing.values, path);
    ReadEntriesSound(next, path, depth, classify, nothing);
    var read := ReadEntries(next, path, depth, classify, nothing).value;
    MappingUnfolds(c, read, path, depth, classify);
    MappingRead(c, read, path, ReadNode(c, path, depth, classify).value);
  }

  function MappingOf(read: Read<Collected>, c: Cursor, path: string): Read<Node>
    requires c.events != [] && c.events[0].event.MappingStart? && read.cursor.events != [] && read.cursor.remaining <= c.remaining
  {
    var e := c.events[0];
    Finish(Advance(read.cursor), c.remaining - read.cursor.remaining, Mapping(FillIn(read.value.values, read.value.inherited)),
      Span(e.span.start, read.cursor.events[0].span.end), e.event.anchor, e.event.tag, path)
  }

  lemma MappingUnfolds(c: Cursor, read: Read<Collected>, path: string, depth: nat, classify: Classify)
    requires ReadNode(c, path, depth, classify).Ok? && c.events[0].event.MappingStart?
    requires ReadEntries(Cursor(c.events[1..], c.anchors, c.remaining - 1), path, depth, classify, Collected([], [])) == Ok(read)
    ensures ReadNode(c, path, depth, classify) == Ok(MappingOf(read, c, path))
  {
  }

  lemma {:induction false} MappingRead(c: Cursor, read: Read<Collected>, path: string, r: Read<Node>)
    requires c.events != [] && c.events[0].event.MappingStart? && read.cursor.events != []
    requires SoundAnchors(read.cursor.anchors) && EntriesPlaced(read.value.values, path) && EntriesPlaced(read.value.inherited, path)
    requires Held(read.value) + read.cursor.remaining < c.remaining && r == MappingOf(read, c, path)
    ensures Sound(r, path, c.remaining)
  {
    var e := c.events[0];
    MappingDone(Advance(read.cursor), c.remaining, read.value, Span(e.span.start, read.cursor.events[0].span.end), e.event.anchor, e.event.tag, path);
  }

  lemma {:induction false} ReadItemsSound(c: Cursor, path: string, depth: nat, classify: Classify, items: seq<Node>)
    requires SoundAnchors(c.anchors) && ItemsPlaced(items, path) && ReadItems(c, path, depth, classify, items).Ok?
    ensures
      var read := ReadItems(c, path, depth, classify, items).value;
      && SoundAnchors(read.cursor.anchors) && ItemsPlaced(read.value, path)
      && Total(read.value) + read.cursor.remaining <= Total(items) + c.remaining
    decreases |c.events|, 2
  {
    if !(c.events != [] && c.events[0].event.SequenceEnd?) {
      ReadNodeSound(c, path + "/" + IndexToken(|items|), depth + 1, classify);
      var read := ReadNode(c, path + "/" + IndexToken(|items|), depth + 1, classify).value;
      TotalAppend(items, read.value);
      ReadItemsSound(read.cursor, path, depth, classify, items + [read.value]);
    }
  }

  lemma AddPairSound(c: Collected, key: string, merge: bool, span: Span, node: Node, path: string)
    requires EntriesPlaced(c.values, path) && EntriesPlaced(c.inherited, path) && Placed(node, path + "/" + Escape(key))
    requires AddPair(c, key, merge, span, node, path).Ok?
    ensures
      var more := AddPair(c, key, merge, span, node, path).value;
      EntriesPlaced(more.values, path) && EntriesPlaced(more.inherited, path) && Held(more) <= Held(c) + Size(node)
  {
    if merge {
      PlacedIsKeyed(node, path + "/" + Escape(key));
      SizeOf(node);
      if !node.value.Sequence? { TotalAppend([], node); assert [] + [node] == [node]; }
      InheritAllPlaced(c.inherited, MergeNodes(node), span, path);
    } else {
      AppendPlaced(c.values, Entry(key, node), path);
    }
  }

  lemma {:induction false} ReadEntriesSound(c: Cursor, path: string, depth: nat, classify: Classify, collected: Collected)
    requires SoundAnchors(c.anchors) && EntriesPlaced(collected.values, path) && EntriesPlaced(collected.inherited, path)
    requires ReadEntries(c, path, depth, classify, collected).Ok?
    ensures
      var read := ReadEntries(c, path, depth, classify, collected).value;
      && SoundAnchors(read.cursor.anchors)
      && EntriesPlaced(read.value.values, path) && EntriesPlaced(read.value.inherited, path)
      && Held(read.value) + read.cursor.remaining <= Held(collected) + c.remaining
    decreases |c.events|, 2
  {
    if !(c.events != [] && c.events[0].event.MappingEnd?) {
      var key := c.events[0].event;
      ReadNodeSound(Advance(c), path + "/" + Escape(key.text), depth + 1, classify);
      var read := ReadNode(Advance(c), path + "/" + Escape(key.text), depth + 1, classify).value;
      AddPairSound(collected, key.text, IsMerge(key.text, key.style, key.tag), c.events[0].span, read.value, path);
      var more := AddPair(collected, key.text, IsMerge(key.text, key.style, key.tag), c.events[0].span, read.value, path).value;
      ReadEntriesSound(read.cursor, path, depth, classify, more);
    }
  }

  // ---- Merge precedence ----

  /** A key is explicit if any explicit entry has it, and otherwise comes from the
    * first merge that has it. */
  lemma {:induction false} FillInFinds(values: seq<Entry>, inherited: seq<Entry>, key: string)
    ensures Find(FillIn(values, inherited), key) == if Find(values, key).Some? then Find(values, key) else Find(inherited, key)
  {
    if inherited != [] {
      var n := |inherited| - 1;
      FillInFinds(values, inherited[..n], key);
      FindAppend(FillIn(values, inherited[..n]), inherited[n], key);
      assert inherited == inherited[..n] + [inherited[n]];
      FindAppend(inherited[..n], inherited[n], key);
    }
  }

  lemma {:induction false} InheritFinds(inherited: seq<Entry>, mapping: seq<Entry>, span: Span, path: string, key: string)
    ensures Find(Inherit(inherited, mapping, span, path), key) ==
      (if Find(inherited, key).Some? then Find(inherited, key)
       else if Find(mapping, key).Some? then Some(AddOrigin(Find(mapping, key).value, span, path + "/" + Escape(key)))
       else None)
  {
    if mapping != [] {
      var n := |mapping| - 1;
      var e := mapping[n];
      InheritFinds(inherited, mapping[..n], span, path, key);
      assert mapping == mapping[..n] + [e];
      FindAppend(mapping[..n], e, key);
      FindAppend(Inherit(inherited, mapping[..n], span, path), Entry(e.key, AddOrigin(e.node, span, path + "/" + Escape(e.key))), key);
    }
  }
}
