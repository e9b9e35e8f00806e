/** A tree written out as events reads back as that tree, each node found where it is. */
module ReadingRoundTrip {
  import opened SourceNormalizer
  import opened SourcePointer
  import opened SourceReading
  import opened SourceTree
  import opened Wrappers

  /** A document without anchors; `span` is where a node, or its opening, is written, `end` where it closes. */
  datatype Written =
    | Scalar(text: string, style: Style, tag: Option<string>, span: Span)
    | List(items: seq<Written>, tag: Option<string>, span: Span, end: Span)
    | Table(pairs: seq<KeyValue>, tag: Option<string>, span: Span, end: Span)

  datatype KeyValue = KeyValue(text: string, style: Style, tag: Option<string>, span: Span, node: Written)

  // ---- Writing ----

  function Events(d: Written): seq<Located>
    decreases d
  {
    match d
    case Scalar(text, style, tag, span) => [Located(ScalarEvent(text, style, 0, tag), span)]
    case List(items, tag, span, end) => [Located(SequenceStart(0, tag), span)] + (ItemEvents(items) + [Located(SequenceEnd, end)])
    case Table(pairs, tag, span, end) => [Located(MappingStart(0, tag), span)] + (PairEvents(pairs) + [Located(MappingEnd, end)])
  }

  function ItemEvents(items: seq<Written>): seq<Located>
    decreases items
  {
    if items == [] then [] else Events(items[0]) + ItemEvents(items[1..])
  }

  function PairEvents(pairs: seq<KeyValue>): seq<Located>
    decreases pairs
  {
    if pairs == [] then []
    else [Located(ScalarEvent(pairs[0].text, pairs[0].style, 0, pairs[0].tag), pairs[0].span)] + (Events(pairs[0].node) + PairEvents(pairs[1..]))
  }

  // ---- What is written ----

  function Meaning(d: Written, path: string, classify: Classify): Node
    decreases d
  {
    match d
    case Scalar(text, style, tag, span) => Node(Leaf(classify(text, style, tag)), tag, [Origin(path, span)])
    case List(items, tag, span, end) => Node(Sequence(ItemMeanings(items, 0, path, classify)), tag, [Origin(path, Span(span.start, end.end))])
    case Table(pairs, tag, span, end) => Node(Mapping(PairMeanings(pairs, path, classify)), tag, [Origin(path, Span(span.start, end.end))])
  }

  function ItemMeanings(items: seq<Written>, from: nat, path: string, classify: Classify): seq<Node>
    decreases items
  {
    if items == [] then []
    else [Meaning(items[0], path + "/" + IndexToken(from), classify)] + ItemMeanings(items[1..], from + 1, path, classify)
  }

  function PairMeanings(pairs: seq<KeyValue>, path: string, classify: Classify): seq<Entry>
    decreases pairs
  {
    if pairs == [] then []
    else [Entry(pairs[0].text, Meaning(pairs[0].node, path + "/" + Escape(pairs[0].text), classify))] + PairMeanings(pairs[1..], path, classify)
  }

  // ---- Within the limits ----

  function Nodes(d: Written): nat
    decreases d
  {
    match d
    case Scalar(_, _, _, _) => 1
    case List(items, _, _, _) => 1 + ItemNodes(items)
    case Table(pairs, _, _, _) => 1 + PairNodes(pairs)
  }

  function ItemNodes(items: seq<Written>): nat
    decreases items
  {
    if items == [] then 0 else Nodes(items[0]) + ItemNodes(items[1..])
  }

  function PairNodes(pairs: seq<KeyValue>): nat
    decreases pairs
  {
    if pairs == [] then 0 else Nodes(pairs[0].node) + PairNodes(pairs[1..])
  }

  predicate Merge(p: KeyValue) {
    p.text == "<<" && ((p.style == Plain && p.tag == None) || p.tag == Some("tag:yaml.org,2002:merge"))
  }

  /** At most `levels` deep, no key twice in a mapping, no merge keys. */
  predicate Sound(d: Written, levels: int)
    decreases d
  {
    levels >= 0 &&
    match d
    case Scalar(_, _, _, _) => true
    case List(items, _, _, _) => ItemsSound(items, levels - 1)
    case Table(pairs, _, _, _) => PairsSound(pairs, levels - 1)
  }

  predicate ItemsSound(items: seq<Written>, levels: int)
    decreases items
  {
    items == [] || (Sound(items[0], levels) && ItemsSound(items[1..], levels))
  }

  predicate PairsSound(pairs: seq<KeyValue>, levels: int)
    decreases pairs
  {
    pairs == [] ||
    (&& !Merge(pairs[0]) && (forall i | 1 <= i < |pairs| :: pairs[i].text != pairs[0].text)
     && Sound(pairs[0].node, levels) && PairsSound(pairs[1..], levels))
  }

  // ---- Reading ----

  // One step of each reading.

  lemma {:induction false} ListDone(c: Cursor, inner: Cursor, items: seq<Node>, after: Cursor, path: string, depth: nat, classify: Classify)
    requires c.events != [] && c.events[0].event.SequenceStart? && c.events[0].event.anchor == 0 && depth <= 128 && c.remaining > 0
    requires inner == Cursor(c.events[1..], c.anchors, c.remaining - 1) && after.events != []
    requires ReadItems(inner, path, depth, classify, []) == Ok(Read(items, after))
    ensures
      var origin := Origin(path, Span(c.events[0].span.start, after.events[0].span.end));
      ReadNode(c, path, depth, classify) == Ok(Read(Node(Sequence(items), c.events[0].event.tag, [origin]), Cursor(after.events[1..], after.anchors, after.remaining)))
  {
  }

  lemma {:induction false} TableDone(c: Cursor, inner: Cursor, entries: seq<Entry>, after: Cursor, path: string, depth: nat, classify: Classify)
    requires c.events != [] && c.events[0].event.MappingStart? && c.events[0].event.anchor == 0 && depth <= 128 && c.remaining > 0
    requires inner == Cursor(c.events[1..], c.anchors, c.remaining - 1) && after.events != []
    requires ReadEntries(inner, path, depth, classify, Collected([], [])) == Ok(Read(Collected(entries, []), after))
    ensures
      var origin := Origin(path, Span(c.events[0].span.start, after.events[0].span.end));
      ReadNode(c, path, depth, classify) == Ok(Read(Node(Mapping(entries), c.events[0].event.tag, [origin]), Cursor(after.events[1..], after.anchors, after.remaining)))
  {
  }

  lemma {:induction false} ItemDone(c: Cursor, path: string, depth: nat, classify: Classify, done: seq<Node>, node: Node, next: Cursor)
    requires c.events != [] && !c.events[0].event.SequenceEnd?
    requires ReadNode(c, path + "/" + IndexToken(|done|), depth + 1, classify) == Ok(Read(node, next))
    ensures ReadItems(c, path, depth, classify, done) == ReadItems(next, path, depth, classify, done + [node])
  {
  }

  lemma {:induction false} PairDone(c: Cursor, path: string, depth: nat, classify: Classify, done: seq<Entry>, p: KeyValue, node: Node, next: Cursor)
    requires c.events != [] && c.events[0] == Located(ScalarEvent(p.text, p.style, 0, p.tag), p.span) && !Merge(p)
    requires forall j | 0 <= j < |done| :: done[j].key != p.text
    requires ReadNode(Advance(c), path + "/" + Escape(p.text), depth + 1, classify) == Ok(Read(node, next))
    ensures ReadEntries(c, path, depth, classify, Collected(done, [])) == ReadEntries(next, path, depth, classify, Collected(done + [Entry(p.text, node)], []))
  {
    NotFound(done, p.text);
  }

  /** A sound document within the limits reads back whole, whatever follows it. */
  lemma {:induction false} ReadsBack(d: Written, rest: seq<Located>, anchors: map<nat, Anchor>, remaining: nat, path: string, depth: nat, classify: Classify)
    requires Sound(d, 128 - depth) && Nodes(d) <= remaining
    ensures ReadNode(Cursor(Events(d) + rest, anchors, remaining), path, depth, classify)
         == Ok(Read(Meaning(d, path, classify), Cursor(rest, anchors, remaining - Nodes(d))))
    decreases d
  {
    var c := Cursor(Events(d) + rest, anchors, remaining);
    match d {
      case Scalar(_, _, _, _) => assert c.events[1..] == rest;
      case List(_, _, _, _) => ReadsList(d, rest, anchors, remaining, path, depth, classify);
      case Table(_, _, _, _) => ReadsTable(d, rest, anchors, remaining, path, depth, classify);
    }
  }

  lemma {:induction false} ReadsList(d: Written, rest: seq<Located>, anchors: map<nat, Anchor>, remaining: nat, path: string, depth: nat, classify: Classify)
    requires d.List? && Sound(d, 128 - depth) && Nodes(d) <= remaining
    ensures ReadNode(Cursor(Events(d) + rest, anchors, remaining), path, depth, classify)
         == Ok(Read(Meaning(d, path, classify), Cursor(rest, anchors, remaining - Nodes(d))))
    decreases d, 0
  {
    var c := Cursor(Events(d) + rest, anchors, remaining);
    var tail := [Located(SequenceEnd, d.end)] + rest;
    var items := ItemMeanings(d.items, 0, path, classify);
    assert c.events[0] == Located(SequenceStart(0, d.tag), d.span);
    assert c.events[1..] == ItemEvents(d.items) + tail;
    ReadsItems(d.items, tail, anchors, remaining - 1, path, depth, classify, []);
    assert [] + items == items;
    assert tail[1..] == rest;
    ListDone(c, Cursor(ItemEvents(d.items) + tail, anchors, remaining - 1), items, Cursor(tail, anchors, remaining - 1 - ItemNodes(d.items)), path, depth, classify);
  }

  lemma {:induction false} ReadsTable(d: Written, rest: seq<Located>, anchors: map<nat, Anchor>, remaining: nat, path: string, depth: nat, classify: Classify)
    requires d.Table? && Sound(d, 128 - depth) && Nodes(d) <= remaining
    ensures ReadNode(Cursor(Events(d) + rest, anchors, remaining), path, depth, classify)
         == Ok(Read(Meaning(d, path, classify), Cursor(rest, anchors, remaining - Nodes(d))))
    decreases d, 0
  {
    var c := Cursor(Events(d) + rest, anchors, remaining);
    var tail := [Located(MappingEnd, d.end)] + rest;
    var entries := PairMeanings(d.pairs, path, classify);
    assert c.events[0] == Located(MappingStart(0, d.tag), d.span);
    assert c.events[1..] == PairEvents(d.pairs) + tail;
    ReadsPairs(d.pairs, tail, anchors, remaining - 1, path, depth, classify, []);
    assert [] + entries == entries;
    assert tail[1..] == rest;
    TableDone(c, Cursor(PairEvents(d.pairs) + tail, anchors, remaining - 1), entries, Cursor(tail, anchors, remaining - 1 - PairNodes(d.pairs)), path, depth, classify);
  }

  lemma {:induction false} ReadsItems(items: seq<Written>, tail: seq<Located>, anchors: map<nat, Anchor>, remaining: nat,
                                      path: string, depth: nat, classify: Classify, done: seq<Node>)
    requires ItemsSound(items, 127 - depth) && ItemNodes(items) <= remaining && tail != [] && tail[0].event.SequenceEnd?
    ensures ReadItems(Cursor(ItemEvents(items) + tail, anchors, remaining), path, depth, classify, done)
         == Ok(Read(done + ItemMeanings(items, |done|, path, classify), Cursor(tail, anchors, remaining - ItemNodes(items))))
    decreases items, 2
  {
    if items == [] {
      NoItems(items, tail, path, classify, done);
      ItemsEnd(Cursor(tail, anchors, remaining), path, depth, classify, done);
    } else {
      var node := Meaning(items[0], path + "/" + IndexToken(|done|), classify);
      ItemsStep(items, 127 - depth);
      ReadsItems(items[1..], tail, anchors, remaining - Nodes(items[0]), path, depth, classify, done + [node]);
      ItemsFollow(items, tail, anchors, remaining, path, depth, classify, done);
    }
  }

  lemma {:induction false} ItemsFollow(items: seq<Written>, tail: seq<Located>, anchors: map<nat, Anchor>, remaining: nat,
                                       path: string, depth: nat, classify: Classify, done: seq<Node>)
    requires items != [] && ItemsSound(items, 127 - depth) && ItemNodes(items) <= remaining
    requires ItemNodes(items) == Nodes(items[0]) + ItemNodes(items[1..])
    requires
      var node := Meaning(items[0], path + "/" + IndexToken(|done|), classify);
      ReadItems(Cursor(ItemEvents(items[1..]) + tail, anchors, remaining - Nodes(items[0])), path, depth, classify, done + [node])
      == Ok(Read(done + [node] + ItemMeanings(items[1..], |done + [node]|, path, classify), Cursor(tail, anchors, remaining - ItemNodes(items))))
    ensures ReadItems(Cursor(ItemEvents(items) + tail, anchors, remaining), path, depth, classify, done)
         == Ok(Read(done + ItemMeanings(items, |done|, path, classify), Cursor(tail, anchors, remaining - ItemNodes(items))))
    decreases items, 1
  {
    ItemsStep(items, 127 - depth);
    ReadsFirst(items, tail, anchors, remaining, path, depth, classify, done);
    NextMeaning(items, path, classify, done);
  }

  lemma {:induction false} ItemsEnd(c: Cursor, path: string, depth: nat, classify: Classify, done: seq<Node>)
    requires c.events != [] && c.events[0].event.SequenceEnd?
    ensures ReadItems(c, path, depth, classify, done) == Ok(Read(done, c))
  {
  }

  lemma {:induction false} NoItems(items: seq<Written>, tail: seq<Located>, path: string, classify: Classify, done: seq<Node>)
    requires items == []
    ensures ItemEvents(items) + tail == tail && done + ItemMeanings(items, |done|, path, classify) == done && ItemNodes(items) == 0
  {
  }

  lemma {:induction false} NextMeaning(items: seq<Written>, path: string, classify: Classify, done: seq<Node>)
    requires items != []
    ensures
      var node := Meaning(items[0], path + "/" + IndexToken(|done|), classify);
      done + [node] + ItemMeanings(items[1..], |done + [node]|, path, classify) == done + ItemMeanings(items, |done|, path, classify)
  {
  }

  lemma {:induction false} FirstItem(items: seq<Written>, tail: seq<Located>)
    requires items != []
    ensures ItemEvents(items) + tail == Events(items[0]) + (ItemEvents(items[1..]) + tail)
  {
  }

  lemma {:induction false} ItemsStep(items: seq<Written>, levels: int)
    requires items != [] && ItemsSound(items, levels)
    ensures ItemNodes(items) == Nodes(items[0]) + ItemNodes(items[1..])
    ensures Sound(items[0], levels) && ItemsSound(items[1..], levels)
  {
  }

  lemma {:induction false} ReadsFirst(items: seq<Written>, tail: seq<Located>, anchors: map<nat, Anchor>, remaining: nat,
                                      path: string, depth: nat, classify: Classify, done: seq<Node>)
    requires items != [] && Sound(items[0], 127 - depth) && Nodes(items[0]) <= remaining
    ensures
      var node := Meaning(items[0], path + "/" + IndexToken(|done|), classify);
      ReadItems(Cursor(ItemEvents(items) + tail, anchors, remaining), path, depth, classify, done)
      == ReadItems(Cursor(ItemEvents(items[1..]) + tail, anchors, remaining - Nodes(items[0])), path, depth, classify, done + [node])
    decreases items, 0
  {
    var token := path + "/" + IndexToken(|done|);
    var more := ItemEvents(items[1..]) + tail;
    FirstItem(items, tail);
    StartsNode(items[0]);
    ReadsBack(items[0], more, anchors, remaining, token, depth + 1, classify);
    ItemDone(Cursor(Events(items[0]) + more, anchors, remaining), path, depth, classify, done, Meaning(items[0], token, classify),
             Cursor(more, anchors, remaining - Nodes(items[0])));
  }

  lemma StartsNode(d: Written)
    ensures Events(d) != [] && !Events(d)[0].event.SequenceEnd? && !Events(d)[0].event.MappingEnd?
  {
  }

  lemma {:induction false} ReadsPairs(pairs: seq<KeyValue>, tail: seq<Located>, anchors: map<nat, Anchor>, remaining: nat,
                                      path: string, depth: nat, classify: Classify, done: seq<Entry>)
    requires PairsSound(pairs, 127 - depth) && PairNodes(pairs) <= remaining && tail != [] && tail[0].event.MappingEnd?
    requires NewKeys(pairs, done)
    ensures ReadEntries(Cursor(PairEvents(pairs) + tail, anchors, remaining), path, depth, classify, Collected(done, []))
         == Ok(Read(Collected(done + PairMeanings(pairs, path, classify), []), Cursor(tail, anchors, remaining - PairNodes(pairs))))
    decreases pairs, 2
  {
    if pairs == [] {
      NoPairs(pairs, tail, path, classify, done);
      EntriesEnd(Cursor(tail, anchors, remaining), path, depth, classify, Collected(done, []));
    } else {
      var p := pairs[0];
      var entry := Entry(p.text, Meaning(p.node, path + "/" + Escape(p.text), classify));
      PairsStep(pairs, 127 - depth);
      KeysStayNew(pairs, done, entry);
      ReadsPairs(pairs[1..], tail, anchors, remaining - Nodes(p.node), path, depth, classify, done + [entry]);
      PairsFollow(pairs, tail, anchors, remaining, path, depth, classify, done);
    }
  }

  lemma {:induction false} PairsFollow(pairs: seq<KeyValue>, tail: seq<Located>, anchors: map<nat, Anchor>, remaining: nat,
                                       path: string, depth: nat, classify: Classify, done: seq<Entry>)
    requires pairs != [] && PairsSound(pairs, 127 - depth) && PairNodes(pairs) <= remaining && NewKeys(pairs, done)
    requires PairNodes(pairs) == Nodes(pairs[0].node) + PairNodes(pairs[1..])
    requires
      var p := pairs[0];
      var entry := Entry(p.text, Meaning(p.node, path + "/" + Escape(p.text), classify));
      ReadEntries(Cursor(PairEvents(pairs[1..]) + tail, anchors, remaining - Nodes(p.node)), path, depth, classify, Collected(done + [entry], []))
      == Ok(Read(Collected(done + [entry] + PairMeanings(pairs[1..], path, classify), []), Cursor(tail, anchors, remaining - PairNodes(pairs))))
    ensures ReadEntries(Cursor(PairEvents(pairs) + tail, anchors, remaining), path, depth, classify, Collected(done, []))
         == Ok(Read(Collected(done + PairMeanings(pairs, path, classify), []), Cursor(tail, anchors, remaining - PairNodes(pairs))))
    decreases pairs, 1
  {
    PairsStep(pairs, 127 - depth);
    ReadsFirstPair(pairs, tail, anchors, remaining, path, depth, classify, done);
    NextEntry(pairs, path, classify, done);
  }

  lemma {:induction false} EntriesEnd(c: Cursor, path: string, depth: nat, classify: Classify, collected: Collected)
    requires c.events != [] && c.events[0].event.MappingEnd?
    ensures ReadEntries(c, path, depth, classify, collected) == Ok(Read(collected, c))
  {
  }

  lemma {:induction false} NoPairs(pairs: seq<KeyValue>, tail: seq<Located>, path: string, classify: Classify, done: seq<Entry>)
    requires pairs == []
    ensures PairEvents(pairs) + tail == tail && done + PairMeanings(pairs, path, classify) == done && PairNodes(pairs) == 0
  {
  }

  lemma {:induction false} NextEntry(pairs: seq<KeyValue>, path: string, classify: Classify, done: seq<Entry>)
    requires pairs != []
    ensures
      var entry := Entry(pairs[0].text, Meaning(pairs[0].node, path + "/" + Escape(pairs[0].text), classify));
      done + [entry] + PairMeanings(pairs[1..], path, classify) == done + PairMeanings(pairs, path, classify)
  {
  }

  lemma {:induction false} ReadsFirstPair(pairs: seq<KeyValue>, tail: seq<Located>, anchors: map<nat, Anchor>, remaining: nat,
                                          path: string, depth: nat, classify: Classify, done: seq<Entry>)
    requires pairs != [] && Sound(pairs[0].node, 127 - depth) && Nodes(pairs[0].node) <= remaining && !Merge(pairs[0]) && NewKeys(pairs, done)
    ensures
      var p := pairs[0];
      var entry := Entry(p.text, Meaning(p.node, path + "/" + Escape(p.text), classify));
      ReadEntries(Cursor(PairEvents(pairs) + tail, anchors, remaining), path, depth, classify, Collected(done, []))
      == ReadEntries(Cursor(PairEvents(pairs[1..]) + tail, anchors, remaining - Nodes(p.node)), path, depth, classify, Collected(done + [entry], []))
    decreases pairs, 0
  {
    var p := pairs[0];
    var token := path + "/" + Escape(p.text);
    var more := PairEvents(pairs[1..]) + tail;
    FirstPairEvents(pairs, tail);
    ReadsBack(p.node, more, anchors, remaining, token, depth + 1, classify);
    PairDone(Cursor(PairEvents(pairs) + tail, anchors, remaining), path, depth, classify, done, p, Meaning(p.node, token, classify),
             Cursor(more, anchors, remaining - Nodes(p.node)));
  }

  predicate NewKeys(pairs: seq<KeyValue>, done: seq<Entry>) {
    forall i, j | 0 <= i < |pairs| && 0 <= j < |done| :: pairs[i].text != done[j].key
  }

  lemma {:induction false} FirstPairEvents(pairs: seq<KeyValue>, tail: seq<Located>)
    requires pairs != []
    ensures (PairEvents(pairs) + tail)[0] == Located(ScalarEvent(pairs[0].text, pairs[0].style, 0, pairs[0].tag), pairs[0].span)
    ensures (PairEvents(pairs) + tail)[1..] == Events(pairs[0].node) + (PairEvents(pairs[1..]) + tail)
  {
    Regroup(Located(ScalarEvent(pairs[0].text, pairs[0].style, 0, pairs[0].tag), pairs[0].span), Events(pairs[0].node), PairEvents(pairs[1..]), tail);
  }

  lemma Regroup<A>(x: A, a: seq<A>, b: seq<A>, c: seq<A>)
    ensures ([x] + (a + b) + c)[0] == x && ([x] + (a + b) + c)[1..] == a + (b + c)
  {
  }

  lemma {:induction false} PairsStep(pairs: seq<KeyValue>, levels: int)
    requires pairs != [] && PairsSound(pairs, levels)
    ensures PairNodes(pairs) == Nodes(pairs[0].node) + PairNodes(pairs[1..]) && !Merge(pairs[0])
    ensures Sound(pairs[0].node, levels) && PairsSound(pairs[1..], levels)
  {
  }

  lemma KeysStayNew(pairs: seq<KeyValue>, done: seq<Entry>, entry: Entry)
    requires pairs != [] && NewKeys(pairs, done) && entry.key == pairs[0].text && forall i | 1 <= i < |pairs| :: pairs[i].text != pairs[0].text
    ensures NewKeys(pairs[1..], done + [entry])
  {
    forall i, j | 0 <= i < |pairs[1..]| && 0 <= j < |done + [entry]| ensures pairs[1..][i].text != (done + [entry])[j].key {
      assert pairs[1..][i] == pairs[i + 1];
    }
  }

  /** A sound document of at most a million nodes and at most 128 levels below its root is read whole. */
  lemma {:induction false} WholeDocument(d: Written, classify: Classify)
    requires Sound(d, 128) && Nodes(d) <= 1_000_000
    ensures ReadNode(Cursor(Events(d), map[], MAX_NODES), "", 0, classify)
         == Ok(Read(Meaning(d, "", classify), Cursor([], map[], 1_000_000 - Nodes(d))))
  {
    ReadsBack(d, [], map[], 1_000_000, "", 0, classify);
    assert Events(d) + [] == Events(d);
  }

  // ---- Anchors ----

  /** What a node with an anchor was read as is remembered, with what it cost. */
  lemma {:induction false} AnchorKept(c: Cursor, path: string, depth: nat, classify: Classify, id: nat)
    requires ReadNode(c, path, depth, classify).Ok? && id != 0
    requires match c.events[0].event
             case ScalarEvent(_, _, anchor, _) => anchor == id
             case SequenceStart(anchor, _) => anchor == id
             case MappingStart(anchor, _) => anchor == id
             case _ => false
    ensures
      var read := ReadNode(c, path, depth, classify).value;
      id in read.cursor.anchors && read.cursor.anchors[id] == Anchor(read.value, c.remaining - read.cursor.remaining)
  {
  }

  /** An alias reads as what its anchor was read as, at its own place and for the price of that. */
  lemma AliasReads(c: Cursor, path: string, depth: nat, classify: Classify, id: nat)
    requires c.events != [] && c.events[0].event == Alias(id) && depth <= 128 && c.remaining > 0
    requires id in c.anchors && Keyed(c.anchors[id].node)
    ensures ReadNode(c, path, depth, classify).Ok? <==> c.anchors[id].cost < c.remaining
    ensures ReadNode(c, path, depth, classify).Ok? ==>
      var read := ReadNode(c, path, depth, classify).value;
      && Content(read.value) == Content(c.anchors[id].node) && Placed(read.value, path)
      && read.value.origins == c.anchors[id].node.origins + [Origin(path, c.events[0].span)]
      && read.cursor == Cursor(c.events[1..], c.anchors, c.remaining - 1 - c.anchors[id].cost)
  {
    AddOriginContent(c.anchors[id].node, c.events[0].span, path);
    AddOriginPlaced(c.anchors[id].node, c.events[0].span, path);
  }

  /** What is refused at the start of a node. */
  lemma {:induction false} RefusedAtOnce(c: Cursor, path: string, depth: nat, classify: Classify)
    ensures depth > 128 || c.remaining == 0 ==> ReadNode(c, path, depth, classify) == Err(ExpansionBudget)
    ensures depth <= 128 && c.remaining > 0 && c.events == [] ==> ReadNode(c, path, depth, classify) == Err(Incomplete)
    ensures depth <= 128 && c.remaining > 0 && c.events != [] && c.events[0].event.Alias? ==>
      var id := c.events[0].event.id;
      && (id !in c.anchors ==> ReadNode(c, path, depth, classify) == Err(UnknownAlias))
      && (id in c.anchors && c.anchors[id].cost >= c.remaining ==> ReadNode(c, path, depth, classify) == Err(AliasBudget))
  {
  }
}
