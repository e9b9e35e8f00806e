/** Reading a stream of parser events into a source tree: aliases, merge keys and the expansion budget. */
module SourceReading {
  import opened SourcePointer
  import opened SourceTree
  import opened Wrappers

  const MAX_NODES: nat := 1_000_000
  const MAX_DEPTH: nat := 128

  datatype Style = Plain | Quoted

  datatype Event =
    | ScalarEvent(text: string, style: Style, anchor: nat, tag: Option<string>)
    | SequenceStart(anchor: nat, tag: Option<string>)
    | SequenceEnd
    | MappingStart(anchor: nat, tag: Option<string>)
    | MappingEnd
    | Alias(id: nat)

  datatype Located = Located(event: Event, span: Span)

  datatype ReadError = ExpansionBudget | Incomplete | NotAScalarKey | MergeNeedsMapping | DuplicateKey | UnknownAlias | AliasBudget | Unexpected

  /** An anchored tree and what expanding it again costs. */
  datatype Anchor = Anchor(node: Node, cost: nat)

  datatype Cursor = Cursor(events: seq<Located>, anchors: map<nat, Anchor>, remaining: nat)

  datatype Read<T> = Read(value: T, cursor: Cursor)

  /** Explicit entries, and those that merge keys contribute. */
  datatype Collected = Collected(values: seq<Entry>, inherited: seq<Entry>)

  /** Scalars are typed by style and tag; the rules themselves are a parameter. */
  type Classify = (string, Style, Option<string>) -> Scalar

  // ---- Aliases ----

  /** The tree as seen from `path`: every node gains an origin at its new place. */
  function AddOrigin(n: Node, span: Span, path: string): Node {
    var value := match n.value
      case Leaf(s) => Leaf(s)
      case Sequence(items) =>
        Sequence(seq(|items|, i requires 0 <= i < |items| => AddOrigin(items[i], span, path + "/" + IndexToken(i))))
      case Mapping(entries) =>
        Mapping(seq(|entries|, i requires 0 <= i < |entries| =>
          Entry(entries[i].key, AddOrigin(entries[i].node, span, path + "/" + Escape(entries[i].key)))));
    Node(value, n.tag, n.origins + [Origin(path, span)])
  }

  /** No mapping repeats a key. */
  ghost predicate Keyed(n: Node) {
    match n.value
    case Leaf(_) => true
    case Sequence(items) => forall i | 0 <= i < |items| :: Keyed(items[i])
    case Mapping(entries) =>
      (forall i | 0 <= i < |entries| :: Keyed(entries[i].node)) && forall i, j | 0 <= i < j < |entries| :: entries[i].key != entries[j].key
  }

  // ---- Merge keys ----

  /** YAML's merge key, plain and untagged or tagged as one. */
  predicate IsMerge(key: string, style: Style, tag: Option<string>) {
    key == "<<" && (tag == Some("tag:yaml.org,2002:merge") || (tag.None? && style.Plain?))
  }

  /** The first entry of a key stays. */
  function OrInsert(entries: seq<Entry>, e: Entry): seq<Entry> {
    if Find(entries, e.key).Some? then entries else entries + [e]
  }

  function Inherit(inherited: seq<Entry>, mapping: seq<Entry>, span: Span, path: string): seq<Entry> {
    if mapping == [] then inherited
    else
      var e := mapping[|mapping| - 1];
      OrInsert(Inherit(inherited, mapping[..|mapping| - 1], span, path), Entry(e.key, AddOrigin(e.node, span, path + "/" + Escape(e.key))))
  }

  function InheritAll(inherited: seq<Entry>, nodes: seq<Node>, span: Span, path: string): Option<seq<Entry>> {
    if nodes == [] then Some(inherited)
    else
      var rest := InheritAll(inherited, nodes[..|nodes| - 1], span, path);
      var last := nodes[|nodes| - 1];
      if rest.None? || !last.value.Mapping? then None else Some(Inherit(rest.value, last.value.entries, span, path))
  }

  /** A merge value is one mapping or a list of them. */
  function MergeNodes(n: Node): seq<Node> {
    if n.value.Sequence? then n.value.items else [n]
  }

  function AddPair(c: Collected, key: string, merge: bool, span: Span, node: Node, path: string): Result<Collected, ReadError> {
    if merge then
      var inherited := InheritAll(c.inherited, MergeNodes(node), span, path);
      if inherited.None? then Err(MergeNeedsMapping) else Ok(c.(inherited := inherited.value))
    else if Find(c.values, key).Some? then Err(DuplicateKey)
    else Ok(c.(values := c.values + [Entry(key, node)]))
  }

  /** Inherited entries fill in for keys that are not explicit. */
  function FillIn(values: seq<Entry>, inherited: seq<Entry>): seq<Entry> {
    if inherited == [] then values
    else OrInsert(FillIn(values, inherited[..|inherited| - 1]), inherited[|inherited| - 1])
  }

  // ---- Events ----

  function Advance(c: Cursor): Cursor
    requires c.events != []
  {
    c.(events := c.events[1..])
  }

  /** Builds the node and remembers it under its anchor. */
  function Finish(c: Cursor, spent: nat, value: Value, span: Span, anchor: nat, tag: Option<string>, path: string): Read<Node> {
    var node := Node(value, tag, [Origin(path, span)]);
    Read(node, if anchor != 0 then c.(anchors := c.anchors[anchor := Anchor(node, spent)]) else c)
  }

  function ReadNode(c: Cursor, path: string, depth: nat, classify: Classify): (r: Result<Read<Node>, ReadError>)
    ensures r.Ok? ==> |r.value.cursor.events| < |c.events| && r.value.cursor.remaining < c.remaining
    decreases |c.events|, 0
  {
    if depth > MAX_DEPTH || c.remaining == 0 then Err(ExpansionBudget)
    else if c.events == [] then Err(Incomplete)
    else
      var span := c.events[0].span;
      var next := Cursor(c.events[1..], c.anchors, c.remaining - 1);
      match c.events[0].event
      case ScalarEvent(text, style, anchor, tag) =>
        Ok(Finish(next, 1, Leaf(classify(text, style, tag)), span, anchor, tag, path))
      case SequenceStart(anchor, tag) =>
        (match ReadItems(next, path, depth, classify, [])
         case Err(e) => Err(e)
         case Ok(read) =>
           var after := read.cursor;
           Ok(Finish(Advance(after), c.remaining - after.remaining, Sequence(read.value), Span(span.start, after.events[0].span.end), anchor, tag, path)))
      case MappingStart(anchor, tag) =>
        (match ReadEntries(next, path, depth, classify, Collected([], []))
         case Err(e) => Err(e)
         case Ok(read) =>
           var after := read.cursor;
           Ok(Finish(Advance(after), c.remaining - after.remaining, Mapping(FillIn(read.value.values, read.value.inherited)),
             Span(span.start, after.events[0].span.end), anchor, tag, path)))
      case Alias(id) =>
        if id !in next.anchors then Err(UnknownAlias)
        else if next.anchors[id].cost > next.remaining then Err(AliasBudget)
        else Ok(Read(AddOrigin(next.anchors[id].node, span, path), next.(remaining := next.remaining - next.anchors[id].cost)))
      case SequenceEnd => Err(Unexpected)
      case MappingEnd => Err(Unexpected)
  }

  function ReadItems(c: Cursor, path: string, depth: nat, classify: Classify, items: seq<Node>): (r: Result<Read<seq<Node>>, ReadError>)
    ensures r.Ok? ==> |r.value.cursor.events| <= |c.events| && r.value.cursor.events != [] && r.value.cursor.remaining <= c.remaining
    decreases |c.events|, 1
  {
    if c.events != [] && c.events[0].event.SequenceEnd? then Ok(Read(items, c))
    else
      match ReadNode(c, path + "/" + IndexToken(|items|), depth + 1, classify)
      case Err(e) => Err(e)
      case Ok(read) => ReadItems(read.cursor, path, depth, classify, items + [read.value])
  }

  function ReadEntries(c: Cursor, path: string, depth: nat, classify: Classify, collected: Collected): (r: Result<Read<Collected>, ReadError>)
    ensures r.Ok? ==> |r.value.cursor.events| <= |c.events| && r.value.cursor.events != [] && r.value.cursor.remaining <= c.remaining
    decreases |c.events|, 1
  {
    if c.events != [] && c.events[0].event.MappingEnd? then Ok(Read(collected, c))
    else if c.events == [] || !c.events[0].event.ScalarEvent? then Err(NotAScalarKey)
    else
      var key := c.events[0].event;
      match ReadNode(Advance(c), path + "/" + Escape(key.text), depth + 1, classify)
      case Err(e) => Err(e)
      case Ok(read) =>
        match AddPair(collected, key.text, IsMerge(key.text, key.style, key.tag), c.events[0].span, read.value, path)
        case Err(e) => Err(e)
        case Ok(more) => ReadEntries(read.cursor, path, depth, classify, more)
  }
}
