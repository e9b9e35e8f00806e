/** The event reader with its mutable queue, anchors and budget. */
module DocumentReader {
  import opened SourceNormalizer
  import opened SourcePointer
  import opened SourceReading
  import opened SourceTree
  import opened Wrappers

  datatype NormalizeError = EventBudget | Reading(error: ReadError) | SeveralDocuments

  class Reader {
    const classify: Classify
    var events: seq<Located>
    var anchors: map<nat, Anchor>
    var remaining: nat

    constructor (events: seq<Located>, classify: Classify)
      ensures State() == Cursor(events, map[], MAX_NODES) && this.classify == classify
    {
      this.events, this.classify := events, classify;
      anchors, remaining := map[], MAX_NODES;
    }

    function State(): Cursor
      reads this
    {
      Cursor(events, anchors, remaining)
    }

    method Pop() returns (e: Located)
      requires events != []
      modifies this`events
      ensures e == old(events)[0] && events == old(events)[1..]
    {
      e := events[0];
      events := events[1..];
    }

    method Remember(spent: nat, value: Value, span: Span, anchor: nat, tag: Option<string>, path: string) returns (node: Node)
      modifies this`anchors
      ensures Read(node, State()) == Finish(old(State()), spent, value, span, anchor, tag, path)
    {
      node := Node(value, tag, [Origin(path, span)]);
      if anchor != 0 { anchors := anchors[anchor := Anchor(node, spent)]; }
    }

    method Next(path: string, depth: nat) returns (r: Result<Node, ReadError>)
      modifies this
      ensures
        var read := ReadNode(old(State()), path, depth, classify);
        if read.Err? then r == Err(read.error) else r == Ok(read.value.value) && State() == read.value.cursor
      decreases |events|, 0
    {
      if depth > MAX_DEPTH || remaining == 0 { return Err(ExpansionBudget); }
      var before := remaining;
      remaining := remaining - 1;
      if events == [] { return Err(Incomplete); }
      var first := Pop();
      var span := first.span;
      match first.event {
        case ScalarEvent(text, style, anchor, tag) =>
          var node := Remember(1, Leaf(classify(text, style, tag)), span, anchor, tag, path);
          return Ok(node);
        case SequenceStart(anchor, tag) =>
          var items := Items(path, depth);
          if items.Err? { return Err(items.error); }
          var last := Pop();
          var node := Remember(before - remaining, Sequence(items.value), Span(span.start, last.span.end), anchor, tag, path);
          return Ok(node);
        case MappingStart(anchor, tag) =>
          var entries := Entries(path, depth);
          if entries.Err? { return Err(entries.error); }
          var last := Pop();
          var node := Remember(before - remaining, Mapping(FillIn(entries.value.values, entries.value.inherited)), Span(span.start, last.span.end), anchor, tag, path);
          return Ok(node);
        case Alias(id) =>
          if id !in anchors { return Err(UnknownAlias); }
          if anchors[id].cost > remaining { return Err(AliasBudget); }
          remaining := remaining - anchors[id].cost;
          return Ok(AddOrigin(anchors[id].node, span, path));
        case SequenceEnd => return Err(Unexpected);
        case MappingEnd => return Err(Unexpected);
      }
    }

    method Items(path: string, depth: nat) returns (r: Result<seq<Node>, ReadError>)
      modifies this
      ensures
        var read := ReadItems(old(State()), path, depth, classify, []);
        if read.Err? then r == Err(read.error) else r == Ok(read.value.value) && State() == read.value.cursor
      decreases |events|, 1
    {
      var items: seq<Node> := [];
      while !(events != [] && events[0].event.SequenceEnd?)
        invariant |events| <= |old(events)|
        invariant ReadItems(State(), path, depth, classify, items) == ReadItems(old(State()), path, depth, classify, [])
        decreases |events|
      {
        var node := Next(path + "/" + IndexToken(|items|), depth + 1);
        if node.Err? { return Err(node.error); }
        items := items + [node.value];
      }
      return Ok(items);
    }

    method Entries(path: string, depth: nat) returns (r: Result<Collected, ReadError>)
      modifies this
      ensures
        var read := ReadEntries(old(State()), path, depth, classify, Collected([], []));
        if read.Err? then r == Err(read.error) else r == Ok(read.value.value) && State() == read.value.cursor
      decreases |events|, 1
    {
      var collected := Collected([], []);
      while !(events != [] && events[0].event.MappingEnd?)
        invariant |events| <= |old(events)|
        invariant ReadEntries(State(), path, depth, classify, collected) == ReadEntries(old(State()), path, depth, classify, Collected([], []))
        decreases |events|
      {
        if events == [] || !events[0].event.ScalarEvent? { return Err(NotAScalarKey); }
        var key := Pop();
        var node := Next(path + "/" + Escape(key.event.text), depth + 1);
        if node.Err? { return Err(node.error); }
        var more := AddPair(collected, key.event.text, IsMerge(key.event.text, key.event.style, key.event.tag), key.span, node.value, path);
        if more.Err? { return Err(more.error); }
        collected := more.value;
      }
      return Ok(collected);
    }
  }

  /** An accepted document expands to at most `MAX_NODES` nodes, each of which says
    * last that it is found where it is. */
  method Normalize(events: seq<Located>, classify: Classify) returns (r: Result<Node, NormalizeError>)
    ensures
      var read := ReadNode(Cursor(events, map[], MAX_NODES), "", 0, classify);
      && (r.Ok? <==> |events| <= MAX_NODES && read.Ok? && read.value.cursor.events == [])
      && (r.Ok? ==> r.value == read.value.value && Size(r.value) <= MAX_NODES && Placed(r.value, ""))
  {
    if |events| > MAX_NODES { return Err(EventBudget); }
    var reader := new Reader(events, classify);
    var root := reader.Next("", 0);
    if root.Err? { return Err(Reading(root.error)); }
    if reader.events != [] { return Err(SeveralDocuments); }
    ReadNodeSound(Cursor(events, map[], MAX_NODES), "", 0, classify);
    return Ok(root.value);
  }
}
