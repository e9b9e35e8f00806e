/** Which entry a key of a mapping ends up with. */
module MergePrecedence {
  import opened SourceNormalizer
  import opened SourcePointer
  import opened SourceReading
  import opened SourceTree
  import opened Wrappers

  /** A key and its node as written, or a merge key and what it merges. */
  datatype Pair = Pair(key: string, merge: bool, span: Span, node: Node)

  function Or<T>(a: Option<T>, b: Option<T>): Option<T> {
    if a.Some? then a else b
  }

  /** YAML's merge key: plain and untagged, or tagged as one in any style. */
  predicate Merges(key: Event)
    requires key.ScalarEvent?
  {
    key.text == "<<" && ((key.style == Plain && key.tag == None) || key.tag == Some("tag:yaml.org,2002:merge"))
  }

  /** The pairs of a mapping in the order of the document. */
  function Pairs(c: Cursor, path: string, depth: nat, classify: Classify, collected: Collected): seq<Pair>
    requires ReadEntries(c, path, depth, classify, collected).Ok?
    decreases |c.events|
  {
    if c.events != [] && c.events[0].event.MappingEnd? then []
    else
      var key := c.events[0].event;
      var merge := Merges(key);
      var read := ReadNode(Advance(c), path + "/" + Escape(key.text), depth + 1, classify).value;
      var more := AddPair(collected, key.text, merge, c.events[0].span, read.value, path).value;
      [Pair(key.text, merge, c.events[0].span, read.value)] + Pairs(read.cursor, path, depth, classify, more)
  }

  /** What the document itself says for a key. */
  function Explicit(pairs: seq<Pair>, key: string): Option<Node> {
    if pairs == [] then None
    else if !pairs[0].merge && pairs[0].key == key then Some(pairs[0].node)
    else Explicit(pairs[1..], key)
  }

  /** The first of the mappings that has the key. */
  function FirstWith(nodes: seq<Node>, key: string): Option<Node> {
    if nodes == [] then None
    else
      var last := nodes[|nodes| - 1];
      Or(FirstWith(nodes[..|nodes| - 1], key), if last.value.Mapping? then Find(last.value.entries, key) else None)
  }

  /** A merged node belongs where it is merged. */
  function Inherited(found: Option<Node>, span: Span, path: string, key: string): Option<Node> {
    if found.Some? then Some(AddOrigin(found.value, span, path + "/" + Escape(key))) else None
  }

  /** What the first merge key says that has the key in one of its mappings. */
  function Merged(pairs: seq<Pair>, path: string, key: string): Option<Node> {
    if pairs == [] then None
    else
      var p := pairs[0];
      var nodes := if p.node.value.Sequence? then p.node.value.items else [p.node];
      Or(if p.merge then Inherited(FirstWith(nodes, key), p.span, path, key) else None, Merged(pairs[1..], path, key))
  }

  lemma {:induction false} InheritAllFinds(inherited: seq<Entry>, nodes: seq<Node>, span: Span, path: string, key: string)
    requires InheritAll(inherited, nodes, span, path).Some?
    ensures Find(InheritAll(inherited, nodes, span, path).value, key) == Or(Find(inherited, key), Inherited(FirstWith(nodes, key), span, path, key))
  {
    if nodes != [] {
      var n := |nodes| - 1;
      InheritAllFinds(inherited, nodes[..n], span, path, key);
      InheritFinds(InheritAll(inherited, nodes[..n], span, path).value, nodes[n].value.entries, span, path, key);
    }
  }

  /** One pair more: an explicit key is new, a merged one only fills in. */
  lemma AddPairFinds(c: Collected, p: Pair, path: string, key: string)
    requires AddPair(c, p.key, p.merge, p.span, p.node, path).Ok?
    ensures
      var more := AddPair(c, p.key, p.merge, p.span, p.node, path).value;
      && Find(more.values, key) == Or(Find(c.values, key), Explicit([p], key))
      && Find(more.inherited, key) == Or(Find(c.inherited, key), Merged([p], path, key))
  {
    if p.merge {
      InheritAllFinds(c.inherited, MergeNodes(p.node), p.span, path, key);
    } else {
      FindAppend(c.values, Entry(p.key, p.node), key);
    }
  }

  lemma FirstPair(p: Pair, rest: seq<Pair>, path: string, key: string)
    ensures Explicit([p] + rest, key) == Or(Explicit([p], key), Explicit(rest, key))
    ensures Merged([p] + rest, path, key) == Or(Merged([p], path, key), Merged(rest, path, key))
  {
    assert ([p] + rest)[1..] == rest;
  }

  lemma {:induction false} EntriesFind(c: Cursor, path: string, depth: nat, classify: Classify, collected: Collected, key: string)
    requires ReadEntries(c, path, depth, classify, collected).Ok?
    ensures
      var read := ReadEntries(c, path, depth, classify, collected).value.value;
      var pairs := Pairs(c, path, depth, classify, collected);
      && Find(read.values, key) == Or(Find(collected.values, key), Explicit(pairs, key))
      && Find(read.inherited, key) == Or(Find(collected.inherited, key), Merged(pairs, path, key))
    decreases |c.events|
  {
    if !(c.events != [] && c.events[0].event.MappingEnd?) {
      var e := c.events[0].event;
      var read := ReadNode(Advance(c), path + "/" + Escape(e.text), depth + 1, classify).value;
      var p := Pair(e.text, Merges(e), c.events[0].span, read.value);
      var more := AddPair(collected, p.key, p.merge, p.span, p.node, path).value;
      AddPairFinds(collected, p, path, key);
      FirstPair(p, Pairs(read.cursor, path, depth, classify, more), path, key);
      EntriesFind(read.cursor, path, depth, classify, more, key);
    }
  }

  /** In a mapping that was read, every key has its explicit entry if there is one, otherwise
    * what the first merged mapping with that key says, and otherwise nothing. */
  lemma {:induction false} MappingFinds(c: Cursor, path: string, depth: nat, classify: Classify, key: string)
    requires ReadNode(c, path, depth, classify).Ok? && c.events[0].event.MappingStart?
    ensures ReadEntries(Cursor(c.events[1..], c.anchors, c.remaining - 1), path, depth, classify, Collected([], [])).Ok?
    ensures
      var pairs := Pairs(Cursor(c.events[1..], c.anchors, c.remaining - 1), path, depth, classify, Collected([], []));
      var node := ReadNode(c, path, depth, classify).value.value;
      && node.value.Mapping?
      && Find(node.value.entries, key) == Or(Explicit(pairs, key), Merged(pairs, path, key))
  {
    var inner := Cursor(c.events[1..], c.anchors, c.remaining - 1);
    var read := ReadEntries(inner, path, depth, classify, Collected([], [])).value;
    MappingUnfolds(c, read, path, depth, classify);
    EntriesFind(inner, path, depth, classify, Collected([], []), key);
    FillInFinds(read.value.values, read.value.inherited, key);
  }
}
