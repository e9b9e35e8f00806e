/** How deep an accepted document can be. The limit on depth counts the nesting that is written; a
  * tree that aliases put together can be deeper, and only the budget on nodes bounds it. */
module SourceDepth {
  import opened SourceNormalizer
  import opened SourceReading
  import opened SourceTree
  import opened Wrappers

  function Largest(s: seq<nat>): nat {
    if s == [] then 0
    else
      var rest := Largest(s[..|s| - 1]);
      if s[|s| - 1] > rest then s[|s| - 1] else rest
  }

  /** The number of nodes on the longest way down. */
  function Height(n: Node): nat {
    1 + match n.value
        case Leaf(_) => 0
        case Sequence(items) => Largest(seq(|items|, i requires 0 <= i < |items| => Height(items[i])))
        case Mapping(entries) => Largest(seq(|entries|, i requires 0 <= i < |entries| => Height(entries[i].node)))
  }

  lemma {:induction false} LargestBelowSum(a: seq<nat>, b: seq<nat>)
    requires |a| == |b| && forall i | 0 <= i < |a| :: a[i] <= b[i]
    ensures Largest(a) <= Sum(b)
  {
    if a != [] { LargestBelowSum(a[..|a| - 1], b[..|b| - 1]); }
  }

  lemma {:induction false} HeightBelowSize(n: Node)
    ensures Height(n) <= Size(n)
  {
    match n.value {
      case Leaf(_) =>
      case Sequence(items) =>
        forall i | 0 <= i < |items| ensures Height(items[i]) <= Size(items[i]) { HeightBelowSize(items[i]); }
        LargestBelowSum(seq(|items|, i requires 0 <= i < |items| => Height(items[i])), seq(|items|, i requires 0 <= i < |items| => Size(items[i])));
      case Mapping(entries) =>
        forall i | 0 <= i < |entries| ensures Height(entries[i].node) <= Size(entries[i].node) { HeightBelowSize(entries[i].node); }
        LargestBelowSum(seq(|entries|, i requires 0 <= i < |entries| => Height(entries[i].node)),
                        seq(|entries|, i requires 0 <= i < |entries| => Size(entries[i].node)));
    }
  }

  /** The depth of a tree that was read is bounded by the budget it used. */
  lemma DepthWithinBudget(c: Cursor, path: string, depth: nat, classify: Classify)
    requires SoundAnchors(c.anchors) && ReadNode(c, path, depth, classify).Ok?
    ensures Height(ReadNode(c, path, depth, classify).value.value) + ReadNode(c, path, depth, classify).value.cursor.remaining <= c.remaining
  {
    ReadNodeSound(c, path, depth, classify);
    HeightBelowSize(ReadNode(c, path, depth, classify).value.value);
  }

  // ---- A document deeper than the limit ----

  lemma HeightOfOne(item: Node, tag: Option<string>, origins: seq<Origin>)
    ensures Height(Node(Sequence([item]), tag, origins)) == 1 + Height(item)
  {
    var items := [item];
    assert seq(|items|, i requires 0 <= i < |items| => Height(items[i])) == [Height(item)];
    assert [Height(item)][..0] == [] && Largest([Height(item)]) == Height(item);
  }

  lemma HeightOfSecond(a: Node, b: Node, tag: Option<string>, origins: seq<Origin>)
    ensures Height(Node(Sequence([a, b]), tag, origins)) > Height(b)
  {
    assert seq(2, i requires 0 <= i < 2 => Height([a, b][i])) == [Height(a), Height(b)];
    assert [Height(a), Height(b)][..1] == [Height(a)];
  }

  const NOWHERE := Span(0, 0)

  function Open(anchor: nat): Located {
    Located(SequenceStart(anchor, None), NOWHERE)
  }

  function Close(): Located {
    Located(SequenceEnd, NOWHERE)
  }

  /** `n` sequences of one item, one inside the other, around what `inner` is read as. */
  function Nest(n: nat, inner: Located): seq<Located> {
    if n == 0 then [inner] else [Open(0)] + Nest(n - 1, inner) + [Close()]
  }

  /** A sequence around a single item that can be read. */
  lemma SequenceReads(c: Cursor, path: string, depth: nat, classify: Classify, item: Read<Node>, anchor: nat)
    requires depth <= MAX_DEPTH && c.remaining > 0 && c.events != [] && c.events[0] == Open(anchor)
    requires |c.events| > 1 && !c.events[1].event.SequenceEnd?
    requires ReadNode(Cursor(c.events[1..], c.anchors, c.remaining - 1), path + "/" + IndexToken(0), depth + 1, classify) == Ok(item)
    requires item.cursor.events != [] && item.cursor.events[0] == Close()
    ensures
      var node := Node(Sequence([item.value]), None, [Origin(path, NOWHERE)]);
      var spent := c.remaining - item.cursor.remaining;
      ReadNode(c, path, depth, classify) == Ok(Read(node, Cursor(item.cursor.events[1..],
        if anchor == 0 then item.cursor.anchors else item.cursor.anchors[anchor := Anchor(node, spent)], item.cursor.remaining)))
  {
    var next := Cursor(c.events[1..], c.anchors, c.remaining - 1);
    ItemsEnd(item.cursor, path, depth, classify, item.value);
    assert [] + [item.value] == [item.value];
    assert ReadItems(next, path, depth, classify, []) == ReadItems(item.cursor, path, depth, classify, [item.value]);
  }

  lemma ItemsEnd(c: Cursor, path: string, depth: nat, classify: Classify, item: Node)
    requires c.events != [] && c.events[0] == Close()
    ensures ReadItems(c, path, depth, classify, [item]) == Ok(Read([item], c))
  {
  }

  /** What is nested: a plain scalar, or an alias of a known anchor; with its height and its cost. */
  ghost predicate IsInner(inner: Located, anchors: map<nat, Anchor>, height: nat, cost: nat) {
    match inner.event
    case ScalarEvent(_, _, anchor, _) => anchor == 0 && cost == 0 && height == 1
    case Alias(id) => id in anchors && anchors[id].cost == cost && Height(anchors[id].node) == height
    case _ => false
  }

  ghost predicate Reads(c: Cursor, path: string, depth: nat, classify: Classify, height: nat, after: Cursor) {
    var r := ReadNode(c, path, depth, classify);
    r.Ok? && Height(r.value.value) == height && r.value.cursor == after
  }

  lemma InnerReads(inner: Located, c: Cursor, rest: seq<Located>, path: string, depth: nat, classify: Classify, height: nat, cost: nat)
    requires c.events == [inner] + rest && depth <= MAX_DEPTH && c.remaining > cost && IsInner(inner, c.anchors, height, cost)
    ensures Reads(c, path, depth, classify, height, Cursor(rest, c.anchors, c.remaining - 1 - cost))
  {
    assert c.events[1..] == rest;
    if inner.event.Alias? { HeightKept(c.anchors[inner.event.id].node, inner.span, path); }
  }

  lemma OpenReads(c: Cursor, next: Cursor, rest: seq<Located>, path: string, depth: nat, classify: Classify, height: nat, left: nat)
    requires depth <= MAX_DEPTH && c.remaining > 0 && c.events == [Open(0)] + next.events
    requires next.anchors == c.anchors && next.remaining == c.remaining - 1 && next.events != [] && !next.events[0].event.SequenceEnd?
    requires Reads(next, path + "/" + IndexToken(0), depth + 1, classify, height, Cursor([Close()] + rest, c.anchors, left))
    ensures Reads(c, path, depth, classify, 1 + height, Cursor(rest, c.anchors, left))
  {
    var item := ReadNode(next, path + "/" + IndexToken(0), depth + 1, classify).value;
    assert c.events[1..] == next.events && item.cursor.events[1..] == rest;
    SequenceReads(c, path, depth, classify, item, 0);
    HeightOfOne(item.value, None, [Origin(path, NOWHERE)]);
  }

  lemma {:induction false} NestBegins(n: nat, inner: Located)
    ensures Nest(n, inner) != [] && (Nest(n, inner)[0] == inner || Nest(n, inner)[0] == Open(0))
  {
  }

  /** Nesting adds its own height to that of what is inside. */
  lemma {:induction false} NestReads(n: nat, inner: Located, c: Cursor, rest: seq<Located>, path: string, depth: nat, classify: Classify,
                                     height: nat, cost: nat)
    requires c.events == Nest(n, inner) + rest && depth + n <= MAX_DEPTH && c.remaining > n + cost && IsInner(inner, c.anchors, height, cost)
    ensures Reads(c, path, depth, classify, n + height, Cursor(rest, c.anchors, c.remaining - n - 1 - cost))
    decreases n
  {
    if n == 0 {
      InnerReads(inner, c, rest, path, depth, classify, height, cost);
    } else {
      var next := Cursor(Nest(n - 1, inner) + ([Close()] + rest), c.anchors, c.remaining - 1);
      NestReads(n - 1, inner, next, [Close()] + rest, path + "/" + IndexToken(0), depth + 1, classify, height, cost);
      NestBegins(n - 1, inner);
      assert c.events == [Open(0)] + next.events;
      OpenReads(c, next, rest, path, depth, classify, n - 1 + height, c.remaining - n - 1 - cost);
    }
  }

  /** Expanding an alias adds origins and nothing else. */
  lemma {:induction false} HeightKept(n: Node, span: Span, path: string)
    ensures Height(AddOrigin(n, span, path)) == Height(n)
  {
    match n.value {
      case Leaf(_) =>
      case Sequence(items) =>
        var moved := AddOrigin(n, span, path).value.items;
        forall i | 0 <= i < |items| ensures Height(moved[i]) == Height(items[i]) { HeightKept(items[i], span, path + "/" + IndexToken(i)); }
        assert seq(|items|, i requires 0 <= i < |items| => Height(moved[i])) == seq(|items|, i requires 0 <= i < |items| => Height(items[i]));
        assert seq(|moved|, i requires 0 <= i < |moved| => Height(moved[i])) == seq(|items|, i requires 0 <= i < |items| => Height(moved[i]));
      case Mapping(entries) =>
        var moved := AddOrigin(n, span, path).value.entries;
        forall i | 0 <= i < |entries| ensures Height(moved[i].node) == Height(entries[i].node) {
          HeightKept(entries[i].node, span, path + "/" + Escape(entries[i].key));
        }
        assert seq(|entries|, i requires 0 <= i < |entries| => Height(moved[i].node)) == seq(|entries|, i requires 0 <= i < |entries| => Height(entries[i].node));
        assert seq(|moved|, i requires 0 <= i < |moved| => Height(moved[i].node)) == seq(|entries|, i requires 0 <= i < |entries| => Height(moved[i].node));
    }
  }

  /** A sequence of two items that can be read. */
  lemma PairReads(c: Cursor, depth: nat, classify: Classify, a: Read<Node>, b: Read<Node>)
    requires depth <= MAX_DEPTH && c.remaining > 0 && |c.events| > 1 && c.events[0] == Open(0) && !c.events[1].event.SequenceEnd?
    requires ReadNode(Cursor(c.events[1..], c.anchors, c.remaining - 1), "/" + IndexToken(0), depth + 1, classify) == Ok(a)
    requires a.cursor.events != [] && !a.cursor.events[0].event.SequenceEnd?
    requires ReadNode(a.cursor, "/" + IndexToken(1), depth + 1, classify) == Ok(b)
    requires b.cursor.events != [] && b.cursor.events[0] == Close()
    ensures ReadNode(c, "", depth, classify) == Ok(Read(Node(Sequence([a.value, b.value]), None, [Origin("", NOWHERE)]), Advance(b.cursor)))
  {
    var next := Cursor(c.events[1..], c.anchors, c.remaining - 1);
    assert "" + "/" + IndexToken(0) == "/" + IndexToken(0) && "" + "/" + IndexToken(1) == "/" + IndexToken(1);
    BothEnd(b.cursor, depth, classify, a.value, b.value);
    assert [] + [a.value] == [a.value] && [a.value] + [b.value] == [a.value, b.value];
    assert ReadItems(a.cursor, "", depth, classify, [a.value]) == ReadItems(b.cursor, "", depth, classify, [a.value, b.value]);
    assert ReadItems(next, "", depth, classify, []) == ReadItems(a.cursor, "", depth, classify, [a.value]);
  }

  lemma BothEnd(c: Cursor, depth: nat, classify: Classify, a: Node, b: Node)
    requires c.events != [] && c.events[0] == Close()
    ensures ReadItems(c, "", depth, classify, [a, b]) == Ok(Read([a, b], c))
  {
  }

  function Zero(): Located {
    Located(ScalarEvent("0", Plain, 0, None), NOWHERE)
  }

  function Again(): Located {
    Located(Alias(1), NOWHERE)
  }

  /** `n` sequences around a scalar, anchored, and `n` around an alias of them. */
  function DeepDocument(n: nat): seq<Located>
    requires n > 0
  {
    [Open(0)] + ([Open(1)] + Nest(n - 1, Zero()) + [Close()]) + Nest(n, Again()) + [Close()]
  }

  lemma {:induction false} AnchoredReads(n: nat, c: Cursor, rest: seq<Located>, classify: Classify) returns (read: Read<Node>)
    requires 0 < n < MAX_DEPTH && c.events == [Open(1)] + Nest(n - 1, Zero()) + [Close()] + rest && c.remaining > n + 1
    ensures ReadNode(c, "/" + IndexToken(0), 1, classify) == Ok(read)
    ensures read.cursor == Cursor(rest, c.anchors[1 := Anchor(read.value, n + 1)], c.remaining - n - 1) && Height(read.value) == n + 1
  {
    var path := "/" + IndexToken(0);
    var next := Cursor(Nest(n - 1, Zero()) + ([Close()] + rest), c.anchors, c.remaining - 1);
    NestReads(n - 1, Zero(), next, [Close()] + rest, path + "/" + IndexToken(0), 2, classify, 1, 0);
    NestBegins(n - 1, Zero());
    assert c.events == [Open(1)] + next.events && c.events[1..] == next.events;
    var item := ReadNode(next, path + "/" + IndexToken(0), 2, classify).value;
    SequenceReads(c, path, 1, classify, item, 1);
    HeightOfOne(item.value, None, [Origin(path, NOWHERE)]);
    assert item.cursor.events[1..] == rest;
    read := ReadNode(c, path, 1, classify).value;
  }

  /** Documents whose written nesting stays within the limit are accepted, and their trees are
    * twice as deep. */
  lemma {:induction false} DeeperThanWritten(n: nat, classify: Classify)
    requires 0 < n < MAX_DEPTH
    ensures
      var read := ReadNode(Cursor(DeepDocument(n), map[], MAX_NODES), "", 0, classify);
      read.Ok? && read.value.cursor.events == [] && Height(read.value.value) > 2 * n
  {
    var c := Cursor(DeepDocument(n), map[], MAX_NODES);
    var tail := Nest(n, Again()) + [Close()];
    var first := Cursor([Open(1)] + Nest(n - 1, Zero()) + [Close()] + tail, map[], MAX_NODES - 1);
    assert c.events == [Open(0)] + first.events && c.events[1..] == first.events;
    var a := AnchoredReads(n, first, tail, classify);
    var b := SecondReads(n, a, classify);
    PairReads(c, 0, classify, a, b);
    HeightOfSecond(a.value, b.value, None, [Origin("", NOWHERE)]);
  }

  lemma {:induction false} SecondReads(n: nat, a: Read<Node>, classify: Classify) returns (b: Read<Node>)
    requires 0 < n < MAX_DEPTH && Height(a.value) == n + 1
    requires a.cursor == Cursor(Nest(n, Again()) + [Close()], map[1 := Anchor(a.value, n + 1)], MAX_NODES - n - 2)
    ensures a.cursor.events != [] && !a.cursor.events[0].event.SequenceEnd?
    ensures ReadNode(a.cursor, "/" + IndexToken(1), 1, classify) == Ok(b) && b.cursor.events == [Close()] && Height(b.value) == n + n + 1
  {
    NestBegins(n, Again());
    NestReads(n, Again(), a.cursor, [Close()], "/" + IndexToken(1), 1, classify, n + 1, n + 1);
    b := ReadNode(a.cursor, "/" + IndexToken(1), 1, classify).value;
  }
}
