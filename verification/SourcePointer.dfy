/** Resolving JSON Pointers in normalised documents. A position is a list of steps, each to a key or to an
    index; its pointer spells the steps out, escaped and joined by slashes. Splitting and unescaping
    such a pointer leads back to the node at the position, and a node that is placed carries that
    pointer as its last origin. */
module SourcePointer {
  import opened SourceTree
  import opened Wrappers

  /** The pieces between slashes; at least one. */
  function Split(s: string): (r: seq<string>)
    ensures r != []
  {
    if s == "" then [""]
    else
      var rest := Split(s[1..]);
      if s[0] == '/' then [""] + rest else [[s[0]] + rest[0]] + rest[1..]
  }

  function Find(entries: seq<Entry>, key: string): Option<Node> {
    if entries == [] then None
    else if entries[0].key == key then Some(entries[0].node)
    else Find(entries[1..], key)
  }

  function Child(n: Node, token: string): Option<Node> {
    match n.value
    case Mapping(entries) => Find(entries, token)
    case Sequence(items) =>
      var i := ParseIndex(token);
      if i.Some? && i.value < |items| then Some(items[i.value]) else None
    case Leaf(_) => None
  }

  function Descend(n: Node, tokens: seq<string>): Option<Node>
    decreases |tokens|
  {
    if tokens == [] then Some(n)
    else
      var child := Child(n, Unescape(tokens[0]));
      if child.None? then None else Descend(child.value, tokens[1..])
  }

  /** What a pointer names: the empty one the root, others token by token. */
  function Pointer(root: Node, pointer: string): Option<Node> {
    if pointer == "" then Some(root)
    else if pointer[0] != '/' then None
    else Descend(root, Split(pointer[1..]))
  }

  lemma {:induction false} DescendFurther(n: Node, tokens: seq<string>, last: string)
    ensures Descend(n, tokens + [last]) ==
      (if Descend(n, tokens).None? then None else Child(Descend(n, tokens).value, Unescape(last)))
    decreases |tokens|
  {
    if tokens == [] {
      assert ([] + [last])[1..] == [];
      assert [] + [last] == [last];
    } else {
      assert (tokens + [last])[0] == tokens[0] && (tokens + [last])[1..] == tokens[1..] + [last];
      var child := Child(n, Unescape(tokens[0]));
      if child.Some? { DescendFurther(child.value, tokens[1..], last); }
    }
  }

  /** Follows the tokens with a moving cursor. */
  method Resolve(root: Node, pointer: string) returns (r: Option<Node>)
    ensures r == Pointer(root, pointer)
  {
    if pointer == "" { return Some(root); }
    if pointer[0] != '/' { return None; }
    var tokens := Split(pointer[1..]);
    var node := root;
    for i := 0 to |tokens|
      invariant Descend(root, tokens[..i]) == Some(node)
    {
      DescendFurther(root, tokens[..i], tokens[i]);
      assert tokens[..i + 1] == tokens[..i] + [tokens[i]];
      var child := Child(node, Unescape(tokens[i]));
      if child.None? {
        Stuck(root, tokens, i + 1);
        return None;
      }
      node := child.value;
    }
    assert tokens[..|tokens|] == tokens;
    return Some(node);
  }

  lemma {:induction false} Stuck(n: Node, tokens: seq<string>, i: nat)
    requires i <= |tokens| && Descend(n, tokens[..i]).None?
    ensures Descend(n, tokens).None?
    decreases |tokens| - i
  {
    if i < |tokens| {
      DescendFurther(n, tokens[..i], tokens[i]);
      assert tokens[..i + 1] == tokens[..i] + [tokens[i]];
      Stuck(n, tokens, i + 1);
    } else {
      assert tokens[..i] == tokens;
    }
  }

  // ---- Positions ----

  datatype Step = Key(key: string) | Index(i: nat)

  function TokenOf(step: Step): string {
    match step
    case Key(key) => Escape(key)
    case Index(i) => IndexToken(i)
  }

  function StepTo(n: Node, step: Step): Option<Node> {
    match step
    case Key(key) => if n.value.Mapping? then Find(n.value.entries, key) else None
    case Index(i) => if n.value.Sequence? && i < |n.value.items| then Some(n.value.items[i]) else None
  }

  function NodeAt(root: Node, position: seq<Step>): Option<Node>
    decreases |position|
  {
    if position == [] then Some(root)
    else
      var child := StepTo(root, position[0]);
      if child.None? then None else NodeAt(child.value, position[1..])
  }

  /** The RFC 6901 pointer of a position below `prefix`. */
  function PathOf(prefix: string, position: seq<Step>): string
    decreases |position|
  {
    if position == [] then prefix else PathOf(prefix + "/" + TokenOf(position[0]), position[1..])
  }

  function Tokens(position: seq<Step>): (r: seq<string>)
    ensures |r| == |position| && forall i | 0 <= i < |position| :: r[i] == TokenOf(position[i])
  {
    seq(|position|, i requires 0 <= i < |position| => TokenOf(position[i]))
  }

  lemma TokenPlain(step: Step)
    ensures '/' !in TokenOf(step)
  {
    match step {
      case Key(key) => EscapedHasNoSlash(key);
      case Index(i) => ParseIndexToken(i);
    }
  }

  lemma TokenFinds(n: Node, step: Step)
    requires StepTo(n, step).Some?
    ensures Child(n, Unescape(TokenOf(step))) == StepTo(n, step)
  {
    match step {
      case Key(key) => UnescapeEscape(key);
      case Index(i) =>
        ParseIndexToken(i);
        NothingToUnescape(IndexToken(i));
    }
  }

  lemma {:induction false} TokensFind(n: Node, position: seq<Step>)
    requires NodeAt(n, position).Some?
    ensures Descend(n, Tokens(position)) == NodeAt(n, position)
    decreases |position|
  {
    if position != [] {
      TokenFinds(n, position[0]);
      assert Tokens(position)[1..] == Tokens(position[1..]);
      TokensFind(StepTo(n, position[0]).value, position[1..]);
    }
  }

  lemma {:induction false} SplitPlain(s: string)
    requires '/' !in s
    ensures Split(s) == [s]
  {
    if s != "" {
      SplitPlain(s[1..]);
      assert s == [s[0]] + s[1..];
    }
  }

  lemma {:induction false} SplitAt(token: string, rest: string)
    requires '/' !in token
    ensures Split(token + "/" + rest) == [token] + Split(rest)
  {
    if token == "" {
      assert ("" + "/" + rest)[1..] == rest;
    } else {
      assert (token + "/" + rest)[1..] == token[1..] + "/" + rest;
      SplitAt(token[1..], rest);
      assert token == [token[0]] + token[1..];
    }
  }

  function Joined(tokens: seq<string>): string {
    if tokens == [] then "" else "/" + tokens[0] + Joined(tokens[1..])
  }

  lemma {:induction false} PathIsJoined(prefix: string, position: seq<Step>)
    ensures PathOf(prefix, position) == prefix + Joined(Tokens(position))
    decreases |position|
  {
    if position != [] {
      assert Tokens(position)[1..] == Tokens(position[1..]);
      PathIsJoined(prefix + "/" + TokenOf(position[0]), position[1..]);
    }
  }

  lemma {:induction false} SplitJoined(position: seq<Step>)
    requires position != []
    ensures Joined(Tokens(position)) != "" && Joined(Tokens(position))[0] == '/'
    ensures Split(Joined(Tokens(position))[1..]) == Tokens(position)
    decreases |position|
  {
    var rest := position[1..];
    var token := TokenOf(position[0]);
    TokenPlain(position[0]);
    assert Tokens(position)[1..] == Tokens(rest);
    assert Joined(Tokens(position))[1..] == token + Joined(Tokens(rest));
    if rest == [] {
      SplitPlain(token);
      assert token + "" == token;
      assert Tokens(position) == [token];
    } else {
      SplitJoined(rest);
      SplitBefore(token, Joined(Tokens(rest)));
      assert Tokens(position) == [token] + Tokens(rest);
    }
  }

  lemma SplitBefore(token: string, tail: string)
    requires '/' !in token && tail != "" && tail[0] == '/'
    ensures Split(token + tail) == [token] + Split(tail[1..])
  {
    SplitAt(token, tail[1..]);
    assert tail == "/" + tail[1..];
    assert token + tail == token + "/" + tail[1..];
  }

  /** The pointer of a position resolves to the node at that position. */
  lemma PointerFinds(root: Node, position: seq<Step>)
    requires NodeAt(root, position).Some?
    ensures Pointer(root, PathOf("", position)) == NodeAt(root, position)
  {
    PathIsJoined("", position);
    assert "" + Joined(Tokens(position)) == Joined(Tokens(position));
    if position != [] {
      SplitJoined(position);
      TokensFind(root, position);
    }
  }

  // ---- Provenance ----

  predicate LastAt(n: Node, path: string) {
    n.origins != [] && n.origins[|n.origins| - 1].path == path
  }

  /** Every node below `path` says last that it is found where it is. */
  ghost predicate Placed(n: Node, path: string) {
    && LastAt(n, path)
    && match n.value
       case Leaf(_) => true
       case Sequence(items) => forall i | 0 <= i < |items| :: Placed(items[i], path + "/" + IndexToken(i))
       case Mapping(entries) =>
         (forall i | 0 <= i < |entries| :: Placed(entries[i].node, path + "/" + Escape(entries[i].key)))
         && forall i, j | 0 <= i < j < |entries| :: entries[i].key != entries[j].key
  }

  lemma {:induction false} FoundAt(entries: seq<Entry>, key: string) returns (i: nat)
    requires Find(entries, key).Some?
    ensures i < |entries| && entries[i].key == key && Find(entries, key).value == entries[i].node
  {
    if entries[0].key == key {
      i := 0;
    } else {
      var j := FoundAt(entries[1..], key);
      i := j + 1;
    }
  }

  lemma StepPlaced(n: Node, path: string, step: Step)
    requires Placed(n, path) && StepTo(n, step).Some?
    ensures Placed(StepTo(n, step).value, path + "/" + TokenOf(step))
  {
    if step.Key? { var i := FoundAt(n.value.entries, step.key); }
  }

  /** In a placed document the last origin of every position is its pointer, and
    * that pointer leads back to it. */
  lemma {:induction false} ProvenanceIsPointer(n: Node, path: string, position: seq<Step>)
    requires Placed(n, path) && NodeAt(n, position).Some?
    ensures Placed(NodeAt(n, position).value, PathOf(path, position))
    ensures path == "" ==> Pointer(n, PathOf(path, position)) == NodeAt(n, position)
    decreases |position|
  {
    if position != [] {
      StepPlaced(n, path, position[0]);
      ProvenanceIsPointer(StepTo(n, position[0]).value, path + "/" + TokenOf(position[0]), position[1..]);
    }
    PointerFinds(n, position);
  }
}
