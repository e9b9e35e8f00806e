/** Normalised source documents: values with the places they came from, addressed by JSON Pointer. */
module SourceTree {
  import opened Wrappers

  datatype Span = Span(start: int, end: int)

  datatype Origin = Origin(path: string, span: Span)

  datatype Scalar = Null | Boolean(b: bool) | Number(spelling: string) | Text(s: string)

  datatype Value = Leaf(scalar: Scalar) | Sequence(items: seq<Node>) | Mapping(entries: seq<Entry>)

  datatype Entry = Entry(key: string, node: Node)

  datatype Node = Node(value: Value, tag: Option<string>, origins: seq<Origin>)

  // ---- Sizes ----

  function Sum(s: seq<nat>): nat {
    if s == [] then 0 else Sum(s[..|s| - 1]) + s[|s| - 1]
  }

  function Size(n: Node): nat {
    1 + match n.value
        case Leaf(_) => 0
        case Sequence(items) => Sum(seq(|items|, i requires 0 <= i < |items| => Size(items[i])))
        case Mapping(entries) => Sum(seq(|entries|, i requires 0 <= i < |entries| => Size(entries[i].node)))
  }

  function Sizes(items: seq<Node>): (r: seq<nat>)
    ensures |r| == |items| && forall i | 0 <= i < |items| :: r[i] == Size(items[i])
  {
    seq(|items|, i requires 0 <= i < |items| => Size(items[i]))
  }

  function Nodes(entries: seq<Entry>): (r: seq<Node>)
    ensures |r| == |entries| && forall i | 0 <= i < |entries| :: r[i] == entries[i].node
  {
    seq(|entries|, i requires 0 <= i < |entries| => entries[i].node)
  }

  /** All nodes of some subtrees. */
  function Total(items: seq<Node>): nat {
    Sum(Sizes(items))
  }

  lemma SizeOf(n: Node)
    ensures n.value.Leaf? ==> Size(n) == 1
    ensures n.value.Sequence? ==> Size(n) == 1 + Total(n.value.items)
    ensures n.value.Mapping? ==> Size(n) == 1 + Total(Nodes(n.value.entries))
  {
    match n.value {
      case Leaf(_) =>
      case Sequence(items) => assert Sizes(items) == seq(|items|, i requires 0 <= i < |items| => Size(items[i]));
      case Mapping(entries) => assert Sizes(Nodes(entries)) == seq(|entries|, i requires 0 <= i < |entries| => Size(entries[i].node));
    }
  }

  lemma TotalAppend(items: seq<Node>, n: Node)
    ensures Total(items + [n]) == Total(items) + Size(n)
  {
    assert Sizes(items + [n])[..|items|] == Sizes(items);
  }

  lemma NodesAppend(entries: seq<Entry>, e: Entry)
    ensures Nodes(entries + [e]) == Nodes(entries) + [e.node]
  {
  }

  // ---- Tokens of RFC 6901, sections 3 and 4 ----

  function ReplaceChar(s: string, c: char, with: string): string {
    if s == "" then "" else (if s[0] == c then with else [s[0]]) + ReplaceChar(s[1..], c, with)
  }

  /** Left to right, without looking again at what was put in. */
  function ReplacePair(s: string, a: char, b: char, with: char): string {
    if s == "" then ""
    else if |s| >= 2 && s[0] == a && s[1] == b then [with] + ReplacePair(s[2..], a, b, with)
    else [s[0]] + ReplacePair(s[1..], a, b, with)
  }

  function Escape(key: string): string {
    ReplaceChar(ReplaceChar(key, '~', "~0"), '/', "~1")
  }

  function Unescape(token: string): string {
    ReplacePair(ReplacePair(token, '~', '1', '/'), '~', '0', '~')
  }

  lemma {:induction false} ReplaceConcat(a: string, b: string, c: char, with: string)
    ensures ReplaceChar(a + b, c, with) == ReplaceChar(a, c, with) + ReplaceChar(b, c, with)
  {
    if a == "" {
      assert a + b == b;
    } else {
      assert (a + b)[1..] == a[1..] + b;
      ReplaceConcat(a[1..], b, c, with);
    }
  }

  lemma EscapeStep(key: string)
    requires key != ""
    ensures Escape(key) == (if key[0] == '~' then "~0" else if key[0] == '/' then "~1" else [key[0]]) + Escape(key[1..])
  {
    var first := if key[0] == '~' then "~0" else [key[0]];
    ReplaceConcat(first, ReplaceChar(key[1..], '~', "~0"), '/', "~1");
    OneOrTwo(first);
  }

  lemma OneOrTwo(s: string)
    ensures |s| == 1 ==> ReplaceChar(s, '/', "~1") == if s[0] == '/' then "~1" else s
    ensures s == "~0" ==> ReplaceChar(s, '/', "~1") == "~0"
  {
    if s == "~0" { assert s[1..] == "0" && "0"[1..] == ""; }
  }

  /** The slashes come back first, the tildes stay escaped. */
  lemma {:induction false} SlashesBack(key: string)
    ensures ReplacePair(Escape(key), '~', '1', '/') == ReplaceChar(key, '~', "~0")
  {
    if key != "" {
      EscapeStep(key);
      SlashesBack(key[1..]);
      var rest := Escape(key[1..]);
      if key[0] == '~' {
        assert (['~'] + (['0'] + rest))[1..] == ['0'] + rest && (['0'] + rest)[1..] == rest;
        assert Escape(key) == ['~'] + (['0'] + rest);
      } else if key[0] == '/' {
        assert (['~', '1'] + rest)[2..] == rest;
      } else {
        assert ([key[0]] + rest)[1..] == rest;
      }
    }
  }

  lemma {:induction false} TildesBack(key: string)
    ensures ReplacePair(ReplaceChar(key, '~', "~0"), '~', '0', '~') == key
  {
    if key != "" {
      TildesBack(key[1..]);
      var rest := ReplaceChar(key[1..], '~', "~0");
      if key[0] == '~' {
        assert (['~', '0'] + rest)[2..] == rest;
      } else {
        assert ([key[0]] + rest)[1..] == rest;
      }
      assert key == [key[0]] + key[1..];
    }
  }

  /** Escaping and unescaping undo each other. */
  lemma UnescapeEscape(key: string)
    ensures Unescape(Escape(key)) == key
  {
    SlashesBack(key);
    TildesBack(key);
  }

  lemma {:induction false} EscapedHasNoSlash(key: string)
    ensures '/' !in Escape(key)
  {
    if key != "" {
      EscapeStep(key);
      EscapedHasNoSlash(key[1..]);
    }
  }

  // ---- Array indices ----

  function DigitChar(d: nat): char
    requires d < 10
  {
    '0' + d as char
  }

  function IndexToken(n: nat): string {
    if n < 10 then [DigitChar(n)] else IndexToken(n / 10) + [DigitChar(n % 10)]
  }

  /** Indices are spelled in decimal. */
  lemma IndexSpelled(n: nat, d: nat)
    requires d < 10
    ensures IndexToken(d) == ["0123456789"[d]] && (n > 0 ==> IndexToken(10 * n + d) == IndexToken(n) + ["0123456789"[d]])
  {
  }

  function ParseDigits(s: string): Option<nat> {
    if s == "" then Some(0)
    else
      var c := s[|s| - 1];
      var rest := ParseDigits(s[..|s| - 1]);
      if rest.None? || !('0' <= c <= '9') then None else Some(rest.value * 10 + (c as int - '0' as int))
  }

  /** Decimal digits, a leading plus sign allowed. */
  function ParseIndex(s: string): Option<nat> {
    var digits := if s != "" && s[0] == '+' then s[1..] else s;
    if digits == "" then None else ParseDigits(digits)
  }

  lemma {:induction false} IndexTokenDigits(n: nat)
    ensures IndexToken(n) != "" && ParseDigits(IndexToken(n)) == Some(n)
    ensures forall c | c in IndexToken(n) :: '0' <= c <= '9'
  {
    if n >= 10 {
      IndexTokenDigits(n / 10);
      assert IndexToken(n)[..|IndexToken(n)| - 1] == IndexToken(n / 10);
    } else {
      assert IndexToken(n)[..0] == "";
    }
  }

  lemma ParseIndexToken(n: nat)
    ensures ParseIndex(IndexToken(n)) == Some(n) && '/' !in IndexToken(n) && '~' !in IndexToken(n)
  {
    IndexTokenDigits(n);
    assert IndexToken(n)[0] in IndexToken(n);
  }

  lemma {:induction false} NothingToUnescape(s: string)
    requires '~' !in s
    ensures ReplacePair(s, '~', '1', '/') == s && ReplacePair(s, '~', '0', '~') == s
  {
    if s != "" {
      NothingToUnescape(s[1..]);
      assert s == [s[0]] + s[1..];
    }
  }
}
