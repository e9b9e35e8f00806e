/** What one searchable text contributes to the discovery index. */
module SearchTerms {
  import opened Wrappers

  datatype SearchObject = SearchObject(relation: string, field: Option<string>)

  /** One indexed thing: its name, alternative names, and prose that only aids discovery. */
  datatype Document = Document(field: Option<string>, name: string, aliases: seq<string>, synonyms: seq<string>,
                               hints: seq<string>, texts: seq<string>)

  /** Normalization and tokenization, which the index takes as they are. */
  datatype Text = Text(normalize: string -> string, terms: string -> seq<string>)

  const EXACT_WEIGHT: nat := 100
  const NAME_WEIGHT: nat := 4
  const PROSE_WEIGHT: nat := 1

  // ---- Declarative reading ----

  function Elements(s: seq<string>): set<string> {
    set x | x in s
  }

  function NamesOf(text: Text, d: Document): set<string> {
    {text.normalize(d.name)} + (set a | a in d.aliases :: text.normalize(a)) + (set a | a in d.synonyms :: text.normalize(a))
  }

  /** A field also answers to its qualified name, but only as an exact handle. */
  function Handles(text: Text, relation: string, d: Document): set<string> {
    NamesOf(text, d) + (if d.field.Some? then {text.normalize(relation + "." + d.field.value)} else {})
  }

  function TermsOf(text: Text, strings: set<string>): set<string> {
    set s, t | s in strings && t in text.terms(s) :: t
  }

  function Prose(d: Document): set<string> {
    Elements(d.hints) + Elements(d.texts)
  }

  function ExactWeights(text: Text, relation: string, d: Document): map<string, nat> {
    map h | h in Handles(text, relation, d) :: EXACT_WEIGHT
  }

  /** A term of a name outweighs the same term in prose. */
  function TokenWeights(text: Text, d: Document): map<string, nat> {
    var named := TermsOf(text, NamesOf(text, d));
    map t | t in named + TermsOf(text, Prose(d)) :: if t in named then NAME_WEIGHT else PROSE_WEIGHT
  }

  // ---- The loops that compute it ----

  /** `or_insert`: a term already present keeps its weight. */
  method OrInsert(tokens: map<string, nat>, terms: seq<string>) returns (r: map<string, nat>)
    ensures r.Keys == tokens.Keys + Elements(terms)
    ensures forall t | t in r :: r[t] == if t in tokens then tokens[t] else PROSE_WEIGHT
  {
    r := tokens;
    for i := 0 to |terms|
      invariant forall t :: t in r <==> t in tokens || t in terms[..i]
      invariant forall t | t in r :: r[t] == if t in tokens then tokens[t] else PROSE_WEIGHT
    {
      if terms[i] !in r { r := r[terms[i] := PROSE_WEIGHT]; }
    }
  }

  /** `insert`: a term of a name takes the name's weight. */
  method InsertNames(tokens: map<string, nat>, terms: seq<string>) returns (r: map<string, nat>)
    ensures r.Keys == tokens.Keys + Elements(terms)
    ensures forall t | t in r :: r[t] == if t in terms then NAME_WEIGHT else tokens[t]
  {
    r := tokens;
    for i := 0 to |terms|
      invariant forall t :: t in r <==> t in tokens || t in terms[..i]
      invariant forall t | t in r :: r[t] == if t in terms[..i] then NAME_WEIGHT else tokens[t]
    {
      r := r[terms[i] := NAME_WEIGHT];
    }
  }

  method AddProse(text: Text, tokens: map<string, nat>, strings: seq<string>) returns (r: map<string, nat>)
    ensures r.Keys == tokens.Keys + TermsOf(text, Elements(strings))
    ensures forall t | t in r :: r[t] == if t in tokens then tokens[t] else PROSE_WEIGHT
  {
    r := tokens;
    for i := 0 to |strings|
      invariant r.Keys == tokens.Keys + TermsOf(text, Elements(strings[..i]))
      invariant forall t | t in r :: r[t] == if t in tokens then tokens[t] else PROSE_WEIGHT
    {
      ghost var more := Elements(text.terms(strings[i]));
      assert Elements(strings[..i + 1]) == Elements(strings[..i]) + {strings[i]};
      TermsOfMore(text, Elements(strings[..i]), strings[i]);
      r := OrInsert(r, text.terms(strings[i]));
    }
    assert strings[..|strings|] == strings;
  }

  lemma TermsOfMore(text: Text, strings: set<string>, s: string)
    ensures TermsOf(text, strings + {s}) == TermsOf(text, strings) + Elements(text.terms(s))
  {
  }

  method AddNames(text: Text, tokens: map<string, nat>, names: set<string>) returns (r: map<string, nat>)
    ensures r.Keys == tokens.Keys + TermsOf(text, names)
    ensures forall t | t in r :: r[t] == if t in TermsOf(text, names) then NAME_WEIGHT else tokens[t]
  {
    r := tokens;
    var todo := names;
    ghost var done := {};
    while todo != {}
      invariant done + todo == names && done !! todo
      invariant r.Keys == tokens.Keys + TermsOf(text, done)
      invariant forall t | t in r :: r[t] == if t in TermsOf(text, done) then NAME_WEIGHT else tokens[t]
    {
      var name :| name in todo;
      TermsOfMore(text, done, name);
      r := InsertNames(r, text.terms(name));
      todo := todo - {name};
      done := done + {name};
    }
    assert done == names;
  }

  /** Hints first, then names over them, then the remaining prose where nothing is yet. */
  method Tokenize(text: Text, d: Document) returns (tokens: map<string, nat>)
    ensures tokens == TokenWeights(text, d)
  {
    tokens := AddProse(text, map[], d.hints);
    tokens := AddNames(text, tokens, NamesOf(text, d));
    tokens := AddProse(text, tokens, d.texts);
    ProseTerms(text, d);
  }

  lemma ProseTerms(text: Text, d: Document)
    ensures TermsOf(text, Prose(d)) == TermsOf(text, Elements(d.hints)) + TermsOf(text, Elements(d.texts))
  {
  }
}
