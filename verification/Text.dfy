/** The searchable text of an object, and the capped list of distinct terms of a query. */
module Text {
  import opened Model
  import opened Selection

  // At most this many distinct query terms are looked for, by the index and by the scan.
  const MAX_QUERY_TERMS := 64

  function Join(parts: seq<Option<string>>): string
    decreases |parts|
  {
    if parts == [] then ""
    else
      var front := Join(parts[..|parts| - 1]);
      var p := parts[|parts| - 1];
      if p.None? || p.value == "" then front
      else if front == "" then p.value
      else front + (" " + p.value)
  }

  /** The parts that are joined, by kind; objects of the remaining kinds are found by their id. */
  function TextParts(o: Obj): seq<Option<string>> {
    match o.kind
    case Fact | Claim => [o.body.subject, o.body.pred, o.body.target]
    case Entity => o.body.texts + seq(|o.aliases|, i requires 0 <= i < |o.aliases| => Some(o.aliases[i]))
    case Document | Decision | Episode | Observation | Evidence | Review => o.body.texts
    case Source | Relation | Space | Grant => [Some(o.id)]
  }

  function ObjectText(o: Obj): string {
    Join(TextParts(o))
  }

  /******* What is searched, said of the fields alone *******/

  /** The texts that are there and not empty, in order. */
  function Words(parts: seq<Option<string>>): seq<string> {
    if parts == [] then []
    else if parts[0].Some? && parts[0].value != "" then [parts[0].value] + Words(parts[1..])
    else Words(parts[1..])
  }

  /** Words with one blank between each two. */
  function Spaced(words: seq<string>): string {
    if words == [] then "" else if |words| == 1 then words[0] else words[0] + " " + Spaced(words[1..])
  }

  lemma {:induction false} WordsSnoc(parts: seq<Option<string>>, p: Option<string>)
    ensures Words(parts + [p]) == Words(parts) + (if p.Some? && p.value != "" then [p.value] else [])
    decreases |parts|
  {
    if parts == [] {
      assert parts + [p] == [p] && [p][1..] == [];
    } else {
      assert (parts + [p])[1..] == parts[1..] + [p];
      WordsSnoc(parts[1..], p);
    }
  }

  lemma {:induction false} SpacedSnoc(words: seq<string>, w: string)
    requires words != []
    ensures Spaced(words + [w]) == Spaced(words) + (" " + w)
    decreases |words|
  {
    if |words| == 1 {
      assert (words + [w])[1..] == [w] && Spaced([w]) == w;
      assert words[0] + " " + w == words[0] + (" " + w);
    } else {
      assert (words + [w])[1..] == words[1..] + [w];
      SpacedSnoc(words[1..], w);
      assert words[0] + " " + (Spaced(words[1..]) + (" " + w)) == (words[0] + " " + Spaced(words[1..])) + (" " + w);
    }
  }

  predicate NoneEmpty(words: seq<string>) {
    forall i :: 0 <= i < |words| ==> words[i] != ""
  }

  lemma {:induction false} WordsAreThere(parts: seq<Option<string>>)
    ensures NoneEmpty(Words(parts)) && (Spaced(Words(parts)) == "" <==> Words(parts) == [])
    decreases |parts|
  {
    if parts != [] {
      WordsAreThere(parts[1..]);
    }
  }

  lemma {:induction false} JoinIs(parts: seq<Option<string>>)
    ensures Join(parts) == Spaced(Words(parts))
    decreases |parts|
  {
    if parts != [] {
      var front, p := parts[..|parts| - 1], parts[|parts| - 1];
      assert front + [p] == parts;
      JoinIs(front);
      WordsSnoc(front, p);
      WordsAreThere(front);
      assert Words(front) + [] == Words(front);
      if p.Some? && p.value != "" {
        if Words(front) == [] {
          assert Words(front) + [p.value] == [p.value];
        } else {
          SpacedSnoc(Words(front), p.value);
        }
      }
    }
  }

  function Present(xs: seq<string>): seq<Option<string>> {
    seq(|xs|, i requires 0 <= i < |xs| => Some(xs[i]))
  }

  /** The text that an object is found by: subject, predicate and object of a statement, the name fields and the aliases
      of an entity, the text fields of what carries text, and of everything else nothing but its id. */
  lemma TextIs(o: Obj)
    ensures o.kind == Fact || o.kind == Claim ==>
              ObjectText(o) == Spaced(Words([o.body.subject, o.body.pred, o.body.target]))
    ensures o.kind == Entity ==> ObjectText(o) == Spaced(Words(o.body.texts + Present(o.aliases)))
    ensures o.kind in {Document, Decision, Episode, Observation, Evidence, Review} ==>
              ObjectText(o) == Spaced(Words(o.body.texts))
    ensures o.kind in {Source, Relation, Space, Grant} ==> ObjectText(o) == o.id
  {
    JoinIs(TextParts(o));
    assert o.kind == Entity ==> TextParts(o) == o.body.texts + Present(o.aliases);
    assert [Some(o.id)][1..] == [];
    assert Words([Some(o.id)]) == if o.id != "" then [o.id] else [];
  }

  /** A tokenizer, on texts that are not empty. */
  type Tokenizer = string -> seq<string>

  function Tokens(tok: Tokenizer, text: Option<string>): seq<string> {
    if text.None? || text.value == "" then [] else tok(text.value)
  }

  /** The distinct elements, in the order of their first occurrence. */
  function Distinct(s: seq<string>): (d: seq<string>)
    ensures forall x :: x in d <==> x in s
    decreases |s|
  {
    if s == [] then []
    else
      var d := Distinct(s[..|s| - 1]);
      assert s == s[..|s| - 1] + [s[|s| - 1]];
      if s[|s| - 1] in d then d else d + [s[|s| - 1]]
  }

  /** The distinct elements are those at the positions where something comes for the first time. */
  lemma {:induction false} DistinctFirsts(s: seq<string>) returns (at: seq<nat>)
    ensures FirstsAt([], s, at) && Picked(s, at, Distinct(s))
    decreases |s|
  {
    if s == [] {
      at := [];
    } else {
      var front, x := s[..|s| - 1], s[|s| - 1];
      assert front + [x] == s;
      var before := DistinctFirsts(front);
      at := if x in front then before else before + [|front|];
      assert s[..|front|] == front;
      FirstsSnoc([], front, x, before);
      PickedSnoc(front, x, before, Distinct(front));
    }
  }

  function Capped(s: seq<string>): (d: seq<string>)
    ensures |d| <= MAX_QUERY_TERMS
    ensures forall x :: x in d ==> x in s
  {
    var d := Distinct(s);
    if |d| <= MAX_QUERY_TERMS then d else d[..MAX_QUERY_TERMS]
  }

  /** The distinct terms only grow as more tokens are read. */
  lemma {:induction false} DistinctPrefix(s: seq<string>, n: nat)
    requires n <= |s|
    ensures Distinct(s[..n]) <= Distinct(s)
    decreases |s|
  {
    if n < |s| {
      var front := s[..|s| - 1];
      assert front[..n] == s[..n];
      DistinctPrefix(front, n);
    } else {
      assert s[..n] == s;
    }
  }

  /** The retriever's terms: reading stops as soon as the cap is reached. */
  method QueryTerms(tok: Tokenizer, text: Option<string>) returns (terms: seq<string>)
    ensures terms == Capped(Tokens(tok, text))
  {
    var tokens := Tokens(tok, text);
    terms := [];
    for i := 0 to |tokens|
      invariant terms == Distinct(tokens[..i]) && |terms| < MAX_QUERY_TERMS
    {
      assert tokens[..i + 1][..i] == tokens[..i];
      DistinctPrefix(tokens, i + 1);
      if tokens[i] !in terms {
        terms := terms + [tokens[i]];
      }
      if |terms| >= MAX_QUERY_TERMS {
        return;
      }
    }
    assert tokens[..|tokens|] == tokens;
  }

  /** The index's match expression, as the terms it combines; none when the text has no token. */
  method MatchTerms(tok: Tokenizer, text: Option<string>) returns (terms: Option<seq<string>>)
    ensures terms == if Tokens(tok, text) == [] then None else Some(Capped(Tokens(tok, text)))
  {
    if Tokens(tok, text) == [] {
      return None;
    }
    var found := QueryTerms(tok, text);
    return Some(found);
  }

  predicate Shares(terms: seq<string>, tokens: seq<string>) {
    exists t :: t in terms && t in tokens
  }

  /** Does a text share a term with the query? */
  predicate Hits(tok: Tokenizer, terms: seq<string>, text: string) {
    Shares(terms, Tokens(tok, Some(text)))
  }
}
