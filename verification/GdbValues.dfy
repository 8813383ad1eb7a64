/** riscv-tests/debug/testlib.py: the parser for the values that gdb prints.

    The parse functions of the source consume a shared list of tokens from the front.  Here they are
    the methods of a class that owns the list; the functions beside it say, for every list of tokens,
    what is returned or raised and which tokens are left. */
module GdbValues {

  /** What the tokenizer yields: Python strings, numbers, Repeat objects, and exceptions.  Repeat
      objects and exceptions are compared by identity, hence the id.  A quoted string whose contents
      are a brace is the same token as the brace. */
  datatype Token = Text(s: string) | Number(n: int) | Repeat(id: nat, count: int) | Exception(id: nat)

  datatype Value = Atom(token: Token) | List(items: seq<Token>) | Dict(fields: map<Token, Value>)

  datatype Error = IndexError | AssertionError | TestLibError | TokenRaised(token: Token)

  datatype Result = Ok(value: Value) | Raise(error: Error)

  /** What a call returns or raises, and the tokens it leaves. */
  datatype Outcome = Outcome(result: Result, rest: seq<Token>)

  const OPEN := Text("{")
  const CLOSE := Text("}")
  const EQUALS := Text("=")
  const COMMA := Text(",")

  function Copies<T>(x: T, n: int): seq<T> {
    if n <= 0 then [] else seq(n, _ => x)
  }

  // ---------- what the parser computes ----------

  function ParseTokens(ts: seq<Token>): (o: Outcome)
    ensures |o.rest| <= |ts| && (o.result.Ok? ==> |o.rest| < |ts|)
    decreases |ts|, 2
  {
    if ts == [] then Outcome(Raise(IndexError), [])
    else if ts[0].Exception? then Outcome(Raise(TokenRaised(ts[0])), ts)
    else if ts[0].Number? then Outcome(Ok(Atom(ts[0])), ts[1..])
    else if ts[0] == OPEN then ParseDictOrList(ts)
    else if ts[0].Text? then Outcome(Ok(Atom(ts[0])), ts[1..])
    else Outcome(Raise(TestLibError), ts)
  }

  function ParseDictOrList(ts: seq<Token>): (o: Outcome)
    ensures |o.rest| <= |ts| && (o.result.Ok? ==> |o.rest| < |ts|)
    decreases |ts|, 1
  {
    if ts == [] then Outcome(Raise(IndexError), ts)
    else if ts[0] != OPEN then Outcome(Raise(AssertionError), ts)
    else if |ts| < 3 then Outcome(Raise(IndexError), ts)
    else if ts[2] == EQUALS then ParseDict(ts)
    else ParseList(ts)
  }

  function ParseDict(ts: seq<Token>): (o: Outcome)
    ensures |o.rest| <= |ts| && (o.result.Ok? ==> |o.rest| < |ts|)
    decreases |ts|, 0
  {
    if ts == [] then Outcome(Raise(IndexError), ts)
    else if ts[0] != OPEN then Outcome(Raise(AssertionError), ts)
    else Fields(ts[1..], map[])
  }

  /** The loop of parse_dict. */
  function Fields(ts: seq<Token>, result: map<Token, Value>): (o: Outcome)
    ensures |o.rest| <= |ts|
    decreases |ts|, 0
  {
    if |ts| < 2 then Outcome(Raise(IndexError), [])
    else if ts[1] != EQUALS then Outcome(Raise(AssertionError), ts[2..])
    else
      var o := ParseTokens(ts[2..]);
      if o.result.Raise? then o
      else if o.rest == [] then Outcome(Raise(IndexError), [])
      else
        var result' := result[ts[0] := o.result.value];
        if o.rest[0] == CLOSE then Outcome(Ok(Dict(result')), o.rest[1..])
        else if o.rest[0] == COMMA then Fields(o.rest[1..], result')
        else Outcome(Raise(AssertionError), o.rest[1..])
  }

  function ParseList(ts: seq<Token>): (o: Outcome)
    ensures |o.rest| <= |ts| && (o.result.Ok? ==> |o.rest| < |ts|)
    decreases |ts|, 0
  {
    if ts == [] then Outcome(Raise(IndexError), ts)
    else if ts[0] != OPEN then Outcome(Raise(AssertionError), ts)
    else Items(ts[1..], [])
  }

  /** The loop of parse_list. */
  function Items(ts: seq<Token>, result: seq<Token>): (o: Outcome)
    ensures |o.rest| <= |ts|
    decreases |ts|
  {
    if |ts| < 2 then Outcome(Raise(IndexError), [])
    else if ts[1].Repeat? then
      var result' := result + [ts[0]] + Copies(ts[0], ts[1].count - 1);
      if |ts| < 3 then Outcome(Raise(IndexError), [])
      else if ts[2] == CLOSE then Outcome(Ok(List(result')), ts[3..])
      else if ts[2] == COMMA then Items(ts[3..], result')
      else Outcome(Raise(AssertionError), ts[3..])
    else if ts[1] == CLOSE then Outcome(Ok(List(result + [ts[0]])), ts[2..])
    else if ts[1] == COMMA then Items(ts[2..], result + [ts[0]])
    else Outcome(Raise(AssertionError), ts[2..])
  }

  /** parse_rhs, after the text has been turned into tokens. */
  function ParseRhs(ts: seq<Token>): Outcome {
    var o := ParseTokens(ts);
    if o.result.Ok? && o.rest != [] then Outcome(Raise(TestLibError), o.rest) else o
  }

  // ---------- the parser ----------

  class Parser {
    var tokens: seq<Token>

    constructor (ts: seq<Token>)
      ensures tokens == ts
    {
      tokens := ts;
    }

    /** parse_tokens */
    method Tokens() returns (r: Result)
      modifies this
      ensures Outcome(r, tokens) == ParseTokens(old(tokens))
      decreases |tokens|, 2
    {
      if |tokens| == 0 {
        return Raise(IndexError);
      }
      if tokens[0].Exception? {
        return Raise(TokenRaised(tokens[0]));
      }
      if tokens[0].Number? {
        r := Ok(Atom(tokens[0]));
        tokens := tokens[1..];
        return;
      }
      if tokens[0] == OPEN {
        r := DictOrList();
        return;
      }
      if tokens[0].Text? {
        r := Ok(Atom(tokens[0]));
        tokens := tokens[1..];
        return;
      }
      return Raise(TestLibError);
    }

    /** parse_dict_or_list */
    method DictOrList() returns (r: Result)
      modifies this
      ensures Outcome(r, tokens) == ParseDictOrList(old(tokens))
      decreases |tokens|, 1
    {
      if |tokens| == 0 {
        return Raise(IndexError);
      }
      if tokens[0] != OPEN {
        return Raise(AssertionError);
      }
      if |tokens| < 3 {
        return Raise(IndexError);
      }
      if tokens[2] == EQUALS {
        r := Dictionary();
      } else {
        r := Listing();
      }
    }

    /** parse_dict */
    method Dictionary() returns (r: Result)
      modifies this
      ensures Outcome(r, tokens) == ParseDict(old(tokens))
      decreases |tokens|, 0
    {
      if |tokens| == 0 {
        return Raise(IndexError);
      }
      if tokens[0] != OPEN {
        return Raise(AssertionError);
      }
      tokens := tokens[1..];
      var result: map<Token, Value> := map[];
      while true
        invariant |tokens| < |old(tokens)|
        invariant Fields(tokens, result) == ParseDict(old(tokens))
        decreases |tokens|
      {
        if |tokens| < 2 {
          tokens := [];
          return Raise(IndexError);
        }
        var key, equals := tokens[0], tokens[1];
        tokens := tokens[2..];
        if equals != EQUALS {
          return Raise(AssertionError);
        }
        var value := Tokens();
        if value.Raise? {
          return value;
        }
        result := result[key := value.value];
        if |tokens| == 0 {
          return Raise(IndexError);
        }
        var token := tokens[0];
        tokens := tokens[1..];
        if token == CLOSE {
          return Ok(Dict(result));
        }
        if token != COMMA {
          return Raise(AssertionError);
        }
      }
    }

    /** parse_list */
    method Listing() returns (r: Result)
      modifies this
      ensures Outcome(r, tokens) == ParseList(old(tokens))
      decreases |tokens|, 0
    {
      if |tokens| == 0 {
        return Raise(IndexError);
      }
      if tokens[0] != OPEN {
        return Raise(AssertionError);
      }
      tokens := tokens[1..];
      var result: seq<Token> := [];
      while true
        invariant Items(tokens, result) == ParseList(old(tokens))
        decreases |tokens|
      {
        if |tokens| < 2 {
          tokens := [];
          return Raise(IndexError);
        }
        result := result + [tokens[0]];
        var token := tokens[1];
        tokens := tokens[2..];
        if token.Repeat? {
          result := result + Copies(result[|result| - 1], token.count - 1);
          if |tokens| == 0 {
            return Raise(IndexError);
          }
          token := tokens[0];
          tokens := tokens[1..];
        }
        if token == CLOSE {
          return Ok(List(result));
        }
        if token != COMMA {
          return Raise(AssertionError);
        }
      }
    }

    /** parse_rhs */
    method Rhs() returns (r: Result)
      modifies this
      ensures Outcome(r, tokens) == ParseRhs(old(tokens))
    {
      r := Tokens();
      if r.Ok? && |tokens| > 0 {
        r := Raise(TestLibError);
      }
    }
  }

  // ---------- the language of gdb values ----------

  /** A value as it is written: an atom, a list of runs, or fields with keys. */
  datatype Tree = Leaf(token: Token) | Runs(runs: Runs) | Record(pairs: Pairs)

  /** One item of a list, alone or with a repeat count. */
  datatype Run = Once(item: Token) | Times(item: Token, repeat: Token)

  /** One or more runs; one or more fields. */
  datatype Runs = LastRun(run: Run) | MoreRuns(run: Run, runs: Runs)
  datatype Pairs = LastPair(key: Token, tree: Tree) | MorePairs(key: Token, tree: Tree, pairs: Pairs)

  predicate WellFormed(tree: Tree) {
    match tree
    case Leaf(token) => token.Number? || (token.Text? && token != OPEN)
    case Runs(runs) => RunsWellFormed(runs)
    case Record(pairs) => PairsWellFormed(pairs)
  }

  /** An item may be any token, but one that is alone is not followed by a repeat count. */
  predicate RunsWellFormed(runs: Runs) {
    && (runs.run.Times? ==> runs.run.repeat.Repeat?)
    && (runs.MoreRuns? ==> RunsWellFormed(runs.runs))
  }

  predicate PairsWellFormed(pairs: Pairs) {
    match pairs
    case LastPair(_, tree) => WellFormed(tree)
    case MorePairs(_, tree, more) => WellFormed(tree) && PairsWellFormed(more)
  }

  function Spelled(tree: Tree): seq<Token> {
    match tree
    case Leaf(token) => [token]
    case Runs(runs) => [OPEN] + RunsSpelled(runs)
    case Record(pairs) => [OPEN] + PairsSpelled(pairs)
  }

  function RunSpelled(run: Run): seq<Token> {
    match run
    case Once(item) => [item]
    case Times(item, repeat) => [item, repeat]
  }

  function RunsSpelled(runs: Runs): seq<Token> {
    match runs
    case LastRun(run) => RunSpelled(run) + [CLOSE]
    case MoreRuns(run, more) => RunSpelled(run) + [COMMA] + RunsSpelled(more)
  }

  function PairsSpelled(pairs: Pairs): seq<Token> {
    match pairs
    case LastPair(key, tree) => [key, EQUALS] + Spelled(tree) + [CLOSE]
    case MorePairs(key, tree, more) => [key, EQUALS] + Spelled(tree) + [COMMA] + PairsSpelled(more)
  }

  /** The value a tree stands for: runs expanded, and of equal keys the last. */
  function Meaning(tree: Tree): Value {
    match tree
    case Leaf(token) => Atom(token)
    case Runs(runs) => List(RunsMeaning(runs))
    case Record(pairs) => Dict(PairsMeaning(pairs))
  }

  function RunMeaning(run: Run): seq<Token> {
    match run
    case Once(item) => [item]
    case Times(item, repeat) => if repeat.Repeat? && repeat.count > 1 then Copies(item, repeat.count) else [item]
  }

  function RunsMeaning(runs: Runs): seq<Token> {
    match runs
    case LastRun(run) => RunMeaning(run)
    case MoreRuns(run, more) => RunMeaning(run) + RunsMeaning(more)
  }

  function PairsMeaning(pairs: Pairs): map<Token, Value> {
    match pairs
    case LastPair(key, tree) => map[key := Meaning(tree)]
    case MorePairs(key, tree, more) => map[key := Meaning(tree)] + PairsMeaning(more)
  }

  // ---------- the parser accepts exactly this language ----------

  lemma RepeatExpands(result: seq<Token>, item: Token, repeat: Token)
    requires repeat.Repeat?
    ensures result + [item] + Copies(item, repeat.count - 1) == result + RunMeaning(Times(item, repeat))
  {
    assert [item] + Copies(item, repeat.count - 1) == RunMeaning(Times(item, repeat));
    assert result + [item] + Copies(item, repeat.count - 1) == result + ([item] + Copies(item, repeat.count - 1));
  }

  lemma Punctuation()
    ensures OPEN == Text("{") && CLOSE == Text("}") && EQUALS == Text("=") && COMMA == Text(",")
    ensures OPEN != CLOSE && OPEN != EQUALS && OPEN != COMMA && CLOSE != EQUALS && CLOSE != COMMA && EQUALS != COMMA
  {
    assert OPEN.s[0] == '{' && CLOSE.s[0] == '}' && EQUALS.s[0] == '=' && COMMA.s[0] == ',';
  }

  /** One turn of the loop of parse_list. */
  lemma ItemsTurn(run: Run, separator: Token, after: seq<Token>, result: seq<Token>)
    requires run.Times? ==> run.repeat.Repeat?
    requires separator == CLOSE || separator == COMMA
    ensures Items(RunSpelled(run) + [separator] + after, result) ==
            if separator == CLOSE then Outcome(Ok(List(result + RunMeaning(run))), after)
                else Items(after, result + RunMeaning(run))
  {
    Punctuation();
    hide Copies, OPEN, CLOSE, EQUALS, COMMA;
    var ts := RunSpelled(run) + [separator] + after;
    var n := |RunSpelled(run)|;
    assert ts[n + 1..] == after;
    if run.Times? {
      assert ts[0] == run.item && ts[1] == run.repeat && ts[2] == separator;
      RepeatExpands(result, run.item, run.repeat);
    } else {
      assert ts[0] == run.item && ts[1] == separator;
    }
  }

  /** A spelled list is read back, whatever follows it. */
  lemma {:induction false} ItemsRead(runs: Runs, rest: seq<Token>, result: seq<Token>)
    requires RunsWellFormed(runs)
    ensures Items(RunsSpelled(runs) + rest, result) == Outcome(Ok(List(result + RunsMeaning(runs))), rest)
  {
    Punctuation();
    hide Items, RunMeaning, RunSpelled, OPEN, CLOSE, EQUALS, COMMA;
    match runs
    case LastRun(run) =>
      ItemsTurn(run, CLOSE, rest, result);
      assert RunsSpelled(runs) + rest == RunSpelled(run) + [CLOSE] + rest;
    case MoreRuns(run, more) =>
      assert RunsSpelled(runs) + rest == RunSpelled(run) + [COMMA] + (RunsSpelled(more) + rest);
      ItemsTurn(run, COMMA, RunsSpelled(more) + rest, result);
      ItemsRead(more, rest, result + RunMeaning(run));
      assert result + RunMeaning(run) + RunsMeaning(more) == result + RunsMeaning(runs);
  }

  /** One turn of the loop of parse_dict. */
  lemma FieldsTurn(key: Token, body: seq<Token>, value: Value, separator: Token, after: seq<Token>,
                   result: map<Token, Value>)
    requires ParseTokens(body) == Outcome(Ok(value), [separator] + after)
    requires separator == CLOSE || separator == COMMA
    ensures Fields([key, EQUALS] + body, result) ==
            if separator == CLOSE then Outcome(Ok(Dict(result[key := value])), after)
                else Fields(after, result[key := value])
  {
    Punctuation();
    hide ParseTokens, OPEN, CLOSE, EQUALS, COMMA;
    var ts := [key, EQUALS] + body;
    assert ts[2..] == body;
    assert ([separator] + after)[1..] == after;
  }

  lemma {:induction false} FieldsRead(pairs: Pairs, rest: seq<Token>, result: map<Token, Value>)
    requires PairsWellFormed(pairs)
    ensures Fields(PairsSpelled(pairs) + rest, result) == Outcome(Ok(Dict(result + PairsMeaning(pairs))), rest)
    decreases pairs
  {
    Punctuation();
    hide Fields, ParseTokens, Spelled, OPEN, CLOSE, EQUALS, COMMA;
    match pairs
    case LastPair(key, tree) =>
      var tail := [CLOSE] + rest;
      RoundTrip(tree, tail);
      FieldsTurn(key, Spelled(tree) + tail, Meaning(tree), CLOSE, rest, result);
      LastSpelled(key, tree, rest);
      assert result[key := Meaning(tree)] == result + PairsMeaning(pairs);
    case MorePairs(key, tree, more) =>
      var after := PairsSpelled(more) + rest;
      var tail := [COMMA] + after;
      RoundTrip(tree, tail);
      FieldsTurn(key, Spelled(tree) + tail, Meaning(tree), COMMA, after, result);
      MoreSpelled(key, tree, more, rest);
      FieldsRead(more, rest, result[key := Meaning(tree)]);
      assert result[key := Meaning(tree)] + PairsMeaning(more) == result + PairsMeaning(pairs);
  }

  lemma OpenRead(ts: seq<Token>)
    requires |ts| >= 3 && ts[0] == OPEN
    ensures ParseTokens(ts) == if ts[2] == EQUALS then Fields(ts[1..], map[]) else Items(ts[1..], [])
  {
    Punctuation();
    hide Fields, Items, OPEN, EQUALS;
    assert ParseTokens(ts) == ParseDictOrList(ts);
    assert ParseDictOrList(ts) == if ts[2] == EQUALS then ParseDict(ts) else ParseList(ts);
  }

  lemma SecondOfPairs(pairs: Pairs)
    ensures |PairsSpelled(pairs)| >= 2 && PairsSpelled(pairs)[1] == EQUALS
  {
    hide EQUALS;
  }

  lemma SecondOfRuns(runs: Runs)
    requires RunsWellFormed(runs)
    ensures |RunsSpelled(runs)| >= 2 && RunsSpelled(runs)[1] != EQUALS
  {
    Punctuation();
    hide CLOSE, COMMA, EQUALS;
    var separator := if runs.LastRun? then CLOSE else COMMA;
    assert RunsSpelled(runs)[|RunSpelled(runs.run)|] == separator;
  }

  /** The third token of a spelled dict is "=", that of a spelled list never is. */
  lemma ThirdToken(tree: Tree, rest: seq<Token>)
    requires WellFormed(tree) && !tree.Leaf?
    ensures var ts := Spelled(tree) + rest;
            && |ts| >= 3 && ts[0] == OPEN && (ts[2] == EQUALS <==> tree.Record?)
            && (tree.Record? ==> ts[1..] == PairsSpelled(tree.pairs) + rest)
            && (tree.Runs? ==> ts[1..] == RunsSpelled(tree.runs) + rest)
  {
    hide OPEN, EQUALS, PairsSpelled, RunsSpelled;
    var ts := Spelled(tree) + rest;
    if tree.Record? {
      SecondOfPairs(tree.pairs);
      assert ts[1..] == PairsSpelled(tree.pairs) + rest;
      assert ts[2] == PairsSpelled(tree.pairs)[1];
    } else {
      SecondOfRuns(tree.runs);
      assert ts[1..] == RunsSpelled(tree.runs) + rest;
      assert ts[2] == RunsSpelled(tree.runs)[1];
    }
  }

  /** Round trip: a spelled value is read back as the value it stands for, and exactly its tokens are
      consumed, whatever follows. */
  lemma {:induction false} RoundTrip(tree: Tree, rest: seq<Token>)
    requires WellFormed(tree)
    ensures ParseTokens(Spelled(tree) + rest) == Outcome(Ok(Meaning(tree)), rest)
    decreases tree
  {
    var ts := Spelled(tree) + rest;
    if tree.Leaf? {
      assert ts[1..] == rest;
    } else {
      ThirdToken(tree, rest);
      OpenRead(ts);
      hide ParseTokens, Fields, Items, OPEN, EQUALS, Spelled;
      match tree
      case Runs(runs) =>
        ItemsRead(runs, rest, []);
        assert [] + RunsMeaning(runs) == RunsMeaning(runs);
      case Record(pairs) =>
        FieldsRead(pairs, rest, map[]);
        assert map[] + PairsMeaning(pairs) == PairsMeaning(pairs);
    }
  }

  /** What a turn of the loop of parse_list has read. */
  lemma ItemsRan(ts: seq<Token>, result: seq<Token>) returns (run: Run, separator: Token, after: seq<Token>)
    requires Items(ts, result).result.Ok?
    ensures run.Times? ==> run.repeat.Repeat?
    ensures (separator == CLOSE || separator == COMMA) && ts == RunSpelled(run) + [separator] + after
  {
    run := if ts[1].Repeat? then Times(ts[0], ts[1]) else Once(ts[0]);
    var n := |RunSpelled(run)|;
    separator, after := ts[n], ts[n + 1..];
    assert ts == RunSpelled(run) + [separator] + after;
  }

  lemma RunsJoin(run: Run, more: Runs, rest: seq<Token>)
    ensures RunsSpelled(MoreRuns(run, more)) + rest == RunSpelled(run) + [COMMA] + (RunsSpelled(more) + rest)
  {
  }

  lemma {:induction false} ItemsSpell(ts: seq<Token>, result: seq<Token>) returns (runs: Runs)
    requires Items(ts, result).result.Ok?
    ensures RunsWellFormed(runs) && ts == RunsSpelled(runs) + Items(ts, result).rest
    decreases |ts|
  {
    hide Items, CLOSE, COMMA, RunMeaning, RunSpelled;
    var run, separator, after := ItemsRan(ts, result);
    ItemsTurn(run, separator, after, result);
    assert |after| < |ts|;
    if separator == CLOSE {
      runs := LastRun(run);
    } else {
      var more := ItemsSpell(after, result + RunMeaning(run));
      runs := MoreRuns(run, more);
      RunsJoin(run, more, Items(ts, result).rest);
    }
  }

  /** What a turn of the loop of parse_dict has read. */
  lemma FieldsRan(ts: seq<Token>, result: map<Token, Value>)
    requires Fields(ts, result).result.Ok?
    ensures |ts| > 2 && ts[1] == EQUALS
    ensures var o := ParseTokens(ts[2..]); o.result.Ok? && o.rest != [] && (o.rest[0] == CLOSE || o.rest[0] == COMMA)
  {
    hide ParseTokens, CLOSE, COMMA, EQUALS;
  }

  lemma LastSpelled(key: Token, tree: Tree, rest: seq<Token>)
    ensures PairsSpelled(LastPair(key, tree)) + rest == [key, EQUALS] + (Spelled(tree) + ([CLOSE] + rest))
  {
  }

  lemma MoreSpelled(key: Token, tree: Tree, more: Pairs, rest: seq<Token>)
    ensures PairsSpelled(MorePairs(key, tree, more)) + rest == [key, EQUALS]
        + (Spelled(tree) + ([COMMA] + (PairsSpelled(more) + rest)))
  {
  }

  lemma {:induction false} FieldsSpell(ts: seq<Token>, result: map<Token, Value>) returns (pairs: Pairs)
    requires Fields(ts, result).result.Ok?
    ensures PairsWellFormed(pairs) && ts == PairsSpelled(pairs) + Fields(ts, result).rest
    decreases |ts|, 0
  {
    FieldsRan(ts, result);
    hide Fields, ParseTokens, Spelled, CLOSE, COMMA, EQUALS;
    var o := ParseTokens(ts[2..]);
    var tree := TreeOf(ts[2..]);
    var key, separator, after := ts[0], o.rest[0], o.rest[1..];
    assert o == Outcome(Ok(o.result.value), [separator] + after);
    FieldsTurn(key, ts[2..], o.result.value, separator, after, result);
    assert ts == [key, EQUALS] + ts[2..];
    if separator == CLOSE {
      pairs := LastPair(key, tree);
      LastSpelled(key, tree, after);
    } else {
      var more := FieldsSpell(after, result[key := o.result.value]);
      pairs := MorePairs(key, tree, more);
      MoreSpelled(key, tree, more, Fields(after, result[key := o.result.value]).rest);
    }
  }

  lemma OpenSpelled(ts: seq<Token>, inner: seq<Token>, rest: seq<Token>)
    requires ts != [] && ts[0] == OPEN && ts[1..] == inner + rest
    ensures ts == [OPEN] + inner + rest
  {
  }

  /** What parse_tokens has read, when it is no atom. */
  lemma OpenRan(ts: seq<Token>)
    requires ParseTokens(ts).result.Ok? && ts[0] == OPEN
    ensures |ts| >= 3
  {
    hide ParseDict, ParseList;
  }

  lemma LeafRan(ts: seq<Token>)
    requires ParseTokens(ts).result.Ok? && ts[0] != OPEN
    ensures ts[0].Number? || ts[0].Text?
    ensures ParseTokens(ts).rest == ts[1..]
  {
  }

  /** Conversely, whatever is read was spelled: the tokens consumed are those of a well-formed tree,
      and the value is the one the tree stands for. */
  lemma {:induction false} TreeOf(ts: seq<Token>) returns (tree: Tree)
    requires ParseTokens(ts).result.Ok?
    ensures WellFormed(tree) && ts == Spelled(tree) + ParseTokens(ts).rest
    ensures ParseTokens(ts).result.value == Meaning(tree)
    decreases |ts|, 1
  {
    if ts[0] == OPEN {
      OpenRan(ts);
      OpenRead(ts);
      hide ParseTokens, Fields, Items, OPEN, EQUALS;
      if ts[2] == EQUALS {
        var pairs := FieldsSpell(ts[1..], map[]);
        tree := Record(pairs);
        OpenSpelled(ts, PairsSpelled(pairs), ParseTokens(ts).rest);
      } else {
        var runs := ItemsSpell(ts[1..], []);
        tree := Runs(runs);
        OpenSpelled(ts, RunsSpelled(runs), ParseTokens(ts).rest);
      }
      hide Spelled;
      RoundTrip(tree, ParseTokens(ts).rest);
    } else {
      LeafRan(ts);
      hide ParseTokens;
      tree := Leaf(ts[0]);
      assert ts == Spelled(tree) + ts[1..];
      RoundTrip(tree, ts[1..]);
    }
  }

  ghost predicate Spells(tree: Tree, ts: seq<Token>) { WellFormed(tree) && Spelled(tree) == ts }

  /** parse_rhs succeeds exactly on the spellings of trees. */
  lemma RhsAccepts(ts: seq<Token>)
    ensures ParseRhs(ts).result.Ok? <==> exists tree :: Spells(tree, ts)
    ensures forall tree :: Spells(tree, ts) ==> ParseRhs(ts) == Outcome(Ok(Meaning(tree)), [])
  {
    if ParseRhs(ts).result.Ok? {
      var tree := TreeOf(ts);
      assert Spelled(tree) + [] == Spelled(tree);
      assert Spells(tree, ts);
    }
    forall tree | Spells(tree, ts)
      ensures ParseRhs(ts) == Outcome(Ok(Meaning(tree)), [])
    {
      assert Spelled(tree) + [] == Spelled(tree);
      RoundTrip(tree, []);
    }
  }

  // ---------- no two readings ----------

  lemma {:induction false} RunsUnambiguous(x: Runs, y: Runs, restX: seq<Token>, restY: seq<Token>)
    requires RunsWellFormed(x) && RunsWellFormed(y) && RunsSpelled(x) + restX == RunsSpelled(y) + restY
    ensures x == y && restX == restY
    decreases x
  {
    Punctuation();
    hide OPEN, CLOSE, COMMA, EQUALS, RunSpelled;
    var tailX := if x.LastRun? then [CLOSE] + restX else [COMMA] + (RunsSpelled(x.runs) + restX);
    var tailY := if y.LastRun? then [CLOSE] + restY else [COMMA] + (RunsSpelled(y.runs) + restY);
    RunSplit(x, restX, tailX);
    RunSplit(y, restY, tailY);
    hide RunsSpelled;
    RunUnambiguous(x.run, y.run, tailX, tailY);
    assert tailX[0] == tailY[0];
    assert tailX[1..] == (if x.LastRun? then restX else RunsSpelled(x.runs) + restX);
    assert tailY[1..] == (if y.LastRun? then restY else RunsSpelled(y.runs) + restY);
    if x.MoreRuns? {
      RunsUnambiguous(x.runs, y.runs, restX, restY);
    }
  }

  lemma RunSplit(x: Runs, rest: seq<Token>, tail: seq<Token>)
    requires tail == if x.LastRun? then [CLOSE] + rest else [COMMA] + (RunsSpelled(x.runs) + rest)
    ensures RunsSpelled(x) + rest == RunSpelled(x.run) + tail
  {
    hide RunSpelled;
  }

  lemma RunUnambiguous(x: Run, y: Run, tailX: seq<Token>, tailY: seq<Token>)
    requires (x.Times? ==> x.repeat.Repeat?) && (y.Times? ==> y.repeat.Repeat?)
    requires tailX != [] && tailY != [] && !tailX[0].Repeat? && !tailY[0].Repeat?
    requires RunSpelled(x) + tailX == RunSpelled(y) + tailY
    ensures x == y && tailX == tailY
  {
    var ts := RunSpelled(x) + tailX;
    assert ts[0] == x.item == y.item;
    assert x.Times? <==> ts[1].Repeat?;
    assert y.Times? <==> ts[1].Repeat?;
    var n := |RunSpelled(x)|;
    assert ts[n..] == tailX;
    assert (RunSpelled(y) + tailY)[n..] == tailY;
  }

  lemma {:induction false} PairsUnambiguous(x: Pairs, y: Pairs, restX: seq<Token>, restY: seq<Token>)
    requires PairsWellFormed(x) && PairsWellFormed(y) && PairsSpelled(x) + restX == PairsSpelled(y) + restY
    ensures x == y && restX == restY
    decreases x
  {
    Punctuation();
    hide OPEN, CLOSE, COMMA, EQUALS, Spelled, WellFormed;
    var tailX := if x.LastPair? then [CLOSE] + restX else [COMMA] + (PairsSpelled(x.pairs) + restX);
    var tailY := if y.LastPair? then [CLOSE] + restY else [COMMA] + (PairsSpelled(y.pairs) + restY);
    PairSplit(x, restX, tailX);
    PairSplit(y, restY, tailY);
    hide PairsSpelled;
    Unambiguous(x.tree, y.tree, tailX, tailY);
    assert tailX[0] == tailY[0];
    assert tailX[1..] == (if x.LastPair? then restX else PairsSpelled(x.pairs) + restX);
    assert tailY[1..] == (if y.LastPair? then restY else PairsSpelled(y.pairs) + restY);
    if x.MorePairs? {
      PairsUnambiguous(x.pairs, y.pairs, restX, restY);
    }
  }

  lemma PairSplit(x: Pairs, rest: seq<Token>, tail: seq<Token>)
    requires tail == if x.LastPair? then [CLOSE] + rest else [COMMA] + (PairsSpelled(x.pairs) + rest)
    ensures (PairsSpelled(x) + rest)[0] == x.key && (PairsSpelled(x) + rest)[2..] == Spelled(x.tree) + tail
  {
    hide Spelled;
    if x.LastPair? {
      LastSpelled(x.key, x.tree, rest);
    } else {
      MoreSpelled(x.key, x.tree, x.pairs, rest);
    }
    assert ([x.key, EQUALS] + (Spelled(x.tree) + tail))[2..] == Spelled(x.tree) + tail;
  }

  /** No spelling is the beginning of another: the tokens determine the tree. */
  lemma {:induction false} Unambiguous(x: Tree, y: Tree, restX: seq<Token>, restY: seq<Token>)
    requires WellFormed(x) && WellFormed(y) && Spelled(x) + restX == Spelled(y) + restY
    ensures x == y && restX == restY
    decreases x
  {
    var ts := Spelled(x) + restX;
    assert ts[0] == Spelled(x)[0] == Spelled(y)[0];
    if x.Leaf? || y.Leaf? {
      assert ts[1..] == restX && (Spelled(y) + restY)[1..] == restY;
    } else {
      ThirdToken(x, restX);
      ThirdToken(y, restY);
      hide Spelled, OPEN, EQUALS;
      if x.Record? {
        PairsUnambiguous(x.pairs, y.pairs, restX, restY);
      } else {
        RunsUnambiguous(x.runs, y.runs, restX, restY);
      }
    }
  }

  // ---------- what the values are ----------

  /** The values written for a key, in the order of the fields. */
  function ValuesOf(pairs: Pairs, key: Token): seq<Value> {
    (if pairs.key == key then [Meaning(pairs.tree)] else []) + if pairs.LastPair? then []
        else ValuesOf(pairs.pairs, key)
  }

  /** A dict has the keys that were written, each with the value written last. */
  lemma {:induction false} LastValueWins(pairs: Pairs, key: Token)
    ensures key in PairsMeaning(pairs) <==> ValuesOf(pairs, key) != []
    ensures key in PairsMeaning(pairs) ==> PairsMeaning(pairs)[key] == ValuesOf(pairs, key)[|ValuesOf(pairs, key)| - 1]
  {
    if pairs.MorePairs? {
      LastValueWins(pairs.pairs, key);
    }
  }

  /** A single token is a value exactly when it is a number or a string other than "{": a quoted
      string whose contents are "{" is taken for a brace. */
  lemma AtomsReadBack(token: Token)
    ensures ParseTokens([token]) == Outcome(Ok(Atom(token)), []) <==> token.Number? || (token.Text? && token != OPEN)
  {
    assert [token][1..] == [];
  }

  /** The runs of a list up to the one that is read next, each with its comma. */
  function RunsBefore(runs: seq<Run>): seq<Token> {
    if runs == [] then [] else RunSpelled(runs[0]) + [COMMA] + RunsBefore(runs[1..])
  }

  function MeaningBefore(runs: seq<Run>): seq<Token> {
    if runs == [] then [] else RunMeaning(runs[0]) + MeaningBefore(runs[1..])
  }

  predicate RunsOk(runs: seq<Run>) { forall k :: 0 <= k < |runs| && runs[k].Times? ==> runs[k].repeat.Repeat? }

  lemma {:induction false} ItemsAfter(runs: seq<Run>, after: seq<Token>, result: seq<Token>)
    requires RunsOk(runs)
    ensures Items(RunsBefore(runs) + after, result) == Items(after, result + MeaningBefore(runs))
    decreases |runs|
  {
    hide Items, RunMeaning, RunSpelled, COMMA, CLOSE;
    if runs == [] {
      assert RunsBefore(runs) + after == after && result + MeaningBefore(runs) == result;
    } else {
      var more := RunsBefore(runs[1..]) + after;
      assert RunsBefore(runs) + after == RunSpelled(runs[0]) + [COMMA] + more;
      Punctuation();
      ItemsTurn(runs[0], COMMA, more, result);
      ItemsAfter(runs[1..], after, result + RunMeaning(runs[0]));
      assert result + RunMeaning(runs[0]) + MeaningBefore(runs[1..]) == result + MeaningBefore(runs);
    }
  }

  lemma ThirdIsNoEquals(runs: seq<Run>, run: Run, first: Token, rest: seq<Token>)
    requires RunsOk(runs + [run]) && (runs == [] && run.Once? ==> first != Text("="))
    ensures var ts := [OPEN] + (RunsBefore(runs) + (RunSpelled(run) + ([first] + rest))); |ts| >= 3 && ts[2] != EQUALS
  {
    Punctuation();
    assert (runs + [run])[|runs|] == run;
    if runs != [] {
      assert (runs + [run])[0] == runs[0];
      assert RunsBefore(runs) == RunSpelled(runs[0]) + [COMMA] + RunsBefore(runs[1..]);
      hide RunsBefore, OPEN, COMMA, EQUALS;
    }
  }

  /** Behind an item of a list, and its repeat count, anything but a comma or the closing brace is an
      error.  (Behind the very first item an equals sign is none: it begins a dict.) */
  lemma WrongSeparator(runs: seq<Run>, run: Run, first: Token, rest: seq<Token>)
    requires RunsOk(runs + [run]) && first != Text("}") && first != Text(",")
    requires run.Once? ==> !first.Repeat? && (runs == [] ==> first != Text("="))
    ensures ParseTokens([Text("{")] + (RunsBefore(runs) + (RunSpelled(run) + ([first] + rest))))
        == Outcome(Raise(AssertionError), rest)
  {
    var inner := RunSpelled(run) + ([first] + rest);
    var ts := [OPEN] + (RunsBefore(runs) + inner);
    Punctuation();
    assert (runs + [run])[|runs|] == run && forall k :: 0 <= k < |runs| ==> (runs + [run])[k] == runs[k];
    ThirdIsNoEquals(runs, run, first, rest);
    hide OPEN, CLOSE, COMMA, EQUALS, Copies;
    OpenRead(ts);
    assert ts[1..] == RunsBefore(runs) + inner;
    ItemsAfter(runs, inner, []);
    var n := |RunSpelled(run)|;
    assert inner[n] == first && inner[n + 1..] == rest;
    hide RunsBefore;
  }

  /** So a list cannot hold a list or a dict, at whatever place: the inner brace is taken for an item. */
  lemma NoListInList(runs: seq<Run>, first: Token, rest: seq<Token>)
    requires RunsOk(runs) && !first.Repeat? && first != Text("}") && first != Text(",")
      && (runs == [] ==> first != Text("="))
    ensures ParseTokens([Text("{")] + (RunsBefore(runs) + ([Text("{"), first] + rest)))
        == Outcome(Raise(AssertionError), rest)
  {
    assert RunSpelled(Once(Text("{"))) + ([first] + rest) == [Text("{"), first] + rest;
    hide ParseTokens;
    WrongSeparator(runs, Once(Text("{")), first, rest);
  }

  // ---------- the same for dicts ----------

  datatype Field = Field(key: Token, tree: Tree)

  /** The fields of a dict up to the one that is read next, each with its comma. */
  function FieldsBefore(fields: seq<Field>): seq<Token> {
    if fields == [] then []
    else [fields[0].key, EQUALS] + (Spelled(fields[0].tree) + ([COMMA] + FieldsBefore(fields[1..])))
  }

  predicate FieldsOk(fields: seq<Field>) { forall k :: 0 <= k < |fields| ==> WellFormed(fields[k].tree) }

  lemma FieldsJoin(fields: seq<Field>, after: seq<Token>)
    requires fields != []
    ensures FieldsBefore(fields) + after == [fields[0].key, EQUALS]
              + (Spelled(fields[0].tree) + ([COMMA] + (FieldsBefore(fields[1..]) + after)))
  {
    hide Spelled, COMMA, EQUALS;
    var s, more := Spelled(fields[0].tree), FieldsBefore(fields[1..]);
    assert s + ([COMMA] + more) + after == s + ([COMMA] + (more + after));
  }

  lemma NoFields(fields: seq<Field>, after: seq<Token>)
    requires fields == []
    ensures FieldsBefore(fields) + after == after
  {
  }

  lemma {:induction false} FieldsAfter(fields: seq<Field>, after: seq<Token>, result: map<Token, Value>)
      returns (result': map<Token, Value>)
    requires FieldsOk(fields)
    ensures Fields(FieldsBefore(fields) + after, result) == Fields(after, result')
    decreases |fields|
  {
    hide Fields, ParseTokens, Spelled, FieldsBefore, COMMA, CLOSE, EQUALS, WellFormed;
    Punctuation();
    if fields == [] {
      NoFields(fields, after);
      result' := result;
    } else {
      var key, tree, more := fields[0].key, fields[0].tree, FieldsBefore(fields[1..]) + after;
      FieldsJoin(fields, after);
      RoundTrip(tree, [COMMA] + more);
      FieldsTurn(key, Spelled(tree) + ([COMMA] + more), Meaning(tree), COMMA, more, result);
      result' := FieldsAfter(fields[1..], after, result[key := Meaning(tree)]);
    }
  }

  lemma DictAfter(fields: seq<Field>, after: seq<Token>) returns (result: map<Token, Value>)
    requires FieldsOk(fields) && |after| >= 2 && (fields == [] ==> after[1] == Text("="))
    ensures ParseTokens([Text("{")] + (FieldsBefore(fields) + after)) == Fields(after, result)
  {
    Punctuation();
    var ts := [OPEN] + (FieldsBefore(fields) + after);
    assert ts[1..] == FieldsBefore(fields) + after;
    assert ts[2] == EQUALS by {
      if fields != [] {
        assert ts[1..][1] == EQUALS;
      }
    }
    hide ParseTokens, Fields, FieldsBefore, OPEN, EQUALS;
    OpenRead(ts);
    result := FieldsAfter(fields, after, map[]);
  }

  /** What stops a dict at a field: a key without an equals sign, a value that is an exception, which is
      raised, and anything but a comma or the closing brace behind a value. */
  lemma DictStops(fields: seq<Field>, key: Token, token: Token, tree: Tree, rest: seq<Token>)
    requires FieldsOk(fields) && WellFormed(tree)
    ensures fields != [] && token != Text("=") ==>
              ParseTokens([Text("{")] + (FieldsBefore(fields) + ([key, token] + rest)))
                  == Outcome(Raise(AssertionError), rest)
    ensures token.Exception? ==>
              ParseTokens([Text("{")] + (FieldsBefore(fields) + ([key, Text("="), token] + rest))).result
                  == Raise(TokenRaised(token))
    ensures token != Text(",") && token != Text("}") ==>
              ParseTokens([Text("{")] + (FieldsBefore(fields)
                                         + ([key, Text("=")] + (Spelled(tree) + ([token] + rest)))))
              == Outcome(Raise(AssertionError), rest)
  {
    if fields != [] && token != Text("=") {
      WithoutEquals(fields, key, token, rest);
    }
    if token.Exception? {
      WithException(fields, key, token, rest);
    }
    if token != Text(",") && token != Text("}") {
      WithoutComma(fields, key, token, tree, rest);
    }
  }

  lemma WithoutEquals(fields: seq<Field>, key: Token, token: Token, rest: seq<Token>)
    requires FieldsOk(fields) && fields != [] && token != Text("=")
    ensures ParseTokens([Text("{")] + (FieldsBefore(fields) + ([key, token] + rest)))
        == Outcome(Raise(AssertionError), rest)
  {
    Punctuation();
    var after := [key, token] + rest;
    var result := DictAfter(fields, after);
    assert after[2..] == rest;
    hide ParseTokens, EQUALS;
  }

  lemma WithException(fields: seq<Field>, key: Token, token: Token, rest: seq<Token>)
    requires FieldsOk(fields) && token.Exception?
    ensures ParseTokens([Text("{")] + (FieldsBefore(fields) + ([key, Text("="), token] + rest))).result
        == Raise(TokenRaised(token))
  {
    Punctuation();
    var after := [key, Text("="), token] + rest;
    var result := DictAfter(fields, after);
    assert after[2..] == [token] + rest;
    FirstToken(token, rest);
    hide ParseTokens, EQUALS;
  }

  lemma WithoutComma(fields: seq<Field>, key: Token, token: Token, tree: Tree, rest: seq<Token>)
    requires FieldsOk(fields) && WellFormed(tree) && token != Text(",") && token != Text("}")
    ensures ParseTokens([Text("{")] + (FieldsBefore(fields) + ([key, Text("=")] + (Spelled(tree) + ([token] + rest)))))
         == Outcome(Raise(AssertionError), rest)
  {
    Punctuation();
    var after := [key, Text("=")] + (Spelled(tree) + ([token] + rest));
    var result := DictAfter(fields, after);
    assert after[2..] == Spelled(tree) + ([token] + rest);
    RoundTrip(tree, [token] + rest);
    assert ([token] + rest)[1..] == rest;
    hide ParseTokens, EQUALS, COMMA, CLOSE, Spelled;
  }

  // ---------- how often an item is repeated ----------

  /** The number of items a run stands for. */
  function RunLength(run: Run): nat {
    if run.Times? && run.repeat.Repeat? && run.repeat.count > 1 then run.repeat.count else 1
  }

  function RunCount(runs: Runs): nat { if runs.LastRun? then 1 else 1 + RunCount(runs.runs) }

  function RunAt(runs: Runs, k: nat): Run
    requires k < RunCount(runs)
  {
    if k == 0 then runs.run else RunAt(runs.runs, k - 1)
  }

  /** Where run number k begins in the list. */
  function Offset(runs: Runs, k: nat): nat
    requires k <= RunCount(runs)
  {
    if k == 0 then 0 else RunLength(runs.run) + if runs.LastRun? then 0 else Offset(runs.runs, k - 1)
  }

  lemma RunIs(run: Run)
    ensures |RunMeaning(run)| == RunLength(run)
      && forall i :: 0 <= i < RunLength(run) ==> RunMeaning(run)[i] == run.item
  {
  }

  lemma {:induction false} RunsLength(runs: Runs)
    ensures |RunsMeaning(runs)| == Offset(runs, RunCount(runs))
    decreases runs
  {
    RunIs(runs.run);
    if runs.MoreRuns? {
      RunsLength(runs.runs);
    }
  }

  lemma {:induction false} ItemAt(runs: Runs, k: nat, i: nat)
    requires k < RunCount(runs) && i < RunLength(RunAt(runs, k))
    ensures Offset(runs, k) + i < |RunsMeaning(runs)| && RunsMeaning(runs)[Offset(runs, k) + i] == RunAt(runs, k).item
    decreases runs
  {
    RunIs(runs.run);
    hide RunMeaning, RunLength;
    if k > 0 {
      ItemAt(runs.runs, k - 1, i);
    }
  }

  /** A list has as many items as its runs together, and at the places of every run the item of that
      run: once when it is alone, as often as it says when it is repeated, but at least once. */
  lemma ListIs(runs: Runs, rest: seq<Token>)
    requires RunsWellFormed(runs)
    ensures
      var o := ParseTokens([Text("{")] + RunsSpelled(runs) + rest);
      && o.rest == rest && o.result.Ok? && o.result.value.List?
      && |o.result.value.items| == Offset(runs, RunCount(runs))
      && forall k: nat, i: nat :: k < RunCount(runs) && i < RunLength(RunAt(runs, k)) ==>
           IsAt(o.result.value.items, Offset(runs, k), i, RunAt(runs, k).item)
  {
    Punctuation();
    hide ParseTokens, RunsSpelled, RunMeaning;
    RoundTrip(Runs(runs), rest);
    RunsLength(runs);
    forall k: nat, i: nat | k < RunCount(runs) && i < RunLength(RunAt(runs, k))
      ensures IsAt(RunsMeaning(runs), Offset(runs, k), i, RunAt(runs, k).item)
    {
      ItemAt(runs, k, i);
    }
  }

  predicate IsAt(items: seq<Token>, offset: nat, i: nat, item: Token) {
    offset + i < |items| && items[offset + i] == item
  }

  /** In particular a single item with a repeat count. */
  lemma RepeatedItem(item: Token, id: nat, count: int, rest: seq<Token>)
    ensures
      var o := ParseTokens([Text("{"), item, Repeat(id, count), Text("}")] + rest);
      && o.rest == rest && o.result.Ok? && o.result.value.List?
      && |o.result.value.items| == (if count > 1 then count else 1)
      && forall i :: 0 <= i < |o.result.value.items| ==> o.result.value.items[i] == item
  {
    Punctuation();
    var run := Times(item, Repeat(id, count));
    var runs := LastRun(run);
    assert [Text("{")] + RunsSpelled(runs) == [Text("{"), item, Repeat(id, count), Text("}")];
    assert Spelled(Runs(runs)) == [Text("{")] + RunsSpelled(runs);
    RoundTrip(Runs(runs), rest);
    RunIs(run);
    assert RunsMeaning(runs) == RunMeaning(run);
    hide ParseTokens, Copies;
  }

  // ---------- what is cut short, and what is left over ----------

  /** A list cut short. */
  lemma {:induction false} ItemsTruncated(runs: Runs, m: nat, result: seq<Token>)
    requires RunsWellFormed(runs) && m < |RunsSpelled(runs)|
    ensures Items(RunsSpelled(runs)[..m], result).result == Raise(IndexError)
    decreases runs
  {
    Punctuation();
    var ts, n := RunsSpelled(runs)[..m], |RunSpelled(runs.run)|;
    if m <= n {
      assert m == 2 ==> ts[1].Repeat?;
    } else {
      var after := RunsSpelled(runs.runs)[..m - n - 1];
      assert ts == RunSpelled(runs.run) + [COMMA] + after;
      hide Items, RunMeaning, COMMA, CLOSE;
      ItemsTurn(runs.run, COMMA, after, result);
      ItemsTruncated(runs.runs, m - n - 1, result + RunMeaning(runs.run));
    }
  }

  lemma {:induction false} FieldsTruncated(pairs: Pairs, m: nat, result: map<Token, Value>)
    requires PairsWellFormed(pairs) && m < |PairsSpelled(pairs)|
    ensures Fields(PairsSpelled(pairs)[..m], result).result == Raise(IndexError)
    decreases pairs, 0
  {
    Punctuation();
    var ts, t, tree := PairsSpelled(pairs)[..m], |Spelled(pairs.tree)|, pairs.tree;
    if m >= 2 {
      assert ts[1] == EQUALS;
      hide Spelled, CLOSE, COMMA, EQUALS;
      if m < t + 2 {
        assert ts[2..] == Spelled(tree)[..m - 2];
        Truncated(tree, m - 2);
        FieldsRaise(ts, result);
      } else if m == t + 2 {
        assert ts[2..] == Spelled(tree) + [];
        RoundTrip(tree, []);
        FieldsRaise(ts, result);
      } else {
        var after := PairsSpelled(pairs.pairs)[..m - t - 3];
        assert ts == [pairs.key, EQUALS] + (Spelled(tree) + ([COMMA] + after));
        RoundTrip(tree, [COMMA] + after);
        hide Fields, ParseTokens;
        FieldsTurn(pairs.key, Spelled(tree) + ([COMMA] + after), Meaning(tree), COMMA, after, result);
        FieldsTruncated(pairs.pairs, m - t - 3, result[pairs.key := Meaning(tree)]);
      }
    }
  }

  lemma FieldsRaise(ts: seq<Token>, result: map<Token, Value>)
    requires |ts| >= 2 && ts[1] == EQUALS
    requires var o := ParseTokens(ts[2..]); o.result == Raise(IndexError) || (o.result.Ok? && o.rest == [])
    ensures Fields(ts, result).result == Raise(IndexError)
  {
    hide ParseTokens;
  }

  /** The tokens of a value cut short, at whatever place, raise an IndexError. */
  lemma {:induction false} Truncated(tree: Tree, m: nat)
    requires WellFormed(tree) && m < |Spelled(tree)|
    ensures ParseTokens(Spelled(tree)[..m]).result == Raise(IndexError)
    decreases tree, 1
  {
    Punctuation();
    var ts := Spelled(tree)[..m];
    if m >= 3 {
      ThirdToken(tree, []);
      assert Spelled(tree) + [] == Spelled(tree);
      OpenRead(ts);
      if tree.Record? {
        assert ts[1..] == PairsSpelled(tree.pairs)[..m - 1];
        FieldsTruncated(tree.pairs, m - 1, map[]);
      } else {
        assert ts[1..] == RunsSpelled(tree.runs)[..m - 1];
        ItemsTruncated(tree.runs, m - 1, []);
      }
    }
  }

  /** Tokens behind a value are an error of parse_rhs, which leaves them. */
  lemma LeftOver(tree: Tree, rest: seq<Token>)
    requires WellFormed(tree) && rest != []
    ensures ParseRhs(Spelled(tree) + rest) == Outcome(Raise(TestLibError), rest)
  {
    RoundTrip(tree, rest);
  }

  /** The first token decides whether there is a value at all: an exception is raised, and a repeat count
      without an item is an error. */
  lemma FirstToken(first: Token, rest: seq<Token>)
    ensures ParseTokens([]).result == Raise(IndexError)
    ensures first.Exception? ==> ParseTokens([first] + rest).result == Raise(TokenRaised(first))
    ensures first.Repeat? ==> ParseTokens([first] + rest).result == Raise(TestLibError)
    ensures first.Number? || (first.Text? && first != Text("{")) ==>
        ParseTokens([first] + rest) == Outcome(Ok(Atom(first)), rest)
  {
    Punctuation();
    assert ([first] + rest)[1..] == rest;
  }
}
