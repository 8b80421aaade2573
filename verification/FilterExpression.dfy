/**
 DynamoDB filter expressions, as far as the audit query uses them: conjunctions
 of comparisons between an attribute and a bound value. The reader below knows
 nothing of how such a text was put together.
 */
module FilterExpression {
  import opened Prelude
  import Text

  datatype Clause = Clause(attribute: string, op: string, value: string)

  // ---- Reading ----

  /** The space-separated words of a text. */
  function Words(s: string): (w: seq<string>)
    ensures |w| > 0
  {
    Text.Split(s, ' ')
  }

  predicate IsOperator(w: string) {
    w in {"=", ">=", "<="}
  }

  /** clause { "AND" clause } */
  function Conjunction(words: seq<string>): Option<seq<Clause>> {
    if |words| < 3 || !IsOperator(words[1]) || words[0] == "" || words[2] == "" then None
    else
      var first := Clause(words[0], words[1], words[2]);
      if |words| == 3 then Some([first])
      else if words[3] != "AND" then None
      else
        var rest := Conjunction(words[4..]);
        if rest.None? then None else Some([first] + rest.value)
  }

  function Parse(text: string): Option<seq<Clause>> {
    Conjunction(Words(text))
  }

  // ---- Meaning ----

  type Item = map<string, string>

  predicate IsAlias(token: string) {
    token != "" && token[0] == '#'
  }

  predicate Bound(c: Clause, names: map<string, string>, values: map<string, string>) {
    (IsAlias(c.attribute) ==> c.attribute in names) && c.value in values
  }

  predicate Compare(a: string, op: string, b: string) {
    if op == "=" then a == b else if op == ">=" then Text.AtMost(b, a) else Text.AtMost(a, b)
  }

  /** A comparison with an attribute the item lacks is false. */
  predicate Holds(c: Clause, names: map<string, string>, values: map<string, string>, item: Item)
    requires Bound(c, names, values)
  {
    var attribute := if IsAlias(c.attribute) then names[c.attribute] else c.attribute;
    attribute in item && Compare(item[attribute], c.op, values[c.value])
  }

  /** None when some placeholder is unbound: the request is refused. */
  function HoldAll(cs: seq<Clause>, names: map<string, string>, values: map<string, string>, item: Item): Option<bool> {
    if cs == [] then Some(true)
    else
      var rest := HoldAll(cs[1..], names, values, item);
      if rest.None? || !Bound(cs[0], names, values) then None
      else Some(Holds(cs[0], names, values, item) && rest.value)
  }

  /** None when the text is no expression or a placeholder is unbound. */
  function Evaluate(text: string, names: map<string, string>, values: map<string, string>, item: Item): Option<bool> {
    var cs := Parse(text);
    if cs.None? then None else HoldAll(cs.value, names, values, item)
  }

  lemma {:induction false} HoldAllConcat(a: seq<Clause>, b: seq<Clause>,
                                         names: map<string, string>, values: map<string, string>, item: Item)
    requires HoldAll(a, names, values, item).Some? && HoldAll(b, names, values, item).Some?
    ensures HoldAll(a + b, names, values, item) ==
      Some(HoldAll(a, names, values, item).value && HoldAll(b, names, values, item).value)
  {
    if a == [] {
      assert [] + b == b;
    } else {
      assert (a + b)[1..] == a[1..] + b;
      HoldAllConcat(a[1..], b, names, values, item);
    }
  }

  // ---- Texts put together part by part ----

  function Part(c: Clause): string {
    " AND " + (c.attribute + (" " + (c.op + (" " + c.value))))
  }

  function Parts(cs: seq<Clause>): string {
    if cs == [] then "" else Part(cs[0]) + Parts(cs[1..])
  }

  lemma {:induction false} PartsConcat(a: seq<Clause>, b: seq<Clause>)
    ensures Parts(a + b) == Parts(a) + Parts(b)
  {
    if a == [] {
      assert [] + b == b;
    } else {
      assert (a + b)[1..] == a[1..] + b;
      PartsConcat(a[1..], b);
    }
  }

  /** A word of a clause: not empty, no space inside. */
  predicate IsWord(w: string) {
    w != "" && Text.Lacks(w, ' ')
  }

  predicate WellFormed(c: Clause) {
    IsWord(c.attribute) && IsOperator(c.op) && IsWord(c.value)
  }

  lemma WordsOfClause(c: Clause)
    requires WellFormed(c)
    ensures Words(c.attribute + (" " + (c.op + (" " + c.value)))) == [c.attribute, c.op, c.value]
  {
    var tail := c.op + (" " + c.value);
    Text.SplitWord(c.attribute, tail);
    Text.SplitWord(c.op, c.value);
    Text.SplitWhole(c.value, ' ');
  }

  lemma WordsOfClauseThen(c: Clause, rest: string)
    requires WellFormed(c)
    ensures Words(c.attribute + (" " + (c.op + (" " + (c.value + (" " + rest))))))
         == [c.attribute, c.op, c.value] + Words(rest)
  {
    var last := c.value + (" " + rest);
    var tail := c.op + (" " + last);
    Text.SplitWord(c.attribute, tail);
    Text.SplitWord(c.op, last);
    Text.SplitWord(c.value, rest);
    ThreeInFront(c.attribute, c.op, c.value, Words(rest));
  }

  lemma ThreeInFront(a: string, b: string, c: string, rest: seq<string>)
    ensures [a] + ([b] + ([c] + rest)) == [a, b, c] + rest
  {
  }

  lemma AfterAnd(body: string, rest: string)
    ensures (" AND " + body) + rest == " AND " + (body + rest)
    ensures (" AND " + (body + rest))[5..] == body + rest
  {
  }

  lemma LeadingAnd(cs: seq<Clause>)
    requires cs != []
    ensures |Parts(cs)| > 5
    ensures Parts(cs) == " AND " + Parts(cs)[5..]
  {
    var c := cs[0];
    assert Parts(cs) == " AND " + ((c.attribute + (" " + (c.op + (" " + c.value)))) + Parts(cs[1..]));
  }

  lemma ConjunctionThen(c: Clause, words: seq<string>)
    requires WellFormed(c)
    ensures Conjunction([c.attribute, c.op, c.value] + (["AND"] + words)) ==
      if Conjunction(words).Some? then Some([c] + Conjunction(words).value) else None
  {
    var all := [c.attribute, c.op, c.value] + (["AND"] + words);
    assert all[4..] == words;
  }

  lemma MoveInside(a: string, b: string, c: string, rest: string)
    ensures (a + (" " + (b + (" " + c)))) + rest == a + (" " + (b + (" " + (c + rest))))
  {
    assert (" " + c) + rest == " " + (c + rest);
    assert (b + (" " + c)) + rest == b + (" " + (c + rest));
    assert (" " + (b + (" " + c))) + rest == " " + (b + (" " + (c + rest)));
  }

  lemma SplitAnd(tail: string)
    ensures " AND " + tail == " " + ("AND" + (" " + tail))
  {
  }

  /** The text after its first five characters: a clause, and what follows it. */
  lemma TextAfterAnd(cs: seq<Clause>)
    requires cs != []
    ensures |Parts(cs)| > 5
    ensures var c := cs[0];
      Parts(cs)[5..] ==
        if |cs| == 1 then c.attribute + (" " + (c.op + (" " + c.value)))
        else c.attribute + (" " + (c.op + (" " + (c.value + (" " + ("AND" + (" " + Parts(cs[1..])[5..])))))))
  {
    var c := cs[0];
    var body := c.attribute + (" " + (c.op + (" " + c.value)));
    LeadingAnd(cs);
    AfterAnd(body, Parts(cs[1..]));
    if |cs| > 1 {
      LeadingAnd(cs[1..]);
      SplitAnd(Parts(cs[1..])[5..]);
      MoveInside(c.attribute, c.op, c.value, Parts(cs[1..]));
    }
  }

  /** Any nonempty list of clauses is read back from its parts once the first five characters are dropped. */
  lemma {:induction false} ParsePartsBack(cs: seq<Clause>)
    requires cs != [] && forall i :: 0 <= i < |cs| ==> WellFormed(cs[i])
    ensures |Parts(cs)| > 5 && Parse(Parts(cs)[5..]) == Some(cs)
  {
    var c := cs[0];
    TextAfterAnd(cs);
    if |cs| == 1 {
      WordsOfClause(c);
      assert cs == [c];
    } else {
      ParsePartsBack(cs[1..]);
      var tail := Parts(cs[1..])[5..];
      WordsOfClauseThen(c, "AND" + (" " + tail));
      Text.SplitFirst("AND", tail, ' ');
      ConjunctionThen(c, Words(tail));
      assert cs == [c] + cs[1..];
    }
  }

  // ---- Conditions compiled one after the other ----

  /** One comparison a query may ask for; token is how the text names the attribute. */
  datatype Condition = Condition(
    attribute: string, token: string, op: string, placeholder: string, wanted: Option<string>)
  {
    function AsClause(): Clause {
      Clause(token, op, placeholder)
    }
  }

  predicate Met(c: Condition, item: Item) {
    c.wanted.Some? ==> c.attribute in item && Compare(item[c.attribute], c.op, c.wanted.value)
  }

  /** The clauses, names and values after the conditions were compiled in order. */
  function ClausesOf(cs: seq<Condition>): seq<Clause> {
    if cs == [] then []
    else
      var last := cs[|cs| - 1];
      ClausesOf(cs[..|cs| - 1]) + (if last.wanted.Some? then [last.AsClause()] else [])
  }

  function NamesOf(cs: seq<Condition>): map<string, string> {
    if cs == [] then map[]
    else
      var names, last := NamesOf(cs[..|cs| - 1]), cs[|cs| - 1];
      if last.wanted.Some? && IsAlias(last.token) then names[last.token := last.attribute] else names
  }

  function ValuesOf(values: map<string, string>, cs: seq<Condition>): map<string, string> {
    if cs == [] then values
    else
      var rest, last := ValuesOf(values, cs[..|cs| - 1]), cs[|cs| - 1];
      if last.wanted.Some? then rest[last.placeholder := last.wanted.value] else rest
  }

  /** Words throughout, one placeholder each, and every alias stands for one attribute. */
  ghost predicate Consistent(cs: seq<Condition>) {
    && (forall i :: 0 <= i < |cs| ==> WellFormed(cs[i].AsClause()))
    && (forall i :: 0 <= i < |cs| && !IsAlias(cs[i].token) ==> cs[i].token == cs[i].attribute)
    && (forall i, j :: 0 <= i < j < |cs| ==> cs[i].placeholder != cs[j].placeholder)
    && (forall i, j :: 0 <= i < j < |cs| && cs[i].token == cs[j].token ==> cs[i].attribute == cs[j].attribute)
  }

  /** Every wanted condition finds its own attribute and value in the maps. */
  ghost predicate Binds(cs: seq<Condition>, names: map<string, string>, values: map<string, string>) {
    forall i :: 0 <= i < |cs| && cs[i].wanted.Some? ==>
      && (IsAlias(cs[i].token) ==> cs[i].token in names && names[cs[i].token] == cs[i].attribute)
      && cs[i].placeholder in values && values[cs[i].placeholder] == cs[i].wanted.value
  }

  lemma {:induction false} MapsBind(cs: seq<Condition>, base: map<string, string>)
    requires Consistent(cs)
    ensures Binds(cs, NamesOf(cs), ValuesOf(base, cs))
  {
    if cs == [] {
    } else {
      MapsBind(cs[..|cs| - 1], base);
    }
  }

  lemma {:induction false} ClausesOfWellFormed(cs: seq<Condition>)
    requires Consistent(cs)
    ensures forall i :: 0 <= i < |ClausesOf(cs)| ==> WellFormed(ClausesOf(cs)[i])
  {
    if cs == [] {
    } else {
      ClausesOfWellFormed(cs[..|cs| - 1]);
    }
  }

  ghost predicate AllMet(cs: seq<Condition>, item: Item) {
    forall i :: 0 <= i < |cs| ==> Met(cs[i], item)
  }

  lemma HoldOne(c: Clause, names: map<string, string>, values: map<string, string>, item: Item)
    requires Bound(c, names, values)
    ensures HoldAll([c], names, values, item) == Some(Holds(c, names, values, item))
  {
    assert [c][1..] == [];
  }

  lemma AllMetLast(cs: seq<Condition>, item: Item)
    requires cs != []
    ensures AllMet(cs, item) <==> AllMet(cs[..|cs| - 1], item) && Met(cs[|cs| - 1], item)
  {
  }

  lemma WithoutLast(cs: seq<Condition>, names: map<string, string>, values: map<string, string>)
    requires cs != [] && Consistent(cs) && Binds(cs, names, values)
    ensures Consistent(cs[..|cs| - 1]) && Binds(cs[..|cs| - 1], names, values)
  {
  }

  /** A wanted condition's clause says what the condition does. */
  lemma ClauseMeansCondition(cs: seq<Condition>, i: nat,
                             names: map<string, string>, values: map<string, string>, item: Item)
    requires Consistent(cs) && Binds(cs, names, values) && i < |cs| && cs[i].wanted.Some?
    ensures HoldAll([cs[i].AsClause()], names, values, item) == Some(Met(cs[i], item))
  {
    HoldOne(cs[i].AsClause(), names, values, item);
  }

  lemma {:induction false} ConditionsHold(cs: seq<Condition>,
                                          names: map<string, string>, values: map<string, string>, item: Item)
    requires Consistent(cs) && Binds(cs, names, values)
    ensures HoldAll(ClausesOf(cs), names, values, item).Some?
    ensures HoldAll(ClausesOf(cs), names, values, item).value <==> AllMet(cs, item)
  {
    if cs == [] {
    } else {
      var init, last := cs[..|cs| - 1], cs[|cs| - 1];
      WithoutLast(cs, names, values);
      ConditionsHold(init, names, values, item);
      AllMetLast(cs, item);
      if last.wanted.Some? {
        ClauseMeansCondition(cs, |cs| - 1, names, values, item);
        HoldAllConcat(ClausesOf(init), [last.AsClause()], names, values, item);
      } else {
        assert ClausesOf(cs) == ClausesOf(init);
      }
    }
  }

  /** Whatever the conditions: the compiled text, read and evaluated with the compiled maps, says that all are met. */
  lemma CompiledMeansConditions(cs: seq<Condition>, base: map<string, string>, item: Item)
    requires Consistent(cs) && ClausesOf(cs) != []
    ensures |Parts(ClausesOf(cs))| > 5
    ensures Parse(Parts(ClausesOf(cs))[5..]) == Some(ClausesOf(cs))
    ensures var r := Evaluate(Parts(ClausesOf(cs))[5..], NamesOf(cs), ValuesOf(base, cs), item);
      r.Some? && (r.value <==> AllMet(cs, item))
  {
    ClausesOfWellFormed(cs);
    ParsePartsBack(ClausesOf(cs));
    MapsBind(cs, base);
    ConditionsHold(cs, NamesOf(cs), ValuesOf(base, cs), item);
  }

  function ValuesIn(cs: seq<Clause>): set<string> {
    set i | 0 <= i < |cs| :: cs[i].value
  }

  function AliasesIn(cs: seq<Clause>): set<string> {
    set i | 0 <= i < |cs| && IsAlias(cs[i].attribute) :: cs[i].attribute
  }

  lemma UsedAppend(cs: seq<Clause>, c: Clause)
    ensures ValuesIn(cs + [c]) == ValuesIn(cs) + {c.value}
    ensures AliasesIn(cs + [c]) == AliasesIn(cs) + if IsAlias(c.attribute) then {c.attribute} else {}
  {
    var all := cs + [c];
    assert forall i :: 0 <= i < |cs| ==> all[i] == cs[i];
    assert all[|cs|] == c;
  }

  /** The compiled maps hold what the clauses use, and nothing else. */
  lemma {:induction false} MapsAreUsed(cs: seq<Condition>, base: map<string, string>)
    ensures ValuesOf(base, cs).Keys == base.Keys + ValuesIn(ClausesOf(cs))
    ensures NamesOf(cs).Keys == AliasesIn(ClausesOf(cs))
  {
    if cs == [] {
    } else {
      var init, last := cs[..|cs| - 1], cs[|cs| - 1];
      MapsAreUsed(init, base);
      if last.wanted.Some? {
        UsedAppend(ClausesOf(init), last.AsClause());
      } else {
        assert ClausesOf(cs) == ClausesOf(init);
      }
    }
  }

  /** The state of a compiler that went through the conditions in order. */
  predicate Compiled(cs: seq<Condition>, base: map<string, string>,
                     parts: string, names: map<string, string>, values: map<string, string>) {
    parts == Parts(ClausesOf(cs)) && names == NamesOf(cs) && values == ValuesOf(base, cs)
  }

  lemma PartsNext(cs: seq<Condition>, c: Condition)
    ensures Parts(ClausesOf(cs + [c])) ==
      if c.wanted.Some? then Parts(ClausesOf(cs)) + Part(c.AsClause()) else Parts(ClausesOf(cs))
  {
    assert (cs + [c])[..|cs|] == cs;
    if c.wanted.Some? {
      PartsConcat(ClausesOf(cs), [c.AsClause()]);
      assert [c.AsClause()][1..] == [];
      assert Part(c.AsClause()) + "" == Part(c.AsClause());
    } else {
      assert ClausesOf(cs + [c]) == ClausesOf(cs);
    }
  }

  /** One more condition: its part, its alias and its value, or nothing. */
  lemma CompileNext(cs: seq<Condition>, c: Condition, base: map<string, string>,
                    parts: string, names: map<string, string>, values: map<string, string>)
    requires Compiled(cs, base, parts, names, values)
    ensures Compiled(cs + [c], base,
      if c.wanted.Some? then parts + Part(c.AsClause()) else parts,
      if c.wanted.Some? && IsAlias(c.token) then names[c.token := c.attribute] else names,
      if c.wanted.Some? then values[c.placeholder := c.wanted.value] else values)
  {
    PartsNext(cs, c);
    assert (cs + [c])[..|cs|] == cs;
  }

  lemma {:induction false} AliasNeedsToken(cs: seq<Condition>, token: string)
    requires forall i :: 0 <= i < |cs| ==> cs[i].token != token
    ensures token !in NamesOf(cs)
  {
    if cs == [] {
    } else {
      AliasNeedsToken(cs[..|cs| - 1], token);
    }
  }
}
