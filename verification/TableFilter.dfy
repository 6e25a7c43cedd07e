/** Include and exclude filters over tables, with a memo by canonical name. */
module TableFilters {
  import opened Wrappers
  import opened TablePattern

  /** What a hypertable is a view of, if it is a continuous aggregate. */
  datatype Aggregate = NoAggregate | Aggregate(viewSchema: Option<string>, viewName: Option<string>)

  datatype Entity = Entity(canonicalName: string, schemaName: string, tableName: string, aggregate: Aggregate)

  datatype Filter = Filter(namespace: Pattern, table: Pattern)

  /** The names a filter looks at; a continuous aggregate without a view has none. */
  function Effective(e: Entity): Option<(string, string)> {
    if e.aggregate.NoAggregate? then Some((e.schemaName, e.tableName))
    else if e.aggregate.viewSchema.Some? && e.aggregate.viewName.Some? then
      Some((e.aggregate.viewSchema.value, e.aggregate.viewName.value))
    else None
  }

  predicate Accepts(f: Filter, e: Entity) {
    && Effective(e).Some?
    && Matches(f.namespace, Effective(e).value.0)
    && Matches(f.table, Effective(e).value.1)
  }

  // ---------------------------------------------------------------------------------------------
  // Filter terms
  // ---------------------------------------------------------------------------------------------

  function Split(s: string): (tokens: seq<string>)
    ensures tokens != []
  {
    if s == [] then [[]]
    else if s[0] == '.' then [[]] + Split(s[1..])
    else
      var rest := Split(s[1..]);
      [[s[0]] + rest[0]] + rest[1..]
  }

  lemma {:induction false} SplitNone(a: string)
    ensures Split(a) == [a] <==> '.' !in a
    ensures '.' in a ==> |Split(a)| >= 2
  {
    if a != [] {
      SplitNone(a[1..]);
      assert a == [a[0]] + a[1..];
    }
  }

  lemma {:induction false} SplitTwo(a: string, b: string)
    requires '.' !in a && '.' !in b
    ensures Split(a + "." + b) == [a, b]
  {
    var s := a + "." + b;
    if a == [] {
      assert s[1..] == b;
      SplitNone(b);
    } else {
      assert s[1..] == a[1..] + "." + b;
      SplitTwo(a[1..], b);
      assert [a[0]] + a[1..] == a;
    }
  }

  function ParsedFilter(term: string, reserved: seq<string>): Result<Filter> {
    var tokens := Split(term);
    if |tokens| != 2 then Err
    else
      var namespace :- Parsed(tokens[0], reserved);
      var table :- Parsed(tokens[1], reserved);
      Ok(Filter(namespace, table))
  }

  method ParseFilter(term: string, reserved: seq<string>) returns (r: Result<Filter>)
    requires forall i :: 0 <= i < |Split(term)| ==> IsAscii(Split(term)[i]) && !IsQuoted(Split(term)[i])
    ensures r == ParsedFilter(term, reserved)
  {
    hide Parsed;
    var tokens := Split(term);
    if |tokens| != 2 {
      return Err;
    }
    var namespace :- ParseToken(tokens[0], reserved);
    var table :- ParseToken(tokens[1], reserved);
    r := Ok(Filter(namespace, table));
  }

  /** A filter term made of two accepted patterns matches a table on one line if and only if the effective schema and
      table names are in the documented languages of the two patterns. */
  lemma FilterIsDocumented(schema: string, table: string, reserved: seq<string>, e: Entity)
    requires '.' !in schema && '.' !in table
    requires Parsed(schema, reserved).Ok? && Parsed(table, reserved).Ok?
    requires Effective(e).Some? ==> '\n' !in Effective(e).value.0 && '\n' !in Effective(e).value.1
    ensures ParsedFilter(schema + "." + table, reserved).Ok?
    ensures Accepts(ParsedFilter(schema + "." + table, reserved).value, e) <==>
              && Effective(e).Some?
              && Wild(ToLower(schema), Effective(e).value.0, true)
              && Wild(ToLower(table), Effective(e).value.1, true)
  {
    hide Parsed, Matches, Wild, Split;
    SplitTwo(schema, table);
    if Effective(e).Some? {
      PatternIsDocumented(schema, reserved, Effective(e).value.0);
      PatternIsDocumented(table, reserved, Effective(e).value.1);
    }
  }

  // ---------------------------------------------------------------------------------------------
  // The memo
  // ---------------------------------------------------------------------------------------------

  datatype Rules = Rules(excludes: seq<Filter>, includes: seq<Filter>, acceptedByDefault: bool)

  predicate AnyAccepts(filters: seq<Filter>, e: Entity) {
    exists i :: 0 <= i < |filters| && Accepts(filters[i], e)
  }

  /** An exclude wins, then an include, then the default. */
  predicate Rule(rules: Rules, e: Entity) {
    if AnyAccepts(rules.excludes, e) then false
    else if AnyAccepts(rules.includes, e) then true
    else rules.acceptedByDefault
  }

  /** Parses the terms in order and stops at the first that fails. */
  function ParsedFilters(terms: seq<string>, reserved: seq<string>): Result<seq<Filter>> {
    if terms == [] then Ok([])
    else
      var filters :- ParsedFilters(terms[..|terms| - 1], reserved);
      var last :- ParsedFilter(terms[|terms| - 1], reserved);
      Ok(filters + [last])
  }

  /** Every token of the term is unquoted ASCII. */
  predicate Plain(term: string) {
    forall i :: 0 <= i < |Split(term)| ==> IsAscii(Split(term)[i]) && !IsQuoted(Split(term)[i])
  }

  lemma {:induction false} FailureStays(terms: seq<string>, n: nat, reserved: seq<string>)
    requires n <= |terms| && ParsedFilters(terms[..n], reserved).IsFailure()
    ensures ParsedFilters(terms, reserved) == ParsedFilters(terms[..n], reserved)
  {
    if n == |terms| {
      assert terms[..n] == terms;
    } else {
      assert terms[..|terms| - 1][..n] == terms[..n];
      FailureStays(terms[..|terms| - 1], n, reserved);
    }
  }

  method ParseFilters(terms: seq<string>, reserved: seq<string>) returns (r: Result<seq<Filter>>)
    requires forall i :: 0 <= i < |terms| ==> Plain(terms[i])
    ensures r == ParsedFilters(terms, reserved)
  {
    hide ParsedFilter, Split;
    var filters: seq<Filter> := [];
    var i := 0;
    while i < |terms|
      invariant 0 <= i <= |terms| && ParsedFilters(terms[..i], reserved) == Ok(filters)
    {
      assert terms[..i + 1][..i] == terms[..i];
      var f := ParseFilter(terms[i], reserved);
      if f.IsFailure() {
        FailureStays(terms, i + 1, reserved);
        return f.PropagateFailure();
      }
      filters := filters + [f.value];
      i := i + 1;
    }
    assert terms[..i] == terms;
    r := Ok(filters);
  }

  /** The excludes are parsed before the includes; the first term that fails decides. */
  method NewTableFilter(excludes: seq<string>, includes: seq<string>, acceptedByDefault: bool, reserved: seq<string>)
    returns (r: Result<TableFilter>)
    requires forall i :: 0 <= i < |excludes| ==> Plain(excludes[i])
    requires forall i :: 0 <= i < |includes| ==> Plain(includes[i])
    ensures r.Ok? <==> ParsedFilters(excludes, reserved).Ok? && ParsedFilters(includes, reserved).Ok?
    ensures r.Panic? <==> ParsedFilters(excludes, reserved).Panic? ||
                          (ParsedFilters(excludes, reserved).Ok? && ParsedFilters(includes, reserved).Panic?)
    ensures r.Ok? ==>
              && fresh(r.value) && r.value.filterCache == map[]
              && r.value.rules ==
                 Rules(ParsedFilters(excludes, reserved).value, ParsedFilters(includes, reserved).value,
                       acceptedByDefault)
  {
    hide ParsedFilters, Plain;
    var excluded :- ParseFilters(excludes, reserved);
    var included :- ParseFilters(includes, reserved);
    var filter := new TableFilter(Rules(excluded, included, acceptedByDefault));
    r := Ok(filter);
  }

  class TableFilter {
    const rules: Rules
    var filterCache: map<string, bool>

    constructor (rules: Rules)
      ensures this.rules == rules && filterCache == map[]
    {
      this.rules := rules;
      filterCache := map[];
    }

    method Enabled(e: Entity) returns (enabled: bool)
      modifies this
      ensures enabled == Answer(rules, old(filterCache), e)
      ensures filterCache == old(filterCache)[e.canonicalName := enabled]
    {
      if e.canonicalName in filterCache {
        assert filterCache == filterCache[e.canonicalName := filterCache[e.canonicalName]];
        return filterCache[e.canonicalName];
      }
      var i := 0;
      while i < |rules.excludes|
        invariant 0 <= i <= |rules.excludes| && filterCache == old(filterCache)
        invariant forall k :: 0 <= k < i ==> !Accepts(rules.excludes[k], e)
      {
        if Accepts(rules.excludes[i], e) {
          filterCache := filterCache[e.canonicalName := false];
          return false;
        }
        i := i + 1;
      }
      i := 0;
      while i < |rules.includes|
        invariant 0 <= i <= |rules.includes| && filterCache == old(filterCache)
        invariant forall k :: 0 <= k < i ==> !Accepts(rules.includes[k], e)
      {
        if Accepts(rules.includes[i], e) {
          filterCache := filterCache[e.canonicalName := true];
          return true;
        }
        i := i + 1;
      }
      filterCache := filterCache[e.canonicalName := rules.acceptedByDefault];
      return rules.acceptedByDefault;
    }
  }

  function Answer(rules: Rules, cache: map<string, bool>, e: Entity): bool {
    if e.canonicalName in cache then cache[e.canonicalName] else Rule(rules, e)
  }

  function CacheAfter(rules: Rules, calls: seq<Entity>): map<string, bool> {
    if calls == [] then map[]
    else
      var n := |calls| - 1;
      var cache := CacheAfter(rules, calls[..n]);
      cache[calls[n].canonicalName := Answer(rules, cache, calls[n])]
  }

  /** The first call with the canonical name. */
  function First(calls: seq<Entity>, name: string): (i: nat)
    ensures i <= |calls| && (i < |calls| ==> calls[i].canonicalName == name)
    ensures forall k :: 0 <= k < i ==> calls[k].canonicalName != name
  {
    if calls == [] then 0
    else
      var n := |calls| - 1;
      var i := First(calls[..n], name);
      if i < n then i else if calls[n].canonicalName == name then n else n + 1
  }

  lemma {:induction false} CacheIsFirst(rules: Rules, calls: seq<Entity>, name: string)
    ensures name in CacheAfter(rules, calls) <==> First(calls, name) < |calls|
    ensures name in CacheAfter(rules, calls) ==>
              CacheAfter(rules, calls)[name] == Rule(rules, calls[First(calls, name)])
  {
    hide Rule;
    if calls != [] {
      CacheIsFirst(rules, calls[..|calls| - 1], name);
    }
  }

  /** Every call is answered by the rule for the first table that was asked about under the same canonical name. */
  lemma MemoIsFirst(rules: Rules, calls: seq<Entity>, e: Entity)
    ensures var all := calls + [e];
            First(all, e.canonicalName) < |all| &&
            Answer(rules, CacheAfter(rules, calls), e) == Rule(rules, all[First(all, e.canonicalName)])
  {
    hide Rule;
    CacheIsFirst(rules, calls, e.canonicalName);
    assert (calls + [e])[..|calls|] == calls;
  }

  /** Equal canonical names stand for equal effective names. */
  ghost predicate Consistent(calls: seq<Entity>) {
    forall i, j :: 0 <= i < |calls| && 0 <= j < |calls| && calls[i].canonicalName == calls[j].canonicalName ==>
      Effective(calls[i]) == Effective(calls[j])
  }

  /** As long as canonical names are consistent, the memo never changes an answer. */
  lemma MemoIsRule(rules: Rules, calls: seq<Entity>, e: Entity)
    requires Consistent(calls + [e])
    ensures Answer(rules, CacheAfter(rules, calls), e) == Rule(rules, e)
  {
    var all := calls + [e];
    MemoIsFirst(rules, calls, e);
    var first := all[First(all, e.canonicalName)];
    assert all[|calls|] == e;
    SameRule(rules, first, e);
  }

  lemma SameRule(rules: Rules, a: Entity, b: Entity)
    requires Effective(a) == Effective(b)
    ensures Rule(rules, a) == Rule(rules, b)
  {
    assert forall i :: 0 <= i < |rules.excludes| ==> Accepts(rules.excludes[i], a) == Accepts(rules.excludes[i], b);
    assert forall i :: 0 <= i < |rules.includes| ==> Accepts(rules.includes[i], a) == Accepts(rules.includes[i], b);
  }

  // ---------------------------------------------------------------------------------------------
  // From terms to answers
  // ---------------------------------------------------------------------------------------------

  /** A filter term: the patterns of the schema and of the table. */
  datatype Term = Term(schema: string, table: string)

  function Text(t: Term): string {
    t.schema + "." + t.table
  }

  function Texts(terms: seq<Term>): seq<string> {
    seq(|terms|, i requires 0 <= i < |terms| => Text(terms[i]))
  }

  predicate Legible(t: Term, reserved: seq<string>) {
    '.' !in t.schema && '.' !in t.table && Parsed(t.schema, reserved).Ok? && Parsed(t.table, reserved).Ok?
  }

  /** The names of the table, or of the view of a continuous aggregate, are in the documented languages of the two
      patterns; a continuous aggregate without a view is never named. */
  predicate Names(t: Term, e: Entity) {
    match e.aggregate
    case NoAggregate => Wild(ToLower(t.schema), e.schemaName, true) && Wild(ToLower(t.table), e.tableName, true)
    case Aggregate(Some(schema), Some(name)) =>
      Wild(ToLower(t.schema), schema, true) && Wild(ToLower(t.table), name, true)
    case Aggregate(_, _) => false
  }

  predicate AnyNames(terms: seq<Term>, e: Entity) {
    exists i :: 0 <= i < |terms| && Names(terms[i], e)
  }

  predicate OnOneLine(e: Entity) {
    Effective(e).Some? ==> '\n' !in Effective(e).value.0 && '\n' !in Effective(e).value.1
  }

  lemma {:induction false} TermsParse(terms: seq<Term>, reserved: seq<string>)
    requires forall i :: 0 <= i < |terms| ==> Legible(terms[i], reserved)
    ensures ParsedFilters(Texts(terms), reserved).Ok?
    ensures |ParsedFilters(Texts(terms), reserved).value| == |terms|
    ensures forall i :: 0 <= i < |terms| ==>
              && ParsedFilter(Text(terms[i]), reserved).Ok?
              && ParsedFilters(Texts(terms), reserved).value[i] == ParsedFilter(Text(terms[i]), reserved).value
  {
    hide ParsedFilter, Text, Parsed;
    if terms != [] {
      var n := |terms| - 1;
      TermsParse(terms[..n], reserved);
      assert Texts(terms)[..n] == Texts(terms[..n]);
      assert ParsedFilter(Text(terms[n]), reserved).Ok? by { TermParses(terms[n], reserved); }
    }
  }

  lemma TermParses(t: Term, reserved: seq<string>)
    requires Legible(t, reserved)
    ensures ParsedFilter(Text(t), reserved).Ok?
  {
    hide Parsed, Split;
    SplitTwo(t.schema, t.table);
  }

  lemma AnyIsNamed(terms: seq<Term>, reserved: seq<string>, e: Entity)
    requires (forall i :: 0 <= i < |terms| ==> Legible(terms[i], reserved)) && OnOneLine(e)
    ensures ParsedFilters(Texts(terms), reserved).Ok?
    ensures AnyAccepts(ParsedFilters(Texts(terms), reserved).value, e) <==> AnyNames(terms, e)
  {
    hide ParsedFilters, ParsedFilter, Parsed, Accepts, Wild;
    TermsParse(terms, reserved);
    var filters := ParsedFilters(Texts(terms), reserved).value;
    forall i | 0 <= i < |terms| ensures Accepts(filters[i], e) <==> Names(terms[i], e) {
      FilterIsDocumented(terms[i].schema, terms[i].table, reserved, e);
    }
    if i :| 0 <= i < |filters| && Accepts(filters[i], e) {
      assert Names(terms[i], e);
    }
    if i :| 0 <= i < |terms| && Names(terms[i], e) {
      assert Accepts(filters[i], e);
    }
  }

  /** After any calls with consistent names, a table that an exclude names is disabled whatever the includes are,
      another one that an include names is enabled, and the default decides for the rest. */
  lemma AnswerIsDocumented(excludes: seq<Term>, includes: seq<Term>, acceptedByDefault: bool, reserved: seq<string>,
                           calls: seq<Entity>, e: Entity)
    requires forall i :: 0 <= i < |excludes| ==> Legible(excludes[i], reserved)
    requires forall i :: 0 <= i < |includes| ==> Legible(includes[i], reserved)
    requires Consistent(calls + [e]) && OnOneLine(e)
    ensures ParsedFilters(Texts(excludes), reserved).Ok? && ParsedFilters(Texts(includes), reserved).Ok?
    ensures var rules := Rules(ParsedFilters(Texts(excludes), reserved).value,
                               ParsedFilters(Texts(includes), reserved).value, acceptedByDefault);
            var answer := Answer(rules, CacheAfter(rules, calls), e);
            && (AnyNames(excludes, e) ==> !answer)
            && (!AnyNames(excludes, e) && AnyNames(includes, e) ==> answer)
            && (!AnyNames(excludes, e) && !AnyNames(includes, e) ==> answer == acceptedByDefault)
  {
    hide ParsedFilters, AnyAccepts, AnyNames, CacheAfter, Consistent, Legible;
    AnyIsNamed(excludes, reserved, e);
    AnyIsNamed(includes, reserved, e);
    var rules := Rules(ParsedFilters(Texts(excludes), reserved).value, ParsedFilters(Texts(includes), reserved).value,
                       acceptedByDefault);
    MemoIsRule(rules, calls, e);
  }
}
