/**
 * The clause builders: each holds the state its chain methods accumulate in place and
 * compiles that state with the pure compilers of `Clauses` and `ListClauses`.
 */
module ClauseBuilders {
  import opened Wrappers
  import opened Clauses
  import opened ListClauses

  /** What a failed `and_`, `or_` or `on` call leaves behind: the parse, folded into a prefix. */
  function Prepend(added: seq<Condition>, rest: Result<seq<Condition>, ClauseError>): Result<seq<Condition>, ClauseError>
  {
    match rest
    case Ok(cs) => Ok(added + cs)
    case Err(e) => Err(e)
  }

  lemma ParseArgsStep(conn: Connective, args: seq<(string, Value)>, added: seq<Condition>, i: nat)
    requires i < |args|
    ensures var r := ParseArg(args[i].0, args[i].1);
      Prepend(added, ParseArgs(conn, args[i..])) ==
        if r.Err? then Err(r.error)
        else Prepend(added + [Condition(conn, r.value)], ParseArgs(conn, args[i + 1..]))
  {
    assert args[i..][1..] == args[i + 1..];
    var r := ParseArg(args[i].0, args[i].1);
    var rest := ParseArgs(conn, args[i + 1..]);
    if r.Ok? && rest.Ok? {
      assert added + ([Condition(conn, r.value)] + rest.value) == added + [Condition(conn, r.value)] + rest.value;
    }
  }

  lemma ParseArgsStart(conn: Connective, args: seq<(string, Value)>)
    ensures ParseArgs(conn, args) == Prepend([], ParseArgs(conn, args[0..]))
  {
    assert args[0..] == args;
    assert ParseArgs(conn, args).Ok? ==> [] + ParseArgs(conn, args).value == ParseArgs(conn, args).value;
  }

  /**
   * Parses the keyword arguments of one `and_`/`or_` call, left to right, stopping at
   * the first malformed one.
   */
  method ParseCall(conn: Connective, args: seq<(string, Value)>) returns (r: Result<seq<Condition>, ClauseError>)
    ensures r == ParseArgs(conn, args)
  {
    var added: seq<Condition> := [];
    var i := 0;
    ParseArgsStart(conn, args);
    while i < |args|
      invariant 0 <= i <= |args|
      invariant ParseArgs(conn, args) == Prepend(added, ParseArgs(conn, args[i..]))
    {
      ParseArgsStep(conn, args, added, i);
      match ParseArg(args[i].0, args[i].1)
      case Err(e) =>
        return Err(e);
      case Ok(p) =>
        added := added + [Condition(conn, p)];
      i := i + 1;
    }
    assert args[i..] == [];
    assert added + [] == added;
    r := Ok(added);
  }

  /**
   * WHERE, HAVING and the three joins. `and_`/`or_` append predicates; a join also
   * holds the condition of its last `on` call.
   */
  class ConditionClause {
    const kind: ConditionKind
    const quote: string
    const placeholder: string
    var on: Option<OnCondition>
    var conditions: seq<Condition>

    /** Every accumulated predicate binds as many values as it renders placeholders. */
    predicate Valid()
      reads this
    {
      forall i :: 0 <= i < |conditions| ==> WellFormed(conditions[i].pred)
    }

    constructor WhereClause(q: string, ph: string)
      ensures kind == Where && quote == q && placeholder == ph
      ensures on == None && conditions == [] && Valid()
    {
      kind, quote, placeholder := Where, q, ph;
      on, conditions := None, [];
    }

    constructor HavingClause(q: string, ph: string)
      ensures kind == Having && quote == q && placeholder == ph
      ensures on == None && conditions == [] && Valid()
    {
      kind, quote, placeholder := Having, q, ph;
      on, conditions := None, [];
    }

    constructor JoinClause(q: string, ph: string, table: string)
      ensures kind == Joined(Inner, table) && quote == q && placeholder == ph
      ensures on == None && conditions == [] && Valid()
    {
      kind, quote, placeholder := Joined(Inner, table), q, ph;
      on, conditions := None, [];
    }

    constructor LeftJoinClause(q: string, ph: string, table: string)
      ensures kind == Joined(Left, table) && quote == q && placeholder == ph
      ensures on == None && conditions == [] && Valid()
    {
      kind, quote, placeholder := Joined(Left, table), q, ph;
      on, conditions := None, [];
    }

    constructor RightJoinClause(q: string, ph: string, table: string)
      ensures kind == Joined(Right, table) && quote == q && placeholder == ph
      ensures on == None && conditions == [] && Valid()
    {
      kind, quote, placeholder := Joined(Right, table), q, ph;
      on, conditions := None, [];
    }

    /**
     * Appends the parsed keyword arguments of one call, each tagged with `conn`. The
     * first malformed argument aborts the call and nothing is appended.
     */
    method Add(conn: Connective, args: seq<(string, Value)>) returns (err: Option<ClauseError>)
      requires Valid()
      modifies this
      ensures Valid() && on == old(on)
      ensures ParseArgs(conn, args).Ok? ==> err == None && conditions == old(conditions) + ParseArgs(conn, args).value
      ensures ParseArgs(conn, args).Err? ==> err == Some(ParseArgs(conn, args).error) && conditions == old(conditions)
    {
      var parsed := ParseCall(conn, args);
      match parsed
      case Err(e) =>
        err := Some(e);
      case Ok(added) =>
        ParseArgsOk(conn, args);
        assert forall j :: 0 <= j < |added| ==> ParseArg(args[j].0, args[j].1) == Ok(added[j].pred);
        conditions := conditions + added;
        err := None;
    }

    /** `and_(**kwargs)`. */
    method And(args: seq<(string, Value)>) returns (err: Option<ClauseError>)
      requires Valid()
      modifies this
      ensures Valid() && on == old(on)
      ensures ParseArgs(Clauses.And, args).Ok? ==> err == None && conditions == old(conditions) + ParseArgs(Clauses.And, args).value
      ensures ParseArgs(Clauses.And, args).Err? ==> err == Some(ParseArgs(Clauses.And, args).error) && conditions == old(conditions)
    {
      err := Add(Clauses.And, args);
    }

    /** `or_(**kwargs)`. */
    method Or(args: seq<(string, Value)>) returns (err: Option<ClauseError>)
      requires Valid()
      modifies this
      ensures Valid() && on == old(on)
      ensures ParseArgs(Clauses.Or, args).Ok? ==> err == None && conditions == old(conditions) + ParseArgs(Clauses.Or, args).value
      ensures ParseArgs(Clauses.Or, args).Err? ==> err == Some(ParseArgs(Clauses.Or, args).error) && conditions == old(conditions)
    {
      err := Add(Clauses.Or, args);
    }

    /** `on('a.b=c.d')` on a join: a later call replaces an earlier one. */
    method On(text: string) returns (err: Option<ClauseError>)
      requires kind.Joined? && Valid()
      modifies this
      ensures Valid() && conditions == old(conditions)
      ensures ParseOn(text).Ok? ==> err == None && on == Some(ParseOn(text).value)
      ensures ParseOn(text).Err? ==> err == Some(ParseOn(text).error) && on == old(on)
    {
      match ParseOn(text)
      case Ok(c) =>
        on := Some(c);
        err := None;
      case Err(e) =>
        err := Some(e);
    }

    /**
     * `compile()`: the SQL fragment and its bindings, the values of every predicate in
     * order; an empty WHERE or HAVING compiles to nothing, a join never does.
     */
    function Compile(): (r: (string, seq<Value>))
      reads this
      ensures r.1 == ConditionValues(conditions)
      ensures r == ("", []) <==> !kind.Joined? && on.None? && conditions == []
    {
      CompileConditions(kind, quote, placeholder, on, conditions)
    }
  }

  /** ORDER BY: `by(column, desc=False)` appends one ordering. */
  class OrderClause {
    const quote: string
    var orders: seq<Ordering>

    constructor (q: string)
      ensures quote == q && orders == []
    {
      quote, orders := q, [];
    }

    method By(column: string, desc: bool)
      modifies this
      ensures orders == old(orders) + [Ordering(column, desc)]
    {
      orders := orders + [Ordering(column, desc)];
    }

    /** `compile()`: the SQL text, with no bindings. */
    function Compile(): (r: (string, seq<Value>))
      reads this
      ensures r.1 == []
    {
      (CompileOrder(quote, orders), [])
    }
  }

  /** GROUP BY: `by(*columns)` appends the columns. */
  class GroupClause {
    const quote: string
    var columns: seq<string>

    constructor (q: string)
      ensures quote == q && columns == []
    {
      quote, columns := q, [];
    }

    method By(names: seq<string>)
      modifies this
      ensures columns == old(columns) + names
    {
      columns := columns + names;
    }

    /** `compile()`: the SQL text, with no bindings. */
    function Compile(): (r: (string, seq<Value>))
      reads this
      ensures r.1 == []
    {
      (CompileGroup(quote, columns), [])
    }
  }

  /** SELECT: `select(*columns)` accumulates columns, `distinct()` sets the flag. */
  class SelectClause {
    const quote: string
    var columns: seq<string>
    var distinct: bool

    constructor (q: string)
      ensures quote == q && columns == [] && !distinct
    {
      quote, columns, distinct := q, [], false;
    }

    method Select(names: seq<string>)
      modifies this
      ensures columns == old(columns) + names && distinct == old(distinct)
    {
      columns := columns + names;
    }

    method Distinct()
      modifies this
      ensures distinct && columns == old(columns)
    {
      distinct := true;
    }

    /** `compile()`: the SQL text, with no bindings. */
    function Compile(): (r: (string, seq<Value>))
      reads this
      ensures r.1 == []
    {
      (CompileSelect(quote, columns, distinct), [])
    }
  }

  /** LIMIT/OFFSET: each is set directly, or both by `page(num, per)`. */
  class PageClause {
    var limit: Option<int>
    var offset: Option<int>

    constructor ()
      ensures limit == None && offset == None
    {
      limit, offset := None, None;
    }

    method Offset(n: int)
      modifies this
      ensures offset == Some(n) && limit == old(limit)
    {
      offset := Some(n);
    }

    method Limit(n: int)
      modifies this
      ensures limit == Some(n) && offset == old(offset)
    {
      limit := Some(n);
    }

    /** Page `num` (counted from 1) of `per` rows. */
    method Page(num: int, per: int)
      modifies this
      ensures limit == Some(PageWindow(num, per).0) && offset == Some(PageWindow(num, per).1)
    {
      var window := PageWindow(num, per);
      limit, offset := Some(window.0), Some(window.1);
    }

    /** `compile()`: the SQL text, with no bindings. */
    function Compile(): (r: (string, seq<Value>))
      reads this
      ensures r.1 == []
    {
      (CompilePage(limit, offset), [])
    }
  }
}
