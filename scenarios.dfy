/**
 * The builders driven through the call sequences of the clause unit tests. Each
 * scenario takes the test's literal inputs as parameters and promises the exact SQL
 * text and bindings the test expects; the general lemmas beside them say why, for any
 * names of the same shape.
 *
 * The literal inputs are parameters fixed by `requires` rather than constants in the
 * body, and the expected text is written in the pieces the general lemmas produce
 * (`"ORDER BY " + ("`email`" + ", " + "`age` DESC")`). Both keep the verifier from
 * unfolding the compilers on long literal strings: each scenario instead instantiates
 * a general lemma and checks a few short pieces.
 */
module Scenarios {
  import opened Wrappers
  import opened Strings
  import opened Clauses
  import opened ListClauses
  import opened ClauseBuilders

  // ---------------------------------------------------------------------------
  // Reading names

  /** Two pieces joined by a one-character separator that neither holds split back apart. */
  lemma SplitTwo(a: string, sep: string, b: string)
    requires |sep| == 1 && sep[0] !in a && sep[0] !in b
    ensures Split(a + sep + b, sep) == [a, b]
  {
    AbsentHeadThenPrefix(a, sep);
    assert a + sep[..0] == a;
    assert !Contains(a + sep[..|sep| - 1], sep);
    SplitFront(a, sep, b);
    assert Split(a + sep + b, sep) == [a] + Split(b, sep);
    AbsentHead(b, sep);
    SplitWhole(b, sep);
    assert Split(b, sep) == [b];
  }

  lemma OnePath(q: string, a: string)
    ensures QuotePath(q, [a]) == q + a + q
  {
    var path := [a];
    assert seq(|path|, i requires 0 <= i < |path| => q + path[i] + q) == [q + a + q];
  }

  lemma TwoPath(q: string, a: string, b: string)
    ensures QuotePath(q, [a, b]) == q + a + q + "." + q + b + q
  {
    var path := [a, b];
    var parts := seq(|path|, i requires 0 <= i < |path| => q + path[i] + q);
    assert parts[0] == q + a + q && parts[1..] == [q + b + q];
    assert Join(".", parts) == (q + a + q) + "." + (q + b + q);
  }

  /** A name without dots is quoted as one segment. */
  lemma PlainName(q: string, name: string)
    requires '.' !in name
    ensures QuoteName(q, name) == q + name + q
  {
    AbsentHead(name, ".");
    SplitWhole(name, ".");
    OnePath(q, name);
  }

  /** A dotted name `a.b` is quoted segment by segment. */
  lemma DottedName(q: string, a: string, b: string)
    requires '.' !in a && '.' !in b
    ensures QuoteName(q, a + "." + b) == q + a + q + "." + q + b + q
  {
    SplitTwo(a, ".", b);
    TwoPath(q, a, b);
  }

  /** Two items listed: the first, a comma, the second. */
  lemma TwoItems(x: string, y: string)
    ensures Join(ItemSeparator, [x, y]) == x + ", " + y
  {
    assert [x, y][1..] == [y];
  }

  /** A keyword without underscores compares one plain column for equality. */
  lemma PlainEquality(key: string, v: Value)
    requires '_' !in key && !v.Null? && !v.List?
    ensures ParseArg(key, v) == Ok(Predicate([key], Compare("="), [v]))
  {
    AbsentHead(key, KeySeparator);
    SplitWhole(key, KeySeparator);
  }

  /** `t__c` with underscore-free parts and `c` not a suffix: the qualified column `t.c`. */
  lemma QualifiedEquality(t: string, c: string, v: Value)
    requires '_' !in t && '_' !in c && c !in Suffixes && !v.Null? && !v.List?
    ensures ParseArg(t + KeySeparator + c, v) == Ok(Predicate([t, c], Compare("="), [v]))
  {
    AbsentHeadThenPrefix(t, KeySeparator);
    SplitFront(t, KeySeparator, c);
    AbsentHead(c, KeySeparator);
    SplitWhole(c, KeySeparator);
    assert Split(t + KeySeparator + c, KeySeparator) == [t, c];
  }

  /** `k__bt` with an underscore-free column: a BETWEEN on that column. */
  lemma BetweenKey(k: string)
    requires '_' !in k
    ensures ParseKey(k + KeySeparator + "bt") == Key([k], Some("bt"))
  {
    AbsentHeadThenPrefix(k, KeySeparator);
    SplitFront(k, KeySeparator, "bt");
    AbsentHead("bt", KeySeparator);
    SplitWhole("bt", KeySeparator);
    assert Split(k + KeySeparator + "bt", KeySeparator) == [k, "bt"];
  }

  /** `a1.a2=b1.b2` with plain segments: two qualified columns. */
  lemma OnText(a1: string, a2: string, b1: string, b2: string)
    requires '=' !in a1 && '=' !in a2 && '=' !in b1 && '=' !in b2
    requires '.' !in a1 && '.' !in a2 && '.' !in b1 && '.' !in b2
    ensures ParseOn(a1 + "." + a2 + "=" + b1 + "." + b2) == Ok(OnCondition([a1, a2], [b1, b2]))
  {
    var left, right := a1 + "." + a2, b1 + "." + b2;
    assert a1 + "." + a2 + "=" + b1 + "." + b2 == left + "=" + right;
    assert '=' !in left && '=' !in right;
    SplitTwo(left, "=", right);
    var sides := Split(left + "=" + right, "=");
    assert sides == [left, right];
    SplitTwo(a1, ".", a2);
    SplitTwo(b1, ".", b2);
    assert Split(sides[0], ".") == [a1, a2];
    assert Split(sides[1], ".") == [b1, b2];
  }

  /** One argument parses to one condition. */
  lemma OneArgument(conn: Connective, key: string, v: Value)
    requires ParseArg(key, v).Ok?
    ensures ParseArgs(conn, [(key, v)]) == Ok([Condition(conn, ParseArg(key, v).value)])
  {
    assert [(key, v)][1..] == [];
    assert [Condition(conn, ParseArg(key, v).value)] + [] == [Condition(conn, ParseArg(key, v).value)];
  }

  /** Two conditions compile to the first, then the second's connective and text. */
  lemma TwoConditions(kind: ConditionKind, q: string, ph: string, on: Option<OnCondition>,
                      conds: seq<Condition>, c1: Condition, c2: Condition)
    requires on.None? && conds == [c1, c2]
    ensures CompileConditions(kind, q, ph, on, conds)
         == (Lead(kind, q) + Render(q, ph, c1.pred) + " " + ConnectiveWord(c2.conn) + " " + Render(q, ph, c2.pred),
             c1.pred.values + c2.pred.values)
  {
    FirstConditionHasNoConnective(kind, q, ph, c1.pred);
    assert CompileConditions(kind, q, ph, None, [c1]) == (Lead(kind, q) + Render(q, ph, c1.pred), c1.pred.values) by {
      if c1.conn == And { assert c1 == Condition(And, c1.pred); } else { assert c1 == Condition(Or, c1.pred); }
    }
    AppendCondition(kind, q, ph, None, [c1], c2);
    assert [c1] + [c2] == conds;
    assert CompileConditions(kind, q, ph, on, conds) == CompileConditions(kind, q, ph, None, [c1] + [c2]);
  }

  // ---------------------------------------------------------------------------
  // WHERE and HAVING

  /** Two equalities on plain columns, joined by the second one's connective. */
  lemma TwoEqualities(kind: ConditionKind, q: string, ph: string, c1: Connective, k1: string, v1: Value,
                      c2: Connective, k2: string, v2: Value)
    ensures CompileConditions(kind, q, ph, None,
              [Condition(c1, Predicate([k1], Compare("="), [v1])), Condition(c2, Predicate([k2], Compare("="), [v2]))])
         == (Lead(kind, q) + (q + k1 + q + " = " + ph) + " " + ConnectiveWord(c2) + " " + (q + k2 + q + " = " + ph), [v1, v2])
  {
    var d1, d2 := Condition(c1, Predicate([k1], Compare("="), [v1])), Condition(c2, Predicate([k2], Compare("="), [v2]));
    TwoConditions(kind, q, ph, None, [d1, d2], d1, d2);
    OnePath(q, k1);
    OnePath(q, k2);
    assert Render(q, ph, d1.pred) == q + k1 + q + " = " + ph;
    assert Render(q, ph, d2.pred) == q + k2 + q + " = " + ph;
    var r := CompileConditions(kind, q, ph, None, [d1, d2]);
    assert r.0 == Lead(kind, q) + Render(q, ph, d1.pred) + " " + ConnectiveWord(d2.conn) + " " + Render(q, ph, d2.pred);
    assert r.1 == [v1] + [v2] == [v1, v2];
  }

  lemma SpellIdAndName(kind: ConditionKind, q: string, ph: string, k1: string, w: string, k2: string)
    requires (kind == Where || kind == Having) && q == "`" && ph == "%s" && k1 == "id" && k2 == "name"
    ensures Lead(kind, q) + (q + k1 + q + " = " + ph) + " " + w + " " + (q + k2 + q + " = " + ph)
         == Keyword(kind, q) + " " + "`id` = %s" + " " + w + " " + "`name` = %s"
  {
    assert q + k1 + q + " = " + ph == "`id` = %s";
    assert q + k2 + q + " = " + ph == "`name` = %s";
  }

  /** `where.and_(id=1).and_(name='ryanpoy')` and the same on HAVING. */
  method AndScenario(having: bool, q: string, ph: string, k1: string, v1: Value, k2: string, v2: Value)
    returns (sql: string, bindings: seq<Value>)
    requires q == "`" && ph == "%s" && k1 == "id" && v1 == Int(1) && k2 == "name" && v2 == Text("ryanpoy")
    ensures sql == (if having then "HAVING" else "WHERE") + " " + "`id` = %s" + " " + "AND" + " " + "`name` = %s"
    ensures bindings == [Int(1), Text("ryanpoy")]
  {
    var c: ConditionClause;
    if having { c := new ConditionClause.HavingClause(q, ph); } else { c := new ConditionClause.WhereClause(q, ph); }
    PlainEquality(k1, v1);
    PlainEquality(k2, v2);
    OneArgument(And, k1, v1);
    OneArgument(And, k2, v2);
    var e1 := c.And([(k1, v1)]);
    var e2 := c.And([(k2, v2)]);
    var conds := c.conditions;
    assert conds == [Condition(And, Predicate([k1], Compare("="), [v1])), Condition(And, Predicate([k2], Compare("="), [v2]))];
    TwoEqualities(c.kind, q, ph, And, k1, v1, And, k2, v2);
    sql, bindings := c.Compile().0, c.Compile().1;
    SpellIdAndName(c.kind, q, ph, k1, "AND", k2);
  }

  /** `where.or_(id=1, name='ryanpoy')`: every predicate of an `or_` call is joined by OR. */
  method OrScenario(q: string, ph: string, k1: string, v1: Value, k2: string, v2: Value)
    returns (sql: string, bindings: seq<Value>)
    requires q == "`" && ph == "%s" && k1 == "id" && v1 == Int(1) && k2 == "name" && v2 == Text("ryanpoy")
    ensures sql == "WHERE" + " " + "`id` = %s" + " " + "OR" + " " + "`name` = %s"
    ensures bindings == [Int(1), Text("ryanpoy")]
  {
    var c := new ConditionClause.WhereClause(q, ph);
    PlainEquality(k1, v1);
    PlainEquality(k2, v2);
    var args := [(k1, v1), (k2, v2)];
    assert args[1..] == [(k2, v2)];
    OneArgument(Or, k2, v2);
    var e := c.Or(args);
    var conds := c.conditions;
    assert conds == [Condition(Or, Predicate([k1], Compare("="), [v1])), Condition(Or, Predicate([k2], Compare("="), [v2]))];
    TwoEqualities(c.kind, q, ph, Or, k1, v1, Or, k2, v2);
    sql, bindings := c.Compile().0, c.Compile().1;
    SpellIdAndName(c.kind, q, ph, k1, "OR", k2);
  }

  /** `where.and_(id__bt=[1, 2, 3])` is refused and leaves the clause empty. */
  method BetweenArityScenario(key: string, v: Value) returns (err: Option<ClauseError>, sql: string)
    requires key == "id__bt" && v == List([Int(1), Int(2), Int(3)])
    ensures err == Some(BetweenArity("id__bt")) && sql == ""
  {
    var c := new ConditionClause.WhereClause("`", "%s");
    assert key == "id" + KeySeparator + "bt";
    BetweenKey("id");
    assert [(key, v)][1..] == [];
    err := c.And([(key, v)]);
    sql := c.Compile().0;
  }

  // ---------------------------------------------------------------------------
  // Joins

  function JoinWord(jt: JoinType): string
  {
    if jt == Inner then "INNER" else if jt == Left then "LEFT" else "RIGHT"
  }

  /** A join with an `on` condition and two predicates sharing one connective. */
  lemma JoinTwo(jt: JoinType, table: string, q: string, ph: string, o: OnCondition,
                conn: Connective, p1: Predicate, p2: Predicate)
    ensures CompileConditions(Joined(jt, table), q, ph, Some(o), [Condition(conn, p1), Condition(conn, p2)])
         == (JoinWord(jt) + " JOIN " + QuoteName(q, table) + " ON " + QuotePath(q, o.left) + " = " + QuotePath(q, o.right)
               + " " + ConnectiveWord(conn) + " " + Render(q, ph, p1) + " " + ConnectiveWord(conn) + " " + Render(q, ph, p2),
             p1.values + p2.values)
  {
    var kind := Joined(jt, table);
    var d1, d2 := Condition(conn, p1), Condition(conn, p2);
    JoinOnCondition(jt, table, q, ph, o);
    AppendCondition(kind, q, ph, Some(o), [], d1);
    AppendCondition(kind, q, ph, Some(o), [d1], d2);
    assert [] + [d1] == [d1];
    assert [d1] + [d2] == [d1, d2];
    var none: seq<Value> := [];
    assert none + p1.values == p1.values;
  }

  /** A dotted column compared for equality. */
  lemma QualifiedText(q: string, ph: string, t: string, c: string, v: Value)
    ensures Render(q, ph, Predicate([t, c], Compare("="), [v])) == (q + t + q + "." + q + c + q) + " = " + ph
  {
    TwoPath(q, t, c);
  }

  /** The SQL text of the join scenarios below, piece by piece. */
  lemma SpellJoin(jw: string, w: string, q: string, ph: string, table: string,
                  a1: string, a2: string, b1: string, b2: string, t1: string, c1: string, t2: string, c2: string)
    requires q == "`" && ph == "%s" && table == "mobiles"
    requires a1 == "users" && a2 == "id" && b1 == "cars" && b2 == "user_id"
    requires t1 == "mobiles" && c1 == "name" && t2 == "users" && c2 == "age"
    ensures jw + " JOIN " + (q + table + q) + " ON " + (q + a1 + q + "." + q + a2 + q) + " = " + (q + b1 + q + "." + q + b2 + q)
              + " " + w + " " + ((q + t1 + q + "." + q + c1 + q) + " = " + ph)
              + " " + w + " " + ((q + t2 + q + "." + q + c2 + q) + " = " + ph)
         == jw + " JOIN " + "`mobiles`" + " ON " + "`users`.`id`" + " = " + "`cars`.`user_id`"
              + " " + w + " " + "`mobiles`.`name` = %s" + " " + w + " " + "`users`.`age` = %s"
  {
    assert q + table + q == "`mobiles`";
    assert q + a1 + q + "." + q + a2 + q == "`users`.`id`";
    assert q + b1 + q + "." + q + b2 + q == "`cars`.`user_id`";
    MobilesNamePiece(q, ph, t1, c1);
    UsersAgePiece(q, ph, t2, c2);
  }

  lemma MobilesNamePiece(q: string, ph: string, t: string, c: string)
    requires q == "`" && ph == "%s" && t == "mobiles" && c == "name"
    ensures (q + t + q + "." + q + c + q) + " = " + ph == "`mobiles`.`name` = %s"
  {
  }

  lemma UsersAgePiece(q: string, ph: string, t: string, c: string)
    requires q == "`" && ph == "%s" && t == "users" && c == "age"
    ensures (q + t + q + "." + q + c + q) + " = " + ph == "`users`.`age` = %s"
  {
  }

  lemma JoinText(jt: JoinType, conn: Connective, q: string, ph: string, table: string,
                 a1: string, a2: string, b1: string, b2: string,
                 t1: string, c1: string, v1: Value, t2: string, c2: string, v2: Value)
    requires q == "`" && ph == "%s" && table == "mobiles"
    requires a1 == "users" && a2 == "id" && b1 == "cars" && b2 == "user_id"
    requires t1 == "mobiles" && c1 == "name" && t2 == "users" && c2 == "age"
    ensures var p1, p2 := Predicate([t1, c1], Compare("="), [v1]), Predicate([t2, c2], Compare("="), [v2]);
      CompileConditions(Joined(jt, table), q, ph, Some(OnCondition([a1, a2], [b1, b2])), [Condition(conn, p1), Condition(conn, p2)])
        == (JoinWord(jt) + " JOIN " + "`mobiles`" + " ON " + "`users`.`id`" + " = " + "`cars`.`user_id`"
              + " " + ConnectiveWord(conn) + " " + "`mobiles`.`name` = %s"
              + " " + ConnectiveWord(conn) + " " + "`users`.`age` = %s", [v1, v2])
  {
    var p1, p2 := Predicate([t1, c1], Compare("="), [v1]), Predicate([t2, c2], Compare("="), [v2]);
    JoinTwo(jt, table, q, ph, OnCondition([a1, a2], [b1, b2]), conn, p1, p2);
    assert [v1] + [v2] == [v1, v2];
    PlainName(q, table);
    TwoPath(q, a1, a2);
    TwoPath(q, b1, b2);
    QualifiedText(q, ph, t1, c1, v1);
    QualifiedText(q, ph, t2, c2, v2);
    SpellJoin(JoinWord(jt), ConnectiveWord(conn), q, ph, table, a1, a2, b1, b2, t1, c1, t2, c2);
  }

  /** Adds one predicate with `and_` or `or_`, as `conn` says. */
  method AddOne(c: ConditionClause, conn: Connective, key: string, v: Value)
    requires c.Valid() && ParseArg(key, v).Ok?
    modifies c
    ensures c.Valid() && c.on == old(c.on)
    ensures c.conditions == old(c.conditions) + [Condition(conn, ParseArg(key, v).value)]
  {
    OneArgument(conn, key, v);
    var e;
    if conn == And {
      e := c.And([(key, v)]);
    } else {
      e := c.Or([(key, v)]);
    }
  }

  /** `JoinClause`, `LeftJoinClause` or `RightJoinClause`, as `jt` says. */
  method NewJoin(jt: JoinType, q: string, ph: string, table: string) returns (c: ConditionClause)
    ensures fresh(c) && c.Valid()
    ensures c.kind == Joined(jt, table) && c.quote == q && c.placeholder == ph
    ensures c.on == None && c.conditions == []
  {
    if jt == Inner {
      c := new ConditionClause.JoinClause(q, ph, table);
    } else if jt == Left {
      c := new ConditionClause.LeftJoinClause(q, ph, table);
    } else {
      c := new ConditionClause.RightJoinClause(q, ph, table);
    }
  }

  /** The join condition text of the join scenario. */
  lemma OnScenarioText(onText: string, a1: string, a2: string, b1: string, b2: string)
    requires onText == "users.id=cars.user_id"
    requires a1 == "users" && a2 == "id" && b1 == "cars" && b2 == "user_id"
    ensures ParseOn(onText) == Ok(OnCondition([a1, a2], [b1, b2]))
  {
    var left, right := a1 + "." + a2, b1 + "." + b2;
    assert left == "users.id" && right == "cars.user_id";
    assert onText == left + "=" + right;
    OnText(a1, a2, b1, b2);
    assert a1 + "." + a2 + "=" + b1 + "." + b2 == left + "=" + right;
  }

  /** What the join scenario relies on: its condition parses, its keys parse, its text. */
  lemma JoinScenarioFacts(jt: JoinType, conn: Connective, q: string, ph: string, table: string, onText: string,
                          a1: string, a2: string, b1: string, b2: string,
                          t1: string, c1: string, v1: Value, t2: string, c2: string, v2: Value)
    requires q == "`" && ph == "%s" && table == "mobiles" && onText == "users.id=cars.user_id"
    requires a1 == "users" && a2 == "id" && b1 == "cars" && b2 == "user_id"
    requires t1 == "mobiles" && c1 == "name" && v1 == Text("iphone")
    requires t2 == "users" && c2 == "age" && v2 == Int(20)
    ensures ParseOn(onText) == Ok(OnCondition([a1, a2], [b1, b2]))
    ensures ParseArg(t1 + KeySeparator + c1, v1) == Ok(Predicate([t1, c1], Compare("="), [v1]))
    ensures ParseArg(t2 + KeySeparator + c2, v2) == Ok(Predicate([t2, c2], Compare("="), [v2]))
    ensures var p1, p2 := Predicate([t1, c1], Compare("="), [v1]), Predicate([t2, c2], Compare("="), [v2]);
      CompileConditions(Joined(jt, table), q, ph, Some(OnCondition([a1, a2], [b1, b2])), [Condition(conn, p1), Condition(conn, p2)])
        == (JoinWord(jt) + " JOIN " + "`mobiles`" + " ON " + "`users`.`id`" + " = " + "`cars`.`user_id`"
              + " " + ConnectiveWord(conn) + " " + "`mobiles`.`name` = %s"
              + " " + ConnectiveWord(conn) + " " + "`users`.`age` = %s", [Text("iphone"), Int(20)])
  {
    OnScenarioText(onText, a1, a2, b1, b2);
    QualifiedEquality(t1, c1, v1);
    QualifiedEquality(t2, c2, v2);
    JoinText(jt, conn, q, ph, table, a1, a2, b1, b2, t1, c1, v1, t2, c2, v2);
  }

  /**
   * `join.on('users.id=cars.user_id').and_(mobiles__name='iphone').and_(users__age=20)`
   * on an inner, left or right join of `mobiles`, its predicates added with `and_` or
   * with `or_`.
   */
  method JoinScenario(jt: JoinType, conn: Connective, q: string, ph: string, table: string, onText: string,
                      a1: string, a2: string, b1: string, b2: string,
                      t1: string, c1: string, v1: Value, t2: string, c2: string, v2: Value)
    returns (sql: string, bindings: seq<Value>)
    requires q == "`" && ph == "%s" && table == "mobiles" && onText == "users.id=cars.user_id"
    requires a1 == "users" && a2 == "id" && b1 == "cars" && b2 == "user_id"
    requires t1 == "mobiles" && c1 == "name" && v1 == Text("iphone")
    requires t2 == "users" && c2 == "age" && v2 == Int(20)
    ensures sql == JoinWord(jt) + " JOIN " + "`mobiles`" + " ON " + "`users`.`id`" + " = " + "`cars`.`user_id`"
                   + " " + ConnectiveWord(conn) + " " + "`mobiles`.`name` = %s"
                   + " " + ConnectiveWord(conn) + " " + "`users`.`age` = %s"
    ensures bindings == [Text("iphone"), Int(20)]
  {
    JoinScenarioFacts(jt, conn, q, ph, table, onText, a1, a2, b1, b2, t1, c1, v1, t2, c2, v2);
    var c := NewJoin(jt, q, ph, table);
    var e := c.On(onText);
    AddOne(c, conn, t1 + KeySeparator + c1, v1);
    AddOne(c, conn, t2 + KeySeparator + c2, v2);
    var conds, on := c.conditions, c.on;
    assert conds == [Condition(conn, Predicate([t1, c1], Compare("="), [v1])), Condition(conn, Predicate([t2, c2], Compare("="), [v2]))];
    sql, bindings := c.Compile().0, c.Compile().1;
  }

  /** Two qualified equalities on an inner join, with no `on` condition, joined by OR. */
  lemma JoinWithoutOnTwo(q: string, ph: string, table: string,
                         t1: string, c1: string, v1: Value, t2: string, c2: string, v2: Value)
    ensures var p1, p2 := Predicate([t1, c1], Compare("="), [v1]), Predicate([t2, c2], Compare("="), [v2]);
      CompileConditions(Joined(Inner, table), q, ph, None, [Condition(Or, p1), Condition(Or, p2)])
        == ("INNER" + " JOIN " + QuoteName(q, table) + " ON " + ((q + t1 + q + "." + q + c1 + q) + " = " + ph)
              + " " + "OR" + " " + ((q + t2 + q + "." + q + c2 + q) + " = " + ph), [v1, v2])
  {
    var p1, p2 := Predicate([t1, c1], Compare("="), [v1]), Predicate([t2, c2], Compare("="), [v2]);
    TwoConditions(Joined(Inner, table), q, ph, None, [Condition(Or, p1), Condition(Or, p2)], Condition(Or, p1), Condition(Or, p2));
    assert [v1] + [v2] == [v1, v2];
    QualifiedText(q, ph, t1, c1, v1);
    QualifiedText(q, ph, t2, c2, v2);
  }

  lemma JoinWithoutOnText(q: string, ph: string, table: string,
                          t1: string, c1: string, v1: Value, t2: string, c2: string, v2: Value)
    requires q == "`" && ph == "%s" && table == "mobiles"
    requires t1 == "mobiles" && c1 == "name" && t2 == "users" && c2 == "age"
    ensures var p1, p2 := Predicate([t1, c1], Compare("="), [v1]), Predicate([t2, c2], Compare("="), [v2]);
      CompileConditions(Joined(Inner, table), q, ph, None, [Condition(Or, p1), Condition(Or, p2)])
        == ("INNER" + " JOIN " + "`mobiles`" + " ON " + "`mobiles`.`name` = %s" + " " + "OR" + " " + "`users`.`age` = %s", [v1, v2])
  {
    JoinWithoutOnTwo(q, ph, table, t1, c1, v1, t2, c2, v2);
    PlainName(q, table);
    assert q + table + q == "`mobiles`";
    MobilesNamePiece(q, ph, t1, c1);
    UsersAgePiece(q, ph, t2, c2);
  }

  /** `join.or_(mobiles__name='iphone').or_(users__age=20)` with no `on` call. */
  method JoinWithoutOnScenario(q: string, ph: string, table: string,
                               t1: string, c1: string, v1: Value, t2: string, c2: string, v2: Value)
    returns (sql: string, bindings: seq<Value>)
    requires q == "`" && ph == "%s" && table == "mobiles"
    requires t1 == "mobiles" && c1 == "name" && v1 == Text("iphone")
    requires t2 == "users" && c2 == "age" && v2 == Int(20)
    ensures sql == "INNER" + " JOIN " + "`mobiles`" + " ON " + "`mobiles`.`name` = %s" + " " + "OR" + " " + "`users`.`age` = %s"
    ensures bindings == [Text("iphone"), Int(20)]
  {
    JoinWithoutOnText(q, ph, table, t1, c1, v1, t2, c2, v2);
    QualifiedEquality(t1, c1, v1);
    QualifiedEquality(t2, c2, v2);
    var c := new ConditionClause.JoinClause(q, ph, table);
    AddOne(c, Or, t1 + KeySeparator + c1, v1);
    AddOne(c, Or, t2 + KeySeparator + c2, v2);
    var conds := c.conditions;
    assert conds == [Condition(Or, Predicate([t1, c1], Compare("="), [v1])), Condition(Or, Predicate([t2, c2], Compare("="), [v2]))];
    sql, bindings := c.Compile().0, c.Compile().1;
  }

  // ---------------------------------------------------------------------------
  // ORDER, GROUP, SELECT, PAGE

  /** Two orderings, the second descending: both columns quoted, only the second marked. */
  lemma OrderTwo(q: string, c1: string, c2: string)
    requires '.' !in c1 && '.' !in c2
    ensures CompileOrder(q, [Ordering(c1, false), Ordering(c2, true)])
         == "ORDER BY " + ((q + c1 + q) + ", " + (q + c2 + q + " DESC"))
  {
    var orders := [Ordering(c1, false), Ordering(c2, true)];
    PlainName(q, c1);
    PlainName(q, c2);
    var items := OrderItems(q, orders);
    assert items[0] == q + c1 + q && items[1] == q + c2 + q + " DESC";
    assert items == [q + c1 + q, q + c2 + q + " DESC"];
    TwoItems(q + c1 + q, q + c2 + q + " DESC");
  }

  lemma OrderScenarioText(q: string, first: string, second: string)
    requires q == "`" && first == "email" && second == "age"
    ensures CompileOrder(q, [Ordering(first, false), Ordering(second, true)]) == "ORDER BY " + ("`email`" + ", " + "`age` DESC")
  {
    OrderTwo(q, first, second);
    assert q + first + q == "`email`";
    assert q + second + q + " DESC" == "`age` DESC";
  }

  /** `order.by('email').by('age', desc=True)`. */
  method OrderByScenario(q: string, first: string, second: string) returns (sql: string)
    requires q == "`" && first == "email" && second == "age"
    ensures sql == "ORDER BY " + ("`email`" + ", " + "`age` DESC")
  {
    OrderScenarioText(q, first, second);
    var c := new OrderClause(q);
    c.By(first, false);
    c.By(second, true);
    var orders := c.orders;
    assert orders == [Ordering(first, false), Ordering(second, true)];
    sql := c.Compile().0;
  }

  /** Two plain columns grouped on, in order. */
  lemma GroupTwo(q: string, c1: string, c2: string)
    requires '.' !in c1 && '.' !in c2
    ensures CompileGroup(q, [c1, c2]) == "GROUP BY " + ((q + c1 + q) + ", " + (q + c2 + q))
  {
    PlainName(q, c1);
    PlainName(q, c2);
    var items := QuotedNames(q, [c1, c2]);
    assert items[0] == q + c1 + q && items[1] == q + c2 + q;
    assert items == [q + c1 + q, q + c2 + q];
    TwoItems(q + c1 + q, q + c2 + q);
  }

  lemma GroupScenarioText(q: string, first: string, second: string)
    requires q == "`" && first == "id" && second == "email"
    ensures CompileGroup(q, [first, second]) == "GROUP BY " + ("`id`" + ", " + "`email`")
  {
    GroupTwo(q, first, second);
    assert q + first + q == "`id`";
    assert q + second + q == "`email`";
  }

  /** `group.by('id', 'email')`. */
  method GroupByScenario(q: string, first: string, second: string) returns (sql: string)
    requires q == "`" && first == "id" && second == "email"
    ensures sql == "GROUP BY " + ("`id`" + ", " + "`email`")
  {
    GroupScenarioText(q, first, second);
    var c := new GroupClause(q);
    c.By([first, second]);
    var columns := c.columns;
    assert columns == [first, second];
    sql := c.Compile().0;
  }

  /** `select()` with nothing selected, before and after `distinct()`. */
  method SelectAllScenario(q: string) returns (plain: string, distinct: string)
    requires q == "`"
    ensures plain == "SELECT *" && distinct == "SELECT DISTINCT *"
  {
    var c := new SelectClause(q);
    plain := c.Compile().0;
    c.Distinct();
    distinct := c.Compile().0;
  }

  /** The select list of a plain column and a dotted one. */
  lemma SelectTwo(q: string, first: string, table: string, column: string)
    requires '.' !in first && '.' !in table && '.' !in column
    ensures SelectList(q, [first, table + "." + column]) == (q + first + q) + ", " + (q + table + q + "." + q + column + q)
  {
    var columns := [first, table + "." + column];
    PlainName(q, first);
    DottedName(q, table, column);
    var items := QuotedNames(q, columns);
    var x, y := q + first + q, q + table + q + "." + q + column + q;
    assert items[0] == x && items[1] == y;
    assert items == [x, y];
    TwoItems(x, y);
  }

  lemma SelectListText(q: string, first: string, table: string, column: string)
    requires q == "`" && first == "name" && table == "users" && column == "age"
    ensures SelectList(q, [first, table + "." + column]) == "`name`" + ", " + "`users`.`age`"
  {
    SelectTwo(q, first, table, column);
    assert q + first + q == "`name`";
    assert q + table + q + "." + q + column + q == "`users`.`age`";
  }

  /** `select('name').select('users.age')`, before and after `distinct()`. */
  method SelectColumnsScenario(q: string, first: string, table: string, column: string)
    returns (plain: string, distinct: string)
    requires q == "`" && first == "name" && table == "users" && column == "age"
    ensures plain == "SELECT " + "" + ("`name`" + ", " + "`users`.`age`")
    ensures distinct == "SELECT " + "DISTINCT " + ("`name`" + ", " + "`users`.`age`")
  {
    SelectListText(q, first, table, column);
    var c := new SelectClause(q);
    c.Select([first]);
    c.Select([table + "." + column]);
    var columns := c.columns;
    assert columns == [first, table + "." + column];
    plain := c.Compile().0;
    c.Distinct();
    distinct := c.Compile().0;
  }

  lemma PageScenarioText(limit: int, offset: int)
    requires limit == 10 && offset == 5
    ensures CompilePage(Some(limit), Some(offset)) == "LIMIT 10 OFFSET 5"
  {
    assert IntToString(limit) == "10" && IntToString(offset) == "5";
    var words := PageWords(Some(limit), Some(offset));
    assert words == ["LIMIT", "10", "OFFSET", "5"];
    assert words[1..][1..][1..] == ["5"];
  }

  lemma PageWindowText(num: int, per: int)
    requires num == 2 && per == 15
    ensures CompilePage(Some(PageWindow(num, per).0), Some(PageWindow(num, per).1)) == "LIMIT 15 OFFSET 15"
  {
    assert PageWindow(num, per) == (15, 15);
    assert IntToString(per) == "15";
    var words := PageWords(Some(per), Some(per));
    assert words == ["LIMIT", "15", "OFFSET", "15"];
    assert words[1..][1..][1..] == ["15"];
  }

  /** `page.offset(5).limit(10)` and `page.page(2, 15)`. */
  method PageScenario(limit: int, offset: int, num: int, per: int) returns (setDirectly: string, byPage: string)
    requires limit == 10 && offset == 5 && num == 2 && per == 15
    ensures setDirectly == "LIMIT 10 OFFSET 5"
    ensures byPage == "LIMIT 15 OFFSET 15"
  {
    PageScenarioText(limit, offset);
    PageWindowText(num, per);
    var c := new PageClause();
    c.Offset(offset);
    c.Limit(limit);
    setDirectly := c.Compile().0;
    var d := new PageClause();
    d.Page(num, per);
    byPage := d.Compile().0;
  }
}
