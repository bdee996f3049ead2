/**
 * The SQL clause compiler: keyword arguments such as `age__gt=30` are parsed into
 * predicates, and the accumulated state of a clause is compiled into a pair
 * (SQL fragment, bindings) in which every placeholder has exactly one binding, in
 * the order the placeholders appear.
 */
module Clauses {
  import opened Wrappers
  import opened Strings

  /** A value passed as a keyword argument: None, a scalar, or a list. */
  datatype Value = Null | Int(i: int) | Text(s: string) | List(items: seq<Value>)

  /** The separator between the parts of a keyword name: `table__column__suffix`. */
  const KeySeparator := "__"

  /** The operator suffixes a keyword name may end in. */
  const Suffixes: set<string> := {"not", "gt", "gte", "lt", "lte", "like", "not_like", "bt", "not_bt"}

  /** A keyword name split into its (possibly qualified) column and its operator suffix. */
  datatype Key = Key(path: seq<string>, suffix: Option<string>)

  /**
   * Splits a keyword name on `__`; the last part is the operator suffix when it is one
   * of the known suffixes, otherwise it is one more segment of the column name.
   */
  function ParseKey(key: string): (k: Key)
    ensures |k.path| >= 1
    ensures k.suffix.Some? ==> k.suffix.value in Suffixes
    ensures |Split(key, KeySeparator)| == |k.path| + (if k.suffix.Some? then 1 else 0)
  {
    var parts := Split(key, KeySeparator);
    var last := parts[|parts| - 1];
    if |parts| > 1 && last in Suffixes then Key(parts[..|parts| - 1], Some(last))
    else Key(parts, None)
  }

  /** The keyword name a parsed key was written as. */
  function KeyText(k: Key): string
  {
    Join(KeySeparator, k.path + (if k.suffix.Some? then [k.suffix.value] else []))
  }

  /** Parsing a keyword name loses nothing: it can be written back exactly. */
  lemma ParseKeyRoundTrip(key: string)
    ensures KeyText(ParseKey(key)) == key
  {
    var parts := Split(key, KeySeparator);
    var k := ParseKey(key);
    if k.suffix.Some? {
      assert k.path + [k.suffix.value] == parts;
    } else {
      assert k.path + [] == parts;
    }
    JoinSplit(key, KeySeparator);
  }

  /** A name segment that no `__` separator can be read out of, even when one follows it. */
  predicate CleanSegment(seg: string)
  {
    !Contains(seg + "_", KeySeparator)
  }

  /**
   * A key that is written back unambiguously: clean segments, a known suffix if any,
   * and without a suffix a qualified name does not end in a suffix word.
   */
  predicate CleanKey(k: Key)
  {
    && |k.path| > 0
    && (forall i :: 0 <= i < |k.path| ==> CleanSegment(k.path[i]))
    && (k.suffix.Some? ==> k.suffix.value in Suffixes)
    && (k.suffix.None? && |k.path| > 1 ==> k.path[|k.path| - 1] !in Suffixes)
  }

  lemma SuffixesAreSeparatorFree(sfx: string)
    requires sfx in Suffixes
    ensures !Contains(sfx, KeySeparator)
  {
    if sfx == "not_like" {
      assert sfx == "not" + "_" + "like";
      SingleUnderscore("not", "like");
    } else if sfx == "not_bt" {
      assert sfx == "not" + "_" + "bt";
      SingleUnderscore("not", "bt");
    } else {
      AbsentHead(sfx, KeySeparator);
    }
  }

  /** Two underscore-free words joined by one underscore hold no `__`. */
  lemma SingleUnderscore(a: string, b: string)
    requires '_' !in a && '_' !in b && |b| > 0
    ensures !Contains(a + "_" + b, KeySeparator)
  {
    var s := a + "_" + b;
    forall i: nat | i <= |s|
      ensures !OccursAt(s, KeySeparator, i)
    {
      if i + 2 <= |s| {
        assert s[i..i + 2][0] == s[i] && s[i..i + 2][1] == s[i + 1];
        if i < |a| {
          assert s[i] == a[i];
        } else if i == |a| {
          assert s[i + 1] == b[0];
        } else {
          assert s[i] == b[i - |a| - 1];
        }
      }
    }
  }

  lemma CleanSegmentSeparatorFree(seg: string)
    requires CleanSegment(seg)
    ensures !Contains(seg, KeySeparator)
  {
    forall i: nat | i <= |seg|
      ensures !OccursAt(seg, KeySeparator, i)
    {
      if OccursAt(seg, KeySeparator, i) {
        assert (seg + "_")[i..i + 2] == seg[i..i + 2];
        assert OccursAt(seg + "_", KeySeparator, i);
      }
    }
  }

  /** The converse round trip: a clean key written out parses back to itself. */
  lemma ParseKeyText(k: Key)
    requires CleanKey(k)
    ensures ParseKey(KeyText(k)) == k
  {
    var parts := k.path + (if k.suffix.Some? then [k.suffix.value] else []);
    assert KeySeparator[..|KeySeparator| - 1] == "_";
    assert Separable(parts, KeySeparator) by {
      forall i | 0 <= i < |parts| - 1
        ensures !Contains(parts[i] + "_", KeySeparator)
      {
        assert parts[i] == k.path[i];
      }
      if k.suffix.Some? {
        SuffixesAreSeparatorFree(k.suffix.value);
      } else {
        CleanSegmentSeparatorFree(k.path[|k.path| - 1]);
      }
    }
    SplitJoin(parts, KeySeparator);
    if k.suffix.Some? {
      assert parts[..|parts| - 1] == k.path;
    } else {
      assert parts == k.path;
    }
  }

  // ---------------------------------------------------------------------------
  // Predicates

  /** The SQL operator of one predicate. */
  datatype Op =
    | Compare(symbol: string)   // `=`, `<>`, `>`, `>=`, `<`, `<=`, `LIKE`, `NOT LIKE`: one value
    | InList(negated: bool)     // `IN (...)` / `NOT IN (...)`: one value per element
    | NullTest(negated: bool)   // `IS NULL` / `IS NOT NULL`: no value
    | Range(negated: bool)      // `BETWEEN ... AND ...` / `NOT BETWEEN`: two values

  /** One condition: a column path, an operator, and the values it binds, in order. */
  datatype Predicate = Predicate(path: seq<string>, op: Op, values: seq<Value>)

  datatype ClauseError =
    | BetweenArity(key: string)     // `__bt`/`__not_bt` given anything but a 2-element list
    | MalformedOn(condition: string) // an `on` condition that is not `left=right`

  /** The comparison symbols a predicate may carry. */
  const Symbols: set<string> := {"=", "<>", ">", ">=", "<", "<=", "LIKE", "NOT LIKE"}

  /** Each operator binds as many values as it renders placeholders. */
  predicate WellFormed(p: Predicate)
  {
    match p.op
    case Compare(sym) => sym in Symbols && |p.values| == 1
    case InList(_) => true
    case NullTest(_) => |p.values| == 0
    case Range(_) => |p.values| == 2
  }

  predicate Negated(op: Op)
  {
    match op
    case Compare(sym) => sym == "<>" || sym == "NOT LIKE"
    case InList(neg) => neg
    case NullTest(neg) => neg
    case Range(neg) => neg
  }

  /** The comparison symbol of the one-value suffixes. */
  function SymbolOf(suffix: string): string
  {
    match suffix
    case "gt" => ">"
    case "gte" => ">="
    case "lt" => "<"
    case "lte" => "<="
    case "like" => "LIKE"
    case _ => "NOT LIKE"
  }

  /** With no suffix or `__not`, the shape of the value picks the operator. */
  function ByShape(path: seq<string>, negated: bool, v: Value): Predicate
  {
    if v.Null? then Predicate(path, NullTest(negated), [])
    else if v.List? then Predicate(path, InList(negated), v.items)
    else Predicate(path, Compare(if negated then "<>" else "="), [v])
  }

  /** Parses one keyword argument `key=v` into a predicate. */
  function ParseArg(key: string, v: Value): (r: Result<Predicate, ClauseError>)
    ensures r.Err? <==> ParseKey(key).suffix in {Some("bt"), Some("not_bt")} && !(v.List? && |v.items| == 2)
    ensures r.Err? ==> r.error == BetweenArity(key)
    ensures r.Ok? ==> WellFormed(r.value) && r.value.path == ParseKey(key).path
    ensures r.Ok? ==> (Negated(r.value.op) <==> ParseKey(key).suffix in {Some("not"), Some("not_like"), Some("not_bt")})
    ensures r.Ok? && r.value.op.NullTest? ==> v.Null? && r.value.values == []
    ensures r.Ok? && (r.value.op.InList? || r.value.op.Range?) ==> v.List? && r.value.values == v.items
    ensures r.Ok? && r.value.op.Compare? ==> r.value.values == [v]
  {
    var k := ParseKey(key);
    match k.suffix
    case None => Ok(ByShape(k.path, false, v))
    case Some(s) =>
      if s == "not" then Ok(ByShape(k.path, true, v))
      else if s == "bt" || s == "not_bt" then
        if v.List? && |v.items| == 2 then Ok(Predicate(k.path, Range(s == "not_bt"), v.items))
        else Err(BetweenArity(key))
      else Ok(Predicate(k.path, Compare(SymbolOf(s)), [v]))
  }

  /** How a predicate joins what precedes it. */
  datatype Connective = And | Or

  datatype Condition = Condition(conn: Connective, pred: Predicate)

  /**
   * Parses the keyword arguments of one `and_`/`or_` call, every one of them tagged
   * with the call's connective; fails on the first malformed argument.
   */
  function ParseArgs(conn: Connective, args: seq<(string, Value)>): (r: Result<seq<Condition>, ClauseError>)
    ensures r.Ok? ==> |r.value| == |args|
  {
    if |args| == 0 then Ok([])
    else
      match ParseArg(args[0].0, args[0].1)
      case Err(e) => Err(e)
      case Ok(p) =>
        match ParseArgs(conn, args[1..])
        case Err(e) => Err(e)
        case Ok(rest) => Ok([Condition(conn, p)] + rest)
  }

  /** A successful call yields the i-th argument's predicate as its i-th condition, tagged with the call's connective. */
  lemma {:induction false} ParseArgsOk(conn: Connective, args: seq<(string, Value)>)
    requires ParseArgs(conn, args).Ok?
    ensures forall i :: 0 <= i < |args| ==>
      ParseArgs(conn, args).value[i].conn == conn && ParseArg(args[i].0, args[i].1) == Ok(ParseArgs(conn, args).value[i].pred)
    decreases |args|
  {
    if |args| > 0 {
      var tail := args[1..];
      var p := ParseArg(args[0].0, args[0].1).value;
      var rest := ParseArgs(conn, tail).value;
      ParseArgsOk(conn, tail);
      assert ParseArgs(conn, args).value == [Condition(conn, p)] + rest;
      forall i | 1 <= i < |args|
        ensures ParseArgs(conn, args).value[i] == rest[i - 1] && args[i] == tail[i - 1]
      {
      }
    }
  }

  /** A call fails exactly when some argument fails to parse. */
  lemma {:induction false} ParseArgsErr(conn: Connective, args: seq<(string, Value)>)
    ensures ParseArgs(conn, args).Err? <==> exists i :: 0 <= i < |args| && ParseArg(args[i].0, args[i].1).Err?
    decreases |args|
  {
    if |args| > 0 {
      var tail := args[1..];
      ParseArgsErr(conn, tail);
      assert forall i :: 1 <= i < |args| ==> args[i] == tail[i - 1];
      if ParseArg(args[0].0, args[0].1).Ok? && ParseArgs(conn, tail).Err? {
        var k :| 0 <= k < |tail| && ParseArg(tail[k].0, tail[k].1).Err?;
        assert ParseArg(args[k + 1].0, args[k + 1].1).Err?;
      }
    }
  }

  /** The raw `left=right` condition of a join, each side a dotted name. */
  datatype OnCondition = OnCondition(left: seq<string>, right: seq<string>)

  function ParseOn(text: string): (r: Result<OnCondition, ClauseError>)
    ensures r.Ok? <==> |Split(text, "=")| == 2
    ensures r.Ok? ==> Join(".", r.value.left) + "=" + Join(".", r.value.right) == text
  {
    var sides := Split(text, "=");
    if |sides| != 2 then Err(MalformedOn(text))
    else
      JoinSplit(text, "=");
      JoinSplit(sides[0], ".");
      JoinSplit(sides[1], ".");
      Ok(OnCondition(Split(sides[0], "."), Split(sides[1], ".")))
  }

  // ---------------------------------------------------------------------------
  // Rendering

  /** Each segment wrapped in the quote character, joined with dots. */
  function QuotePath(q: string, path: seq<string>): string
  {
    Join(".", seq(|path|, i requires 0 <= i < |path| => q + path[i] + q))
  }

  /** A dotted name such as `users.age`, quoted segment by segment. */
  function QuoteName(q: string, name: string): string
  {
    QuotePath(q, Split(name, "."))
  }

  /** Quoting a name adds no character other than the quote and the dot. */
  lemma QuoteNameFree(c: char, q: string, name: string)
    requires c != '.' && c !in q && c !in name
    ensures c !in QuoteName(q, name)
  {
    var path := Split(name, ".");
    SplitKeepsCharsOut(c, name, ".");
    var parts := seq(|path|, i requires 0 <= i < |path| => q + path[i] + q);
    assert forall k :: 0 <= k < |parts| ==> c !in parts[k];
    JoinFree(c, ".", parts);
  }

  function RenderOp(ph: string, op: Op, n: nat): string
  {
    match op
    case Compare(sym) => " " + sym + " " + ph
    case InList(neg) => (if neg then " NOT IN (" else " IN (") + Join(", ", Repeat(ph, n)) + ")"
    case NullTest(neg) => if neg then " IS NOT NULL" else " IS NULL"
    case Range(neg) => (if neg then " NOT BETWEEN " else " BETWEEN ") + ph + " AND " + ph
  }

  /** The SQL text of one predicate, with placeholder `ph` for each bound value. */
  function Render(q: string, ph: string, p: Predicate): string
  {
    QuotePath(q, p.path) + RenderOp(ph, p.op, |p.values|)
  }

  function ConnectiveWord(c: Connective): string
  {
    match c
    case And => "AND"
    case Or => "OR"
  }

  /** A rendered piece of a condition clause: its connective, text and bound values. */
  datatype Term = Term(conn: Connective, text: string, values: seq<Value>)

  /** The values of the terms, first term first. */
  function TermValues(terms: seq<Term>): seq<Value>
  {
    if |terms| == 0 then [] else terms[0].values + TermValues(terms[1..])
  }

  /** The values of the conditions, first condition first. */
  function ConditionValues(conds: seq<Condition>): seq<Value>
  {
    if |conds| == 0 then [] else conds[0].pred.values + ConditionValues(conds[1..])
  }

  function OnTerms(q: string, on: Option<OnCondition>): seq<Term>
  {
    match on
    case None => []
    case Some(c) => [Term(And, QuotePath(q, c.left) + " = " + QuotePath(q, c.right), [])]
  }

  function ConditionTerms(q: string, ph: string, conds: seq<Condition>): (ts: seq<Term>)
    ensures |ts| == |conds|
  {
    seq(|conds|, i requires 0 <= i < |conds| =>
      Term(conds[i].conn, Render(q, ph, conds[i].pred), conds[i].pred.values))
  }

  /** The bindings of a chain of terms are their values, in chain order. */
  function Chain(terms: seq<Term>): (r: (string, seq<Value>))
    requires |terms| > 0
    ensures r.1 == TermValues(terms)
  {
    if |terms| == 1 then (terms[0].text, terms[0].values)
    else
      var init := terms[..|terms| - 1];
      var last := terms[|terms| - 1];
      var (text, values) := Chain(init);
      TermValuesSnoc(init, last);
      assert terms == init + [last];
      (text + " " + ConnectiveWord(last.conn) + " " + last.text, values + last.values)
  }

  lemma {:induction false} TermValuesSnoc(terms: seq<Term>, t: Term)
    ensures TermValues(terms + [t]) == TermValues(terms) + t.values
    decreases |terms|
  {
    if |terms| == 0 {
      assert [t][1..] == [];
    } else {
      TermValuesSnoc(terms[1..], t);
      assert (terms + [t])[1..] == terms[1..] + [t];
    }
  }

  lemma {:induction false} TermValuesOfConditions(q: string, ph: string, conds: seq<Condition>)
    ensures TermValues(ConditionTerms(q, ph, conds)) == ConditionValues(conds)
    decreases |conds|
  {
    if |conds| > 0 {
      TermValuesOfConditions(q, ph, conds[1..]);
      assert ConditionTerms(q, ph, conds)[1..] == ConditionTerms(q, ph, conds[1..]);
    }
  }

  /** The kinds of clause that accumulate conditions. */
  datatype JoinType = Inner | Left | Right
  datatype ConditionKind = Where | Having | Joined(joinType: JoinType, table: string)

  function Keyword(kind: ConditionKind, q: string): string
  {
    match kind
    case Where => "WHERE"
    case Having => "HAVING"
    case Joined(jt, table) =>
      (match jt case Inner => "INNER" case Left => "LEFT" case Right => "RIGHT")
      + " JOIN " + QuoteName(q, table)
  }

  /** What a condition clause writes before its first condition. */
  function Lead(kind: ConditionKind, q: string): string
  {
    Keyword(kind, q) + (if kind.Joined? then " ON " else " ")
  }

  /** The `on` condition, if any, followed by the accumulated predicates. */
  function ClauseTerms(q: string, ph: string, on: Option<OnCondition>, conds: seq<Condition>): (ts: seq<Term>)
    ensures TermValues(ts) == ConditionValues(conds)
    ensures |ts| == |conds| + (if on.Some? then 1 else 0)
  {
    var terms := OnTerms(q, on) + ConditionTerms(q, ph, conds);
    TermValuesOfConditions(q, ph, conds);
    if on.Some? then
      assert terms[1..] == ConditionTerms(q, ph, conds);
      terms
    else
      assert terms == ConditionTerms(q, ph, conds);
      terms
  }

  /**
   * Compiles a condition clause: the keyword, then the `on` condition (joins only) and
   * the accumulated predicates, each after the first preceded by its own connective.
   * A WHERE or HAVING with nothing in it compiles to nothing at all.
   */
  function CompileConditions(kind: ConditionKind, q: string, ph: string,
                             on: Option<OnCondition>, conds: seq<Condition>): (r: (string, seq<Value>))
    ensures r.1 == ConditionValues(conds)
    ensures r == ("", []) <==> !kind.Joined? && on.None? && conds == []
  {
    var terms := ClauseTerms(q, ph, on, conds);
    if terms == [] then
      (if kind.Joined? then Keyword(kind, q) else "", [])
    else
      (Lead(kind, q) + Chain(terms).0, Chain(terms).1)
  }

  lemma ClauseTermsSnoc(q: string, ph: string, on: Option<OnCondition>, conds: seq<Condition>, c: Condition)
    ensures ClauseTerms(q, ph, on, conds + [c])
         == ClauseTerms(q, ph, on, conds) + [Term(c.conn, Render(q, ph, c.pred), c.pred.values)]
  {
    assert ConditionTerms(q, ph, conds + [c])
        == ConditionTerms(q, ph, conds) + [Term(c.conn, Render(q, ph, c.pred), c.pred.values)];
  }

  // ---------------------------------------------------------------------------
  // What the compiler promises

  /**
   * With no suffix, the shape of the value picks the operator: `=` with one binding for a
   * scalar, `IN (...)` with one placeholder per element for a list (`IN ()` when empty),
   * `IS NULL` with none for None; `__not` turns these into `<>`, `NOT IN`, `IS NOT NULL`.
   */
  lemma ShapeOperators(q: string, ph: string, key: string, v: Value)
    requires ParseKey(key).suffix in {None, Some("not")}
    ensures ParseArg(key, v).Ok?
    ensures var neg := ParseKey(key).suffix == Some("not");
      var p := ParseArg(key, v).value;
      Render(q, ph, p) == QuotePath(q, ParseKey(key).path) +
        (if v.Null? then (if neg then " IS NOT NULL" else " IS NULL")
         else if v.List? then (if neg then " NOT IN (" else " IN (") + Join(", ", Repeat(ph, |v.items|)) + ")"
         else (if neg then " <> " else " = ") + ph)
      && p.values == (if v.Null? then [] else if v.List? then v.items else [v])
  {
  }

  /**
   * `__gt`, `__gte`, `__lt`, `__lte`, `__like` and `__not_like` render `>`, `>=`, `<`,
   * `<=`, `LIKE` and `NOT LIKE` with the value as their one binding, whatever its shape.
   */
  lemma SuffixOperators(q: string, ph: string, key: string, v: Value)
    requires ParseKey(key).suffix in {Some("gt"), Some("gte"), Some("lt"), Some("lte"), Some("like"), Some("not_like")}
    ensures ParseArg(key, v).Ok?
    ensures var sfx := ParseKey(key).suffix.value;
      var p := ParseArg(key, v).value;
      Render(q, ph, p) == QuotePath(q, ParseKey(key).path) + " " +
        (if sfx == "gt" then ">" else if sfx == "gte" then ">=" else if sfx == "lt" then "<"
         else if sfx == "lte" then "<=" else if sfx == "like" then "LIKE" else "NOT LIKE") + " " + ph
      && p.values == [v]
  {
    var k := ParseKey(key);
    var sym := SymbolOf(k.suffix.value);
    assert ParseArg(key, v) == Ok(Predicate(k.path, Compare(sym), [v]));
    var path := QuotePath(q, k.path);
    assert Render(q, ph, ParseArg(key, v).value) == path + (" " + sym + " " + ph);
    Associative(path, " " + sym + " ", ph);
    Associative(path, " " + sym, " ");
    Associative(path, " ", sym);
  }

  /**
   * `__bt` and `__not_bt` accept exactly a two-element list, render `[NOT ]BETWEEN ph AND ph`
   * and bind both elements in order; anything else is refused.
   */
  lemma BetweenArityRule(q: string, ph: string, key: string, v: Value)
    requires ParseKey(key).suffix in {Some("bt"), Some("not_bt")}
    ensures ParseArg(key, v).Ok? <==> v.List? && |v.items| == 2
    ensures ParseArg(key, v).Ok? ==>
      var p := ParseArg(key, v).value;
      Render(q, ph, p) == QuotePath(q, ParseKey(key).path) +
        (if ParseKey(key).suffix == Some("not_bt") then " NOT BETWEEN " else " BETWEEN ") + ph + " AND " + ph
      && p.values == [v.items[0], v.items[1]]
  {
  }

  /** The first predicate of a clause carries no connective, whichever call added it. */
  lemma FirstConditionHasNoConnective(kind: ConditionKind, q: string, ph: string, p: Predicate)
    ensures CompileConditions(kind, q, ph, None, [Condition(And, p)])
         == CompileConditions(kind, q, ph, None, [Condition(Or, p)])
         == (Keyword(kind, q) + (if kind.Joined? then " ON " else " ") + Render(q, ph, p), p.values)
  {
    assert ClauseTerms(q, ph, None, [Condition(And, p)]) == [Term(And, Render(q, ph, p), p.values)];
    assert ClauseTerms(q, ph, None, [Condition(Or, p)]) == [Term(Or, Render(q, ph, p), p.values)];
  }

  /**
   * Adding a predicate to a clause that already renders a condition appends its own
   * connective and its text, and appends its values to the bindings: bindings follow
   * the order in which predicates are rendered, whatever their connectives.
   */
  lemma AppendCondition(kind: ConditionKind, q: string, ph: string, on: Option<OnCondition>,
                        conds: seq<Condition>, c: Condition)
    requires on.Some? || conds != []
    ensures var before := CompileConditions(kind, q, ph, on, conds);
      CompileConditions(kind, q, ph, on, conds + [c])
        == (before.0 + " " + ConnectiveWord(c.conn) + " " + Render(q, ph, c.pred), before.1 + c.pred.values)
  {
    var t := Term(c.conn, Render(q, ph, c.pred), c.pred.values);
    var terms := ClauseTerms(q, ph, on, conds);
    var all := ClauseTerms(q, ph, on, conds + [c]);
    ClauseTermsSnoc(q, ph, on, conds, c);
    assert all[..|all| - 1] == terms && all[|all| - 1] == t;
    var text := Chain(terms).0;
    assert Chain(all).0 == text + " " + ConnectiveWord(c.conn) + " " + t.text;
    var lead, w := Lead(kind, q), ConnectiveWord(c.conn);
    Associative(lead, text + " " + w + " ", t.text);
    Associative(lead, text + " " + w, " ");
    Associative(lead, text + " ", w);
    Associative(lead, text, " ");
  }

  /**
   * A join renders its type, the quoted target table and `ON`, then the `on` condition
   * as `left = right` with no bindings, ahead of any predicate.
   */
  lemma JoinOnCondition(jt: JoinType, table: string, q: string, ph: string, o: OnCondition)
    ensures CompileConditions(Joined(jt, table), q, ph, Some(o), []) ==
      ((if jt == Inner then "INNER" else if jt == Left then "LEFT" else "RIGHT") + " JOIN " + QuoteName(q, table)
         + " ON " + QuotePath(q, o.left) + " = " + QuotePath(q, o.right), [])
  {
    var terms := ClauseTerms(q, ph, Some(o), []);
    var text := QuotePath(q, o.left) + " = " + QuotePath(q, o.right);
    assert terms == [Term(And, text, [])];
    var k := Keyword(Joined(jt, table), q);
    var left, right := QuotePath(q, o.left), QuotePath(q, o.right);
    assert CompileConditions(Joined(jt, table), q, ph, Some(o), []).0 == k + " ON " + text;
    Associative(k + " ON ", left + " = ", right);
    Associative(k + " ON ", left, " = ");
  }

  // ---------------------------------------------------------------------------
  // Placeholders and bindings in lock-step

  /**
   * A marker character that the compiler never writes itself: not an upper-case letter,
   * a space, or one of `=<>(),.`. The `%` of the `%s` placeholder is one.
   */
  predicate Marker(m: char)
  {
    !('A' <= m <= 'Z') && m != ' ' && m != '=' && m != '<' && m != '>'
    && m != '(' && m != ')' && m != ',' && m != '.'
  }

  /** The marker occurs once in the placeholder and nowhere in the quote character. */
  predicate Dialect(m: char, q: string, ph: string)
  {
    Marker(m) && Count(m, ph) == 1 && m !in q
  }

  predicate FreeOf(m: char, path: seq<string>)
  {
    forall i :: 0 <= i < |path| ==> m !in path[i]
  }

  lemma CountQuotePath(m: char, q: string, path: seq<string>)
    requires Marker(m) && m !in q && FreeOf(m, path)
    ensures Count(m, QuotePath(q, path)) == 0
  {
    var parts := seq(|path|, i requires 0 <= i < |path| => q + path[i] + q);
    forall i | 0 <= i < |parts|
      ensures Count(m, parts[i]) == 0
    {
      CountConcat(m, q + path[i], q);
      CountConcat(m, q, path[i]);
      CountAbsent(m, q);
      CountAbsent(m, path[i]);
    }
    CountAbsent(m, ".");
    CountJoin(m, ".", parts, 0);
  }

  lemma CountPlaceholders(m: char, ph: string, n: nat)
    requires Marker(m) && Count(m, ph) == 1
    ensures Count(m, Join(", ", Repeat(ph, n))) == n
  {
    CountAbsent(m, ", ");
    CountJoin(m, ", ", Repeat(ph, n), 1);
  }

  lemma CountCompare(m: char, ph: string, sym: string)
    requires Marker(m) && Count(m, ph) == 1 && sym in Symbols
    ensures Count(m, RenderOp(ph, Compare(sym), 1)) == 1
  {
    assert m !in sym;
    CountAbsent(m, " " + sym + " ");
    CountConcat(m, " " + sym + " ", ph);
  }

  lemma CountInList(m: char, ph: string, neg: bool, n: nat)
    requires Marker(m) && Count(m, ph) == 1
    ensures Count(m, RenderOp(ph, InList(neg), n)) == n
  {
    var open := if neg then " NOT IN (" else " IN (";
    var list := Join(", ", Repeat(ph, n));
    CountAbsent(m, open);
    CountAbsent(m, ")");
    CountPlaceholders(m, ph, n);
    CountConcat(m, open + list, ")");
    CountConcat(m, open, list);
  }

  lemma CountRange(m: char, ph: string, neg: bool)
    requires Marker(m) && Count(m, ph) == 1
    ensures Count(m, RenderOp(ph, Range(neg), 2)) == 2
  {
    var word := if neg then " NOT BETWEEN " else " BETWEEN ";
    CountAbsent(m, word);
    CountAbsent(m, " AND ");
    CountConcat(m, word + ph + " AND ", ph);
    CountConcat(m, word + ph, " AND ");
    CountConcat(m, word, ph);
  }

  /** One predicate renders exactly as many placeholders as it binds values. */
  lemma CountRender(m: char, q: string, ph: string, p: Predicate)
    requires Dialect(m, q, ph) && FreeOf(m, p.path) && WellFormed(p)
    ensures Count(m, Render(q, ph, p)) == |p.values|
  {
    var col := QuotePath(q, p.path);
    var tail := RenderOp(ph, p.op, |p.values|);
    CountQuotePath(m, q, p.path);
    CountConcat(m, col, tail);
    match p.op
    case Compare(sym) => CountCompare(m, ph, sym);
    case InList(neg) => CountInList(m, ph, neg, |p.values|);
    case NullTest(neg) => CountAbsent(m, tail);
    case Range(neg) => CountRange(m, ph, neg);
  }

  lemma CountConnective(m: char, c: Connective)
    requires Marker(m)
    ensures Count(m, " " + ConnectiveWord(c) + " ") == 0
  {
    CountAbsent(m, " " + ConnectiveWord(c) + " ");
  }

  lemma {:induction false} CountChain(m: char, terms: seq<Term>)
    requires |terms| > 0 && Marker(m)
    requires forall i :: 0 <= i < |terms| ==> Count(m, terms[i].text) == |terms[i].values|
    ensures Count(m, Chain(terms).0) == |Chain(terms).1|
    decreases |terms|
  {
    if |terms| > 1 {
      var init := terms[..|terms| - 1];
      var last := terms[|terms| - 1];
      assert forall i :: 0 <= i < |init| ==> init[i] == terms[i];
      CountChain(m, init);
      var sep := " " + ConnectiveWord(last.conn) + " ";
      var text := Chain(init).0;
      assert Chain(terms).0 == text + sep + last.text;
      assert |Chain(terms).1| == |Chain(init).1| + |last.values|;
      CountConnective(m, last.conn);
      CountConcat(m, text + sep, last.text);
      CountConcat(m, text, sep);
    }
  }

  lemma SplitKeepsCharsOut(m: char, s: string, sep: string)
    requires |sep| > 0 && m !in s
    ensures FreeOf(m, Split(s, sep))
    decreases |s|
  {
    match IndexFrom(s, sep, 0)
    case None =>
    case Some(i) =>
      SplitKeepsCharsOut(m, s[i + |sep|..], sep);
      assert m !in s[..i];
  }

  lemma CountKeyword(m: char, kind: ConditionKind, q: string)
    requires Marker(m) && m !in q
    requires kind.Joined? ==> m !in kind.table
    ensures Count(m, Lead(kind, q)) == 0
  {
    var sep := if kind.Joined? then " ON " else " ";
    CountAbsent(m, sep);
    CountConcat(m, Keyword(kind, q), sep);
    match kind
    case Where => CountAbsent(m, "WHERE");
    case Having => CountAbsent(m, "HAVING");
    case Joined(jt, table) =>
      var word := (match jt case Inner => "INNER" case Left => "LEFT" case Right => "RIGHT") + " JOIN ";
      CountAbsent(m, word);
      SplitKeepsCharsOut(m, table, ".");
      CountQuotePath(m, q, Split(table, "."));
      CountConcat(m, word, QuoteName(q, table));
  }

  lemma CountTerms(m: char, q: string, ph: string, on: Option<OnCondition>, conds: seq<Condition>)
    requires Dialect(m, q, ph)
    requires on.Some? ==> FreeOf(m, on.value.left) && FreeOf(m, on.value.right)
    requires forall i :: 0 <= i < |conds| ==> WellFormed(conds[i].pred) && FreeOf(m, conds[i].pred.path)
    ensures var terms := ClauseTerms(q, ph, on, conds);
      forall i :: 0 <= i < |terms| ==> Count(m, terms[i].text) == |terms[i].values|
  {
    var terms := ClauseTerms(q, ph, on, conds);
    forall i | 0 <= i < |terms|
      ensures Count(m, terms[i].text) == |terms[i].values|
    {
      if on.Some? && i == 0 {
        var o := on.value;
        CountQuotePath(m, q, o.left);
        CountQuotePath(m, q, o.right);
        CountAbsent(m, " = ");
        CountConcat(m, QuotePath(q, o.left) + " = ", QuotePath(q, o.right));
        CountConcat(m, QuotePath(q, o.left), " = ");
      } else {
        var j := if on.Some? then i - 1 else i;
        assert terms[i] == ConditionTerms(q, ph, conds)[j];
        CountRender(m, q, ph, conds[j].pred);
      }
    }
  }

  /**
   * Placeholders and bindings stay in lock-step: in the compiled SQL the marker of the
   * placeholder occurs exactly once per binding, provided the identifiers, the quote
   * character and the `on` condition do not contain it.
   */
  lemma LockStep(m: char, kind: ConditionKind, q: string, ph: string,
                 on: Option<OnCondition>, conds: seq<Condition>)
    requires Dialect(m, q, ph)
    requires kind.Joined? ==> m !in kind.table
    requires on.Some? ==> FreeOf(m, on.value.left) && FreeOf(m, on.value.right)
    requires forall i :: 0 <= i < |conds| ==> WellFormed(conds[i].pred) && FreeOf(m, conds[i].pred.path)
    ensures var r := CompileConditions(kind, q, ph, on, conds); Count(m, r.0) == |r.1|
  {
    var terms := ClauseTerms(q, ph, on, conds);
    CountKeyword(m, kind, q);
    if terms != [] {
      CountTerms(m, q, ph, on, conds);
      CountChain(m, terms);
      CountConcat(m, Lead(kind, q), Chain(terms).0);
    } else if kind.Joined? {
      assert Count(m, Keyword(kind, q) + " ON ") == 0;
      CountConcat(m, Keyword(kind, q), " ON ");
    } else {
      CountAbsent(m, "");
    }
  }
}
