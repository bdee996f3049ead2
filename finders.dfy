/**
 * Dynamic finders: a missing class attribute named like `find_by_name_and_age` or
 * `find_or_create_by_email` is answered by a callable that splits the name into
 * columns, pairs them with the call's arguments and queries, creates or initialises.
 */
module Finders {
  import opened Wrappers
  import opened Strings
  import opened Clauses

  /** The four finder forms: `find_all_by_`, `find_by_`, `find_or_init_by_`, `find_or_create_by_`. */
  datatype Scope = AllBy | By | OrInit | OrCreate

  function Prefix(scope: Scope): (p: string)
    ensures |p| >= 8
  {
    match scope
    case AllBy => "find_all_by_"
    case By => "find_by_"
    case OrInit => "find_or_init_by_"
    case OrCreate => "find_or_create_by_"
  }

  /** A recognised finder name: its form and the text naming its columns. */
  datatype Finder = Finder(scope: Scope, columnText: string)

  /** The separator between the column names in a finder name. */
  const ColumnSeparator := "_and_"

  /** Characters of the regular-expression class `\w` (ASCII). */
  predicate IsWordChar(c: char)
  {
    'a' <= c <= 'z' || 'A' <= c <= 'Z' || '0' <= c <= '9' || c == '_'
  }

  /** `[_a-zA-Z]\w*`. */
  predicate Identifier(x: string)
  {
    |x| > 0 && (x[0] == '_' || 'a' <= x[0] <= 'z' || 'A' <= x[0] <= 'Z')
    && forall i :: 0 <= i < |x| ==> IsWordChar(x[i])
  }

  /**
   * The identifier that ends a name, where `$` also matches just before one final
   * newline.
   */
  function Tail(rest: string): (r: Option<string>)
    ensures r.Some? <==> Identifier(rest) || (|rest| > 0 && rest[|rest| - 1] == '\n' && Identifier(rest[..|rest| - 1]))
    ensures r.Some? ==> Identifier(r.value) && (rest == r.value || rest == r.value + "\n")
  {
    if Identifier(rest) then Some(rest)
    else if |rest| > 0 && rest[|rest| - 1] == '\n' && Identifier(rest[..|rest| - 1]) then
      assert rest == rest[..|rest| - 1] + "\n";
      Some(rest[..|rest| - 1])
    else None
  }

  function TryScope(name: string, scope: Scope): (r: Option<Finder>)
    ensures r.Some? ==> r.value.scope == scope
  {
    var p := Prefix(scope);
    if |p| <= |name| && name[..|p|] == p then
      match Tail(name[|p|..])
      case Some(x) => Some(Finder(scope, x))
      case None => None
    else None
  }

  /**
   * `MethodMissing.match(name)`: the first pattern, `find_(all_by|by)_X`, then the
   * second, `find_or_(init|create)_by_X`.
   */
  function Match(name: string): (r: Option<Finder>)
    ensures r.Some? ==> TryScope(name, r.value.scope) == r
    ensures r.None? ==> forall scope: Scope :: TryScope(name, scope).None?
  {
    var a := TryScope(name, AllBy);
    if a.Some? then a
    else
      var b := TryScope(name, By);
      if b.Some? then b
      else
        var c := TryScope(name, OrInit);
        if c.Some? then c
        else TryScope(name, OrCreate)
  }

  lemma TryScopeSound(name: string, scope: Scope)
    ensures var r := TryScope(name, scope);
      r.Some? ==> (r.value.scope == scope && Identifier(r.value.columnText)
        && (name == Prefix(scope) + r.value.columnText || name == Prefix(scope) + r.value.columnText + "\n"))
  {
    var p := Prefix(scope);
    if |p| <= |name| && name[..|p|] == p {
      assert name == p + name[|p|..];
    }
  }

  /** Every accepted name is a finder prefix followed by an identifier, and maybe a newline. */
  lemma MatchSound(name: string)
    ensures var r := Match(name);
      r.Some? ==> (Identifier(r.value.columnText)
        && (name == Prefix(r.value.scope) + r.value.columnText
            || name == Prefix(r.value.scope) + r.value.columnText + "\n"))
  {
    TryScopeSound(name, AllBy);
    TryScopeSound(name, By);
    TryScopeSound(name, OrInit);
    TryScopeSound(name, OrCreate);
  }

  /** No finder prefix begins another finder name: the character at 5 or 8 tells them apart. */
  lemma PrefixesDisjoint(a: Scope, b: Scope, x: string)
    requires a != b
    ensures TryScope(Prefix(a) + x, b) == None
  {
    var name := Prefix(a) + x;
    var pb := Prefix(b);
    var k := if (a == OrInit && b == OrCreate) || (a == OrCreate && b == OrInit) then 8 else 5;
    assert name[k] == Prefix(a)[k] != pb[k];
    if |pb| <= |name| {
      assert name[..|pb|][k] != pb[k];
    }
  }

  /** Every finder prefix followed by an identifier, with or without a final newline, is accepted. */
  lemma MatchComplete(scope: Scope, x: string)
    requires Identifier(x)
    ensures Match(Prefix(scope) + x) == Some(Finder(scope, x))
    ensures Match(Prefix(scope) + x + "\n") == Some(Finder(scope, x))
  {
    var p := Prefix(scope);
    var n1 := p + x;
    var n2 := p + x + "\n";
    assert n1[..|p|] == p && n1[|p|..] == x;
    assert n2[..|p|] == p && n2[|p|..] == x + "\n";
    assert !Identifier(x + "\n") by {
      assert !IsWordChar((x + "\n")[|x|]);
    }
    assert (x + "\n")[..|x|] == x;
    assert TryScope(n1, scope) == Some(Finder(scope, x));
    assert TryScope(n2, scope) == Some(Finder(scope, x));
    forall other | other != scope
      ensures TryScope(n1, other) == None && TryScope(n2, other) == None
    {
      PrefixesDisjoint(scope, other, x);
      PrefixesDisjoint(scope, other, x + "\n");
      assert n2 == p + (x + "\n");
    }
    MatchOnly(n1, scope);
    MatchOnly(n2, scope);
  }

  /** A name that only one scope's pattern accepts is matched with that scope. */
  lemma MatchOnly(name: string, scope: Scope)
    requires TryScope(name, scope).Some?
    requires forall other :: other != scope ==> TryScope(name, other).None?
    ensures Match(name) == TryScope(name, scope)
  {
  }

  // ---------------------------------------------------------------------------
  // Arguments

  /** The column names of a finder: its column text split on `_and_`. */
  function Columns(f: Finder): (cols: seq<string>)
    ensures |cols| >= 1 && Join(ColumnSeparator, cols) == f.columnText
  {
    JoinSplit(f.columnText, ColumnSeparator);
    Split(f.columnText, ColumnSeparator)
  }

  /**
   * Column names with no `_and_` inside them (and none straddling their ends) come back
   * from the finder name they were joined into.
   */
  lemma ColumnsOfJoin(scope: Scope, names: seq<string>)
    requires Separable(names, ColumnSeparator)
    ensures Columns(Finder(scope, Join(ColumnSeparator, names))) == names
  {
    SplitJoin(names, ColumnSeparator);
  }

  /** `find_by_name_and_age('pengyi', 28)` queries with `name='pengyi'` and `age=28`. */
  lemma FindByNameAndAge(text: string, name: string, age: string)
    requires text == "name_and_age" && name == "name" && age == "age"
    ensures Arguments(Finder(By, text), [Text("pengyi"), Int(28)]) == map[name := Text("pengyi"), age := Int(28)]
  {
    NameAndAgeSeparable(name, age);
    assert Join(ColumnSeparator, [name, age]) == text;
    ColumnsOfJoin(By, [name, age]);
    assert Columns(Finder(By, text)) == [name, age];
    var pairs := Zip([name, age], [Text("pengyi"), Int(28)]);
    assert pairs == [(name, Text("pengyi")), (age, Int(28))];
    var first := pairs[..1];
    assert first == [(name, Text("pengyi"))];
    assert first[..0] == [];
    assert DictOf(first) == map[name := Text("pengyi")];
    assert DictOf(pairs) == DictOf(first)[age := Int(28)];
  }

  lemma NameAndAgeSeparable(name: string, age: string)
    requires name == "name" && age == "age"
    ensures Separable([name, age], ColumnSeparator)
  {
    var t := name + ColumnSeparator[..|ColumnSeparator| - 1];
    assert t == "name_and";
    forall i: nat | i <= |t|
      ensures !OccursAt(t, ColumnSeparator, i)
    {
      if i + 5 <= |t| {
        assert t[i + 4] != '_' || t[i] != '_';
      }
    }
    assert !Contains(age, ColumnSeparator);
  }

  /**
   * `zip(names, args)`: pairs by position, as many as the shorter has. The contract is
   * Python's documented contract for `zip`, which is also how the body computes it.
   */
  function Zip(names: seq<string>, args: seq<Value>): (pairs: seq<(string, Value)>)
    ensures |pairs| == if |names| <= |args| then |names| else |args|
    ensures forall i :: 0 <= i < |pairs| ==> pairs[i] == (names[i], args[i])
  {
    var n := if |names| <= |args| then |names| else |args|;
    seq(n, i requires 0 <= i < n => (names[i], args[i]))
  }

  /** The first components of a list of pairs. */
  function KeysOf(pairs: seq<(string, Value)>): set<string>
  {
    set i | 0 <= i < |pairs| :: pairs[i].0
  }

  /** `dict(pairs)`: entries in order, so a later pair overrides an earlier one. */
  function DictOf(pairs: seq<(string, Value)>): (d: map<string, Value>)
    ensures d.Keys == KeysOf(pairs)
  {
    if |pairs| == 0 then map[]
    else
      KeysSnoc(pairs);
      DictOf(pairs[..|pairs| - 1])[pairs[|pairs| - 1].0 := pairs[|pairs| - 1].1]
  }

  lemma KeysSnoc(pairs: seq<(string, Value)>)
    requires |pairs| > 0
    ensures KeysOf(pairs) == KeysOf(pairs[..|pairs| - 1]) + {pairs[|pairs| - 1].0}
  {
    var init := pairs[..|pairs| - 1];
    forall k | k in KeysOf(pairs)
      ensures k in KeysOf(init) + {pairs[|pairs| - 1].0}
    {
      var i :| 0 <= i < |pairs| && pairs[i].0 == k;
      if i < |init| {
        assert init[i].0 == k;
      }
    }
    forall k | k in KeysOf(init)
      ensures k in KeysOf(pairs)
    {
      var i :| 0 <= i < |init| && init[i].0 == k;
      assert pairs[i].0 == k;
    }
  }

  /** Each key is bound to the value of its last pair. */
  lemma {:induction false} DictOfLastWins(pairs: seq<(string, Value)>, i: int)
    requires 0 <= i < |pairs| && forall j :: i < j < |pairs| ==> pairs[j].0 != pairs[i].0
    ensures pairs[i].0 in DictOf(pairs) && DictOf(pairs)[pairs[i].0] == pairs[i].1
    decreases |pairs|
  {
    var init := pairs[..|pairs| - 1];
    if i < |pairs| - 1 {
      assert forall j :: i < j < |init| ==> init[j] == pairs[j];
      DictOfLastWins(init, i);
      assert pairs[|pairs| - 1].0 != pairs[i].0;
      assert init[i] == pairs[i];
    }
  }

  /** The keyword arguments a finder call queries with. */
  function Arguments(f: Finder, args: seq<Value>): map<string, Value>
  {
    DictOf(Zip(Columns(f), args))
  }

  /**
   * With distinct column names, each column named in the finder is bound to the argument
   * at its position, and only those columns that have an argument are bound.
   */
  lemma ArgumentsByPosition(f: Finder, args: seq<Value>)
    requires forall i, j :: 0 <= i < j < |Columns(f)| ==> Columns(f)[i] != Columns(f)[j]
    ensures var cols := Columns(f); var m := Arguments(f, args);
      forall i :: 0 <= i < |cols| ==> (cols[i] in m <==> i < |args|)
    ensures var cols := Columns(f); var m := Arguments(f, args);
      forall i :: 0 <= i < |cols| && i < |args| ==> m[cols[i]] == args[i]
  {
    var cols := Columns(f);
    var pairs := Zip(cols, args);
    var m := Arguments(f, args);
    forall i | 0 <= i < |cols|
      ensures cols[i] in m <==> i < |args|
    {
      if i < |args| {
        assert pairs[i].0 == cols[i];
      } else {
        forall j | 0 <= j < |pairs|
          ensures pairs[j].0 != cols[i]
        {
          assert pairs[j].0 == cols[j] && j < i;
        }
      }
    }
    forall i | 0 <= i < |cols| && i < |args|
      ensures m[cols[i]] == args[i]
    {
      forall j | i < j < |pairs|
        ensures pairs[j].0 != pairs[i].0
      {
        assert pairs[j].0 == cols[j] && pairs[i].0 == cols[i];
      }
      DictOfLastWins(pairs, i);
    }
  }


  // ---------------------------------------------------------------------------
  // Dispatch

  /** What a finder call produces. */
  datatype Outcome<R> =
    | Records(records: seq<R>)         // `all()` of the query
    | Record(record: Option<R>)        // `first()` of the query, `None` when nothing matched
    | Created(attrs: map<string, Value>)     // a new record built from the arguments and saved
    | Initialized(attrs: map<string, Value>) // a new record built from the arguments, not saved

  /**
   * Calling a finder, given what `first()` and `all()` of the query on its arguments
   * return: the query's arguments and the outcome, or nothing for a name that is not a
   * finder.
   */
  function Call<R>(name: string, args: seq<Value>, first: Option<R>, all: seq<R>): (r: Option<(map<string, Value>, Outcome<R>)>)
    ensures r.None? <==> Match(name).None?
    ensures r.Some? ==> r.value.0 == Arguments(Match(name).value, args)
    ensures r.Some? && Match(name).value.scope == AllBy ==> r.value.1 == Records(all)
    ensures r.Some? && Match(name).value.scope == By ==> r.value.1 == Record(first)
    ensures r.Some? && Match(name).value.scope in {OrInit, OrCreate} ==>
      (first.Some? <==> r.value.1 == Record(first))
    ensures r.Some? && first.None? && Match(name).value.scope == OrCreate ==> r.value.1 == Created(r.value.0)
    ensures r.Some? && first.None? && Match(name).value.scope == OrInit ==> r.value.1 == Initialized(r.value.0)
  {
    match Match(name)
    case None => None
    case Some(f) =>
      var query := Arguments(f, args);
      var outcome :=
        match f.scope
        case AllBy => Records(all)
        case By => Record(first)
        case OrInit => if first.Some? then Record(first) else Initialized(query)
        case OrCreate => if first.Some? then Record(first) else Created(query);
      Some((query, outcome))
  }

  /** Only the `find_or_*` forms ever build a record, and only when the query found none. */
  lemma OnlyFindOrBuilds<R>(name: string, args: seq<Value>, first: Option<R>, all: seq<R>)
    ensures var r := Call(name, args, first, all);
      r.Some? && (r.value.1.Created? || r.value.1.Initialized?) ==>
        first.None? && Match(name).value.scope in {OrInit, OrCreate}
  {
  }
}
