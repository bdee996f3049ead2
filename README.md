# sweet (pyrails): SQL clause builders and ActiveRecord decisions, in Dafny

This project models two parts of the `sweet` ActiveRecord ORM and proves properties of them.

**The SQL clause builders.** These are `WhereClause`, `HavingClause`, `JoinClause`, `LeftJoinClause`, `RightJoinClause`, `OrderClause`, `GroupClause`, `SelectClause` and `PageClause`.
- Each builder is a class whose chain methods (`and_`, `or_`, `on`, `by`, `select`, `distinct`, `offset`, `limit`, `page`) update its fields in place.
- `compile()` is a pure function of those fields. It returns an SQL fragment and the list of bound values.
- A keyword such as `users__age__not=[1, 2]` is parsed into a dotted column path, an optional operator suffix and a value. The value's shape (`None`, a scalar or a list) picks the operator.
- The main invariant is lock-step: the fragment holds exactly one placeholder per bound value, in order.

The implementation module of the builders, `sweet/database/clauses.py`, is not part of this model. The builders are modelled from the behaviour their unit tests pin down (`tests/unit/test_clauses.py`). Methods in `Scenarios` replay the call sequences of the tests at lines 28-31 and 126-129 (`and_` on WHERE and HAVING), 113-114 (BETWEEN arity), 116-119 (`or_`), 136-142 (ORDER and GROUP), 247-269 (page and SELECT) and 271-294 (the joins), and promise the exact SQL text and bindings each expects. The other operator tests (lines 33-111 and 144-245) are not replayed one by one. The general lemmas `ShapeOperators`, `SuffixOperators`, `BetweenArityRule`, `FirstConditionHasNoConnective` and `AppendCondition` state the rendering and bindings they check, for every key and value.

**The ActiveRecord logic in `record.py`.** This covers:
- the column checks made when a model class is defined;
- attribute lookup with `None` for unset columns;
- the constructor's merge of dictionary and keyword arguments;
- dirty tracking against the origin map, and `_sync_attrs`;
- the `persist_attrs` projection;
- the persisted/not-persisted decisions of `find`, `save`, `update_attributes` and `delete`;
- the dynamic finders `find_by_…`, `find_all_by_…`, `find_or_init_by_…` and `find_or_create_by_…`.

The database is a parameter. What a query returns is passed in, and what a write would send is returned as a `Write` value.

Files, one module each:
- `wrappers.dfy`: `Option` and `Result`.
- `strings.dfy`: Python's `str.split`, `str.join` and `str(int)`, with their round trips, plus a character count.
- `clauses.dfy`: keyword parsing, predicate rendering and the condition-clause compiler, with its lemmas.
- `listclauses.dfy`: the ORDER BY, GROUP BY, SELECT and LIMIT/OFFSET compilers.
- `builders.dfy`: the builder classes.
- `scenarios.dfy`: the unit-test call sequences.
- `records.dfy`: the model class, `Record`, and `find`.
- `finders.dfy`: `MethodMissing`.

## Model

| member | source | states |
|---|---|---|
| Clauses.ParseKey | tests/unit/test_clauses.py:38-114 | A key splits on `__` into a non-empty column path plus at most one suffix, and the suffix is one of the nine known operators |
| Clauses.ParseKeyRoundTrip | tests/unit/test_clauses.py:83-111 | Parsing loses nothing: joining the path and the suffix back with `__` gives the original keyword |
| Clauses.ParseKeyText | tests/unit/test_clauses.py:271-284 | For a non-empty path whose segments do not contain or end in a stray `_` and a known suffix (or none, and then no last segment that reads as a suffix), writing the key out and parsing it gives the same path and suffix back (`mobiles__name` is the path `mobiles`, `name`) |
| Clauses.ParseArg | tests/unit/test_clauses.py:28-114 | An argument fails exactly when its suffix is `bt`/`not_bt` and the value is not a 2-element list; the error names the key. Otherwise the predicate keeps the key's path, is negated exactly for `not`/`not_like`/`not_bt`, and binds nothing for NULL, the list's elements for IN/BETWEEN, and the value alone for a comparison |
| Clauses.ParseArgsOk | tests/unit/test_clauses.py:33-36 | A successful `and_`/`or_` call yields one condition per keyword, in keyword order, each carrying that keyword's predicate and the call's connective |
| Clauses.ParseArgsErr | tests/unit/test_clauses.py:113-114 | A call fails exactly when one of its keywords fails to parse |
| Clauses.ParseOn | tests/unit/test_clauses.py:271-273 | `on(text)` succeeds exactly when `text` splits on `=` into two sides; the dotted sides joined back around `=` give `text` |
| Clauses.ShapeOperators | tests/unit/test_clauses.py:28-81 | With no suffix or `__not`, the value's shape picks the operator. A scalar gives `= %s` / `<> %s` with one binding. A list gives `IN (…)` / `NOT IN (…)` with one placeholder and one binding per element, and `IN ()` for an empty list. `None` gives `IS NULL` / `IS NOT NULL` with no binding |
| Clauses.SuffixOperators | tests/unit/test_clauses.py:83-101 | `__gt`, `__gte`, `__lt`, `__lte`, `__like` and `__not_like` render `>`, `>=`, `<`, `<=`, `LIKE` and `NOT LIKE` before one placeholder, binding the value alone |
| Clauses.BetweenArityRule | tests/unit/test_clauses.py:103-114 | `__bt`/`__not_bt` parse exactly when the value is a 2-element list; they render `[NOT ]BETWEEN %s AND %s` and bind both elements in order |
| Clauses.CompileConditions | tests/unit/test_clauses.py:23-26 | The bindings are the conditions' values in order. A WHERE or HAVING clause with no conditions compiles to `('', [])`, and no other state compiles to that |
| Clauses.FirstConditionHasNoConnective | tests/unit/test_clauses.py:116-119 | The first predicate follows the keyword directly, with no AND/OR: its connective is irrelevant |
| Clauses.AppendCondition | tests/unit/test_clauses.py:207-245 | Each later predicate adds ` AND `/` OR ` (its own connective) and its rendering to the text, and its values to the end of the bindings |
| Clauses.JoinOnCondition | tests/unit/test_clauses.py:271-273 | A join with only `on('a.b=c.d')` renders `INNER/LEFT/RIGHT JOIN <table> ON <a.b> = <c.d>`, each side quoted per dotted segment, with no bindings |
| Clauses.LockStep | tests/unit/test_clauses.py:43-81 | For any clause state, the compiled text holds exactly as many placeholder markers as there are bindings. This needs a marker character absent from the quote and from all names |
| ListClauses.CompileOrder | tests/unit/test_clauses.py:136-138 | ORDER compiles to `''` exactly when nothing was ordered, and otherwise starts with `ORDER BY ` |
| ListClauses.OrderByAppends | tests/unit/test_clauses.py:136-138 | Each `by` appends `, ` and its item to the earlier text (the first one follows `ORDER BY `) |
| ListClauses.OrderDirection | tests/unit/test_clauses.py:136-138 | An item ends in ` DESC` exactly when `desc=True`; what precedes is the quoted column |
| ListClauses.OrderListing | tests/unit/test_clauses.py:136-138 | After `ORDER BY `, splitting on `, ` gives back the items, one per `by` call, in call order |
| ListClauses.CompileGroup | tests/unit/test_clauses.py:140-142 | GROUP compiles to `''` exactly when no column was given, and otherwise starts with `GROUP BY ` |
| ListClauses.GroupByAccumulates | tests/unit/test_clauses.py:140-142 | Grouping by more columns appends `, ` and their quoted names to the earlier text |
| ListClauses.GroupListing | tests/unit/test_clauses.py:140-142 | After `GROUP BY `, splitting on `, ` gives back the quoted columns in order |
| ListClauses.SelectList | tests/unit/test_clauses.py:255-257 | The select list is `*` exactly when no column was selected (or the only column quotes to `*`) |
| ListClauses.CompileSelect | tests/unit/test_clauses.py:255-269 | SELECT always starts with `SELECT `, followed by `DISTINCT ` once `distinct()` was called |
| ListClauses.SelectAccumulates | tests/unit/test_clauses.py:259-261 | Selecting more columns appends `, ` and their quoted names |
| ListClauses.DistinctOnlyPrefixes | tests/unit/test_clauses.py:263-269 | `distinct()` changes nothing but the `DISTINCT ` after `SELECT ` |
| ListClauses.SelectListing | tests/unit/test_clauses.py:259-261 | After the keywords, splitting on `, ` gives back the quoted columns in call order, dotted names quoted per segment |
| ListClauses.CompilePage | tests/unit/test_clauses.py:247-249 | LIMIT/OFFSET compiles to `''` exactly when neither was set |
| ListClauses.PageRoundTrip | tests/unit/test_clauses.py:247-249 | The text `LIMIT n OFFSET m` (either part may be absent) parses back to exactly the limit and offset that were set |
| ListClauses.PageWindow | tests/unit/test_clauses.py:251-253 | `page(num, per)` limits to `per` rows; page 1 starts at offset 0, and the offset is non-negative for page numbers from 1. With `PagesTile` this fixes page `n`'s offset at `per * (n - 1)` |
| ListClauses.PagesTile | tests/unit/test_clauses.py:251-253 | Page `n + 1` starts where page `n` ends: its offset is page `n`'s offset plus its limit |
| ClauseBuilders.ParseCall | tests/unit/test_clauses.py:33-36 | The loop over one call's keywords returns what `ParseArgs` specifies: every condition in order, or the first error |
| ClauseBuilders.ConditionClause.WhereClause | tests/unit/test_clauses.py:13 | `WhereClause(q, ph)` starts empty: no `on`, no conditions |
| ClauseBuilders.ConditionClause.HavingClause | tests/unit/test_clauses.py:14 | `HavingClause(q, ph)` starts empty |
| ClauseBuilders.ConditionClause.JoinClause | tests/unit/test_clauses.py:15 | `JoinClause(q, ph, table)` is an empty INNER join on `table` |
| ClauseBuilders.ConditionClause.LeftJoinClause | tests/unit/test_clauses.py:16 | An empty LEFT join on `table` |
| ClauseBuilders.ConditionClause.RightJoinClause | tests/unit/test_clauses.py:17 | An empty RIGHT join on `table` |
| ClauseBuilders.ConditionClause.Add | tests/unit/test_clauses.py:28-36 | A call whose keywords all parse appends their conditions after the earlier ones. A failing call appends nothing and reports the error. `on` is untouched, and every stored predicate stays well formed |
| ClauseBuilders.ConditionClause.And | tests/unit/test_clauses.py:28-31 | `and_(**kw)` is `Add` with connective AND |
| ClauseBuilders.ConditionClause.Or | tests/unit/test_clauses.py:116-119 | `or_(**kw)` is `Add` with connective OR, on every keyword of the call |
| ClauseBuilders.ConditionClause.On | tests/unit/test_clauses.py:271-273 | `on(text)` on a join replaces the `on` condition with the parsed one, or reports the error and keeps the old one; the conditions are untouched |
| ClauseBuilders.ConditionClause.Compile | tests/unit/test_clauses.py:23-31 | `compile()` returns the conditions' values in order as the bindings; an empty WHERE or HAVING gives `('', [])`, a join never does. The text itself is `Clauses.CompileConditions`, and its placeholder count is fixed by `Clauses.LockStep` |
| ClauseBuilders.OrderClause.constructor | tests/unit/test_clauses.py:18 | A new ORDER clause has no orderings |
| ClauseBuilders.OrderClause.By | tests/unit/test_clauses.py:136-138 | `by(column, desc)` appends one ordering after the earlier ones |
| ClauseBuilders.GroupClause.constructor | tests/unit/test_clauses.py:19 | A new GROUP clause has no columns |
| ClauseBuilders.GroupClause.By | tests/unit/test_clauses.py:140-142 | `by(*columns)` appends the columns in order |
| ClauseBuilders.SelectClause.constructor | tests/unit/test_clauses.py:20 | A new SELECT clause has no columns and is not distinct |
| ClauseBuilders.SelectClause.Select | tests/unit/test_clauses.py:259-261 | `select(*names)` appends the names and keeps the distinct flag |
| ClauseBuilders.SelectClause.Distinct | tests/unit/test_clauses.py:263-269 | `distinct()` sets the flag and keeps the columns |
| ClauseBuilders.PageClause.constructor | tests/unit/test_clauses.py:21 | A new page clause has neither limit nor offset |
| ClauseBuilders.PageClause.Offset | tests/unit/test_clauses.py:247-249 | `offset(n)` sets the offset and keeps the limit |
| ClauseBuilders.PageClause.Limit | tests/unit/test_clauses.py:247-249 | `limit(n)` sets the limit and keeps the offset |
| ClauseBuilders.PageClause.Page | tests/unit/test_clauses.py:251-253 | `page(num, per)` sets both from the page window |
| ClauseBuilders.OrderClause.Compile | tests/unit/test_clauses.py:137 | `compile()` returns the pair (ORDER text, bindings), and the bindings are empty |
| ClauseBuilders.GroupClause.Compile | tests/unit/test_clauses.py:141 | `compile()` returns the pair (GROUP text, bindings), and the bindings are empty |
| ClauseBuilders.SelectClause.Compile | tests/unit/test_clauses.py:256 | `compile()` returns the pair (SELECT text, bindings), and the bindings are empty |
| ClauseBuilders.PageClause.Compile | tests/unit/test_clauses.py:248 | `compile()` returns the pair (LIMIT/OFFSET text, bindings), and the bindings are empty |
| Scenarios.TwoEqualities | tests/unit/test_clauses.py:28-36 | For any two plain columns, two equality predicates compile to the keyword, `` `k1` = %s ``, the second connective and `` `k2` = %s ``, binding both values in order |
| Scenarios.AndScenario | tests/unit/test_clauses.py:28-31 | `and_(id=1).and_(name='ryanpoy')` on WHERE (or HAVING, lines 126-129) compiles to ``WHERE `id` = %s AND `name` = %s`` with bindings `[1, 'ryanpoy']` |
| Scenarios.OrScenario | tests/unit/test_clauses.py:116-119 | `or_(id=1, name='ryanpoy')` compiles to ``WHERE `id` = %s OR `name` = %s`` with bindings `[1, 'ryanpoy']` |
| Scenarios.BetweenArityScenario | tests/unit/test_clauses.py:113-114 | `and_(id__bt=[1, 2, 3])` reports the BETWEEN arity error for `id__bt` and leaves the clause compiling to `''` |
| Scenarios.JoinTwo | tests/unit/test_clauses.py:271-294 | For any join type, table, `on` condition and two predicates under one connective, the join compiles to the type, `JOIN`, the table, `ON`, the `on` sides, then each predicate after the connective, binding the predicates' values in order |
| Scenarios.OnText | tests/unit/test_clauses.py:271-273 | `on('a.b=c.d')` parses into the paths `a.b` and `c.d` |
| Scenarios.JoinScenario | tests/unit/test_clauses.py:271-294 | The INNER/LEFT/RIGHT join tests with `on('users.id=cars.user_id')` and two `and_`/`or_` calls compile to the exact expected text, with bindings `['iphone', 20]` |
| Scenarios.JoinWithoutOnScenario | tests/unit/test_clauses.py:281-284 | Without `on`, the join starts at its first predicate: ``INNER JOIN `mobiles` ON `mobiles`.`name` = %s OR `users`.`age` = %s`` |
| Scenarios.OrderTwo | tests/unit/test_clauses.py:136-138 | For any two columns, ascending then descending, ORDER compiles to `ORDER BY <c1>, <c2> DESC` |
| Scenarios.OrderByScenario | tests/unit/test_clauses.py:136-138 | `by('email').by('age', desc=True)` compiles to ``ORDER BY `email`, `age` DESC`` |
| Scenarios.GroupTwo | tests/unit/test_clauses.py:140-142 | For any two columns, GROUP compiles to `GROUP BY <c1>, <c2>` |
| Scenarios.GroupByScenario | tests/unit/test_clauses.py:140-142 | `by('id', 'email')` compiles to ``GROUP BY `id`, `email` `` |
| Scenarios.SelectAllScenario | tests/unit/test_clauses.py:255-265 | A fresh SELECT compiles to `SELECT *`, and after `distinct()` to `SELECT DISTINCT *` |
| Scenarios.SelectTwo | tests/unit/test_clauses.py:259-261 | For any plain name and dotted name, the select list quotes each segment: `` `a`, `t`.`c` `` |
| Scenarios.SelectColumnsScenario | tests/unit/test_clauses.py:259-269 | `select('name').select('users.age')` compiles to ``SELECT `name`, `users`.`age` ``, and with `distinct()` to ``SELECT DISTINCT `name`, `users`.`age` `` |
| Scenarios.PageScenario | tests/unit/test_clauses.py:247-253 | `offset(5).limit(10)` compiles to `LIMIT 10 OFFSET 5`, and `page(2, 15)` to `LIMIT 15 OFFSET 15` |
| Records.FirstFailure | record.py:23-31 | The checks pass exactly when no configured column is missing. Otherwise the error reported is that of the first failing check in list order |
| Records.DefineClass | record.py:20-31 | Defining a model class succeeds exactly when it is the base class or the primary key and every truthy timestamp column are declared columns. A missing primary key always gives `PKColumnNotInColumns` |
| Records.DefaultsNeedTheirColumns | record.py:93-97 | A model that keeps the base class's defaults (`id`, `created_at`, `updated_at`, no `_on` columns) is defined exactly when it declares those three columns; without `id` it fails with `PKColumnNotInColumns` |
| Records.CheckOrder | record.py:23-31 | With the primary key declared, the error is the first missing one of created_at, updated_at, created_on, updated_on, in that order |
| Records.Lookup | record.py:131-137 | Reading an attribute succeeds exactly when it is set or is a declared column. A set attribute gives its value and an unset column gives `None`; anything else is an attribute error |
| Records.ColumnIgnoresDefault | record.py:126-129 | `getattr(self, col, d)` on a declared column never returns the default `d`: an unset column reads as `None` |
| Records.Record.constructor | record.py:100-104 | A record holds the dictionary's entries and then the keyword arguments, a keyword winning on a shared key. It starts unpersisted with an empty origin map |
| Records.DirtyKeys | record.py:109-114 | Only keys of the origin map can be dirty |
| Records.Record.IsDirty | record.py:109-120 | The loop's answer is the specification: False when nothing is dirty, else True exactly when every named attribute is dirty |
| Records.IsDirtyNarrows | record.py:115-120 | Naming more attributes can only turn True into False, and any True answer means something is dirty |
| Records.DirtyAfterAssign | record.py:368-369 | After attributes are assigned, an origin key is dirty exactly when its new value differs from the recorded one; unassigned keys keep their dirtiness |
| Records.Snapshot | record.py:126-129 | The synchronised values cover exactly the declared columns |
| Records.Record.SyncAttrs | record.py:126-129 | `_sync_attrs` records every column's current value (`None` if unset) in the origin map and changes nothing else |
| Records.SyncedIsClean | record.py:126-129 | Right after a sync nothing is dirty, so `is_dirty(...)` is False for any names |
| Records.PersistAttrs | record.py:143-147 | Exactly one entry per declared column, holding its value or `None`; the primary key is dropped unless `contains_id` |
| Records.SnapshotIsPersistAttrs | record.py:143-147 | What a sync records is `persist_attrs(contains_id=True)` |
| Records.Record.Save | record.py:328-346 | An unpersisted record is inserted without its primary key, receives the inserted id and becomes persisted. A persisted one is updated by its key. Either way it is then synchronised |
| Records.SaveThenClean | record.py:328-346 | After `save()` a record is persisted and not dirty |
| Records.Record.UpdateAttributes | record.py:356-370 | On an unpersisted record it fails with `RecordHasNotBeenPersisted` and changes nothing. Otherwise it sends the update by primary key and assigns the attributes, without synchronising |
| Records.Record.Delete | record.py:381-395 | On an unpersisted record it fails with `RecordHasNotBeenPersisted`. Otherwise it deletes by primary key |
| Records.Find | record.py:213-227 | `find` with exactly one id fails with `RecordNotFound` when the query finds nothing and otherwise returns that record. With any other number of ids it returns the query's whole result, unchecked |
| Records.FindIgnoresPrimaryKey | record.py:220 | As written, `find` filters on the column `id` whatever the model's primary key is |
| Records.FindFiltersOnPrimaryKey | record.py:220 | Filtering on the model's primary key gives the IN predicate on that key over the ids |
| Finders.Tail | record.py:459-460 | A finder's column part is an identifier, optionally followed by the one final newline that Python's `$` admits |
| Finders.TryScopeSound | record.py:459-460 | A pattern that matches gives its own scope, and the name is that scope's prefix plus an identifier (and at most a final newline) |
| Finders.MatchSound | record.py:466-468 | Whatever `match` accepts is a finder prefix plus an identifier |
| Finders.Match | record.py:466-468 | `match(name)` tries the `find_(all_by\|by)_` pattern, then the `find_or_(init\|create)_by_` one: a result is what its own scope's pattern gives, and no result means no pattern matches. `MatchSound` and `MatchComplete` state what the patterns accept |
| Finders.PrefixesDisjoint | record.py:459-460 | No finder prefix matches a name built from another scope's prefix |
| Finders.MatchComplete | record.py:466-468 | Every finder prefix followed by an identifier (with or without a final newline) is accepted, with that scope and column text |
| Finders.Columns | record.py:474 | The column text splits on `_and_` into at least one name, and joining them back gives the text |
| Finders.ColumnsOfJoin | record.py:474 | Column names with no `_and_` inside them (or across their joins) are recovered exactly by splitting the finder name built from them |
| Finders.FindByNameAndAge | record.py:64-65 | `find_by_name_and_age('pengyi', 28)` binds `name` to `'pengyi'` and `age` to `28` |
| Finders.Zip | record.py:475 | `zip` pairs names and arguments by position and stops at the shorter one |
| Finders.DictOf | record.py:475 | `dict(pairs)` has exactly the pairs' keys |
| Finders.DictOfLastWins | record.py:475 | In `dict(pairs)` a key maps to the value of its last pair |
| Finders.ArgumentsByPosition | record.py:471-475 | With distinct column names, the i-th column is bound exactly when there is an i-th argument, and then to that argument |
| Finders.Call | record.py:470-495 | No finder matches exactly when there is no result. `all_by` returns every match and `by` the first. `find_or_init_by`/`find_or_create_by` return the first match when there is one; otherwise they construct or create a record from the arguments |
| Finders.OnlyFindOrBuilds | record.py:486-494 | Only the `find_or_*` forms, and only when nothing was found, construct or create a record |

## Left out

- Database execution is not modelled. The results of `first()`, `all()` and `insert()` are parameters, and `update`, `delete` and `insert` are returned as `Write` values.
- `_prepare_at_or_on` and the timestamp columns it fills are not modelled, because they read the wall clock. So `Records.Record.Save` and `Records.Record.UpdateAttributes` send the attributes without timestamps.
- `Records.Record.Delete` does not model the `_delete` call on each relation (record.py:390-391), because the relation classes are not part of this model.
- Table naming (`tableize`), relation injection and the metaclass `__getattribute__` hook that routes unknown class attributes to `MethodMissing` are not modelled. They are Python dynamic dispatch or helpers that are not part of this model.
- `Records.Lookup` does not model other Python attribute sources, such as class attributes and methods. Only the instance dictionary and the declared columns are modelled.
- `sweet/database/clauses.py` is not part of this model. The builders follow the behaviour that `tests/unit/test_clauses.py` pins down.
  - `or_(a=…, b=…)` joins every keyword of the call with OR, as lines 116-119 and 207-245 expect.
  - An empty SELECT compiles to `SELECT *`, as lines 255-257 expect.
- The following are modelled assumptions. No test pins them:
  - An operator suffix that is not one of the nine known ones becomes a further column segment (`a__foo` is `` `a`.`foo` ``). This is the same rule that makes `mobiles__name` a qualified column.
  - `ClauseBuilders.GroupClause.By`: the tests call `by` once; a second call appends to the first.
  - A join with neither `on` nor predicates compiles to its `JOIN <table>` head with no `ON`. The tests never compile such a join.
  - `ClauseBuilders.ConditionClause.Add`: when any keyword of one `and_`/`or_` call fails to parse, nothing of that call is appended. The tests only check that the call raises (lines 113-114 and 184-185).
  - `ClauseBuilders.ConditionClause.On`: a second `on` replaces the first. Text that does not split into two sides around `=` is refused with the `MalformedOn` error. The tests call `on` once, with well-formed text.
  - A list value under `__gt`, `__gte`, `__lt`, `__lte`, `__like` or `__not_like` is bound as one value. The tests use these suffixes with scalars only.
  - A value under `__bt`/`__not_bt` that is not a list, such as a scalar, is refused like a list of the wrong length. The tests refuse only a 3-element list.
  - ORDER BY and GROUP BY quote a dotted column segment by segment, as SELECT does (lines 259-261). Their tests use plain names only.
  - `Records.Find`: the tuple of ids is bound as one `List` value under the `id` key. `where` is not part of this model.
- Keyword arguments are an ordered sequence of (name, value) pairs in call order. Python 2 does not define the order of `**kwargs`; the tests rely on the order as written.
- Values are `None`, integers, text and lists. Other Python types, and formatting values into SQL, are left out.

## Findings

| source | as written | input that shows it | evidently intended | confidence | as-written member | corrected member |
|---|---|---|---|---|---|---|
| record.py:220 | `find` filters with `where(id=ids)`, always on the column `id` | a model whose `__pk__` is `uid` (with `uid` declared): `find(1)` queries the column `id` | filter on the model's primary key, as `save`, `update_attributes` and `delete` do | not executed | Records.FindIgnoresPrimaryKey | Records.FindFiltersOnPrimaryKey |
