/**
 * The clauses that compile a list of names rather than predicates: ORDER BY, GROUP BY
 * and SELECT, plus LIMIT/OFFSET. None of them binds a value; each compiles to SQL text
 * only.
 */
module ListClauses {
  import opened Wrappers
  import opened Strings
  import opened Clauses

  /** The separator between the items of a column list. */
  const ItemSeparator := ", "

  /** Each name quoted segment by segment, in order. */
  function QuotedNames(q: string, names: seq<string>): (items: seq<string>)
    ensures |items| == |names|
  {
    seq(|names|, i requires 0 <= i < |names| => QuoteName(q, names[i]))
  }

  // ---------------------------------------------------------------------------
  // ORDER BY

  /** One `by(column, desc)` call of the order clause. */
  datatype Ordering = Ordering(column: string, desc: bool)

  function OrderItem(q: string, o: Ordering): string
  {
    QuoteName(q, o.column) + (if o.desc then " DESC" else "")
  }

  function OrderItems(q: string, orders: seq<Ordering>): (items: seq<string>)
    ensures |items| == |orders|
  {
    seq(|orders|, i requires 0 <= i < |orders| => OrderItem(q, orders[i]))
  }

  /** `ORDER BY` and the orderings in call order; nothing at all without any. */
  function CompileOrder(q: string, orders: seq<Ordering>): (r: string)
    ensures r == "" <==> orders == []
    ensures orders != [] ==> |r| >= 9 && r[..9] == "ORDER BY "
  {
    if orders == [] then "" else "ORDER BY " + Join(ItemSeparator, OrderItems(q, orders))
  }

  // ---------------------------------------------------------------------------
  // GROUP BY

  /** `GROUP BY` and the columns in call order; nothing at all without any. */
  function CompileGroup(q: string, columns: seq<string>): (r: string)
    ensures r == "" <==> columns == []
    ensures columns != [] ==> |r| >= 9 && r[..9] == "GROUP BY "
  {
    if columns == [] then "" else "GROUP BY " + Join(ItemSeparator, QuotedNames(q, columns))
  }

  // ---------------------------------------------------------------------------
  // SELECT

  /** The select list: `*` until a column is selected. */
  function SelectList(q: string, columns: seq<string>): (r: string)
    ensures r == "*" <==> columns == [] || (|columns| == 1 && QuoteName(q, columns[0]) == "*")
  {
    if columns == [] then "*" else Join(ItemSeparator, QuotedNames(q, columns))
  }

  /** `SELECT`, then `DISTINCT` once it was asked for, then the select list. */
  function CompileSelect(q: string, columns: seq<string>, distinct: bool): (r: string)
    ensures |r| >= 7 && r[..7] == "SELECT "
    ensures distinct ==> |r| >= 16 && r[7..16] == "DISTINCT "
  {
    "SELECT " + (if distinct then "DISTINCT " else "") + SelectList(q, columns)
  }

  // ---------------------------------------------------------------------------
  // LIMIT / OFFSET

  /** The words of the page clause: each segment only when it was set. */
  function PageWords(limit: Option<int>, offset: Option<int>): (words: seq<string>)
    ensures |words| == (if limit.Some? then 2 else 0) + (if offset.Some? then 2 else 0)
  {
    (if limit.Some? then ["LIMIT", IntToString(limit.value)] else [])
    + (if offset.Some? then ["OFFSET", IntToString(offset.value)] else [])
  }

  /** `LIMIT n OFFSET m`, leaving out whichever was never set. */
  function CompilePage(limit: Option<int>, offset: Option<int>): (r: string)
    ensures r == "" <==> limit.None? && offset.None?
  {
    Join(" ", PageWords(limit, offset))
  }

  /** Reads back the limit and offset from the text of a page clause. */
  function ParsePage(s: string): (Option<int>, Option<int>)
  {
    if s == "" then (None, None)
    else
      var w := Split(s, " ");
      if |w| == 4 && w[0] == "LIMIT" && w[2] == "OFFSET" then (Some(ParseInt(w[1])), Some(ParseInt(w[3])))
      else if |w| == 2 && w[0] == "LIMIT" then (Some(ParseInt(w[1])), None)
      else if |w| == 2 && w[0] == "OFFSET" then (None, Some(ParseInt(w[1])))
      else (None, None)
  }

  /** `page(num, per)`: a window of `per` rows that skips the `num - 1` pages before it. */
  function PageWindow(num: int, per: int): (window: (int, int))
    ensures window.0 == per
    ensures num == 1 ==> window.1 == 0
    ensures num >= 1 && per >= 0 ==> window.1 >= 0
  {
    (per, per * (num - 1))
  }

  // ---------------------------------------------------------------------------
  // What the compilers promise

  /** A column list splits back into its items when no item holds a comma. */
  lemma ListingSplits(items: seq<string>)
    requires |items| > 0
    requires forall k :: 0 <= k < |items| ==> ',' !in items[k]
    ensures Split(Join(ItemSeparator, items), ItemSeparator) == items
  {
    forall k | 0 <= k < |items| - 1
      ensures !Contains(items[k] + ItemSeparator[..|ItemSeparator| - 1], ItemSeparator)
    {
      AbsentHeadThenPrefix(items[k], ItemSeparator);
    }
    AbsentHead(items[|items| - 1], ItemSeparator);
    SplitJoin(items, ItemSeparator);
  }

  /**
   * The ORDER BY list reads back as the orderings' items, in call order, whenever the
   * quote character and the columns hold no comma.
   */
  lemma OrderListing(q: string, orders: seq<Ordering>)
    requires orders != [] && ',' !in q
    requires forall k :: 0 <= k < |orders| ==> ',' !in orders[k].column
    ensures Split(CompileOrder(q, orders)[9..], ItemSeparator) == OrderItems(q, orders)
  {
    var items := OrderItems(q, orders);
    forall k | 0 <= k < |items|
      ensures ',' !in items[k]
    {
      QuoteNameFree(',', q, orders[k].column);
    }
    ListingSplits(items);
  }

  /** Each `by` call adds its item at the end of the ORDER BY list. */
  lemma OrderByAppends(q: string, orders: seq<Ordering>, o: Ordering)
    ensures CompileOrder(q, orders + [o])
      == (if orders == [] then "ORDER BY " else CompileOrder(q, orders) + ItemSeparator) + OrderItem(q, o)
  {
    var items := OrderItems(q, orders + [o]);
    if orders == [] {
      assert items == [OrderItem(q, o)];
    } else {
      assert items == OrderItems(q, orders) + [OrderItem(q, o)];
      JoinSnoc(ItemSeparator, OrderItems(q, orders), OrderItem(q, o));
    }
  }

  /** A descending ordering is its quoted column followed by `DESC`; an ascending one is the bare column. */
  lemma OrderDirection(q: string, o: Ordering)
    ensures var item := OrderItem(q, o);
      o.desc <==> |item| >= 5 && item[|item| - 5..] == " DESC" && item[..|item| - 5] == QuoteName(q, o.column)
  {
    var item := OrderItem(q, o);
    if !o.desc && |item| >= 5 && item[..|item| - 5] == QuoteName(q, o.column) {
      assert |item| == |QuoteName(q, o.column)|;
    }
  }

  /** Grouping by two runs of columns lists the first run, then the second. */
  lemma GroupByAccumulates(q: string, first: seq<string>, second: seq<string>)
    requires first != [] && second != []
    ensures CompileGroup(q, first + second)
      == CompileGroup(q, first) + ItemSeparator + Join(ItemSeparator, QuotedNames(q, second))
  {
    assert QuotedNames(q, first + second) == QuotedNames(q, first) + QuotedNames(q, second);
    JoinConcat(ItemSeparator, QuotedNames(q, first), QuotedNames(q, second));
  }

  /** The GROUP BY list reads back as the quoted columns, in order. */
  lemma GroupListing(q: string, columns: seq<string>)
    requires columns != [] && ',' !in q
    requires forall k :: 0 <= k < |columns| ==> ',' !in columns[k]
    ensures Split(CompileGroup(q, columns)[9..], ItemSeparator) == QuotedNames(q, columns)
  {
    var items := QuotedNames(q, columns);
    forall k | 0 <= k < |items|
      ensures ',' !in items[k]
    {
      QuoteNameFree(',', q, columns[k]);
    }
    ListingSplits(items);
  }

  /** Selecting more columns extends the list rather than replacing it. */
  lemma SelectAccumulates(q: string, columns: seq<string>, more: seq<string>, distinct: bool)
    requires columns != [] && more != []
    ensures CompileSelect(q, columns + more, distinct)
      == CompileSelect(q, columns, distinct) + ItemSeparator + Join(ItemSeparator, QuotedNames(q, more))
  {
    assert QuotedNames(q, columns + more) == QuotedNames(q, columns) + QuotedNames(q, more);
    JoinConcat(ItemSeparator, QuotedNames(q, columns), QuotedNames(q, more));
  }

  /** `distinct()` only inserts `DISTINCT ` after `SELECT `; the list is untouched. */
  lemma DistinctOnlyPrefixes(q: string, columns: seq<string>)
    ensures CompileSelect(q, columns, true) == "SELECT DISTINCT " + CompileSelect(q, columns, false)[7..]
  {
  }

  /** The SELECT list reads back as the quoted columns, in order. */
  lemma SelectListing(q: string, columns: seq<string>, distinct: bool)
    requires columns != [] && ',' !in q
    requires forall k :: 0 <= k < |columns| ==> ',' !in columns[k]
    ensures var start := if distinct then 16 else 7;
      Split(CompileSelect(q, columns, distinct)[start..], ItemSeparator) == QuotedNames(q, columns)
  {
    var items := QuotedNames(q, columns);
    forall k | 0 <= k < |items|
      ensures ',' !in items[k]
    {
      QuoteNameFree(',', q, columns[k]);
    }
    ListingSplits(items);
    var r := CompileSelect(q, columns, distinct);
    var start := if distinct then 16 else 7;
    assert r[start..] == Join(ItemSeparator, items);
  }

  lemma NoSpaceInNumber(i: int)
    ensures ' ' !in IntToString(i)
  {
    var r := IntToString(i);
    if i < 0 {
      assert r == "-" + NatToString(-i);
      assert forall k :: 1 <= k < |r| ==> r[k] == NatToString(-i)[k - 1];
    }
  }

  /** Whatever limit and offset were set, the page clause reads back as exactly those. */
  lemma PageRoundTrip(limit: Option<int>, offset: Option<int>)
    ensures ParsePage(CompilePage(limit, offset)) == (limit, offset)
  {
    var words := PageWords(limit, offset);
    if words != [] {
      forall k | 0 <= k < |words|
        ensures ' ' !in words[k]
      {
        if limit.Some? { NoSpaceInNumber(limit.value); }
        if offset.Some? { NoSpaceInNumber(offset.value); }
      }
      forall k | 0 <= k < |words| - 1
        ensures !Contains(words[k] + " "[..0], " ")
      {
        assert words[k] + " "[..0] == words[k];
        AbsentHead(words[k], " ");
      }
      AbsentHead(words[|words| - 1], " ");
      SplitJoin(words, " ");
      assert CompilePage(limit, offset) != "";
      if limit.Some? { IntToStringRoundTrip(limit.value); }
      if offset.Some? { IntToStringRoundTrip(offset.value); }
    }
  }

  /** Consecutive pages are adjacent: page `num + 1` starts where page `num` ends. */
  lemma PagesTile(num: int, per: int)
    ensures PageWindow(num + 1, per).1 == PageWindow(num, per).1 + PageWindow(num, per).0
  {
  }
}
