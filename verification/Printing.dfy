/** Queries written back as text, and why reading that text gives the query again. */
module Printing {
  import opened Texts
  import opened Numbers
  import opened Grammar

  function ConditionWords(conditions: seq<string>): seq<string> {
    if conditions == [] then [] else ["WHERE"] + conditions
  }

  function LimitWords(limit: nat): seq<string> {
    if limit == SIZE_MAX then [] else ["LIMIT", Decimal(limit)]
  }

  function OrderItems(order: seq<Order>): seq<string> {
    if order == [] then []
    else [order[0].column, if order[0].greater then "ASC" else "DESC"] + OrderItems(order[1..])
  }

  function OrderWords(order: seq<Order>): seq<string> {
    if order == [] then [] else ["ORDER", "BY"] + OrderItems(order)
  }

  function SetWords(columns: seq<string>, values: seq<string>): seq<string>
    requires |columns| == |values|
  {
    if columns == [] then [] else [columns[0], "=", values[0]] + SetWords(columns[1..], values[1..])
  }

  function TableWords(table: string): seq<string> {
    if table == "" then [] else [table]
  }

  function TailWords(conditions: seq<string>, limit: nat): seq<string> {
    ConditionWords(conditions) + LimitWords(limit)
  }

  function Keyword(q: Query): string {
    match q
    case Select(_, _, _, _, _) => "SELECT"
    case Insert(_, _) => "INSERT"
    case Delete(_, _, _) => "DELETE"
    case Update(_, _, _, _, _) => "UPDATE"
  }

  function Arguments(q: Query): seq<string>
    requires q.Update? ==> |q.columns| == |q.values|
  {
    match q
    case Select(columns, table, conditions, limit, order) =>
      columns + (["FROM", table] + (ConditionWords(conditions) + (LimitWords(limit) + OrderWords(order))))
    case Insert(table, values) =>
      ["INTO"] + (TableWords(table) + values)
    case Delete(table, conditions, limit) =>
      ["FROM"] + (TableWords(table) + TailWords(conditions, limit))
    case Update(table, columns, values, conditions, limit) =>
      [table, "SET"] + (SetWords(columns, values) + TailWords(conditions, limit))
  }

  function QueryWords(q: Query): seq<string>
    requires q.Update? ==> |q.columns| == |q.values|
  {
    [Keyword(q)] + Arguments(q)
  }

  function Print(q: Query): string
    requires q.Update? ==> |q.columns| == |q.values|
  {
    Join(QueryWords(q))
  }

  predicate WordsAvoiding(ws: seq<string>, stops: set<string>) {
    forall i :: 0 <= i < |ws| ==> IsWord(ws[i]) && ws[i] !in stops
  }

  predicate OrderPrintable(order: seq<Order>) {
    forall i :: 0 <= i < |order| ==> IsWord(order[i].column)
  }

  /** The queries that text can express: words all along, none of them the keyword that would end
      its clause, and a missing table name only where nothing follows it. */
  predicate Printable(q: Query) {
    match q
    case Select(columns, table, conditions, limit, order) =>
      WordsAvoiding(columns, {"FROM"}) && IsWord(table) && WordsAvoiding(conditions, LIMIT_OR_ORDER) &&
      limit <= SIZE_MAX && OrderPrintable(order)
    case Insert(table, values) =>
      AllWords(values) && (IsWord(table) || (table == "" && values == []))
    case Delete(table, conditions, limit) =>
      WordsAvoiding(conditions, LIMIT_ONLY) && limit <= SIZE_MAX &&
      (IsWord(table) || (table == "" && conditions == [] && limit == SIZE_MAX))
    case Update(table, columns, values, conditions, limit) =>
      IsWord(table) && |columns| == |values| && AllWords(values) &&
      WordsAvoiding(columns, {"WHERE", "LIMIT"}) &&
      WordsAvoiding(conditions, LIMIT_ONLY) && limit <= SIZE_MAX
  }

  // ----- Every query that the grammar accepts is printable.

  lemma ConditionsArePrintable(ws: seq<string>, stops: set<string>)
    requires AllWords(ws)
    ensures WordsAvoiding(Conditions(ws, stops), stops)
    ensures AllWords(AfterConditions(ws, stops))
  {
  }

  lemma AfterLimitIsWords(ws: seq<string>)
    requires AllWords(ws)
    ensures AllWords(AfterLimit(ws))
  {
  }

  lemma {:induction false} OrderListIsPrintable(ws: seq<string>, previous: string)
    requires AllWords(ws)
    ensures OrderList(ws, previous).Ok? ==> OrderPrintable(OrderList(ws, previous).value)
    decreases |ws|
  {
    if ws != [] {
      var rest, direction := if |ws| > 1 then ws[2..] else [], if |ws| > 1 then ws[1] else previous;
      OrderListIsPrintable(rest, direction);
    }
  }

  lemma {:induction false} SetListIsPrintable(ws: seq<string>)
    requires AllWords(ws) && SetList(ws).Ok?
    ensures var a := SetList(ws).value;
            WordsAvoiding(a.columns, {"WHERE", "LIMIT"}) && AllWords(a.values) && AllWords(a.rest)
  {
    if ws == [] || EndsSetList(ws[0]) {
    } else if |ws| == 2 {
      assert IsWord("=");
    } else {
      assert AllWords(ws[3..]);
      SetListIsPrintable(ws[3..]);
    }
  }

  lemma SelectIsPrintable(ws: seq<string>)
    requires AllWords(ws) && ParseSelect(ws).Ok?
    ensures Printable(ParseSelect(ws).value)
  {
    var k := Until(ws, {"FROM"});
    assert WordsAvoiding(ws[..k], {"FROM"});
    var tail := if k + 1 == |ws| then [] else ws[k + 2..];
    assert AllWords(tail);
    ConditionsArePrintable(tail, LIMIT_OR_ORDER);
    var rest := AfterConditions(tail, LIMIT_OR_ORDER);
    AfterLimitIsWords(rest);
    var clause := AfterLimit(rest);
    if |clause| > 1 {
      assert AllWords(clause[2..]);
      OrderListIsPrintable(clause[2..], "");
    }
    assert IsWord("FROM");
  }

  lemma ParsedIsPrintable(ws: seq<string>)
    requires AllWords(ws) && ParseWords(ws).Ok?
    ensures Printable(ParseWords(ws).value)
  {
    var args := ws[1..];
    assert AllWords(args);
    if Starts(ws, "SELECT") {
      SelectIsPrintable(args);
    } else if Starts(ws, "INSERT") {
    } else if Starts(ws, "DELETE") {
      if |args| > 1 {
        assert AllWords(args[2..]);
        ConditionsArePrintable(args[2..], LIMIT_ONLY);
      }
    } else {
      assert AllWords(args[2..]);
      SetListIsPrintable(args[2..]);
      ConditionsArePrintable(SetList(args[2..]).value.rest, LIMIT_ONLY);
    }
  }

  // ----- Reading back what was printed.

  lemma ConditionsOfWords(conditions: seq<string>, rest: seq<string>, stops: set<string>)
    requires WordsAvoiding(conditions, stops)
    requires rest != [] ==> rest[0] in stops && rest[0] != "WHERE"
    ensures var ws := ConditionWords(conditions) + rest;
            Conditions(ws, stops) == conditions && AfterConditions(ws, stops) == rest
  {
    var ws := ConditionWords(conditions) + rest;
    if conditions != [] {
      var body := conditions + rest;
      assert ws == ["WHERE"] + body;
      assert ws[1..] == body;
      UntilIs(body, stops, |conditions|);
      assert body[..|conditions|] == conditions;
      assert body[|conditions|..] == rest;
    } else {
      assert ws == rest;
    }
  }

  lemma LimitOfWords(limit: nat, rest: seq<string>)
    requires limit <= SIZE_MAX && !Starts(rest, "LIMIT")
    ensures var ws := LimitWords(limit) + rest;
            Limit(ws) == limit && AfterLimit(ws) == rest
  {
    var ws := LimitWords(limit) + rest;
    if limit == SIZE_MAX {
      assert ws == rest;
    } else {
      var w := Decimal(limit);
      assert ws == ["LIMIT"] + ([w] + rest) && ws[1..] == [w] + rest;
      ScanDecimal(limit);
      assert ([w] + rest)[1..] == rest;
      assert [] + rest == rest;
    }
  }

  lemma {:induction false} OrderListOfItems(order: seq<Order>, previous: string)
    ensures OrderList(OrderItems(order), previous) == Ok(order)
    decreases |order|
  {
    if order != [] {
      var ws := OrderItems(order);
      OrderListOfItems(order[1..], ws[1]);
      assert ws[2..] == OrderItems(order[1..]);
      assert [order[0]] + order[1..] == order;
    }
  }

  lemma OrderOfWords(order: seq<Order>)
    ensures OrderClause(OrderWords(order)) == Ok(order)
  {
    if order != [] {
      OrderListOfItems(order, "");
      assert OrderWords(order)[2..] == OrderItems(order);
    }
  }

  lemma OneAssignment(column: string, value: string, more: seq<string>)
    requires !EndsSetList(column) && SetList(more).Ok?
    ensures
      var Assignments(columns, values, rest) := SetList(more).value;
      SetList([column, "=", value] + more) == Ok(Assignments([column] + columns, [value] + values, rest))
  {
    var ws := [column, "=", value] + more;
    assert ws[3..] == more;
  }

  lemma {:induction false} SetListOfWords(columns: seq<string>, values: seq<string>, rest: seq<string>)
    requires |columns| == |values| && WordsAvoiding(columns, {"WHERE", "LIMIT"})
    requires rest != [] ==> EndsSetList(rest[0])
    ensures SetList(SetWords(columns, values) + rest) == Ok(Assignments(columns, values, rest))
  {
    var ws := SetWords(columns, values) + rest;
    if columns == [] {
      assert ws == rest;
    } else {
      var more := SetWords(columns[1..], values[1..]) + rest;
      SetListOfWords(columns[1..], values[1..], rest);
      assert !EndsSetList(columns[0]) by { assert columns[0] !in {"WHERE", "LIMIT"}; }
      OneAssignment(columns[0], values[0], more);
      assert ws == [columns[0], "=", values[0]] + more;
      assert [columns[0]] + columns[1..] == columns && [values[0]] + values[1..] == values;
    }
  }

  lemma TailOfWords(conditions: seq<string>, limit: nat)
    requires WordsAvoiding(conditions, LIMIT_ONLY) && limit <= SIZE_MAX
    ensures var ws := TailWords(conditions, limit);
            Conditions(ws, LIMIT_ONLY) == conditions && Limit(AfterConditions(ws, LIMIT_ONLY)) == limit
  {
    ConditionsOfWords(conditions, LimitWords(limit), LIMIT_ONLY);
    LimitOfWords(limit, []);
    assert LimitWords(limit) + [] == LimitWords(limit);
  }

  lemma SelectTailRoundTrip(columns: seq<string>, table: string, conditions: seq<string>, limit: nat, order: seq<Order>)
    requires WordsAvoiding(conditions, LIMIT_OR_ORDER) && limit <= SIZE_MAX
    ensures SelectTail(columns, table, ConditionWords(conditions) + (LimitWords(limit) + OrderWords(order))) ==
            Ok(Select(columns, table, conditions, limit, order))
  {
    ConditionsOfWords(conditions, LimitWords(limit) + OrderWords(order), LIMIT_OR_ORDER);
    LimitOfWords(limit, OrderWords(order));
    OrderOfWords(order);
  }

  lemma SelectRoundTrip(q: Query)
    requires q.Select? && Printable(q)
    ensures ParseSelect(Arguments(q)) == Ok(q)
  {
    var Select(columns, table, conditions, limit, order) := q;
    SelectTailRoundTrip(columns, table, conditions, limit, order);
    SelectSplit(columns, table, ConditionWords(conditions) + (LimitWords(limit) + OrderWords(order)));
  }

  lemma SelectSplit(columns: seq<string>, table: string, tail: seq<string>)
    requires WordsAvoiding(columns, {"FROM"})
    ensures ParseSelect(columns + (["FROM", table] + tail)) == SelectTail(columns, table, tail)
  {
    var ws, k := columns + (["FROM", table] + tail), |columns|;
    assert ws[k] == "FROM" && ws[k + 1] == table;
    UntilIs(ws, {"FROM"}, k);
    assert ws[..k] == columns;
    assert ws[k + 2..] == tail;
  }

  lemma InsertRoundTrip(q: Query)
    requires q.Insert? && Printable(q)
    ensures ParseInsert(Arguments(q)) == Ok(q)
  {
    var ws := Arguments(q);
    if q.table != "" {
      assert ws == ["INTO", q.table] + q.values;
      assert ws[2..] == q.values;
    } else {
      assert ws == ["INTO"];
    }
  }

  lemma DeleteRoundTrip(q: Query)
    requires q.Delete? && Printable(q)
    ensures ParseDelete(Arguments(q)) == Ok(q)
  {
    var ws, tail := Arguments(q), TailWords(q.conditions, q.limit);
    if q.table != "" {
      assert ws == ["FROM", q.table] + tail;
      assert ws[2..] == tail;
      TailOfWords(q.conditions, q.limit);
    } else {
      assert ws == ["FROM"];
    }
  }

  lemma UpdateRoundTrip(q: Query)
    requires q.Update? && Printable(q)
    ensures ParseUpdate(Arguments(q)) == Ok(q)
  {
    var ws, tail := Arguments(q), TailWords(q.conditions, q.limit);
    assert ws[2..] == SetWords(q.columns, q.values) + tail;
    SetListOfWords(q.columns, q.values, tail);
    TailOfWords(q.conditions, q.limit);
  }

  lemma ReadsBack(q: Query)
    requires Printable(q)
    ensures ParseWords(QueryWords(q)) == Ok(q)
  {
    assert QueryWords(q)[1..] == Arguments(q);
    assert ParseWords(QueryWords(q)) == ParseStatement(Keyword(q), Arguments(q));
    match q
    case Select(_, _, _, _, _) => SelectRoundTrip(q);
    case Insert(_, _) => InsertRoundTrip(q);
    case Delete(_, _, _) => DeleteRoundTrip(q);
    case Update(_, _, _, _, _) => UpdateRoundTrip(q);
  }

  lemma {:induction false} OrderItemsAreWords(order: seq<Order>)
    requires OrderPrintable(order)
    ensures AllWords(OrderItems(order))
  {
    if order != [] {
      OrderItemsAreWords(order[1..]);
      assert IsWord("ASC") && IsWord("DESC");
    }
  }

  lemma {:induction false} SetWordsAreWords(columns: seq<string>, values: seq<string>)
    requires |columns| == |values| && AllWords(columns) && AllWords(values)
    ensures AllWords(SetWords(columns, values))
  {
    if columns != [] {
      SetWordsAreWords(columns[1..], values[1..]);
      assert IsWord("=");
    }
  }

  lemma ClausesAreWords(conditions: seq<string>, limit: nat)
    requires AllWords(conditions)
    ensures AllWords(ConditionWords(conditions)) && AllWords(LimitWords(limit))
  {
  }

  lemma WordsTogether(a: seq<string>, b: seq<string>)
    requires AllWords(a) && AllWords(b)
    ensures AllWords(a + b)
  {
  }

  lemma ArgumentsAreWords(q: Query)
    requires Printable(q)
    ensures AllWords(Arguments(q))
  {
    match q
    case Select(columns, table, conditions, limit, order) =>
      ClausesAreWords(conditions, limit);
      OrderItemsAreWords(order);
      WordsTogether(["ORDER", "BY"], OrderItems(order));
      WordsTogether(LimitWords(limit), OrderWords(order));
      var tail := LimitWords(limit) + OrderWords(order);
      WordsTogether(ConditionWords(conditions), tail);
      WordsTogether(["FROM", table], ConditionWords(conditions) + tail);
      WordsTogether(columns, ["FROM", table] + (ConditionWords(conditions) + tail));
    case Insert(table, values) =>
      WordsTogether(TableWords(table), values);
      WordsTogether(["INTO"], TableWords(table) + values);
    case Delete(table, conditions, limit) =>
      ClausesAreWords(conditions, limit);
      WordsTogether(TableWords(table), TailWords(conditions, limit));
      WordsTogether(["FROM"], TableWords(table) + TailWords(conditions, limit));
    case Update(table, columns, values, conditions, limit) =>
      ClausesAreWords(conditions, limit);
      SetWordsAreWords(columns, values);
      WordsTogether(SetWords(columns, values), TailWords(conditions, limit));
      WordsTogether([table, "SET"], SetWords(columns, values) + TailWords(conditions, limit));
  }

  lemma QueryWordsAreWords(q: Query)
    requires Printable(q)
    ensures AllWords(QueryWords(q))
  {
    ArgumentsAreWords(q);
    assert IsWord(Keyword(q));
  }

  /** Printing, then parsing, is the identity on printable queries. */
  lemma PrintThenParse(q: Query)
    requires Printable(q)
    ensures ParseWords(Words(Print(q))) == Ok(q)
  {
    QueryWordsAreWords(q);
    WordsOfJoin(QueryWords(q));
    ReadsBack(q);
  }

  /** Whatever white space stands around and between the words of a printable query, the text reads as
      that query. */
  lemma RoundTrip(q: Query, gaps: seq<string>)
    requires Printable(q) && IsLayout(gaps, QueryWords(q))
    ensures ParseWords(Words(Layout(gaps, QueryWords(q)))) == Ok(q)
  {
    QueryWordsAreWords(q);
    WordsOfLayout(gaps, QueryWords(q));
    ReadsBack(q);
  }

  /** The results of the parser are exactly the printable queries. */
  lemma ResultsArePrintable(q: Query)
    ensures (exists text: string :: ParseWords(Words(text)) == Ok(q)) <==> Printable(q)
  {
    if Printable(q) {
      PrintThenParse(q);
    }
    forall text: string | ParseWords(Words(text)) == Ok(q)
      ensures Printable(q)
    {
      WordsAreWords(text, 0);
      ParsedIsPrintable(Words(text));
    }
  }

  /** Normalising an accepted text, however odd its tail, does not change what it means. */
  lemma NormalisationIsIdempotent(text: string)
    requires ParseWords(Words(text)).Ok?
    ensures var q := ParseWords(Words(text)).value;
            Printable(q) && ParseWords(Words(Print(q))) == Ok(q)
  {
    WordsAreWords(text, 0);
    ParsedIsPrintable(Words(text));
    PrintThenParse(ParseWords(Words(text)).value);
  }
}
