/**
 * What it means for a list of words to spell a query, or to be refused, said without parsing: by how
 * the list is put together. Every list does exactly one of the two, and the grammar finds out which.
 */
module Spellings {
  import opened Numbers
  import opened InputStreams
  import opened Grammar

  // ----- The clauses.

  /** `ws` is a WHERE clause and what follows it from the first stop word on, or has no such clause. */
  predicate SpellsConditions(ws: seq<string>, stops: set<string>, conditions: seq<string>, rest: seq<string>) {
    if !Starts(ws, "WHERE") then conditions == [] && rest == ws
    else
      && ws == ["WHERE"] + (conditions + rest) && (rest != [] ==> rest[0] in stops)
      && forall i :: 0 <= i < |conditions| ==> conditions[i] !in stops
  }

  /** `ws` is a LIMIT clause and what its number leaves, or has no such clause. A bad number fails the
      stream, and then nothing is left. */
  predicate SpellsLimit(ws: seq<string>, limit: nat, rest: seq<string>) {
    if !Starts(ws, "LIMIT") then limit == SIZE_MAX && rest == ws
    else if |ws| == 1 then limit == SIZE_MAX && rest == []
    else
      var scan := ScanSize(ws[1]);
      limit == scan.value &&
      rest == if scan.bad then [] else RestOfWord(ws[1], scan.used) + ws[2..]
  }

  ghost predicate SpellsTail(ws: seq<string>, conditions: seq<string>, limit: nat) {
    exists rest, left :: SpellsConditions(ws, LIMIT_ONLY, conditions, rest) && SpellsLimit(rest, limit, left)
  }

  /** The direction of the i-th column of an ORDER BY list; a last column without one takes the one before. */
  function DirectionAt(ws: seq<string>, previous: string, i: nat): string {
    if 2 * i + 1 < |ws| then ws[2 * i + 1]
    else if 0 < i && 2 * i - 1 < |ws| then ws[2 * i - 1]
    else previous
  }

  predicate HasDirection(ws: seq<string>, previous: string, i: nat) {
    IsDirection(DirectionAt(ws, previous, i))
  }

  function ColumnCount(ws: seq<string>): nat {
    (|ws| + 1) / 2
  }

  predicate SpellsOrder(ws: seq<string>, previous: string, order: seq<Order>) {
    && |order| == ColumnCount(ws)
    && (forall i :: 0 <= i < |order| ==> HasDirection(ws, previous, i))
    && (forall i :: 0 <= i < |order| ==> order[i] == Order(ws[2 * i], DirectionAt(ws, previous, i) == "ASC"))
  }

  /** The first column whose direction is none. */
  predicate FirstWithout(ws: seq<string>, previous: string, k: nat) {
    && k < ColumnCount(ws) && !HasDirection(ws, previous, k)
    && forall i :: 0 <= i < k ==> HasDirection(ws, previous, i)
  }

  predicate OrdersBy(ws: seq<string>) {
    |ws| > 1 && ws[0] == "ORDER" && ws[1] == "BY"
  }

  predicate SpellsOrderClause(ws: seq<string>, order: seq<Order>) {
    if OrdersBy(ws) then SpellsOrder(ws[2..], "", order) else order == []
  }

  /** A column other than WHERE and LIMIT, and an equals sign, at the i-th place of a SET list. */
  predicate AssignsAt(ws: seq<string>, i: nat) {
    3 * i + 1 < |ws| && !EndsSetList(ws[3 * i]) && ws[3 * i + 1] == "="
  }

  /** What the first `k` assignments leave; the value of the last one may be missing. */
  function AfterAssignments(ws: seq<string>, k: nat): seq<string> {
    if 3 * k <= |ws| then ws[3 * k..] else []
  }

  predicate SpellsSet(ws: seq<string>, columns: seq<string>, values: seq<string>, rest: seq<string>) {
    && |columns| == |values| && rest == AfterAssignments(ws, |columns|) && (rest != [] ==> EndsSetList(rest[0]))
    && (forall i :: 0 <= i < |columns| ==> AssignsAt(ws, i) && columns[i] == ws[3 * i])
    && (forall i :: 0 <= i < |columns| ==> values[i] == if 3 * i + 2 < |ws| then ws[3 * i + 2] else "=")
  }

  /** After `k` assignments comes a column without its equals sign. */
  predicate MissesEquals(ws: seq<string>, k: nat) {
    && (forall i :: 0 <= i < k ==> AssignsAt(ws, i))
    && 3 * k < |ws| && !EndsSetList(ws[3 * k]) && !AssignsAt(ws, k)
  }

  // ----- The clauses as the grammar reads them.

  lemma ConditionsSpelled(ws: seq<string>, stops: set<string>, conditions: seq<string>, rest: seq<string>)
    ensures SpellsConditions(ws, stops, conditions, rest) <==>
            conditions == Conditions(ws, stops) && rest == AfterConditions(ws, stops)
  {
    if Starts(ws, "WHERE") {
      var body := ws[1..];
      var k := Until(body, stops);
      assert ws == ["WHERE"] + (body[..k] + body[k..]);
      if SpellsConditions(ws, stops, conditions, rest) {
        assert body == conditions + rest;
        UntilIs(body, stops, |conditions|);
      }
    }
  }

  lemma LimitSpelled(ws: seq<string>, limit: nat, rest: seq<string>)
    ensures SpellsLimit(ws, limit, rest) <==> limit == Limit(ws) && rest == AfterLimit(ws)
  {
    if Starts(ws, "LIMIT") && |ws| > 1 {
      assert ws[1..][1..] == ws[2..];
    }
  }

  lemma TailSpelled(ws: seq<string>, conditions: seq<string>, limit: nat)
    ensures SpellsTail(ws, conditions, limit) <==>
            conditions == Conditions(ws, LIMIT_ONLY) && limit == Limit(AfterConditions(ws, LIMIT_ONLY))
  {
    var rest := AfterConditions(ws, LIMIT_ONLY);
    ConditionsSpelled(ws, LIMIT_ONLY, Conditions(ws, LIMIT_ONLY), rest);
    LimitSpelled(rest, Limit(rest), AfterLimit(rest));
    if SpellsTail(ws, conditions, limit) {
      var rest', left' :| SpellsConditions(ws, LIMIT_ONLY, conditions, rest') && SpellsLimit(rest', limit, left');
      ConditionsSpelled(ws, LIMIT_ONLY, conditions, rest');
      LimitSpelled(rest', limit, left');
    }
  }

  lemma NextDirection(ws: seq<string>, previous: string, i: nat)
    requires |ws| > 1 && i < ColumnCount(ws[2..])
    ensures DirectionAt(ws, previous, i + 1) == DirectionAt(ws[2..], ws[1], i)
  {
  }

  /** The list is spelled by what the grammar makes of it, or stops it at the first column without a
      direction. */
  lemma {:induction false} OrderListFound(ws: seq<string>, previous: string) returns (k: nat)
    ensures match OrderList(ws, previous)
            case Ok(order) => SpellsOrder(ws, previous, order)
            case Err(e) => FirstWithout(ws, previous, k) && e == UnknownSortType(DirectionAt(ws, previous, k))
    decreases |ws|
  {
    k := 0;
    if |ws| > 1 && IsDirection(ws[1]) {
      var rest := ws[2..];
      k := OrderListFound(rest, ws[1]);
      if OrderList(rest, ws[1]).Ok? {
        NextOrder(ws, previous, OrderList(rest, ws[1]).value);
      } else {
        NextDirection(ws, previous, k);
        k := k + 1;
        LaterWithout(ws, previous, k);
      }
    }
  }

  lemma NextOrder(ws: seq<string>, previous: string, order: seq<Order>)
    requires |ws| > 1 && IsDirection(ws[1]) && SpellsOrder(ws[2..], ws[1], order)
    ensures SpellsOrder(ws, previous, [Order(ws[0], ws[1] == "ASC")] + order)
  {
    var all := [Order(ws[0], ws[1] == "ASC")] + order;
    forall i | 0 <= i < |all|
      ensures HasDirection(ws, previous, i) && all[i] == Order(ws[2 * i], DirectionAt(ws, previous, i) == "ASC")
    {
      if i > 0 {
        NextDirection(ws, previous, i - 1);
        assert HasDirection(ws[2..], ws[1], i - 1);
        assert ws[2..][2 * (i - 1)] == ws[2 * i];
      }
    }
  }

  lemma LaterWithout(ws: seq<string>, previous: string, k: nat)
    requires |ws| > 1 && IsDirection(ws[1]) && k > 0 && FirstWithout(ws[2..], ws[1], k - 1)
    ensures FirstWithout(ws, previous, k)
  {
    NextDirection(ws, previous, k - 1);
    forall i | 0 <= i < k ensures HasDirection(ws, previous, i) {
      if i > 0 {
        NextDirection(ws, previous, i - 1);
        assert HasDirection(ws[2..], ws[1], i - 1);
      }
    }
  }

  lemma OrderListSpelled(ws: seq<string>, previous: string, order: seq<Order>)
    ensures OrderList(ws, previous) == Ok(order) <==> SpellsOrder(ws, previous, order)
  {
    var k := OrderListFound(ws, previous);
    if SpellsOrder(ws, previous, order) {
      if OrderList(ws, previous).Ok? {
        assert order == OrderList(ws, previous).value;
      }
    }
  }

  lemma OrderListRefused(ws: seq<string>, previous: string, k: nat)
    requires FirstWithout(ws, previous, k)
    ensures OrderList(ws, previous) == Err(UnknownSortType(DirectionAt(ws, previous, k)))
  {
    var j := OrderListFound(ws, previous);
  }

  lemma {:induction false} SetListFound(ws: seq<string>) returns (k: nat)
    ensures match SetList(ws)
            case Ok(a) => SpellsSet(ws, a.columns, a.values, a.rest)
            case Err(e) => e == MissedEquals && MissesEquals(ws, k)
  {
    k := 0;
    if |ws| > 2 && AssignsAt(ws, 0) {
      k := SetListFound(ws[3..]);
      if SetList(ws[3..]).Ok? {
        NextAssignment(ws, SetList(ws[3..]).value);
      } else {
        k := k + 1;
        LaterMiss(ws, k);
      }
    }
  }

  lemma AssignsLater(ws: seq<string>, i: nat)
    requires |ws| > 2 && i > 0
    ensures AssignsAt(ws, i) <==> AssignsAt(ws[3..], i - 1)
    ensures 3 * i < |ws| ==> ws[3..][3 * (i - 1)] == ws[3 * i]
    ensures 3 * i + 2 < |ws| ==> ws[3..][3 * (i - 1) + 2] == ws[3 * i + 2]
  {
  }

  lemma NextAssignment(ws: seq<string>, a: Assignments)
    requires |ws| > 2 && AssignsAt(ws, 0) && SpellsSet(ws[3..], a.columns, a.values, a.rest)
    ensures SpellsSet(ws, [ws[0]] + a.columns, [ws[2]] + a.values, a.rest)
  {
    var columns, values := [ws[0]] + a.columns, [ws[2]] + a.values;
    forall i | 0 <= i < |columns|
      ensures AssignsAt(ws, i) && columns[i] == ws[3 * i]
      ensures values[i] == if 3 * i + 2 < |ws| then ws[3 * i + 2] else "="
    {
      if i > 0 {
        AssignsLater(ws, i);
        assert AssignsAt(ws[3..], i - 1);
      }
    }
    assert AfterAssignments(ws, |columns|) == AfterAssignments(ws[3..], |a.columns|);
  }

  lemma LaterMiss(ws: seq<string>, k: nat)
    requires |ws| > 2 && AssignsAt(ws, 0) && k > 0 && MissesEquals(ws[3..], k - 1)
    ensures MissesEquals(ws, k)
  {
    forall i | 0 <= i < k ensures AssignsAt(ws, i) {
      if i > 0 {
        AssignsLater(ws, i);
      }
    }
    AssignsLater(ws, k);
  }

  /** A SET list has one end, and no equals sign is missing before it. */
  lemma OneEnd(ws: seq<string>, columns: seq<string>, values: seq<string>, rest: seq<string>, k: nat)
    requires SpellsSet(ws, columns, values, rest)
    requires forall i :: 0 <= i < k ==> AssignsAt(ws, i)
    ensures k <= |columns| && !MissesEquals(ws, k)
  {
    assert |columns| < k ==> AssignsAt(ws, |columns|);
    assert k < |columns| ==> AssignsAt(ws, k);
  }

  lemma SetListSpelled(ws: seq<string>, columns: seq<string>, values: seq<string>, rest: seq<string>)
    ensures SetList(ws) == Ok(Assignments(columns, values, rest)) <==> SpellsSet(ws, columns, values, rest)
  {
    var k := SetListFound(ws);
    if SpellsSet(ws, columns, values, rest) {
      if SetList(ws).Ok? {
        var a := SetList(ws).value;
        OneEnd(ws, columns, values, rest, |a.columns|);
        OneEnd(ws, a.columns, a.values, a.rest, |columns|);
        assert columns == a.columns && values == a.values;
      } else {
        OneEnd(ws, columns, values, rest, k);
      }
    }
  }

  lemma SetListRefused(ws: seq<string>, k: nat)
    requires MissesEquals(ws, k)
    ensures SetList(ws) == Err(MissedEquals)
  {
    var j := SetListFound(ws);
    if SetList(ws).Ok? {
      var a := SetList(ws).value;
      OneEnd(ws, a.columns, a.values, a.rest, k);
    }
  }

  // ----- The statements.

  /** How the words of a SELECT fall apart, up to what may be its ORDER BY clause. */
  datatype Pieces = Pieces(
    columns: seq<string>, table: string, tail: seq<string>,
    conditions: seq<string>, rest: seq<string>, limit: nat, left: seq<string>)

  /** Columns up to the first FROM, then the table; FROM itself stands in for a missing table. */
  predicate SplitsAtFrom(args: seq<string>, columns: seq<string>, table: string, tail: seq<string>) {
    && "FROM" !in columns
    && (args == columns + (["FROM", table] + tail) || (args == columns + ["FROM"] && table == "FROM" && tail == []))
  }

  predicate FallsApart(args: seq<string>, p: Pieces) {
    && SplitsAtFrom(args, p.columns, p.table, p.tail)
    && SpellsConditions(p.tail, LIMIT_OR_ORDER, p.conditions, p.rest)
    && SpellsLimit(p.rest, p.limit, p.left)
  }

  ghost predicate SpellsSelect(args: seq<string>, q: Query)
    requires q.Select?
  {
    exists p :: FallsApart(args, p) && SpellsOrderClause(p.left, q.order) &&
                q == Select(p.columns, p.table, p.conditions, p.limit, q.order)
  }

  predicate SpellsInsert(args: seq<string>, q: Query)
    requires q.Insert?
  {
    args == ["INTO", q.table] + q.values || (args == ["INTO"] && q.table == "" && q.values == [])
  }

  ghost predicate SpellsDelete(args: seq<string>, q: Query)
    requires q.Delete?
  {
    || (|args| > 1 && args[0] == "FROM" && args[1] == q.table && SpellsTail(args[2..], q.conditions, q.limit))
    || (args == ["FROM"] && q == Delete("", [], SIZE_MAX))
  }

  ghost predicate SpellsUpdate(args: seq<string>, q: Query)
    requires q.Update?
  {
    && |args| > 1 && args[0] == q.table && args[1] == "SET"
    && exists tail :: SpellsSet(args[2..], q.columns, q.values, tail) && SpellsTail(tail, q.conditions, q.limit)
  }

  /** The words spell the query. */
  ghost predicate Spells(ws: seq<string>, q: Query) {
    ws != [] &&
    match q
    case Select(_, _, _, _, _) => ws[0] == "SELECT" && SpellsSelect(ws[1..], q)
    case Insert(_, _) => ws[0] == "INSERT" && SpellsInsert(ws[1..], q)
    case Delete(_, _, _) => ws[0] == "DELETE" && SpellsDelete(ws[1..], q)
    case Update(_, _, _, _, _) => ws[0] == "UPDATE" && SpellsUpdate(ws[1..], q)
  }

  /** A SELECT whose ORDER BY list has a column without a direction; `word` stands where the first such
      direction should be. */
  ghost predicate BadOrder(args: seq<string>, word: string) {
    exists p, k :: FallsApart(args, p) && OrdersBy(p.left) &&
                   FirstWithout(p.left[2..], "", k) && word == DirectionAt(p.left[2..], "", k)
  }

  /** The words spell no query, and this is why. */
  ghost predicate Refused(ws: seq<string>, e: Error) {
    if ws == [] then e == UnsupportedCommand else StatementRefused(ws[0], ws[1..], e)
  }

  ghost predicate StatementRefused(keyword: string, args: seq<string>, e: Error) {
    if keyword == "SELECT" then SelectRefused(args, e)
    else if keyword == "INSERT" then !Starts(args, "INTO") && e == MissedInto
    else if keyword == "DELETE" then !Starts(args, "FROM") && e == MissedFrom
    else if keyword == "UPDATE" then UpdateRefused(args, e)
    else e == UnsupportedCommand
  }

  ghost predicate SelectRefused(args: seq<string>, e: Error) {
    match e
    case MissedFrom => "FROM" !in args
    case UnknownSortType(word) => BadOrder(args, word)
    case _ => false
  }

  ghost predicate UpdateRefused(args: seq<string>, e: Error) {
    match e
    case MissedSet => !(|args| > 1 && args[1] == "SET")
    case MissedEquals => |args| > 1 && args[1] == "SET" && exists k :: MissesEquals(args[2..], k)
    case _ => false
  }

  /** The pieces as the grammar cuts them. */
  function PiecesOf(args: seq<string>): Pieces
    requires "FROM" in args
  {
    var k := Until(args, {"FROM"});
    var table, tail := if k + 1 < |args| then args[k + 1] else "FROM", if k + 1 < |args| then args[k + 2..] else [];
    var rest := AfterConditions(tail, LIMIT_OR_ORDER);
    Pieces(args[..k], table, tail, Conditions(tail, LIMIT_OR_ORDER), rest, Limit(rest), AfterLimit(rest))
  }

  lemma SplitIsFound(args: seq<string>)
    requires "FROM" in args
    ensures var p := PiecesOf(args);
            SplitsAtFrom(args, p.columns, p.table, p.tail)
  {
    var k := Until(args, {"FROM"});
    assert k < |args| && args[k] == "FROM";
    if k + 1 < |args| {
      assert args == args[..k] + (["FROM", args[k + 1]] + args[k + 2..]);
    } else {
      assert args == args[..k] + ["FROM"];
    }
  }

  lemma FirstFrom(args: seq<string>, columns: seq<string>, behind: seq<string>)
    requires "FROM" !in columns && args == columns + (["FROM"] + behind)
    ensures "FROM" in args && Until(args, {"FROM"}) == |columns|
    ensures args[..|columns|] == columns && args[|columns| + 1..] == behind
  {
    assert args[|columns|] == "FROM";
    UntilIs(args, {"FROM"}, |columns|);
  }

  lemma SplitIsUnique(args: seq<string>, columns: seq<string>, table: string, tail: seq<string>)
    requires SplitsAtFrom(args, columns, table, tail)
    ensures "FROM" in args
    ensures var p := PiecesOf(args);
            columns == p.columns && table == p.table && tail == p.tail
  {
    var k := |columns|;
    if args == columns + (["FROM", table] + tail) {
      assert ["FROM", table] + tail == ["FROM"] + ([table] + tail);
      FirstFrom(args, columns, [table] + tail);
      assert args[k + 1] == args[k + 1..][0] && args[k + 2..] == args[k + 1..][1..];
    } else {
      assert ["FROM"] == ["FROM"] + [];
      FirstFrom(args, columns, []);
    }
  }

  lemma PiecesAreUnique(args: seq<string>, p: Pieces)
    ensures FallsApart(args, p) <==> "FROM" in args && p == PiecesOf(args)
  {
    ConditionsSpelled(p.tail, LIMIT_OR_ORDER, p.conditions, p.rest);
    LimitSpelled(p.rest, p.limit, p.left);
    if "FROM" in args {
      SplitIsFound(args);
    }
    if SplitsAtFrom(args, p.columns, p.table, p.tail) {
      SplitIsUnique(args, p.columns, p.table, p.tail);
    }
  }

  lemma SelectOfPieces(args: seq<string>)
    ensures "FROM" !in args ==> ParseSelect(args) == Err(MissedFrom)
    ensures "FROM" in args ==>
              var p := PiecesOf(args);
              var order := OrderClause(p.left);
              ParseSelect(args) == if order.Err? then Err(order.error)
                                   else Ok(Select(p.columns, p.table, p.conditions, p.limit, order.value))
  {
    var k := Until(args, {"FROM"});
    assert "FROM" in args <==> k < |args|;
  }

  lemma SelectSpelled(args: seq<string>, q: Query)
    requires q.Select?
    ensures ParseSelect(args) == Ok(q) <==> SpellsSelect(args, q)
  {
    SelectOfPieces(args);
    if "FROM" in args {
      var p := PiecesOf(args);
      PiecesAreUnique(args, p);
      OrderClauseSpelled(p.left, q.order);
    }
    if SpellsSelect(args, q) {
      var p :| FallsApart(args, p) && SpellsOrderClause(p.left, q.order) &&
               q == Select(p.columns, p.table, p.conditions, p.limit, q.order);
      PiecesAreUnique(args, p);
    }
  }

  lemma OrderClauseSpelled(ws: seq<string>, order: seq<Order>)
    ensures OrderClause(ws) == Ok(order) <==> SpellsOrderClause(ws, order)
  {
    if OrdersBy(ws) {
      OrderListSpelled(ws[2..], "", order);
    }
  }

  lemma BadOrderFound(args: seq<string>, word: string)
    ensures ParseSelect(args) == Err(UnknownSortType(word)) <==> BadOrder(args, word)
  {
    SelectOfPieces(args);
    if ParseSelect(args) == Err(UnknownSortType(word)) {
      var p := PiecesOf(args);
      PiecesAreUnique(args, p);
      var k := OrderListFound(p.left[2..], "");
    }
    if BadOrder(args, word) {
      var p, k :| FallsApart(args, p) && OrdersBy(p.left) &&
                  FirstWithout(p.left[2..], "", k) && word == DirectionAt(p.left[2..], "", k);
      PiecesAreUnique(args, p);
      OrderListRefused(p.left[2..], "", k);
    }
  }

  lemma SelectRefusalFound(args: seq<string>, e: Error)
    ensures ParseSelect(args) == Err(e) <==> SelectRefused(args, e)
  {
    SelectOfPieces(args);
    if e.UnknownSortType? {
      BadOrderFound(args, e.word);
    }
    if "FROM" in args && OrdersBy(PiecesOf(args).left) {
      var k := OrderListFound(PiecesOf(args).left[2..], "");
    }
  }

  lemma InsertSpelled(args: seq<string>, q: Query)
    requires q.Insert?
    ensures ParseInsert(args) == Ok(q) <==> SpellsInsert(args, q)
  {
    if |args| > 1 && args[0] == "INTO" {
      assert args == ["INTO", args[1]] + args[2..];
    }
  }

  lemma DeleteSpelled(args: seq<string>, q: Query)
    requires q.Delete?
    ensures ParseDelete(args) == Ok(q) <==> SpellsDelete(args, q)
  {
    if |args| > 1 {
      TailSpelled(args[2..], q.conditions, q.limit);
    }
  }

  lemma UpdateSpelled(args: seq<string>, q: Query)
    requires q.Update?
    ensures ParseUpdate(args) == Ok(q) <==> SpellsUpdate(args, q)
  {
    if |args| > 1 && args[1] == "SET" {
      var list := SetList(args[2..]);
      if list.Ok? {
        SetListSpelled(args[2..], q.columns, q.values, list.value.rest);
        TailSpelled(list.value.rest, q.conditions, q.limit);
      }
      if SpellsUpdate(args, q) {
        var tail :| SpellsSet(args[2..], q.columns, q.values, tail) && SpellsTail(tail, q.conditions, q.limit);
        SetListSpelled(args[2..], q.columns, q.values, tail);
      }
    }
  }

  lemma UpdateRefusalFound(args: seq<string>, e: Error)
    ensures ParseUpdate(args) == Err(e) <==> UpdateRefused(args, e)
  {
    if |args| > 1 && args[1] == "SET" {
      var k := SetListFound(args[2..]);
      if exists j :: MissesEquals(args[2..], j) {
        var j :| MissesEquals(args[2..], j);
        SetListRefused(args[2..], j);
      }
    }
  }

  /** The grammar accepts exactly the words that spell a query, and reads that query. */
  lemma AcceptsWhatIsSpelled(ws: seq<string>, q: Query)
    ensures ParseWords(ws) == Ok(q) <==> Spells(ws, q)
  {
    if ws != [] {
      var args := ws[1..];
      match q
      case Select(_, _, _, _, _) => SelectSpelled(args, q);
      case Insert(_, _) => InsertSpelled(args, q);
      case Delete(_, _, _) => DeleteSpelled(args, q);
      case Update(_, _, _, _, _) => UpdateSpelled(args, q);
    }
  }

  lemma StatementRefusalFound(keyword: string, args: seq<string>, e: Error)
    ensures ParseStatement(keyword, args) == Err(e) <==> StatementRefused(keyword, args, e)
  {
    if keyword == "SELECT" {
      SelectRefusalFound(args, e);
    } else if keyword == "UPDATE" {
      UpdateRefusalFound(args, e);
    }
  }

  /** It refuses exactly the others, each with the one error that applies. */
  lemma RefusesTheRest(ws: seq<string>, e: Error)
    ensures ParseWords(ws) == Err(e) <==> Refused(ws, e)
  {
    if ws != [] {
      StatementRefusalFound(ws[0], ws[1..], e);
    }
  }

  /** Every list of words spells one query, or is refused for one reason, and not both. */
  lemma SpelledOrRefused(ws: seq<string>)
    ensures (exists q :: Spells(ws, q)) <==> !(exists e :: Refused(ws, e))
    ensures forall q, q' :: Spells(ws, q) && Spells(ws, q') ==> q == q'
    ensures forall e, e' :: Refused(ws, e) && Refused(ws, e') ==> e == e'
  {
    forall q ensures Spells(ws, q) <==> ParseWords(ws) == Ok(q) { AcceptsWhatIsSpelled(ws, q); }
    forall e ensures Refused(ws, e) <==> ParseWords(ws) == Err(e) { RefusesTheRest(ws, e); }
    match ParseWords(ws)
    case Ok(q) => assert Spells(ws, q);
    case Err(e) => assert Refused(ws, e);
  }
}
