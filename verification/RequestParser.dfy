/**
 * The request parser as the source writes it: one stream that is consumed word by word and one
 * buffer that keeps its old value when a read fails. `std::move(buf)` leaves the buffer empty.
 */
module RequestParsers {
  import opened Texts
  import opened Numbers
  import opened InputStreams
  import opened Grammar
  import opened Spellings

  class RequestParser {
    constructor () {}

    /** The tail of a DELETE: an optional WHERE clause, then an optional LIMIT. */
    method ParseConditionAndLimit(str: InputStream) returns (conditions: seq<string>, limit: nat)
      requires str.Valid()
      modifies str
      ensures str.Valid()
      ensures conditions == Conditions(old(str.pending), LIMIT_ONLY)
      ensures limit == Limit(AfterConditions(old(str.pending), LIMIT_ONLY))
    {
      conditions, limit := [], SIZE_MAX;
      var ok, buf := str.ReadWord("");
      if buf == "WHERE" {
        ghost var body, k := str.pending, 0;
        while true
          invariant str.Valid() && k <= |body| && str.pending == body[k..] && conditions == body[..k]
          invariant forall i :: 0 <= i < k ==> body[i] !in LIMIT_ONLY
          invariant buf != "LIMIT"
          decreases |body| - k
        {
          ok, buf := str.ReadWord(buf);
          if !ok || buf == "LIMIT" { break; }
          conditions := conditions + [buf];
          buf := "";
          k := k + 1;
        }
        UntilIs(body, LIMIT_ONLY, k);
      }
      if buf == "LIMIT" {
        limit := str.ReadSize(limit);
      }
    }

    method ParseSelect(str: InputStream) returns (r: Result<Query>)
      requires str.Valid()
      modifies str
      ensures str.Valid()
      ensures r == Grammar.ParseSelect(old(str.pending))
    {
      var columns := [];
      ghost var ws, k := str.pending, 0;
      var ok, buf := true, "";
      while true
        invariant str.Valid() && k <= |ws| && str.pending == ws[k..] && columns == ws[..k]
        invariant forall i :: 0 <= i < k ==> ws[i] !in {"FROM"}
        invariant buf == ""
        decreases |ws| - k
      {
        ok, buf := str.ReadWord(buf);
        if !ok || buf == "FROM" { break; }
        columns := columns + [buf];
        buf := "";
        k := k + 1;
      }
      UntilIs(ws, {"FROM"}, k);
      if buf != "FROM" {
        return Err(MissedFrom);
      }
      ok, buf := str.ReadWord(buf);
      r := ParseSelectTail(str, columns, buf);
    }

    /** What a SELECT says after its table name: WHERE, LIMIT and ORDER BY, in this order. */
    method ParseSelectTail(str: InputStream, columns: seq<string>, table: string) returns (r: Result<Query>)
      requires str.Valid()
      modifies str
      ensures str.Valid()
      ensures r == SelectTail(columns, table, old(str.pending))
    {
      var conditions, limit: nat := [], SIZE_MAX;
      ghost var tail := str.pending;
      var ok, buf := str.ReadWord("");
      if buf == "WHERE" {
        ghost var body, k := str.pending, 0;
        while true
          invariant str.Valid() && k <= |body| && str.pending == body[k..] && conditions == body[..k]
          invariant forall i :: 0 <= i < k ==> body[i] !in LIMIT_OR_ORDER
          invariant buf != "LIMIT" && buf != "ORDER"
          decreases |body| - k
        {
          ok, buf := str.ReadWord(buf);
          if !ok || buf == "LIMIT" || buf == "ORDER" { break; }
          conditions := conditions + [buf];
          buf := "";
          k := k + 1;
        }
        UntilIs(body, LIMIT_OR_ORDER, k);
      }
      ghost var rest := AfterConditions(tail, LIMIT_OR_ORDER);
      assert conditions == Conditions(tail, LIMIT_OR_ORDER);
      var order: Result<seq<Order>>;
      limit, order := ParseLimitAndOrder(str, buf, rest);
      if order.Err? {
        return Err(order.error);
      }
      r := Ok(Select(columns, table, conditions, limit, order.value));
    }

    /** The LIMIT and ORDER BY clauses of a SELECT; the keyword that opens them is in the buffer. */
    method ParseLimitAndOrder(str: InputStream, before: string, ghost rest: seq<string>)
      returns (limit: nat, order: Result<seq<Order>>)
      requires str.Valid()
      requires before in LIMIT_OR_ORDER ==> Starts(rest, before) && str.pending == rest[1..]
      requires before !in LIMIT_OR_ORDER ==> !Starts(rest, "LIMIT") && !Starts(rest, "ORDER")
      modifies str
      ensures str.Valid()
      ensures limit == Limit(rest) && order == OrderClause(AfterLimit(rest))
    {
      limit, order := SIZE_MAX, Ok([]);
      var buf, ok := before, true;
      if buf == "LIMIT" {
        limit := str.ReadSize(limit);
        ok, buf := str.ReadWord(buf);
      }
      if buf == "ORDER" {
        order := ParseOrder(str, buf, AfterLimit(rest));
      }
    }

    /** The ORDER BY clause of a SELECT. The direction read last stays in `type_` for a column
        that comes without one. */
    method ParseOrder(str: InputStream, before: string, ghost clause: seq<string>) returns (r: Result<seq<Order>>)
      requires str.Valid() && before == "ORDER"
      requires Starts(clause, "ORDER") && str.pending == clause[1..]
      modifies str
      ensures str.Valid()
      ensures r == OrderClause(clause)
    {
      var order, type_ := [], "";
      var ok, buf := str.ReadWord(before);
      if buf == "BY" {
        ghost var all := str.pending;
        PrependAll([], [], OrderList(all, ""));
        while true
          invariant str.Valid()
          invariant OrderList(all, "") == Prepend(order, OrderList(str.pending, type_))
          decreases |str.pending|
        {
          ghost var todo, given := str.pending, type_;
          ok, buf := str.ReadWord(buf);
          if !ok { break; }
          ok, type_ := str.ReadWord(type_);
          OrderListStep(todo, given);
          PrependAll(order, [Order(buf, type_ == "ASC")], OrderList(str.pending, type_));
          if type_ == "ASC" {
            order := order + [Order(buf, true)];
          } else if type_ == "DESC" {
            order := order + [Order(buf, false)];
          } else {
            return Err(UnknownSortType(type_));
          }
        }
      }
      assert order + [] == order;
      r := Ok(order);
    }

    method ParseInsert(str: InputStream) returns (r: Result<Query>)
      requires str.Valid()
      modifies str
      ensures str.Valid()
      ensures r == Grammar.ParseInsert(old(str.pending))
      ensures r.Ok? <==> Starts(old(str.pending), "INTO")
    {
      var ok, buf := str.ReadWord("");
      if buf != "INTO" {
        return Err(MissedInto);
      }
      var table;
      ok, table := str.ReadWord("");
      var values := [];
      ghost var ws, all, k := old(str.pending), str.pending, 0;
      assert all == if |ws| > 2 then ws[2..] else [];
      while true
        invariant str.Valid() && k <= |all| && str.pending == all[k..] && values == all[..k]
        decreases |all| - k
      {
        ok, buf := str.ReadWord(buf);
        if !ok { break; }
        values := values + [buf];
        buf := "";
        k := k + 1;
      }
      assert values == all;
      r := Ok(Insert(table, values));
    }

    method ParseDelete(str: InputStream) returns (r: Result<Query>)
      requires str.Valid()
      modifies str
      ensures str.Valid()
      ensures r == Grammar.ParseDelete(old(str.pending))
      ensures r.Ok? <==> Starts(old(str.pending), "FROM")
    {
      var ok, buf := str.ReadWord("");
      if buf != "FROM" {
        return Err(MissedFrom);
      }
      var table;
      ok, table := str.ReadWord("");
      var conditions, limit := ParseConditionAndLimit(str);
      r := Ok(Delete(table, conditions, limit));
    }

    method ParseUpdate(str: InputStream) returns (r: Result<Query>)
      requires str.Valid()
      modifies str
      ensures str.Valid()
      ensures r == Grammar.ParseUpdate(old(str.pending))
      ensures r == Err(MissedSet) <==> !(|old(str.pending)| > 1 && old(str.pending)[1] == "SET")
    {
      var ok, table := str.ReadWord("");
      var buf;
      ok, buf := str.ReadWord("");
      if buf != "SET" {
        return Err(MissedSet);
      }
      var columns, values;
      ok, columns, values, buf := ParseSetList(str, buf);
      if !ok {
        return Err(MissedEquals);
      }
      var conditions, limit := ParseUpdateTail(str, buf);
      r := Ok(Update(table, columns, values, conditions, limit));
    }

    /** The SET loop. It leaves in the buffer the word that ended the list, which the stream has
        already given away, or no keyword at all when the stream ran dry. */
    method ParseSetList(str: InputStream, before: string)
      returns (ok: bool, columns: seq<string>, values: seq<string>, buf: string)
      requires str.Valid() && before == "SET"
      modifies str
      ensures str.Valid()
      ensures SetList(old(str.pending)) ==
              if ok then Ok(Assignments(columns, values, Unread(buf, str.pending))) else Err(MissedEquals)
      ensures ok && !EndsSetList(buf) ==> str.pending == []
    {
      columns, values := [], [];
      buf := before;
      ghost var list := str.pending;
      ExtendNone(SetList(list));
      while true
        invariant str.Valid()
        invariant SetList(list) == Extend(columns, values, SetList(str.pending))
        invariant !EndsSetList(buf)
        decreases |str.pending|
      {
        ghost var todo := str.pending;
        ok, buf := str.ReadWord(buf);
        if !ok || EndsSetList(buf) {
          assert columns + [] == columns && values + [] == values;
          assert Unread(buf, str.pending) == todo;
          return true, columns, values, buf;
        }
        var column := buf;
        buf := "";
        ok, buf := str.ReadWord(buf);
        if buf != "=" {
          return false, columns, values, buf;
        }
        SetListStep(columns, values, todo);
        columns := columns + [column];
        ok, buf := str.ReadWord(buf);
        values := values + [buf];
        buf := "";
      }
    }

    /** The tail of an UPDATE. Its first word is in the buffer, not in the stream. */
    method ParseUpdateTail(str: InputStream, before: string) returns (conditions: seq<string>, limit: nat)
      requires str.Valid()
      requires !EndsSetList(before) ==> str.pending == []
      modifies str
      ensures str.Valid()
      ensures conditions == Conditions(Unread(before, old(str.pending)), LIMIT_ONLY)
      ensures limit == Limit(AfterConditions(Unread(before, old(str.pending)), LIMIT_ONLY))
    {
      conditions, limit := [], SIZE_MAX;
      var buf := before;
      ghost var body, k := str.pending, 0;
      while true
        invariant str.Valid() && k <= |body| && str.pending == body[k..] && conditions == body[..k]
        invariant forall i :: 0 <= i < k ==> body[i] !in LIMIT_ONLY
        invariant buf == (if k == 0 then before else "") && (before == "LIMIT" ==> k == 0)
        decreases |body| - k
      {
        if buf == "LIMIT" { break; }
        var ok;
        ok, buf := str.ReadWord(buf);
        if !ok || buf == "LIMIT" { break; }
        conditions := conditions + [buf];
        buf := "";
        k := k + 1;
      }
      UpdateTailSplit(before, body, k);
      if buf == "LIMIT" {
        limit := str.ReadSize(limit);
      }
    }

    method Parse(command: string) returns (r: Result<Query>)
      ensures r == ParseWords(Words(command))
      ensures match r
              case Ok(q) => Spells(Words(command), q)
              case Err(e) => Refused(Words(command), e)
    {
      var str := new InputStream(command);
      var ok, queryType := str.ReadWord("");
      if queryType == "SELECT" {
        r := ParseSelect(str);
      } else if queryType == "INSERT" {
        r := ParseInsert(str);
      } else if queryType == "DELETE" {
        r := ParseDelete(str);
      } else if queryType == "UPDATE" {
        r := ParseUpdate(str);
      } else {
        r := Err(UnsupportedCommand);
      }
      match r
      case Ok(q) => AcceptsWhatIsSpelled(Words(command), q);
      case Err(e) => RefusesTheRest(Words(command), e);
    }
  }

  // What the loops have collected so far, put in front of what the grammar makes of the rest.

  ghost function Prepend(order: seq<Order>, rest: Result<seq<Order>>): Result<seq<Order>> {
    if rest.Err? then rest else Ok(order + rest.value)
  }

  lemma PrependAll(a: seq<Order>, b: seq<Order>, rest: Result<seq<Order>>)
    ensures Prepend([], rest) == rest
    ensures Prepend(a, Prepend(b, rest)) == Prepend(a + b, rest)
  {
    if rest.Ok? {
      assert [] + rest.value == rest.value;
      assert a + (b + rest.value) == a + b + rest.value;
    }
  }

  lemma OrderListStep(ws: seq<string>, previous: string)
    requires ws != []
    ensures
      var direction := if |ws| > 1 then ws[1] else previous;
      var rest := if |ws| > 1 then ws[2..] else [];
      OrderList(ws, previous) ==
      if !IsDirection(direction) then Err(UnknownSortType(direction))
      else Prepend([Order(ws[0], direction == "ASC")], OrderList(rest, direction))
  {
  }

  ghost function Extend(columns: seq<string>, values: seq<string>, rest: Result<Assignments>): Result<Assignments> {
    if rest.Err? then rest
    else Ok(Assignments(columns + rest.value.columns, values + rest.value.values, rest.value.rest))
  }

  lemma ExtendNone(rest: Result<Assignments>)
    ensures Extend([], [], rest) == rest
  {
    if rest.Ok? {
      assert [] + rest.value.columns == rest.value.columns && [] + rest.value.values == rest.value.values;
    }
  }

  /** One round of the SET loop: a column, the equals sign and a value, which is "=" when missing. */
  lemma SetListStep(columns: seq<string>, values: seq<string>, ws: seq<string>)
    requires |ws| > 1 && !EndsSetList(ws[0]) && ws[1] == "="
    ensures
      var value := if |ws| == 2 then "=" else ws[2];
      var rest := if |ws| == 2 then [] else ws[3..];
      Extend(columns, values, SetList(ws)) == Extend(columns + [ws[0]], values + [value], SetList(rest))
  {
    var rest := SetList(if |ws| == 2 then [] else ws[3..]);
    if rest.Ok? {
      assert columns + ([ws[0]] + rest.value.columns) == columns + [ws[0]] + rest.value.columns;
      var value := if |ws| == 2 then "=" else ws[2];
      assert values + ([value] + rest.value.values) == values + [value] + rest.value.values;
      if |ws| == 2 {
        assert [ws[0]] + [] == [ws[0]] && ["="] + [] == ["="];
      }
    }
  }

  /** A keyword taken from the stream into the buffer, put back in front. */
  ghost function Unread(buf: string, ws: seq<string>): seq<string> {
    if EndsSetList(buf) then [buf] + ws else ws
  }

  /** Where the condition loop of an UPDATE stops is where the grammar ends the WHERE clause. */
  lemma UpdateTailSplit(before: string, body: seq<string>, k: nat)
    requires k <= |body| && (before == "LIMIT" ==> k == 0)
    requires !EndsSetList(before) ==> body == []
    requires forall i :: 0 <= i < k ==> body[i] !in LIMIT_ONLY
    requires before != "LIMIT" && k < |body| ==> body[k] in LIMIT_ONLY
    ensures Conditions(Unread(before, body), LIMIT_ONLY) == body[..k]
    ensures AfterConditions(Unread(before, body), LIMIT_ONLY) == if before == "LIMIT" then [before] + body else body[k..]
  {
    if before == "WHERE" {
      UntilIs(body, LIMIT_ONLY, k);
      assert Unread(before, body)[1..] == body;
    }
  }
}
