/**
 * The source spells out the WHERE/LIMIT tail three times: in the helper that DELETE calls, in the
 * loops of UPDATE, and inline in SELECT. These lemmas say where the three copies agree.
 */
module Tails {
  import opened Numbers
  import opened Grammar
  import opened Printing

  predicate IsTail(ws: seq<string>) {
    ws == [] || EndsSetList(ws[0])
  }

  /** DELETE and UPDATE read the same conditions and the same limit from the same tail, whatever
      the SET list in front of it. */
  lemma DeleteAndUpdateAgree(table: string, columns: seq<string>, values: seq<string>, tail: seq<string>)
    requires |columns| == |values| && WordsAvoiding(columns, {"WHERE", "LIMIT"}) && IsTail(tail)
    ensures
      var d, u := ParseDelete(["FROM", table] + tail), ParseUpdate([table, "SET"] + (SetWords(columns, values) + tail));
      d.Ok? && u == Ok(Update(table, columns, values, d.value.conditions, d.value.limit))
  {
    var d, u := ["FROM", table] + tail, [table, "SET"] + (SetWords(columns, values) + tail);
    assert d[2..] == tail;
    assert u[2..] == SetWords(columns, values) + tail;
    SetListOfWords(columns, values, tail);
  }

  /** Every second word is a direction; only a first column cannot do without one. */
  predicate DirectionsInPlace(ws: seq<string>) {
    |ws| != 1 && forall i :: 0 <= i < |ws| && i % 2 == 1 ==> IsDirection(ws[i])
  }

  /** Which ORDER BY lists are accepted, in terms of their words: every odd position holds a direction,
      and a lone column has one from before. */
  lemma {:induction false} OrderListAccepts(ws: seq<string>, previous: string)
    ensures OrderList(ws, previous).Ok? <==>
            (|ws| == 1 ==> IsDirection(previous)) && forall i :: 0 <= i < |ws| && i % 2 == 1 ==> IsDirection(ws[i])
    decreases |ws|
  {
    if |ws| > 1 {
      var rest := ws[2..];
      OrderListAccepts(rest, ws[1]);
      assert forall i :: 0 <= i < |rest| ==> rest[i] == ws[i + 2];
      forall i | 2 <= i < |ws| && i % 2 == 1 ensures rest[i - 2] == ws[i] && (i - 2) % 2 == 1 {
      }
    }
  }

  /** What a caller can check in the words before relying on SELECT reading a tail as DELETE does: no
      condition is ORDER, and if what the LIMIT leaves begins with ORDER BY, its directions are in place. */
  predicate SelectReadsTail(tail: seq<string>) {
    var left := AfterLimit(AfterConditions(tail, LIMIT_ONLY));
    && "ORDER" !in Conditions(tail, LIMIT_ONLY)
    && (|left| > 1 && left[0] == "ORDER" && left[1] == "BY" ==> DirectionsInPlace(left[2..]))
  }

  lemma SameStop(body: seq<string>)
    ensures var k := Until(body, LIMIT_ONLY);
            if "ORDER" in body[..k] then Until(body, LIMIT_OR_ORDER) < k else Until(body, LIMIT_OR_ORDER) == k
  {
    var k := Until(body, LIMIT_ONLY);
    if "ORDER" in body[..k] {
      var i :| 0 <= i < k && body[i] == "ORDER";
      assert body[i] in LIMIT_OR_ORDER;
    } else {
      forall i | 0 <= i < k ensures body[i] !in LIMIT_OR_ORDER {
        assert body[i] in body[..k];
      }
      UntilIs(body, LIMIT_OR_ORDER, k);
    }
  }

  /** SELECT accepts a tail with the conditions and limit that DELETE reads, exactly when
      `SelectReadsTail` says so. */
  lemma SelectAndDeleteAgree(columns: seq<string>, table: string, tail: seq<string>)
    requires IsTail(tail) && WordsAvoiding(columns, {"FROM"})
    ensures
      var s, d := ParseSelect(columns + (["FROM", table] + tail)), ParseDelete(["FROM", table] + tail);
      && d.Ok?
      && ((s.Ok? && s.value.conditions == d.value.conditions && s.value.limit == d.value.limit)
          <==> SelectReadsTail(tail))
  {
    SelectSplit(columns, table, tail);
    assert (["FROM", table] + tail)[2..] == tail;
    if Starts(tail, "WHERE") {
      SameStop(tail[1..]);
    }
    var left := AfterLimit(AfterConditions(tail, LIMIT_ONLY));
    if |left| > 1 {
      OrderListAccepts(left[2..], "");
    }
  }

  lemma NumberBeforeOrder(operand: string)
    requires operand == "10ORDER"
    ensures ScanSize(operand) == Scan(10, false, 2) && operand[2..] == "ORDER"
  {
    assert DigitsEnd(operand, 0) == 2 by { assert DigitsEnd(operand, 1) == 2; }
    assert Value(operand, 0, 2) == 10 by { assert Value(operand, 0, 1) == 1; }
  }

  /** That no word of the tail is ORDER is not enough: a number takes only its digits, and what
      stays of its word may be the keyword. */
  lemma GluedOrderIsRead()
    ensures
      var tail := ["LIMIT", "10ORDER", "BY", "age", "UP"];
      && "ORDER" !in tail
      && ParseDelete(["FROM", "users"] + tail) == Ok(Delete("users", [], 10))
      && ParseSelect(["*"] + (["FROM", "users"] + tail)) == Err(UnknownSortType("UP"))
  {
    var operand := "10ORDER";
    NumberBeforeOrder(operand);
    var tail := ["LIMIT", operand, "BY", "age", "UP"];
    var clause := ["ORDER", "BY", "age", "UP"];
    assert tail[1..][1..] == ["BY", "age", "UP"];
    assert AfterLimit(tail) == clause;
    assert clause[2..] == ["age", "UP"];
    assert OrderClause(clause) == Err(UnknownSortType("UP"));
    SelectSplit(["*"], "users", tail);
    assert (["FROM", "users"] + tail)[2..] == tail;
  }

  /** A LIMIT whose operand has no digits where a number should begin stores 0 and fails the stream:
      DELETE keeps that limit, and a SELECT reads no ORDER BY behind it, however malformed. */
  lemma BadLimitIsZero(columns: seq<string>, table: string, sign: string, behind: string, rest: seq<string>)
    requires WordsAvoiding(columns, {"FROM"}) && IsOperand(sign, "", behind)
    ensures
      var tail := ["LIMIT", sign + behind] + rest;
      && ParseDelete(["FROM", table] + tail) == Ok(Delete(table, [], 0))
      && ParseSelect(columns + (["FROM", table] + tail)) == Ok(Select(columns, table, [], 0, []))
  {
    var operand := sign + behind;
    var tail := ["LIMIT", operand] + rest;
    ScanOperand(sign, "", behind);
    assert sign + "" + behind == operand;
    assert tail[1..][0] == operand;
    assert (["FROM", table] + tail)[2..] == tail;
    SelectSplit(columns, table, tail);
  }

  /** The SET list is read in source order: column i, an equals sign and value i, three words each. */
  lemma {:induction false} SetListIsInOrder(ws: seq<string>, i: nat)
    requires SetList(ws).Ok? && i < |SetList(ws).value.columns|
    ensures 3 * i + 1 < |ws| && SetList(ws).value.columns[i] == ws[3 * i] && ws[3 * i + 1] == "="
    ensures SetList(ws).value.values[i] == if 3 * i + 2 < |ws| then ws[3 * i + 2] else "="
    decreases i
  {
    if i > 0 {
      SetListIsInOrder(ws[3..], i - 1);
    }
  }
}
