/**
 * The request language over words: what each of the four statements means, stated by splitting the
 * word list at its keywords. There is no buffer, no fail bit and no position here.
 */
module Grammar {
  import opened Numbers
  import opened InputStreams

  datatype Order = Order(column: string, greater: bool)

  datatype Query =
    | Select(columns: seq<string>, table: string, conditions: seq<string>, limit: nat, order: seq<Order>)
    | Insert(table: string, values: seq<string>)
    | Delete(table: string, conditions: seq<string>, limit: nat)
    | Update(table: string, columns: seq<string>, values: seq<string>, conditions: seq<string>, limit: nat)

  /** The texts of IncorrectInputException. */
  datatype Error =
    | MissedFrom | MissedInto | MissedSet | MissedEquals
    | UnknownSortType(word: string)
    | UnsupportedCommand
    | UnknownCommand(word: string)

  datatype Result<T> = Ok(value: T) | Err(error: Error)

  /** Where the first word among `stops` is; the length of the list when there is none. */
  function Until(ws: seq<string>, stops: set<string>): (k: nat)
    ensures k <= |ws|
    ensures forall i :: 0 <= i < k ==> ws[i] !in stops
    ensures k < |ws| ==> ws[k] in stops
  {
    if ws == [] || ws[0] in stops then 0 else 1 + Until(ws[1..], stops)
  }

  lemma {:induction false} UntilIs(ws: seq<string>, stops: set<string>, k: nat)
    requires k <= |ws|
    requires forall i :: 0 <= i < k ==> ws[i] !in stops
    requires k < |ws| ==> ws[k] in stops
    ensures Until(ws, stops) == k
  {
    if k > 0 {
      UntilIs(ws[1..], stops, k - 1);
    }
  }

  predicate Starts(ws: seq<string>, word: string) {
    ws != [] && ws[0] == word
  }

  /** The conditions of a WHERE clause at the front of `ws`, which ends before the first stop word. */
  function Conditions(ws: seq<string>, stops: set<string>): seq<string> {
    if Starts(ws, "WHERE") then ws[1..][..Until(ws[1..], stops)] else []
  }

  function AfterConditions(ws: seq<string>, stops: set<string>): seq<string> {
    if Starts(ws, "WHERE") then ws[1..][Until(ws[1..], stops)..] else ws
  }

  /** The operand of a LIMIT clause at the front of `ws`. */
  function Limit(ws: seq<string>): (n: nat)
    ensures n <= SIZE_MAX
  {
    if Starts(ws, "LIMIT") && |ws| > 1 then ScanSize(ws[1]).value else SIZE_MAX
  }

  function AfterLimit(ws: seq<string>): seq<string> {
    if Starts(ws, "LIMIT") then AfterSize(ws[1..]) else ws
  }

  predicate IsDirection(word: string) {
    word == "ASC" || word == "DESC"
  }

  /** Pairs of a column and its direction; a last column without one takes `previous`. */
  function OrderList(ws: seq<string>, previous: string): Result<seq<Order>>
    decreases |ws|
  {
    if ws == [] then Ok([])
    else
      var direction := if |ws| > 1 then ws[1] else previous;
      if !IsDirection(direction) then Err(UnknownSortType(direction))
      else
        var rest := OrderList(if |ws| > 1 then ws[2..] else [], direction);
        if rest.Err? then rest else Ok([Order(ws[0], direction == "ASC")] + rest.value)
  }

  function OrderClause(ws: seq<string>): Result<seq<Order>> {
    if |ws| > 1 && ws[0] == "ORDER" && ws[1] == "BY" then OrderList(ws[2..], "") else Ok([])
  }

  const LIMIT_ONLY := {"LIMIT"}
  const LIMIT_OR_ORDER := {"LIMIT", "ORDER"}

  /** What follows the table name of a SELECT. */
  function SelectTail(columns: seq<string>, table: string, tail: seq<string>): Result<Query> {
    var rest := AfterConditions(tail, LIMIT_OR_ORDER);
    var order := OrderClause(AfterLimit(rest));
    if order.Err? then Err(order.error)
    else Ok(Select(columns, table, Conditions(tail, LIMIT_OR_ORDER), Limit(rest), order.value))
  }

  function ParseSelect(ws: seq<string>): Result<Query> {
    var k := Until(ws, {"FROM"});
    if k == |ws| then Err(MissedFrom)
    else if k + 1 == |ws| then SelectTail(ws[..k], "FROM", [])
    else SelectTail(ws[..k], ws[k + 1], ws[k + 2..])
  }

  function ParseInsert(ws: seq<string>): Result<Query> {
    if !Starts(ws, "INTO") then Err(MissedInto)
    else if |ws| == 1 then Ok(Insert("", []))
    else Ok(Insert(ws[1], ws[2..]))
  }

  function ParseDelete(ws: seq<string>): Result<Query> {
    if !Starts(ws, "FROM") then Err(MissedFrom)
    else if |ws| == 1 then Ok(Delete("", [], SIZE_MAX))
    else
      var tail := ws[2..];
      Ok(Delete(ws[1], Conditions(tail, LIMIT_ONLY), Limit(AfterConditions(tail, LIMIT_ONLY))))
  }

  /** The SET list: column = value, repeated up to a WHERE or LIMIT in column position. */
  datatype Assignments = Assignments(columns: seq<string>, values: seq<string>, rest: seq<string>)

  predicate EndsSetList(word: string) {
    word == "WHERE" || word == "LIMIT"
  }

  function SetList(ws: seq<string>): (r: Result<Assignments>)
    ensures r.Ok? ==> |r.value.columns| == |r.value.values| && |r.value.rest| <= |ws|
  {
    if ws == [] || EndsSetList(ws[0]) then Ok(Assignments([], [], ws))
    else if |ws| == 1 || ws[1] != "=" then Err(MissedEquals)
    else if |ws| == 2 then Ok(Assignments([ws[0]], ["="], []))
    else
      var r := SetList(ws[3..]);
      if r.Err? then r
      else Ok(Assignments([ws[0]] + r.value.columns, [ws[2]] + r.value.values, r.value.rest))
  }

  function ParseUpdate(ws: seq<string>): Result<Query> {
    if |ws| < 2 || ws[1] != "SET" then Err(MissedSet)
    else
      var set_ := SetList(ws[2..]);
      if set_.Err? then Err(set_.error)
      else
        var Assignments(columns, values, tail) := set_.value;
        Ok(Update(ws[0], columns, values,
                  Conditions(tail, LIMIT_ONLY), Limit(AfterConditions(tail, LIMIT_ONLY))))
  }

  /** The first word chooses the statement. */
  function ParseStatement(keyword: string, args: seq<string>): Result<Query> {
    if keyword == "SELECT" then ParseSelect(args)
    else if keyword == "INSERT" then ParseInsert(args)
    else if keyword == "DELETE" then ParseDelete(args)
    else if keyword == "UPDATE" then ParseUpdate(args)
    else Err(UnsupportedCommand)
  }

  function ParseWords(ws: seq<string>): Result<Query> {
    if ws == [] then Err(UnsupportedCommand) else ParseStatement(ws[0], ws[1..])
  }
}
