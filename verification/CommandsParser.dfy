/** The system commands: their grammar over words, and the parser that reads them from a stream. */
module CommandsParsers {
  import opened Texts
  import opened InputStreams
  import opened Grammar

  /** `Rest` is what CREATE TABLE hands on: the stream itself in the parser, its words in the grammar. */
  datatype Command<Rest> =
    | Attach(name: string)
    | CreateDatabase(name: string)
    | CreateTable(rest: Rest)
    | Backup(base: string, backup: string)
    | Restore(backup: string, base: string)
    | ShowStructure
    | Drop(base: string)
    | Help

  /** The word at `i`, or what the buffer holds when the stream has run dry before it. */
  function WordOr(ws: seq<string>, i: nat, held: string): string {
    if i < |ws| then ws[i] else held
  }

  function ParseCommand(ws: seq<string>): Result<Command<seq<string>>> {
    var first := WordOr(ws, 0, "");
    if first == "CREATE" then
      if |ws| > 2 && ws[1] == "TABLE" && ws[2] == "FOR" then Ok(CreateTable(ws[3..]))
      else if |ws| > 1 && ws[1] == "DATABASE" then Ok(CreateDatabase(WordOr(ws, 2, "DATABASE")))
      else if |ws| > 1 && ws[1] == "TABLE" then Err(UnknownCommand(WordOr(ws, 2, "TABLE")))
      else Err(UnknownCommand(WordOr(ws, 1, "CREATE")))
    else if first == "ATTACH" then
      if |ws| > 1 && ws[1] == "TO" then Ok(Attach(WordOr(ws, 2, "TO")))
      else Err(UnknownCommand(WordOr(ws, 1, "ATTACH")))
    else if first == "BACKUP" then
      if |ws| > 2 && ws[2] == "AS" then Ok(Backup(ws[1], WordOr(ws, 3, "")))
      else Err(UnknownCommand(WordOr(ws, 2, "BACKUP")))
    else if first == "RESTORE" then
      if |ws| > 2 && ws[2] == "AS" then Ok(Restore(ws[1], WordOr(ws, 3, "")))
      else Err(UnknownCommand(WordOr(ws, 2, "RESTORE")))
    else if first == "SHOW" then Ok(ShowStructure)
    else if first == "DROP" then
      if |ws| > 1 && (ws[1] == "DATABASE" || ws[1] == "BASE") then Ok(Drop(WordOr(ws, 2, ws[1])))
      else Err(UnknownCommand(WordOr(ws, 1, "DROP")))
    else Ok(Help)
  }

  // ----- Acceptance, in terms of the words.

  predicate IsCommandWord(word: string) {
    word in {"CREATE", "ATTACH", "BACKUP", "RESTORE", "SHOW", "DROP"}
  }

  /** The words spell the command. A keyword at the end stands in for a missing name, except behind AS. */
  predicate SpellsCommand(ws: seq<string>, c: Command<seq<string>>) {
    match c
    case Attach(name) => ["ATTACH", "TO"] <= ws && name == WordOr(ws, 2, "TO")
    case CreateDatabase(name) => ["CREATE", "DATABASE"] <= ws && name == WordOr(ws, 2, "DATABASE")
    case CreateTable(rest) => ws == ["CREATE", "TABLE", "FOR"] + rest
    case Backup(base, backup) => ["BACKUP", base, "AS"] <= ws && backup == WordOr(ws, 3, "")
    case Restore(backup, base) => ["RESTORE", backup, "AS"] <= ws && base == WordOr(ws, 3, "")
    case ShowStructure => ["SHOW"] <= ws
    case Drop(base) =>
      (["DROP", "DATABASE"] <= ws && base == WordOr(ws, 2, "DATABASE")) ||
      (["DROP", "BASE"] <= ws && base == WordOr(ws, 2, "BASE"))
    case Help => ws == [] || !IsCommandWord(ws[0])
  }

  /** The words begin a command and do not go on as it demands; the complaint names the word that is
      wrong, or the last one read where a word is missing. */
  predicate CommandRefused(ws: seq<string>, word: string) {
    && ws != []
    && match ws[0]
       case "CREATE" =>
         if |ws| > 1 && ws[1] == "TABLE" then !(["CREATE", "TABLE", "FOR"] <= ws) && word == WordOr(ws, 2, "TABLE")
         else !(["CREATE", "DATABASE"] <= ws) && word == WordOr(ws, 1, "CREATE")
       case "ATTACH" => !(["ATTACH", "TO"] <= ws) && word == WordOr(ws, 1, "ATTACH")
       case "BACKUP" => !(|ws| > 2 && ws[2] == "AS") && word == WordOr(ws, 2, "BACKUP")
       case "RESTORE" => !(|ws| > 2 && ws[2] == "AS") && word == WordOr(ws, 2, "RESTORE")
       case "DROP" => !(|ws| > 1 && ws[1] in {"DATABASE", "BASE"}) && word == WordOr(ws, 1, "DROP")
       case _ => false
  }

  /** The grammar accepts exactly the words that spell a command, and reads that command. */
  lemma AcceptsSpelledCommand(ws: seq<string>, c: Command<seq<string>>)
    ensures ParseCommand(ws) == Ok(c) <==> SpellsCommand(ws, c)
  {
  }

  /** It refuses exactly the others, and never without a reason that the words show. */
  lemma RefusesOtherCommands(ws: seq<string>, e: Error)
    ensures ParseCommand(ws) == Err(e) <==> e.UnknownCommand? && CommandRefused(ws, e.word)
  {
  }

  /** The command as the grammar sees it: for CREATE TABLE, what its stream still holds. */
  ghost function View(c: Command<InputStream>): Command<seq<string>>
    reads if c.CreateTable? then {c.rest} else {}
  {
    match c
    case Attach(name) => Attach(name)
    case CreateDatabase(name) => CreateDatabase(name)
    case CreateTable(rest) => CreateTable(rest.pending)
    case Backup(base, backup) => Backup(base, backup)
    case Restore(backup, base) => Restore(backup, base)
    case ShowStructure => ShowStructure
    case Drop(base) => Drop(base)
    case Help => Help
  }

  ghost function Seen(r: Result<Command<InputStream>>): Result<Command<seq<string>>>
    reads if r.Ok? && r.value.CreateTable? then {r.value.rest} else {}
  {
    match r
    case Err(e) => Err(e)
    case Ok(c) => Ok(View(c))
  }

  class CommandsParser {
    constructor () {}

    /** The last test of the source, `buf == "HELP" or "help"`, is true of every word, so that
        an unknown first word asks for help. */
    method Parse(stream: InputStream) returns (r: Result<Command<InputStream>>)
      requires stream.Valid()
      modifies stream
      ensures stream.Valid()
      ensures Seen(r) == ParseCommand(old(stream.pending))
      ensures match Seen(r)
              case Ok(c) => SpellsCommand(old(stream.pending), c)
              case Err(e) => e.UnknownCommand? && CommandRefused(old(stream.pending), e.word)
      ensures r.Ok? && r.value.CreateTable? ==> r.value.rest == stream
    {
      ghost var command := ParseCommand(stream.pending);
      match command {
        case Ok(c) => AcceptsSpelledCommand(stream.pending, c);
        case Err(e) => RefusesOtherCommands(stream.pending, e);
      }
      var ok, buf := stream.ReadWord("");
      if buf == "CREATE" {
        ok, buf := stream.ReadWord(buf);
        if buf == "TABLE" {
          ok, buf := stream.ReadWord(buf);
          if buf == "FOR" {
            return Ok(CreateTable(stream));
          }
        } else if buf == "DATABASE" {
          ok, buf := stream.ReadWord(buf);
          return Ok(CreateDatabase(buf));
        }
      } else if buf == "ATTACH" {
        ok, buf := stream.ReadWord(buf);
        if buf == "TO" {
          ok, buf := stream.ReadWord(buf);
          return Ok(Attach(buf));
        }
      } else if buf == "BACKUP" || buf == "RESTORE" {
        r := ParsePair(stream, buf);
        return;
      } else if buf == "SHOW" {
        return Ok(ShowStructure);
      } else if buf == "DROP" {
        ok, buf := stream.ReadWord(buf);
        if buf == "DATABASE" || buf == "BASE" {
          ok, buf := stream.ReadWord(buf);
          return Ok(Drop(buf));
        }
      } else {
        return Ok(Help);
      }
      r := Err(UnknownCommand(buf));
    }

    /** BACKUP and RESTORE: two names with AS between them. */
    method ParsePair(stream: InputStream, keyword: string) returns (r: Result<Command<InputStream>>)
      requires stream.Valid() && (keyword == "BACKUP" || keyword == "RESTORE")
      modifies stream
      ensures stream.Valid()
      ensures Seen(r) == ParseCommand([keyword] + old(stream.pending))
      ensures r.Ok? ==> !r.value.CreateTable?
    {
      var ok, name1, name2, buf := true, "", "", keyword;
      ok, name1 := stream.ReadWord(name1);
      ok, buf := stream.ReadWord(buf);
      if buf == "AS" {
        ok, name2 := stream.ReadWord(name2);
        if keyword == "BACKUP" {
          return Ok(Backup(name1, name2));
        } else {
          return Ok(Restore(name1, name2));
        }
      }
      r := Err(UnknownCommand(buf));
    }
  }

  // ----- Round trip.

  function CommandWords(c: Command<seq<string>>): seq<string> {
    match c
    case Attach(name) => ["ATTACH", "TO", name]
    case CreateDatabase(name) => ["CREATE", "DATABASE", name]
    case CreateTable(rest) => ["CREATE", "TABLE", "FOR"] + rest
    case Backup(base, backup) => ["BACKUP", base, "AS"] + (if backup == "" then [] else [backup])
    case Restore(backup, base) => ["RESTORE", backup, "AS"] + (if base == "" then [] else [base])
    case ShowStructure => ["SHOW"]
    case Drop(base) => ["DROP", "DATABASE", base]
    case Help => ["HELP"]
  }

  /** The names that text can express: only the second name of BACKUP and RESTORE can be missing. */
  predicate Printable(c: Command<seq<string>>) {
    match c
    case Attach(name) => IsWord(name)
    case CreateDatabase(name) => IsWord(name)
    case CreateTable(rest) => AllWords(rest)
    case Backup(base, backup) => IsWord(base) && (IsWord(backup) || backup == "")
    case Restore(backup, base) => IsWord(backup) && (IsWord(base) || base == "")
    case Drop(base) => IsWord(base)
    case ShowStructure => true
    case Help => true
  }

  lemma ParseOfCommandWords(c: Command<seq<string>>)
    ensures ParseCommand(CommandWords(c)) == Ok(c)
  {
  }

  lemma ParsedCommandIsPrintable(ws: seq<string>)
    requires AllWords(ws) && ParseCommand(ws).Ok?
    ensures Printable(ParseCommand(ws).value)
  {
  }

  lemma CommandWordsAreWords(c: Command<seq<string>>)
    requires Printable(c)
    ensures AllWords(CommandWords(c))
  {
  }

  /** The commands that the parser can deliver are exactly the printable ones, and printing one
      gives a text that reads as the same command. */
  lemma CommandRoundTrip(c: Command<seq<string>>)
    ensures (exists text: string :: ParseCommand(Words(text)) == Ok(c)) <==> Printable(c)
    ensures Printable(c) ==> ParseCommand(Words(Join(CommandWords(c)))) == Ok(c)
  {
    if Printable(c) {
      CommandWordsAreWords(c);
      WordsOfJoin(CommandWords(c));
      ParseOfCommandWords(c);
    }
    forall text: string | ParseCommand(Words(text)) == Ok(c)
      ensures Printable(c)
    {
      WordsAreWords(text, 0);
      ParsedCommandIsPrintable(Words(text));
    }
  }

}
