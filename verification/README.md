# SQLid: the database registry and the stream parsers

A Dafny model of the two parts of SQLid where state is subtle, with proofs about all inputs and all runs.

**The registry.** `System` keeps an append-only vector of database slots, a map from names to slot ids, and a
directory tree: the root, one directory per database, and `backup/<name>`. Clients create, drop, back up, restore,
attach and show. `Disks` and `FileSystems` model the tree and the `std::filesystem` calls, any of which may fail at
any moment and is counted when it does; `Systems` holds the methods of `System`, each proved against a relation of
`Worlds` that says what it may do to memory and disk in every outcome, and against `Replies`, which says which outcome
the state and the failed calls lead to. `Interleavings` cuts the commands into the pieces that the lock and the file
system make of them, down to the single entry that a backup or a restore copies, and lets any number of threads
interleave. `Histories` and `Protocols` prove what holds over whole runs of it, `Exactness` that copies made in the
middle of such runs are exact. `SingleCommands` shows that an uninterrupted command is such a run, `Counterexamples`
shows why the conditions are there, and `CommandsExecutors` carries the results over to histories of commands.

**The parsers.** Requests (SELECT, INSERT, DELETE, UPDATE) and system commands are read word by word from a stream
with a sticky fail bit into one buffer that keeps its old value when a read fails. `InputStreams` models the stream
over characters, `RequestParsers` and `CommandsParsers` the parsers as the source writes them, `Grammar` the language
without buffer or stream. `Spellings` says by concatenation and position, without parsing, which words spell which query
and which are refused for which reason, and proves that the grammar decides just that. `Printing` proves the round trips,
`Tails` compares the three copies of the WHERE/LIMIT code.

## Assumptions

- Nobody but the system edits the root directory. A copy may overlap everything else that clients do; where a result
  needs the copied database to be left alone meanwhile, the lemma says so (`Exactness.Undisturbed`).
- The names given to RESTORE are single path components; the name of the database may also be empty. That case is an
  ordinary one: the truncated command `RESTORE b AS` is accepted by the parser (`CommandsParsers.CommandRoundTrip`) and
  delivers an empty name, and then src/system/system.h:203 makes the path of the root itself and lines 224-225 remove
  everything, the backup to be restored included. The model covers it: such a restore never succeeds, and neither does
  one onto the root entry `backup` (`Systems.System.RestoreDatabase`); `CommandsExecutors.BackupSurvivesExactly` says
  what they destroy. CREATE, DROP, BACKUP and ATTACH are modelled for every name.
- A moved-from `std::string` is empty. `size_t` has 64 bits; `>> size_t` follows the "C" locale in base ten.
- A null `unique_ptr` behind a registered name is reported by the model as its own lookup result; in the program it
  is a null dereference.
- A call of the file system that cannot do what it is asked (no parent, a file in the way) fails by itself; a call that
  fails although it could succeed is a fault, and the model counts faults by kind. The contracts state replies in terms
  of the faults that occurred under the command; a reliable file system has none.
- The constructor of `DataBase` reads the tree at its path, may write inside it, and may throw
  `fs::filesystem_error` or another exception. An open database is its name and the tree that it was opened on.

Where the documentation and the code differ, the model follows the code: `documentary.md` gives DROP without the word
DATABASE and calls WHERE required for DELETE, and the code demands DATABASE or BASE and accepts a DELETE without WHERE;
an unknown first word of a command is answered with help, because `buf == "HELP" or "help"` is always true; a keyword
at the end of a command stands in for the missing name (`CREATE DATABASE` creates "DATABASE").

## Model

| member | source | states |
|---|---|---|
| FileSystems.FileSystem.CopyEntries | src/system/system.h:148-159 | For every finite tree, visited in any order that puts directories before their entries, stripping one prefix and adding the other leaves under the target exactly the source tree; a failure at any entry changes nothing outside the target |
| FileSystems.FileSystem.Traverse | src/system/system.h:149-151 | Such an order exists for every directory and lists everything below it exactly once |
| FileSystems.NextEntry | src/system/system.h:231-240 | When an entry comes up, the directory its copy goes into is already there, its target is not, and the source entry is unharmed |
| FileSystems.CopyOne | src/system/system.h:153-158 | One entry extends the copied part by that relative path and no other |
| FileSystems.SomeEntryIsNext | src/system/system.h:149-151 | As long as entries are left, one of them has its directory visited, so the iteration never gets stuck |
| Disks.Tree | src/system/system.h:150-151 | The relative tree at a path holds q exactly when the disk holds path + q, with the same node |
| Disks.OutsideKeepsTree | src/system/system.h:202-203 | A change below one path does not reach a tree at an unrelated path |
| Disks.RemovalUndoes | src/system/system.h:164-167 | Removing a directory that was made afresh, whatever came into it, gives back the very disk from before |
| Systems.System.LoadFoldersAndOpenBases | src/system/system.h:23-61 | Startup registers exactly the directories whose constructor succeeds, in the order of the listing, each opened on the tree that its own directory held; names and slots are inverse to each other; no entry of the root is lost, files keep their content, and the only new entries are `backup` and, in an empty root, the database `default`. It succeeds if and only if the root is a directory, `backup` is no file, and no call fails |
| Systems.System.OpenListed | src/system/system.h:32-47 | The loop alone: whatever subset of constructors fails, and whatever the others write, the slots are those of the listing on the initial disk and the id counter keeps pace with them |
| Systems.EachOnItsOwnTree | src/system/system.h:38 | Every slot of startup holds a database opened on the tree of the directory of its own name |
| Systems.LoadOne | src/system/system.h:37-45 | One entry of the listing adds its slot and keeps the map the inverse of the slots, although the constructors before it have written to the disk |
| Systems.System.GetDataBase | src/system/system.h:76-79 | A lookup finds the database of that very name, or says whether the name or only its slot is missing |
| Systems.System.GetDataBaseById | src/system/system.h:80-83 | For the id of a registered name the lookup by id is the lookup by that name; an id is out of range or empty exactly when the lookup says so, and a database found is the one in that slot |
| Systems.System.GetDataBaseId | src/system/system.h:84-87 | The id of a registered name, always in range |
| Systems.System.CreateDataBase | src/system/system.h:88-117 | The `Created` relation in every outcome, and which outcome it is: rejected exactly on a name that is not allowed or exists, done exactly when nothing fails on a root that is there; a constructor that fails leaves the new directory behind |
| Systems.System.BackUpDatabase | src/system/system.h:124-168 | The `BackedUp` relation for every pair of names: success makes the backup equal to the database's tree. The reply is exact: a request not in order is answered without any change, a copy that fails is undone and rejected unless the removal fails too, and unless that removal fails every backup that does not succeed leaves disk and registry as they were. Of a database named `backup`, whose copy goes into itself, the content is not stated |
| Systems.System.MakeBackup | src/system/system.h:144-167 | The new directory and the copy into it: a failure at any entry is answered by the removal of the directory, after which the disk is the one from before |
| Systems.System.DeleteDatabase | src/system/system.h:170-197 | The `Dropped` relation: slot and name go even when the removal of the directory fails half-way; nothing else changes; it succeeds exactly on a registered name whose removal does not fail |
| Systems.System.RestoreDatabase | src/system/system.h:199-262 | The `Restored` relation: success opens the database on exactly the backup's tree under the old id or the next one; a failure keeps the binding, empties the slot and touches one directory only. Which outcome it is follows from the faults (`Replies.RestoreReply`): without any it succeeds everywhere but onto the root and the entry `backup`; a file system error is rolled back and rejected with the directory gone, unless the rollback fails; another exception gets through and leaves the directory in place |
| Systems.System.ReplaceOrRollBack | src/system/system.h:222-261 | The try block and its handler: the target directory is gone after a rejection and still there after an exception of another kind |
| Systems.System.ReplaceTree | src/system/system.h:222-244 | The try block hands the constructor a tree equal to the backup, with nothing left of what was there |
| Systems.SourceAfterClearing | src/system/system.h:224-231 | Once the target has been removed and made again, the backup can be read if and only if it did not lie inside the target |
| Worlds.CreatedKeepsRegistered | src/system/system.h:113-116 | The registry invariant (every name has an id of its own in range, its slot empty or of that name) survives create in every outcome, and slots never shrink |
| Worlds.DroppedKeepsRegistered | src/system/system.h:173-182 | The same for drop |
| Worlds.RestoredKeepsRegistered | src/system/system.h:209-252 | The same for restore |
| Interleavings.StepKeepsInv | src/system/system.h:88-262 | Every piece of every command, entry by entry where trees are copied, in every interleaving and at every failure point, keeps the registry invariant, the exclusion of the lock, the id that a restore found under it, and the directory that it has made |
| Interleavings.RunKeepsInv | src/system/system.h:88-262 | The same along every run, and the number of slots never falls |
| Histories.AttachmentIsStable | src/data_base/CommandsExecutor.h:28-37 | Once a client holds the id of n, in every later state of every run that id is in range and its slot is empty or a database named n |
| Histories.AttachedClientFindsItsOwn | src/clients/Operator.h:29-31 | Hence the lookup by id before a query finds the database that the client attached to or an empty slot, and is never out of range |
| Histories.DroppedIdIsNeverRecycled | src/system/system.h:173-182 | A dropped id stays empty and unnamed for good |
| Histories.FreshNamesGetNewIds | src/system/system.h:212-220 | A name that is registered again later gets an id above all that existed before |
| Histories.BindingLasts | src/system/system.h:209-252 | Only a drop of the name ends its binding to its id |
| Histories.RestoreRevivesTheId | src/system/system.h:246-248 | After any failures in between, a successful restore brings the database back under the id that its name had |
| Histories.SlotStep | src/system/system.h:209-262 | How each step moves the slot of a name against the record of its last restore |
| Histories.EmptySlotMeansFailedRestore | src/system/system.h:76-87 | Whoever can hold the lock sees a registered name with an empty slot exactly when the last restore of it that reset the slot failed; otherwise the slot holds the database of that name |
| Histories.BackupIsImmutable | src/system/system.h:137-167 | No later step of anybody changes a completed backup, a second BACKUP to the same name included, unless a command is aimed at the root entry `backup`; CommandsExecutors.BackupSurvivesExactly has the converse |
| Histories.BackupsHaveOneOwner | src/system/system.h:144-167 | A backup in the making has one owner at every moment of such a run, so that a rollback never removes the backup of another client |
| Exactness.BackupIsExact | src/system/system.h:144-159 | A backup that copies entry by entry while other clients create, drop, restore and back up elsewhere holds, when it ends, exactly the tree that its database had when it began |
| Exactness.RestoreIsExact | src/system/system.h:222-252 | A restore that commits in the middle of such a run has opened its database on exactly the tree of the backup, and the lookup of its name finds that database |
| Exactness.BackupThenRestoreIsExact | src/system/system.h:124-262 | Backup, any run, restore, all interleaved with other clients: the database found under the new name was opened on the tree of the original at the moment the backup began, whatever the target held |
| Protocols.ProtocolIsKeptExactly | src/system/system.h:88-117 | The invariant of create (a name in creation is unregistered, has its directory and one owner; writers work elsewhere; registered names have directories; live slots belong to their names) survives a step if and only if the step respects create |
| Protocols.ProtocolHoldsThroughout | src/system/system.h:88-117 | Hence it holds in every state of every interleaving of creates, drops, backups and respectful restores |
| Protocols.PublishFindsNameFree | src/system/system.h:113-116 | In such runs the insert at publish never finds its name taken |
| Protocols.LiveSlotsHaveDifferentNames | src/system/system.h:113-116 | In such runs no two live slots share a name |
| Protocols.CreationKept | src/system/system.h:103-111 | Making the directory decides: the name of a thread in creation stays unregistered, on disk and its own |
| Protocols.WriterKept | src/system/system.h:170-197 | The name being restored, or dropped as long as its directory is there, is never in creation; what is being dropped keeps its directory until the step that removes it, and the lock is held beyond that step |
| Protocols.DirectoryKept | src/system/system.h:222-252 | A registered name has its directory except while it is being restored |
| Counterexamples.EveryOverlapCanMakeTwins | src/system/system.h:103-116 | From every state of the protocol in which a name is being created, a restore of that name that begins there can end, together with the create, in two live databases of that name |
| Counterexamples.OverlappingRestoreMakesTwins | src/system/system.h:199-252 | Such states exist: a concrete run with two live databases of one name |
| Counterexamples.DroppingTheBackupEntryRemovesBackups | src/system/system.h:181-187 | A concrete run in which dropping the root entry `backup`, once startup has registered it, removes a completed backup |
| SingleCommands.CreateIsARun | src/system/system.h:88-117 | An uninterrupted create, in every outcome, is a run of one thread |
| SingleCommands.DropIsARun | src/system/system.h:170-197 | The same for drop |
| SingleCommands.BackupIsARun | src/system/system.h:124-168 | The same for backup |
| SingleCommands.RestoreIsARun | src/system/system.h:199-262 | The same for restore, onto every name but the empty one |
| SingleCommands.StartupStateIsGood | src/system/system.h:65-75 | What startup leaves satisfies every invariant from which the run lemmas start |
| CommandsExecutors.CommandsExecutor.ShowStructure | src/data_base/CommandsExecutor.h:12-18 | SHOW yields the names of the live slots in id order |
| CommandsExecutors.CommandsExecutor.CreateTable | src/system/system.h:118-123 | Reads the database name from the stream; a name without a live database changes nothing, otherwise only the inside of that database's directory can change and the directory itself stays |
| CommandsExecutors.CommandsExecutor.Execute | src/data_base/CommandsExecutor.h:21-71 | Each command has its own effect on the system and the reply that the state and the failed calls lead to; only SHOW yields rows; the client changes only by a successful ATTACH, to the id of that name |
| CommandsExecutors.CommandsSucceedWhenInOrder | src/data_base/CommandsExecutor.h:38-64 | When nothing fails, CREATE succeeds exactly on an allowed new name, BACKUP exactly when its request is in order, RESTORE exactly from an existing backup onto a name other than the empty one and `backup`, DROP exactly on a registered name |
| CommandsExecutors.ExecutedIsActed | src/data_base/CommandsExecutor.h:21-71 | Whatever the executor does to the system is one of the acts of the command histories, or nothing |
| CommandsExecutors.ShowAgreesWithRegistry | src/data_base/CommandsExecutor.h:12-18 | In a consistent registry SHOW has one row per registered name, in id order, none missing and none twice |
| CommandsExecutors.ConsistencyIsKeptExactly | src/system/system.h:209-262 | A command keeps names, live slots and directories in step if and only if it is not a restore that fails after the slot reset of a registered name, or after it removed the root under registered names; open only where a rollback of the root failed half-way as well |
| CommandsExecutors.ShowAgreesThroughout | src/data_base/CommandsExecutor.h:12-18 | After any sequence of commands without such a failure, SHOW lists the registry |
| CommandsExecutors.FailedRestoreIsContained | src/system/system.h:257-261 | A failed restore changes no name and no other slot, and, unless it was aimed at the root, no other tree of the root, the backups included |
| CommandsExecutors.BackupSurvivesExactly | src/system/system.h:181-187 | A command that runs its course leaves a backup as it was if and only if it is not aimed at the root entry `backup` or at the root; otherwise the backup is gone |
| CommandsExecutors.CommandsBringTheTreeBack | src/system/system.h:124-262 | BACKUP, any commands aimed elsewhere, RESTORE: the database found has the tree of the original at the backup |
| InputStreams.InputStream.ReadWord | src/parser/RequestParser.h:13-14 | An extraction delivers the next word of the text, or sets the fail bit and leaves the buffer |
| InputStreams.InputStream.ReadSize | src/parser/RequestParser.h:21-23 | A number takes its digits and leaves the rest of its word; at the end the old value stays, a bad text sets the fail bit |
| InputStreams.WordsInsideWord | src/parser/RequestParser.h:47-50 | A position inside a word leaves the rest of that word and all the words behind it |
| Texts.WordsOfJoin | src/parser/RequestParser.h:139-142 | Joining words with blanks and reading them back is the identity |
| Texts.WordsOfLayout | src/parser/RequestParser.h:139-142 | Words with any blanks, tabs and line ends around and between them are read as these words |
| Texts.EveryTextIsALayout | src/parser/RequestParser.h:139-142 | Every text is such a layout of its words |
| Numbers.ScanNumeral | src/parser/RequestParser.h:21-23 | A decimal numeral with any sign before it and any non-digit behind is read as its value modulo SIZE_MAX + 1 if it fits, as SIZE_MAX with the fail bit if not, and what is behind stays in the stream |
| Numbers.ScanOperand | src/parser/RequestParser.h:47-49 | What the extraction makes of any word, split into sign, digits and rest: no digits store 0 and fail, a number that fits is stored modulo SIZE_MAX + 1, one that does not is stored as SIZE_MAX and fails; sign and digits are taken and nothing else |
| Numbers.EveryWordIsOperand | src/parser/RequestParser.h:47-49 | Every word splits in this way |
| Numbers.ScanDecimal | src/parser/RequestParser.h:47-49 | Every limit up to SIZE_MAX, printed in decimal, is read back exactly |
| RequestParsers.RequestParser.ParseConditionAndLimit | src/parser/RequestParser.h:10-25 | The loop reads the conditions and limit that the grammar finds in the words |
| RequestParsers.RequestParser.ParseSelect | src/parser/RequestParser.h:27-38 | Refines the grammar of SELECT, the missing table name included |
| RequestParsers.RequestParser.ParseSelectTail | src/parser/RequestParser.h:40-46 | Refines the grammar of what follows the table |
| RequestParsers.RequestParser.ParseLimitAndOrder | src/parser/RequestParser.h:47-51 | LIMIT and ORDER as the grammar splits them, although their keyword is already in the buffer |
| RequestParsers.RequestParser.ParseOrder | src/parser/RequestParser.h:51-68 | The ORDER BY list, where a last column without a direction takes the one before |
| RequestParsers.RequestParser.ParseInsert | src/parser/RequestParser.h:73-86 | Every word after the table name, in order; accepted exactly when INTO comes first |
| RequestParsers.RequestParser.ParseDelete | src/parser/RequestParser.h:88-101 | Refines the grammar of DELETE; accepted exactly when FROM comes first |
| RequestParsers.RequestParser.ParseUpdate | src/parser/RequestParser.h:103-130 | Refines the grammar of UPDATE; a missing SET is reported exactly when the second word is another one |
| RequestParsers.RequestParser.ParseSetList | src/parser/RequestParser.h:110-117 | The SET loop pairs columns and values as the grammar does, and says what it leaves in the buffer |
| RequestParsers.RequestParser.ParseUpdateTail | src/parser/RequestParser.h:120-127 | The loops of UPDATE find the conditions and limit of the grammar although the first word of the tail is in the buffer |
| RequestParsers.RequestParser.Parse | src/parser/RequestParser.h:135-149 | On every input the parser ends with the query that the words spell, or with the error for which they are refused |
| RequestParsers.UpdateTailSplit | src/parser/RequestParser.h:120-123 | Where the condition loop stops is where the WHERE clause ends |
| Spellings.AcceptsWhatIsSpelled | src/parser/RequestParser.h:10-149 | A list of words is read as a query if and only if it is put together as that query demands: keywords in place, columns before the first FROM, conditions up to the first stop word, the number of the LIMIT and what it leaves, directions and assignments position by position |
| Spellings.RefusesTheRest | src/parser/RequestParser.h:35-148 | A list of words is refused with an error if and only if that error applies: no FROM, no INTO, no SET, a column without its equals sign, the word in the place of the first direction that is none, or an unknown first word |
| Spellings.SpelledOrRefused | src/parser/RequestParser.h:135-149 | Every list of words spells exactly one query or is refused for exactly one reason |
| Spellings.PiecesAreUnique | src/parser/RequestParser.h:31-50 | The words of a SELECT fall apart into columns, table, conditions, limit and the rest in exactly one way, and only if FROM is among them |
| Spellings.OrderListSpelled | src/parser/RequestParser.h:55-66 | Column i and direction i are the words 2i and 2i + 1; a last column without a direction takes the one before |
| Spellings.OrderListRefused | src/parser/RequestParser.h:63-65 | The complaint names the word in the place of the first direction that is none |
| Spellings.SetListSpelled | src/parser/RequestParser.h:110-117 | A SET list is read if and only if words 3i, 3i + 1 and 3i + 2 are column, equals sign and value up to a WHERE or LIMIT in column position or the end |
| Spellings.SetListRefused | src/parser/RequestParser.h:113-114 | A column without an equals sign after complete assignments is refused |
| Printing.ReadsBack | src/parser/RequestParser.h:10-130 | The words of every printable query are read as that query |
| Printing.RoundTrip | src/parser/RequestParser.h:135-149 | The words of a printable query, laid out with any white space, read as that query |
| Printing.PrintThenParse | src/parser/RequestParser.h:10-130 | Printing, then parsing, is the identity on every printable query, for every limit and any ORDER BY list |
| Printing.ParsedIsPrintable | src/parser/RequestParser.h:27-130 | Whatever is accepted, truncated input, ignored words and bad limits included, yields a printable query |
| Printing.ResultsArePrintable | src/parser/RequestParser.h:135-149 | The queries that some text parses to are exactly the printable ones |
| Printing.NormalisationIsIdempotent | src/parser/RequestParser.h:135-149 | Printing the query of any accepted text and parsing it again gives the same query |
| Tails.DeleteAndUpdateAgree | src/parser/RequestParser.h:110-127 | DELETE and UPDATE read the same conditions and limit from every tail, whatever SET list precedes it |
| Tails.OrderListAccepts | src/parser/RequestParser.h:52-66 | An ORDER BY list is accepted if and only if every second word is ASC or DESC and a lone column has a direction from before |
| Tails.SelectAndDeleteAgree | src/parser/RequestParser.h:40-66 | SELECT accepts a tail with the conditions and limit of DELETE if and only if no condition is the word ORDER and, should the words left by the LIMIT begin with ORDER BY, what follows is no lone column and every second word of it is a direction |
| Tails.GluedOrderIsRead | src/parser/RequestParser.h:47-51 | A tail without the word ORDER on which SELECT and DELETE disagree: `LIMIT 10ORDER BY age UP` |
| Tails.BadLimitIsZero | src/parser/RequestParser.h:21-23 | A LIMIT without a number, such as `LIMIT abc`, stores 0; what follows is not read, so that no ORDER BY behind it takes effect or is complained about |
| Tails.SetListIsInOrder | src/parser/RequestParser.h:110-117 | Column i, the equals sign and value i are three consecutive words of the text |
| CommandsParsers.CommandsParser.Parse | src/parser/CommandsParser.h:16-73 | On every input the command that the words spell or the complaint that applies; CREATE TABLE hands on the same stream, advanced past FOR |
| CommandsParsers.CommandsParser.ParsePair | src/parser/CommandsParser.h:39-58 | BACKUP and RESTORE: two names with AS between them |
| CommandsParsers.AcceptsSpelledCommand | src/parser/CommandsParser.h:20-71 | A command is delivered if and only if the words begin with its keywords: DROP takes DATABASE or BASE, ATTACH takes TO, a trailing keyword stands in for a missing name, and any other first word asks for help |
| CommandsParsers.RefusesOtherCommands | src/parser/CommandsParser.h:72 | The rest is refused, and the complaint names the word that is wrong or the last one read |
| CommandsParsers.ParsedCommandIsPrintable | src/parser/CommandsParser.h:16-73 | Only the second name of BACKUP and RESTORE can be empty |
| CommandsParsers.CommandRoundTrip | src/parser/CommandsParser.h:16-73 | The commands that the parser delivers are exactly the printable ones, and each reads back from its own text |

## Left out

- Sockets, framing and JSON results: plumbing around the two modelled parts.
- Table storage, memory maps, the optimiser, WHERE evaluation and sorting: an open database is opaque here, and its writes stay below its own directory.
- The table names in a row of SHOW: a row is the database name.
- References to a `DataBase` that outlive the lock: only ids and slots are followed.
- Symbolic links, permissions, case-insensitive file systems and data not yet flushed.
- Systems.System.RestoreDatabase: a name with a separator, `.` or `..` is excluded by precondition, because such a path may lead out of the root, where nothing is modelled.
- CommandsExecutors.CommandsExecutor.Execute: the same names are excluded for RESTORE.
- FileSystems.FileSystem.CopyIntoItself: what a BACKUP of the database `backup` copies is not specified, since the iterator walks a tree that grows under it.
- SingleCommands.RestoreIsARun: a restore onto the root (empty name) is followed as a command and not interleaved with others.
- CommandsExecutors.CommandsExecutor.CreateTable: the columns of the new table are not read, because the storage engine is opaque.
