# dudld in Dafny

dudld is a jukebox daemon. Clients log in over a line protocol, queue tracks, and control a player; a
filter language chooses the tracks that random selection plays. This project models the parts of it where
most of the logic is, and proves what they promise:

- **Filters.** The filter language as a grammar with concrete syntax trees (`Grammar`), the hand-written
  parser over a one-character cursor (`Cursor`, `Parser`), the printer into bounded buffers (`Buffer`,
  `Printer`), and the compiler to SQL (`SqlCompile`, `SqlPrinter`). The parser accepts exactly the grammar;
  the grammar is unambiguous; printing and parsing undo each other exactly for printable filters that fit
  (`GrammarProofs`, `RoundTrip`, `SaveLoad`); compiled SQL, read by a small SQL lexer, parser and three-valued
  evaluator (`SqlLex`, `Sql`), selects exactly the tracks a filter describes under an exact condition on its tag
  tests (`SqlProofs`, `Selection`), and what a clause that does not fit its buffer selects (`SqlCut`, `Selection`).
  What each word of the language means, from the text of a filter to its tracks, is spelt out (`FilterWords`), and so
  is the message and column for every text that is no filter (`Faults`, `FaultProofs`).
- **Player.** The state machine behind start, stop, next, pause, end of stream, errors and gaps (`Player`,
  `PlayerMachine`): exactly which steps keep clients right about the status, which keep the history
  conserved, how the next track is selected, and that the player refines a much simpler one
  (`PlayerProofs`); and what every step does in every state, above all what clients are told (`PlayerEffects`).
- **Clients.** Reference counts and the re-entrant close, broadcast and disconnect, and who leaves the list and why
  (`ClientLedger`, `ClientLog`, `Clients`); reassembling lines from chunks (`Lines`, `LineBuffer`); escaped tab-separated records and
  multi-line replies (`Wire`, `TabBuffer`, `Records`, `Reply`, `Layouts`, `Dump`); the login state machine and command
  dispatch (`Session`, `SessionArgs`, `CommandTable`, `Connection`).

Code that updates things in place is modelled by classes, arrays and loops whose contracts tie them to
functions on values; the properties are then proved of those functions. `Text` holds the character classes
and decimal numbers of the C library.

Several things one would expect of the code hold only under a condition. For these there is a lemma with
the exact condition, in both directions, and one with an input for which it fails:

- A printed filter is parsed as the same filter if and only if its strings are clean and its numbers are
  not negative, and the text fits the buffer (`SaveLoad.StoredFilter`, `SaveLoad.QuotedTitleIsLost`): the
  printer does not escape what the parser unescapes.
- SQL for a filter is right if and only if its tests compile and the database is sure of the filter
  (`SqlProofs.CompiledMeaning`). Being sure is a statement about all tracks, which no caller can check; the
  conditions that one can check before the query are those of `SqlProofs.OrdinaryMeaning`, where compiling is
  enough, `SqlProofs.TagNumber` and `SqlProofs.CutList`. A name without a tag gives no text at all, and then a query
  without a condition (`SqlProofs.UnknownTagSelectsAll`); a tag's number is compared with null
  (`SqlProofs.TagNumber`); a list of ids that fills its buffer to the last character loses that character
  (`SqlProofs.CutList`, `SqlProofs.LongListSelectsWrong`).
- A clause of 4096 characters or more is cut off. That is an error unless the cut falls where the rest can be read
  (`SqlCut.CutClause`), and what is then selected is right only in the cases of `Selection.CutMeaning`; a title of
  the wrong length finds another one (`Selection.LongTitleSelectsWrong`).
- Clients are right about the player's status after exactly the benign steps; a pipeline that gets ready
  but then fails to play leaves them wrong (`PlayerProofs.StepCoherent`, `PlayerProofs.FailedStartMisleads`).
- History is conserved unless an unplayable track is left behind as the current one
  (`PlayerProofs.StepConserves`, `PlayerProofs.UnplayableTrackIsLeft`).
- Taking a line out of the input buffer does not terminate what is moved to the front, so a later call may find
  line breaks that are no longer part of the input. A read is drained without an overrun if and only if the unread
  text is orderly, which can be computed from the text alone (`LineBuffer.InputBuffer.Drain`,
  `LineBuffer.Receive`); so it matters how a stream is split (`LineBuffer.ChunkingMatters`,
  `Lines.ThirdCallOverruns`).
- A record whose first field is empty loses a separator (`Wire.RowExact`, `Wire.EmptyFirstIsLost`); no format in
  use starts with one. A record is what its arguments say if and only if it fits
  (`TabBuffer.RecordedExact`), and `TabBuffer.InsideExact` says, from lengths alone, which others still stay inside
  the buffer; a number behind a long string does not (`TabBuffer.NumberBehindString`), nor does a nested record
  behind a string of one particular length (`TabBuffer.RecordBehindString`).
- Help and dispatch agree if and only if, of all commands with one name, the first needs the least right
  (`Session.HelpExact`, `Session.DuplicateIsListed`), which is so of the table in use
  (`CommandTable.HelpIsExact`).

How the model reads the source:

- Characters are those of the "C" locale; a byte above 127 is an ordinary character that is neither a blank
  nor a letter. A C `int` that overflows while a number is parsed wraps around as in two's complement.
- Where the code takes a character of value 255 for the end of input, the model does not.
- GStreamer state changes are answered at once, by an oracle (`World`) that may differ at every step; all
  player callbacks are installed, as `proto.c:238-243` does. Deleting the head of the queue succeeds.
- Clients are identified by their id; a freed client is one without an entry in the table of counts. The
  result of every send is arbitrary. A broadcast of a log-out happens inside the disconnect callback.
- Numeric columns are integers, a quoted number is read as a number where it is compared to one, a quote in a
  literal is doubled as in subclause 5.3 of ISO/IEC 9075-2, and a backslash is an ordinary character.
  Matching of regular expressions is a parameter of the database. Rows hold no nulls.
- A missing column name is printed as "(null)", as the GNU C library does. The database reads that as the null
  value, and a comparison with it is unknown; conditions have the three truth values of SQL.
- The user database is a parameter of each line, so it may change in between (`Session.Event`).
- Times of day in records are C ints.

## Model

| member | source | states |
|---|---|---|
| Filter.AllowedMeans | commondb/parseexpr.c:423-474 | the table of tests holds exactly the combinations of field, operator and type that make sense for them |
| Cursor.StringInput.constructor | commondb/parsebuf.c:76-108 | a new cursor is at the start of the text |
| Cursor.StringInput.Eof | commondb/parsebuf.c:37-40 | end of input exactly if nothing is unread |
| Cursor.StringInput.Col | commondb/parsebuf.c:48-51 | the column is the read position, within the text |
| Cursor.StringInput.Next | commondb/parsebuf.c:53-59 | returns the next character and moves past it, or none at the end |
| Cursor.StringInput.Done | commondb/parsebuf.c:61-64 | commits what was read |
| Cursor.StringInput.Undo | commondb/parsebuf.c:66-69 | goes back to the commit point |
| GrammarProofs.BodySound | commondb/parseexpr.c:142-205 | what is read as the body of a string is a well-formed body, and with the rest it makes up the text |
| GrammarProofs.BodyComplete | commondb/parseexpr.c:142-205 | every well-formed body, followed by a quote, is read as itself |
| GrammarProofs.ValueSound | commondb/parseexpr.c:280-318 | what is read as a value is one, and with the rest it makes up the text |
| GrammarProofs.ValueComplete | commondb/parseexpr.c:280-318 | every value is read as itself in front of any text that does not continue it |
| GrammarProofs.OperandSound | commondb/parseexpr.c:320-360 | the same for lists and single operands |
| GrammarProofs.OperandComplete | commondb/parseexpr.c:320-360 | the same for lists and single operands |
| GrammarProofs.TestSound | commondb/parseexpr.c:507-594 | what is read as a test is one of the table of tests, and with the rest it makes up the text |
| GrammarProofs.TestComplete | commondb/parseexpr.c:507-594 | every test of the grammar is read as itself |
| GrammarProofs.OneSound | commondb/parseexpr.c:622-707 | parentheses, negations and tests are read as trees whose text they are |
| GrammarProofs.OneComplete | commondb/parseexpr.c:622-707 | every such tree is read as itself |
| GrammarProofs.ParserAcceptsGrammar | commondb/parseexpr.c:731-813 | a text is parsed as a filter if and only if the grammar derives the text and the filter |
| GrammarProofs.GrammarIsUnambiguous | commondb/parseexpr.c:731-779 | two derivations of one text are the same tree |
| GrammarProofs.ParsedIsAccepted | commondb/parseexpr.c:781-801 | every parsed filter has leaves of the table of tests, flat non-empty lists and lower-case strings |
| Parser.FilterParser.Nonspace | commondb/parseexpr.c:56-66 | skips blanks, commits them, and returns the character behind them |
| Parser.FilterParser.FilterName | commondb/parseexpr.c:102-117 | takes a letter or digit, or leaves the input alone |
| Parser.FilterParser.ParseName | commondb/parseexpr.c:119-125 | returns the lower-cased leading name and leaves the rest |
| Parser.FilterParser.ParseNum | commondb/parseexpr.c:127-140 | returns the value of the leading digits, which blanks may separate, and leaves the rest |
| Parser.FilterParser.FilterString | commondb/parseexpr.c:142-177 | takes one character of a string, an escape pair as one |
| Parser.FilterParser.ParseString | commondb/parseexpr.c:179-205 | returns the string that the grammar reads there, or fails as the grammar does |
| Parser.FilterParser.ParseValue | commondb/parseexpr.c:280-318 | returns the value that the grammar reads there, or fails |
| Parser.FilterParser.ParseValList | commondb/parseexpr.c:320-360 | returns the list that the grammar reads there, or fails |
| Parser.FilterParser.ParseValOp | commondb/parseexpr.c:367-421 | returns the operator that the grammar reads there, or none |
| Parser.FilterParser.FindField | commondb/parseexpr.c:525-529 | finds the field of a name exactly if there is one |
| Parser.FilterParser.FindTestType | commondb/parseexpr.c:566-575 | finds a kind of test exactly if the table has it |
| Parser.FilterParser.ParseOperand | commondb/parseexpr.c:538-558 | reads a list behind IN and one value behind any other operator, or fails with the first message |
| Parser.FilterParser.ParseValTest | commondb/parseexpr.c:507-594 | returns the test that the grammar reads there, or fails |
| Parser.FilterParser.ParseExprVal | commondb/parseexpr.c:622-642 | the same for a test as a filter |
| Parser.FilterParser.ParseExprNot | commondb/parseexpr.c:644-665 | the same for a negation |
| Parser.FilterParser.ParseOneExpr | commondb/parseexpr.c:668-707 | the same for an operand of an operator; the unread text shrinks with every level |
| Parser.FilterParser.ParseOperator | commondb/parseexpr.c:709-728 | returns the operator that is there, or none and leaves the input alone |
| Parser.FilterParser.ParseExpr | commondb/parseexpr.c:731-779 | returns the filter that the grammar reads there, or fails |
| Parser.FilterParser.ExprParse | commondb/parseexpr.c:781-801 | parses the whole input; on failure the message is the first one that came up, and the column is where reading stopped then |
| Parser.ExprParseStr | commondb/parseexpr.c:803-813 | terminates for every text, parses it as the grammar does, and on failure gives the message and the column of ParseFault |
| FaultProofs.ParseFine | commondb/parseexpr.c:781-801 | every text that is no filter leads to one of twelve messages, the four others are never seen, and to a column within the text |
| FaultProofs.OpenFault | commondb/parseexpr.c:672-686 | a parenthesis in front of any filter that is not closed |
| FaultProofs.CloseFault | commondb/parseexpr.c:692-695 | a parenthesis that was not opened |
| FaultProofs.OperatorFault | commondb/parseexpr.c:746-752 | anything but a connective behind any filter |
| FaultProofs.JunkFault | commondb/parseexpr.c:791-795 | a closing parenthesis behind any filter |
| FaultProofs.UnknownFault | commondb/parseexpr.c:525-534 | any name but the eight, in any case |
| FaultProofs.NoOperatorFault | commondb/parseexpr.c:405-421 | a field without an operator, or with something else in its place |
| FaultProofs.ValueFaults | commondb/parseexpr.c:285-310 | a value that is missing, or neither a number nor a string |
| FaultProofs.StringFaults | commondb/parseexpr.c:140-204 | a string that is not closed, and one that ends in a backslash |
| FaultProofs.MatchFault | commondb/parseexpr.c:565-583 | a number for a title |
| Buffer.WriteMore | commondb/parseexpr.c:244-277 | writing in two pieces is the same as writing at once |
| Buffer.WriteMeans | commondb/parseexpr.c:244-277 | a bounded buffer holds a terminated prefix of the text, as long as fits, and is unchanged elsewhere |
| Printer.ValueFmt | commondb/parseexpr.c:244-277 | writes what fits of the text of a value, and reports its length, or more than the room if it does not fit |
| Printer.ListFmt | commondb/parseexpr.c:259-269 | the same for a list |
| Printer.TestFmt | commondb/parseexpr.c:602-611 | the same for a test |
| Printer.ExprFmt | commondb/parseexpr.c:815-863 | the same for a filter: the bounded printer leaves what the unbounded one would, cut off and terminated |
| RoundTrip.PrintParse | commondb/parseexpr.c:815-863 | parsing a filter's full text gives the filter back if and only if it is printable |
| RoundTrip.StringLiteral | commondb/parseexpr.c:142-205 | a quoted string is read back whole if and only if it is lower case, without quotes, adjacent backslashes and a final backslash |
| SaveLoad.NumberTally | commondb/parseexpr.c:127-140 | no text of a number has fewer digits than the printed one, even with overflow |
| SaveLoad.CutTextIsLost | main.c:104-120 | no proper prefix of a filter's text is parsed as that filter |
| SaveLoad.StoredFilter | main.c:76-120 | a filter printed into a buffer of any size is parsed as the same filter if and only if it is printable and fits |
| SaveLoad.QuotedTitleIsLost | commondb/parseexpr.c:254-257 | a title with a quote can be asked for, but its printed text is not parsed as that filter |
| SqlLex.EscapeExact | pgdb/dudldb.c:191-222 | a quote, an escaped string, a quote and any text not starting with a quote is read as the string and that text |
| SqlLex.EscapeLength | pgdb/dudldb.c:191-222 | the escaped string is longer by its number of quotes |
| SqlLex.DbEscape | pgdb/dudldb.c:191-222 | returns a fresh buffer filled exactly by the escaped string and its terminator |
| SqlProofs.AllowedHasEntry | pgdb/filter.c:242-286 | every test the parser lets through has an entry in the SQL table, and it is the first for it |
| SqlProofs.TagIdsAre | pgdb/filter.c:33-109 | the ids found for tag names are the numbers given and the ids of the names, if the names fit their buffer |
| SqlProofs.TwoStageLookup | pgdb/filter.c:33-162 | a track has one of the ids that were looked up if and only if it has one of the tags named |
| SqlProofs.ScalarEval | pgdb/filter.c:175-231 | conditions on columns evaluate as the test, lower-cased ones as equality that ignores case |
| SqlProofs.TagEval | pgdb/filter.c:136-199 | the condition for tags evaluates as carrying one of the ids that are listed |
| SqlProofs.TagTruth | pgdb/filter.c:33-162 | carrying one of the ids that were looked up is what the test says |
| SqlProofs.TagReEval | pgdb/filter.c:201-219 | the condition for matching tag names evaluates as the test |
| SqlProofs.ExprEval | pgdb/filter.c:310-357 | the condition for a filter evaluates as the database's view of the filter, in three-valued logic |
| SqlProofs.ExprLex | pgdb/filter.c:310-357 | the text for every accepted filter is lexed into the tokens of its condition, lists that were cut off included |
| SqlProofs.ExprRead | pgdb/filter.c:310-357 | these tokens are parsed as the condition if and only if every test compiles, comparisons with null included |
| SqlProofs.CompiledSelects | pgdb/filter.c:310-357 | what a query selects: the tracks for which the database is sure of the filter, or an error if a test does not compile |
| SqlProofs.CompiledMeaning | pgdb/filter.c:310-357 | for every accepted filter: the query selects exactly the tracks that satisfy it if and only if every test compiles and the database is sure of the filter for exactly these tracks |
| SqlProofs.OrdinaryMeaning | pgdb/filter.c:310-357 | for filters without a tag's number and a list that fills its buffer the query is right if and only if every test compiles |
| SqlProofs.QuietSelects | pgdb/filter.c:310-357 | the query is also right if tags tested by number are carried by no file and not tested under a negation, and lists that were cut off stand for the same files |
| SqlProofs.ProperSelects | pgdb/filter.c:310-357 | for filters without a tag's number, an unknown tag and a list that fills its buffer the query selects exactly the tracks that satisfy the filter |
| SqlProofs.TagNumber | pgdb/filter.c:175-179 | a test for a tag's number is right if and only if no file carries that tag; its negation never is |
| SqlProofs.CutList | pgdb/filter.c:111-134 | a test whose list may be cut off is right if and only if the same files carry one of the ids before and after |
| SqlProofs.LongListSelectsWrong | pgdb/filter.c:111-134 | a list of exactly 1024 characters selects a file that does not satisfy the filter |
| SqlProofs.UnknownTagSelectsAll | pgdb/filter.c:187-193 | a test for a tag that does not exist selects every track |
| SqlPrinter.SqlTags2Id | pgdb/filter.c:33-109 | returns the looked-up ids, or fails as the model does |
| SqlPrinter.SqlIdList | pgdb/filter.c:111-134 | returns the list of ids as text, cut off as the buffer of 1024 characters demands, or fails |
| SqlPrinter.SqlTagList | pgdb/filter.c:136-162 | writes what fits of the tag condition and reports its length |
| SqlPrinter.SqlValTest | pgdb/filter.c:288-308 | writes what fits of the condition for a test and reports its length |
| SqlPrinter.FindEntry | pgdb/filter.c:288-300 | finds the first entry for a kind of test |
| SqlPrinter.SqlExpr | pgdb/filter.c:310-357 | writes what fits of the condition for a filter and reports its length, or more than the room |
| SqlCut.ReadIsBalanced | pgdb/filter.c:310-357 | what is read as a condition has balanced parentheses and closed literals |
| SqlCut.CutLiteral | pgdb/filter.c:221-231 | a literal that was cut off is read if and only if it was cut between the copies of a quote, and then as its front |
| SqlCut.CutClause | pgdb/random.c:33-46 | a clause that was cut off is an error unless the cut falls between the copies of a quote of its only literal, or just behind the first operand; then it is a comparison with the front of the literal, or that operand |
| Selection.WhereClause | pgdb/random.c:33-46 | the clause is the compiled text, or its first 4095 characters |
| Selection.SelectByText | pgdb/random.c:33-46 | from the text of a filter to the query: a clause that fits selects exactly the tracks that satisfy the filter if and only if the tests compile and the database is sure; one that does not fit is an error unless the cut can be read, and right if and only if it can and the condition of CutMeaning holds |
| Selection.CutSelects | pgdb/random.c:33-46 | a clause that was cut off selects the tracks for which the database is sure of what is left: the test with the front of its string, or the first operand |
| Selection.CutMeaning | pgdb/random.c:33-46 | a clause that was cut off is right if and only if the cut can be read and either the front of a regular expression matches what the expression does, or the database is sure of the first operand for exactly the tracks that satisfy the filter; a cut comparison for equality is never right |
| Selection.FrontSelectsWrong | pgdb/random.c:33-46 | a cut comparison for equality selects the track whose name is the front of the string, which does not satisfy the filter |
| Selection.LongTitleSelectsWrong | pgdb/random.c:33-46 | a family of titles that are cut so |
| FilterWords.CharacterClasses | commondb/parseexpr.c:54-96 | which characters are blanks, letters and digits, and the lower case of each |
| FilterWords.BlanksInFront | commondb/parseexpr.c:54-65 | blanks in front of a filter do not matter |
| FilterWords.BigNumber | commondb/parseexpr.c:124-138 | a number of any length is read modulo two to the power of 32, as a signed number |
| FilterWords.NumberWords | commondb/parseexpr.c:476-497 | duration, lastplay, year and pos with every comparison and number: the text is parsed, its clause names the right column, and the query selects exactly the tracks that compare so |
| FilterWords.EqualWords | commondb/parseexpr.c:476-497 | title, artist and album with = and any clean string, in any case: the query selects exactly the tracks with that text, without regard to case |
| FilterWords.MatchWords | commondb/parseexpr.c:476-497 | the same with ~: exactly the tracks whose text matches |
| FilterWords.IdWords | pgdb/filter.c:266-279 | artist and album with a number: exactly the tracks with that id |
| FilterWords.TagWords | pgdb/filter.c:261-264 | tag with = or ~ and a string holds for exactly the tracks that carry such a tag, and the query selects them if the test is proper |
| FilterWords.TagListWords | pgdb/filter.c:261-264 | tag with a number holds for the tracks that carry it, and with IN for those that carry one of the list |
| FilterWords.PrintedList | commondb/parseexpr.c:258-270 | a list is printed with a comma and a blank between its values |
| FilterWords.Connectives | commondb/parseexpr.c:668-776 | parentheses, !, & and the bar around the texts of any filters mean the filter, its negation, both and either; and how these are printed |
| PlayerMachine.Machine.constructor | player.c:685-754 | the player starts out stopped, without a track or timers |
| PlayerMachine.Machine.QueueFetch | pgdb/queue.c:139-172 | removes and returns the head of the queue, if any |
| PlayerMachine.Machine.TakeQueued | player.c:80-96 | takes the first playable entry and drops exactly those in front of it; otherwise the last one stays current |
| PlayerMachine.Machine.TakeRandom | player.c:98-107 | takes the first playable track of those that random selection offers |
| PlayerMachine.Machine.GetNext | player.c:73-109 | does what the model of track selection does |
| PlayerMachine.Machine.Finish | player.c:111-129 | records the current track, if any, with its user |
| PlayerMachine.Machine.Status | player.c:187-199 | the status follows from the state of the pipeline |
| PlayerMachine.Machine.Start | player.c:249-300 | does what the model of starting does, for every answer of the pipeline |
| PlayerMachine.Machine.FinishPipe | player.c:302-321 | does what the model of finishing does |
| PlayerMachine.Machine.Resume | player.c:323-346 | does what the model of resuming does |
| PlayerMachine.Machine.PausePipe | player.c:348-381 | does what the model of pausing does |
| PlayerMachine.Machine.Handle | player.c:383-478 | handles every event as the model does |
| PlayerMachine.Machine.HandleAll | player.c:383-478 | handles any sequence of events as the model's runs do |
| PlayerProofs.StepCoherent | player.c:187-390 | after a step clients are right about the status, a gap means no track and an idle pipeline, the elapsed timer runs exactly while playing, and the pipeline is in use exactly while there is a track, if and only if the step is benign |
| PlayerProofs.RunCoherent | player.c:249-390 | over whole runs: all of this holds throughout if and only if every step is benign |
| PlayerProofs.FailedStartMisleads | player.c:272-297 | a start that gets ready but fails to play leaves clients wrong |
| PlayerProofs.StepLoose | player.c:141-185 | what every step keeps, whatever fails: without a track there is no user, and a pending gap means no track |
| PlayerProofs.StepConserves | player.c:73-129 | a step keeps accepted entries equal to the history and the current entry if and only if it does not leave an unplayable track behind |
| PlayerProofs.RunConserves | player.c:249-321 | over whole runs, whatever fails: each accepted track is recorded exactly once with its user if and only if no track is left behind |
| PlayerProofs.UnplayableTrackIsLeft | player.c:81-96 | a queued track that cannot be played is played although it was never accepted |
| PlayerProofs.ReachableCoherent | player.c:685-754 | from the initial state, clients are right throughout if and only if every step is benign |
| PlayerProofs.ReachableConserved | player.c:685-754 | from the initial state, history is conserved throughout if and only if no track is left behind |
| PlayerProofs.TrackSelection | player.c:73-109 | the next track is the first playable one of the queue, for its user; random selection has a say only if there is none, and counts for no user |
| PlayerProofs.StepRefines | player.c:609-673 | in benign steps the player does what a player with only a mode does |
| PlayerProofs.RunRefines | player.c:609-673 | the same over whole benign runs |
| PlayerEffects.StepTells | player.c:249-455 | in every state and whatever the pipeline answers, exactly one broadcast: a new track if one is taken up and plays, resumed, paused, or stopped; and none if nothing of that happened |
| PlayerEffects.ModesTell | player.c:249-455 | in benign steps the broadcast follows from how the mode of the reference player changes |
| PlayerEffects.StepRecords | player.c:111-128 | in every state: what is given up goes into the history, as completed exactly if clients or its end finished it and the pipeline could be halted, and then a track that could not be played; and which track is current |
| PlayerEffects.StepPipe | player.c:249-381 | in every state: when the pipe plays, is paused or idle, or stays as it was |
| PlayerEffects.StepTimers | player.c:141-186 | in every state: when the gap timer and the elapsed timer run |
| PlayerEffects.StepQueue | player.c:73-109 | in every state: the queue grows at its end and shrinks only up to the track that is taken up; gap and random change only when set |
| PlayerEffects.RunTells | player.c:609-673 | over every run there are as many announcements of a new track as entries that began to play |
| PlayerEffects.StepAnnounces | player.c:111-128 | a step keeps "every track in the history and the current one was announced once" if and only if it does not take up a track that cannot be played |
| PlayerEffects.RunAnnounces | player.c:609-673 | the same over whole runs |
| PlayerEffects.ReachableAnnounced | player.c:685-754 | both for every run of the player |
| ClientLedger.AtRest | client.c:282-306 | between events every client ever accepted is listed with one reference or was disconnected exactly once |
| ClientLedger.AfterCallback | client.c:282-306 | a client is freed unlisted, after its one disconnect callback, and the counts of all others are still right |
| ClientLedger.BorrowOk | client.c:274-279 | counts stay equal to the references held when one more is taken |
| ClientLedger.AcceptOk | client.c:50-66 | counts stay right when a client is listed |
| Clients.ClientTable.constructor | client.c:418-464 | no clients, no references |
| Clients.ClientTable.Addref | client.c:274-279 | one more reference, and nothing else |
| Clients.ClientTable.Delref | client.c:282-306 | one less; the last reference disconnects and frees a client, which is not listed; terminates although the callback may broadcast, send and close; nobody leaves the list but those who cannot be reached |
| Clients.ClientTable.LogOut | proto.c:224-231 | whoever has the right of a user is told, in order if all can be reached, unless the client never logged in |
| Clients.ClientTable.ItCur | client.c:132-144 | borrows the client under the cursor, if any |
| Clients.ClientTable.ItBegin | client.c:124-130 | starts over and borrows the first client |
| Clients.ClientTable.ItNext | client.c:146-154 | moves on and borrows the next client |
| Clients.ClientTable.ItDel | client.c:90-121 | removes the client under the cursor and drops the list's reference to it |
| Clients.ClientTable.Close | client.c:309-321 | exactly this client and those who cannot be reached leave the list; it is gone if nobody else holds it, and then the others are told; all other references are untouched |
| Clients.ClientTable.Send | client.c:327-344 | the attempt is logged; a failed send closes the client, a successful one changes nothing |
| Clients.ClientTable.Bcast | client.c:494-505 | keeps counts right while clients leave during the loop, and terminates; exactly those who cannot be reached leave, and if all can be, exactly the clients with the right are sent to, in the order of the list |
| Clients.ClientTable.AcceptClient | client.c:208-271 | lists a new client under a new id at the end of the list and greets it; it stays listed exactly if the greeting, whose success is returned, is delivered |
| Clients.ClientTable.Snapshot | client.c:68-86 | an iterator holds one reference to each wanted client, in order |
| Clients.ClientTable.SnapshotDone | client.c:156-166 | gives these references back |
| Clients.ClientTable.Kick | proto_cmd.c:100-125 | exactly the wanted clients, and those who cannot be reached, have left the list, each was sent something, and counts are right |
| Clients.ClientTable.HangUp | client.c:201-204 | the client has left the list, and is gone if nobody else held it |
| Clients.ClientTable.Perform | client.c:172-205 | for each kind of event: the list afterwards, the largest id, what is sent, who has logged in; no reference is left behind; input of a client that is gone is ignored, and all lines of a read are handled under one reference |
| Clients.ClientTable.PerformAll | proto.c:199-207 | the same for the lines of one read, one after the other: who must and who may have left |
| Clients.Serve | client.c:208-344 | after any run with sends failing anywhere, every client ever accepted is listed with one reference or was disconnected exactly once; who was told to leave after connecting, or could not be reached, is not listed; and nobody else is missing |
| Lines.TakeLineScans | client.c:353-394 | taking the first complete line takes the first line of the stream, and none means that there is none |
| Lines.GetLineExact | client.c:353-394 | a call overruns the buffer if and only if the characters left behind the unread text are harmful; otherwise it takes the line it should |
| Lines.TakenOut | client.c:380-391 | taking a line out leaves exactly the rest and the stale characters behind it in front of the next terminator |
| Lines.ThirdCallOverruns | client.c:387-390 | three lines in one read, the last incomplete, overrun at the third call |
| Lines.SingleLine | client.c:353-394 | a text with one complete line is orderly if and only if the rest is empty or no shorter than the leading line breaks |
| LineBuffer.InputBuffer.constructor | client.c:208-242 | the buffer starts out empty |
| LineBuffer.InputBuffer.Read | client.c:172-199 | appends a chunk to the unread input and terminates it |
| LineBuffer.InputBuffer.GetLine | client.c:353-394 | does exactly what the model of one call does, array for array |
| LineBuffer.InputBuffer.Drain | proto.c:199-207 | returns all complete lines and leaves none; it overruns the buffer if and only if the unread text is not orderly, and then exactly the lines in front of the disorder are returned |
| LineBuffer.InputBuffer.ReadLines | client.c:172-199 | one read: overruns if and only if the unread text with the chunk is not orderly; the buffer is full if and only if what is left fills it |
| LineBuffer.Receive | client.c:172-199 | however a stream is split into reads, the lines are those of the stream, in order, up to an overrun or an overlong line; an overrun happens if and only if some read shows a text that is not orderly, an overlong line if and only if some read leaves the buffer full; and how many lines are handled in front of an overrun |
| LineBuffer.ChunkingMatters | client.c:353-394 | a stream that overruns in one read, and not in two |
| Wire.FieldRoundTrip | proto_fmt.c:21-49 | an escaped field has no raw tab, and unescaping gives it back |
| Wire.TabDecodes | proto_fmt.c:55-105 | a record that starts with a non-empty item is read back as its fields, those of nested records in place |
| Wire.RowExact | proto_fmt.c:55-105 | a list of strings comes back if and only if it is a single one or its first is not empty |
| Wire.EmptyFirstIsLost | proto_fmt.c:63-65 | an empty first field is lost |
| Wire.Ecpy | proto_fmt.c:35-49 | copies a string escaped, cut off and terminated like snprintf would, and returns its full length |
| Layouts.EscapedLooks | proto_fmt.c:22-32 | how tabs and backslashes look in a field |
| Layouts.DecodeExact | proto_fmt.c:55-105 | exactly one line is read as a list of fields: the fields escaped, with tabs between |
| Layouts.UserLayout | proto_fmt.c:119-125 | the fields of the line of a user, in order, and of a missing one |
| Layouts.ClientLayout | proto_fmt.c:127-138 | the same for a client |
| Layouts.TagLayout | proto_fmt.c:140-143 | the same for a tag |
| Layouts.ArtistLayout | proto_fmt.c:145-148 | the same for an artist |
| Layouts.AlbumLayout | proto_fmt.c:150-161 | the same for an album |
| Layouts.TrackLayout | proto_fmt.c:163-181 | the same for a track |
| Layouts.HistoryLayout | proto_fmt.c:183-199 | the same for an entry of the history |
| Layouts.QueueLayout | proto_fmt.c:201-217 | the same for an entry of the queue |
| Layouts.SFilterLayout | proto_fmt.c:219-222 | the same for a saved filter |
| Layouts.ItemLooks | proto_fmt.c:66-99 | how each kind of argument looks |
| Layouts.CodeLooks | proto_helper.c:21-37 | a reply code has three characters, whatever it was |
| Layouts.ReplyLooks | proto_helper.c:21-84 | a reply is a line with a dash for every text and one with a blank at the end |
| TabBuffer.MkVTab | proto_fmt.c:55-105 | a record is built as the model builds it, whether it fits or not, and reported if it leaves its buffer |
| TabBuffer.RecordedExact | proto_fmt.c:55-105 | a record is what its arguments say if and only if it fits |
| TabBuffer.InsideExact | proto_fmt.c:55-105 | a record leaves its buffer if and only if a number is formatted behind more than 4096 characters, a string behind 4096 lost ones, or some argument brings the count to the last character, by its separator or as a single character, and no string follows that would terminate it; all in terms of counts computed from the arguments |
| TabBuffer.NumberAndString | proto_fmt.c:145-148 | a number and a string always stay inside |
| TabBuffer.NumberBehindString | proto_fmt.c:119-125 | a number behind a string stays inside if and only if there is room for two more characters |
| TabBuffer.RecordBehindString | proto_fmt.c:127-138 | a record behind a number and a string stays inside unless these leave room for the separator alone |
| Records.UserRoundTrip | proto_fmt.c:119-125 | a client reads back the user, a missing one as UNKNOWN |
| Records.ClientRoundTrip | proto_fmt.c:127-138 | a client reads back the client and its user |
| Records.TagRoundTrip | proto_fmt.c:140-143 | a client reads back the tag |
| Records.ArtistRoundTrip | proto_fmt.c:145-148 | a client reads back the artist |
| Records.AlbumRoundTrip | proto_fmt.c:150-161 | a client reads back the album and its artist |
| Records.TrackRoundTrip | proto_fmt.c:163-181 | a client reads back the track, its artist, album and the album's artist |
| Records.HistoryRoundTrip | proto_fmt.c:183-199 | a client reads back the entry of the history, user and track |
| Records.QueueRoundTrip | proto_fmt.c:201-217 | a client reads back the entry of the queue, user and track |
| Records.SFilterRoundTrip | proto_fmt.c:219-222 | a client reads back the saved filter |
| Records.QueueInjective | proto_fmt.c:201-217 | different entries have different lines |
| Reply.FmtLine | proto_helper.c:21-37 | a line is right below 4091 characters of text, outside the buffer at exactly 4091, and refused above |
| Reply.ReplyExact | proto_helper.c:54-84 | a reply is read back as its texts, whatever follows, if and only if no text has a line feed |
| Reply.CutOff | proto_helper.c:54-84 | a reply without its last line is not taken for a complete one |
| Dump.MkUser | proto_fmt.c:119-125 | formats a user as the model does, whether it fits or not; if it fits a client reads it back |
| Dump.MkArtist | proto_fmt.c:145-148 | formats an artist as the model does, whether it fits or not; if it fits a client reads it back |
| Dump.MkAlbum | proto_fmt.c:150-161 | formats an album as the model does, whether it fits or not; if it fits a client reads it back |
| Dump.MkTrack | proto_fmt.c:163-181 | formats a track as the model does, whether it fits or not; if it fits a client reads it back |
| Dump.MkQueue | proto_fmt.c:201-217 | formats an entry of the queue as the model does, whether it fits or not; if it fits a client reads it back |
| Dump.SendLine | proto_helper.c:39-84 | sends a line exactly if it is not too long and sending succeeds |
| Dump.DumpQueues | proto_fmt.c:473-491 | for every queue: lines are sent in order up to the first that cannot be, and all of them exactly if all can be |
| Dump.QueuesArrive | proto_fmt.c:473-491 | a completely sent queue arrives in order, and every entry that fits its buffer is read back; an incomplete one is not taken for complete |
| Session.ArgsExact | proto.c:100-163 | arguments are accepted exactly if the line separates into them, each behind blanks and nothing behind the last |
| SessionArgs.ErrorsExact | proto.c:100-163 | arguments are missing if and only if only blanks are left before all were read, too many if and only if anything is left behind the last, and argument i is invalid if and only if what is visible behind the first i is not read as it |
| Session.ReactExact | proto.c:165-194 | for every line that starts with a name: unknown if and only if no command of that name is allowed, forbidden if and only if it needs more right, carried out if and only if the rest separates into its arguments, and otherwise refused for the arguments' error |
| Session.NoCommandExact | proto.c:173-178 | a line is no command if and only if nothing visible or no letter or digit is in front |
| Session.FoundFirst | proto.c:71-83 | the command found is the first of that name that is allowed |
| Session.StepExact | proto_cmd.c:28-72 | USER makes its name pending, PASS attaches the account of the pending name if and only if there is one and the password is right for it, and starts over otherwise; every other line changes nothing |
| Session.StepConsistent | proto_cmd.c:28-72 | every line keeps: idle exactly with a user, user state exactly with a pending name |
| Session.RunConsistent | proto.c:165-194 | the same over whole runs |
| Session.HandlersAreSafe | proto.c:165-194 | in every reachable state a handler for idle clients finds a user with the right it needs, and PASS finds a name |
| Session.LoginIsFinal | proto_cmd.c:28-72 | once a user is attached nothing changes any more |
| Session.LoginHasCause | proto_cmd.c:28-72 | the attached user is the account of the name given by USER, after PASS with the right password for it, with the name pending in between |
| Session.LoginWorks | proto_cmd.c:28-72 | whoever gives a name and the right password for its account in this way is logged in, and stays so |
| Session.LoginExact | proto_cmd.c:28-72 | an account is attached if and only if this happened |
| Session.HelpInOrder | proto_cmd.c:1067-1084 | help lists names in the order of the table, one for each command that is allowed and permitted |
| Session.HelpExact | proto_cmd.c:1067-1084 | help lists exactly the commands that are reachable if and only if the first command of a name always needs the least right |
| Session.DuplicateIsListed | proto_cmd.c:1067-1084 | a later command of the same name that needs less right is listed but cannot be reached |
| Session.DistinctNames | proto_cmd.c:1067-1084 | which is so for distinct names |
| Session.ReachesMeans | proto.c:165-194 | a reachable command is one whose arguments are parsed for every line that starts with its name |
| CommandTable.TableIsWellPlaced | mkproto.pl:26-889 | USER and PASS are allowed where logging in needs them, and what needs a right is for idle clients only |
| CommandTable.RightsHold | mkproto.pl:26-889 | in every run, a command that needs a right is carried out only for a user who has it |
| CommandTable.LoginLine | mkproto.pl:26-56 | a line of USER or PASS and one argument runs that command of the table |
| CommandTable.LogsIn | mkproto.pl:26-56 | with the table in use, the lines "user name" and "pass password" log in exactly those whose name is known and whose password is right |
| CommandTable.HelpIsExact | mkproto.pl:26-889 | the names of the commands are distinct, so in every state help lists exactly the commands that are reachable |
| Connection.SkipSpace | proto.c:59-59 | moves over blanks |
| Connection.ValName | proto_val.c:28-44 | finds the end of the name |
| Connection.CmdFind | proto.c:71-83 | finds the first command of that name that the state allows |
| Connection.CmdParse | proto.c:100-163 | parses arguments as the model does, with the same three errors |
| Connection.Client.constructor | client.c:237-245 | a new session is open, without a name or user |
| Connection.Client.CmdUser | proto_cmd.c:28-39 | keeps the name and waits for the password |
| Connection.Client.CmdPass | proto_cmd.c:41-72 | attaches the account of the pending name or starts over, and forgets the name |
| Connection.Client.CmdHelp | proto_cmd.c:1067-1084 | lists the names of the commands that are allowed and permitted, in order |
| Connection.Client.ProtoLine | proto.c:165-194 | reacts to a line as the model does and keeps the session consistent |
| Connection.Serve | proto.c:199-207 | for every sequence of lines, handlers for idle clients are carried out only for a user with the right they need |

## Left out

- The PostgreSQL connection, reconnection and conversion of rows: tables are sequences and maps.
- GStreamer, the main loop, sockets, logging, options and start-up: only their answers are modelled.
- Heap ownership of filters, value lists and iterators: filters are immutable values.
- Failure of memory allocation, and the growth of buffers while names and strings are read.
- Volume, replay gain, seeking, cutting and the choice of random tracks: floating point with little structure.
- Return codes of the player's commands: they do not reflect what happened inside.
- Tagging a track that cannot be played, and the choice of its tag.
- Shutting down while clients are connected, and what a broadcast delivers to clients after one has failed.
- The commands other than user, pass, help and the kicking of users: they leave the session alone and would add easy members. The handlers for the queue are covered by what they find, a user with sufficient right.
- Arguments of commands: each kind of argument is a function that tells how many characters it takes.
- TabBuffer.MkVTab: what happens after a write or read outside the buffer is not modelled.
- Reply.FmtLine: the text is already formatted.
- Dump.SendLine: a send that fails is taken to deliver nothing; parts of a line may in fact arrive.
- Dump.DumpQueues: the other list replies have the same loop around another formatter.
- LineBuffer.Receive: what follows an overrun is not modelled, as the code then moves more than there is.
- PlayerProofs.StepRefines: steps that are not benign have no counterpart in the reference player.
- PlayerMachine.Machine.GetNext: the track left behind at player.c:91-96 keeps its value although its memory is freed.
