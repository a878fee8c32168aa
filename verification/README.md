# Super Smack: what a benchmark run reports

Super Smack is a database benchmark. A script names clients, a barrel of
queries for each, how many rounds to fire it and how many threads to fork; the
report at the end tells how many queries of each type were fired and how long
they took. This project models the way from the script to the report, without
the database, and proves what can be relied on.

The pieces, one file or two each:

| file | content |
|---|---|
| `CStrings.dfy` | C strings, decimal conversion, `atoi` |
| `Reports.dfy` | counters and connect times, what one query does to them, how the parent merges a child's report |
| `Codec.dfy`, `QueryReport.dfy` | the bytes of a report; the classes that keep the counters and move them through a pipe |
| `Collection.dfy` | report collection: parent and children as a system of interleaved steps, bytes written one at a time, a bounded pipe, a semaphore |
| `CollectionProof.dfy`, `CollectionTheorems.dfy`, `PipeSize.dfy` | the invariant of that system, step by step; what follows for every run; how large the pipe must be |
| `History.dfy`, `Printed.dfy`, `Witnesses.dfy` | what each process has done, what the printed figures say about it, and runs that show it |
| `Dictionaries.dfy`, `Expander.dfy`, `Templates.dfy`, `Literals.dfy` | the word sources, the templates they feed, what was meant by these, and what the database reads in the result |
| `Barrel.dfy`, `Client.dfy`, `Run.dfy`, `Sent.dfy` | the text of a barrel and its parser; the client that fires it; whole runs; the texts, words and times of a run in plain terms |
| `Script.dfy` | the main section of a script, interpreted by many processes |
| `Benchmark.dfy` | from script to report, end to end |
| `GenData.dfy` | the generator of test data |

Code that changes fields, buffers or arrays in the original is a class or a
method here, proved against a function of the old state; the theorems are about
these functions. `hide` statements keep the bodies of functions out of proofs
that do not need them.

Conventions. A C `char` is a Dafny `char`, of which the low eight bits count
where the code reads it as a number. Integers are unbounded, and the codec has
the 32-bit ones explicitly; that counters fit 32 bits is a condition of the
collection (`GoodProgram`). `rand()`, the clock and the duration of a query are
parameters over which every theorem quantifies. An `int` on the pipe is little-endian. A null
entry that `operator[]` leaves in the map of counters is a key without contents.

## Findings

Where the code departs from its documentation or from its evident intent, the
model follows the code.

- The guard of `Query_type_report::update` (src/query.cc:50) is the wrong way
  round: every query but the first overwrites both times. `PrintedTimes` says
  exactly when the printed extremes of a type are the extremes of the query times
  of all processes, `TimesMeanWhatTheySay` the same for the record of one process.
  `MaximumIsLost` is the smallest case of a wrong record, `WrongReport` a run that
  prints a wrong maximum, and `WrongRecordRightReport` one where another process
  makes up for it.
- Queries that a client fires before `create_threads` are counted once for every
  process, because the children inherit the counters and report them:
  `ReportIsTrue` says exactly when the report is right, `CountedTwice` is a run in
  which it is not.
- The parent's own connect times are in the total but not in the extremes, and a
  child reports one time even if it has not connected: `PrintedConnectTimes` says
  exactly when the printed extremes are those of all connects, before the fork and
  after it, and what is printed when there was none. This is how the tutorial can
  show an average above the maximum; `AverageAboveMaximum`, `EarlyConnectForgotten`
  and `NobodyCounted` are runs.
- A pipe that does not hold a whole frame lets the collection get stuck
  (`FinishesIffPipeHoldsFrame`): a child blocks while it has the lock, and the
  parent waits for that child to exit.
- Templates are not always expanded as the manual says: the first backslash outside
  of a name makes all that follows literal (src/client.cc:172), a name that ends the
  template is dropped, the character that ends a name is literal even if it is `$`
  or `\`, and long names are cut off. `ReadAsMeant` and `SentAsMeantIfFine` say
  exactly which templates are expanded as meant; `LastNameDropped`, `SecondNameKept`
  and `NamesBehindBackslash` are instances.
- The words of a "unique" dictionary are unique within one process only
  (`SubstitutionsUnique`): processes inherit the counter at the fork and draw the
  same words in the same order (`ProcessesDrawAlike`).
- In a barrel, the end of the text and a space end a token differently
  (`EndsAgree`).
- A time in milliseconds is rounded up instead of down when the microseconds have
  gone down by other than whole milliseconds, because they are divided on their own
  (`ElapsedIsClose`; `RoundedUp` has one microsecond reported as a millisecond).
- The generator's usage text promises exactly `n` characters for a width `n` and
  between `m` and `n` for `m-n`. `LoneWidth` and `LoneWidthOfNumber`, `PromiseKept`,
  `NumPromiseKept` and `RowNumPromiseKept` say exactly when it keeps that;
  `PromiseInstances` are `%0-5s` and `%300-400s`, which print 256, and `NumInstance`
  is `%0-5d`, which may print 7.

What the parent makes of the reports it reads would depend on their order if some
children had connected and some not, since -1 means both "none yet" and "never
connected" (`WhenOrderMatters`). That cannot happen within one collection, where all
children execute the same lines (`ReportsCompatible`).

## Model

| member | source | states |
|---|---|---|
| Benchmark.TutorialFigures | TUTORIAL:52-66 | the tutorial's run, from the barrel's text on: 10 threads, 1000 rounds, two shots, the types and zero counters that parsing the text has made, and in every interleaving the report says 20000 queries from 10 clients |
| Benchmark.TutorialBarrel | smacks/select-key.smack:70 | the barrel text "2 name" is parsed into one charge of two shots of that query |
| Benchmark.UsualFigures | smacks/select-key.smack:74-90 | N threads, R rounds, any barrel: N * R * shots queries of each type and N clients, with N at least one and a negative R counting as 0 |
| Benchmark.ReportedFigures | src/client.cc:241-431 | the same for any lines before the fork and between fork and collection: rounds set, connects and barrels fired in any order |
| Benchmark.ReportIsTrue | src/client.cc:265-295 | the reported number is the number of queries fired if and only if only one process ran or the parent fired none of the type before the fork |
| Benchmark.CountedTwice | src/client.cc:265-295 | an instance: one query fired before two threads are created, and a completed run that reports two |
| Benchmark.FiredAreQueries | src/query.cc:83-104 | the number of queries fired, as `ReportIsTrue` compares it, is the number of queries in what all processes have done |
| Benchmark.PrintedTimesOfPlan | src/query.cc:41-59 | when the printed times of a benchmark are the extremes of all its queries, those before the fork included |
| Benchmark.PrintedConnectTimesOfPlan | src/client.cc:66-80 | when the printed connect times of a benchmark are the extremes of all its connects, those before the fork included, and what is printed when there were none |
| Benchmark.ScriptRuns | src/parse.cc:372-490 | from the script to the collection: as many processes as threads; what the lines of each between fork and collection amount to is the program of the collection; and for all times these may take there is a completed run that has them |
| Benchmark.ProcessesOfClient | src/parse.cc:372-404 | a client's process and the script yield the parent thread, which executes all the client's lines, and N-1 children, which execute those up to `collect_threads` |
| Benchmark.OpsCounted | src/client.cc:241-253 | the lines of a client amount to as many queries as rounds in force times shots, summed over the `unload_query_barrel`s, and to one connect per `connect` line |
| Benchmark.AloneCounted | src/client.h:79-83 | what a client that was new has when it forks: exact counts, records of its query times, orderly times, no child's connect time seen |
| Benchmark.SetupIsGood | src/client.h:79-83 | a client whose type names fit the report buffer meets the conditions of the collection at the fork |
| CollectionTheorems.StepKeepsInv | src/client.cc:346-431 | every step of parent or child keeps the invariant: lock, frame accounting, contents of the pipe, partial merges, exact counters |
| CollectionTheorems.InitialInv | src/client.cc:265-325 | the state after the forks has the invariant, with the semaphore at 1 |
| CollectionTheorems.Framing | src/client.cc:322-344 | in every reachable state the pipe holds the rest of the frame being read, then whole frames in lock order, then at most one partial frame, which is that of the lock's holder; with bytes written one at a time |
| CollectionTheorems.NoShortRead | src/client.cc:392-406 | whenever the parent has reaped a child a complete frame is at the head of the pipe, no read comes back short, and the "incomplete read" and "invalid q_type" deaths are unreachable |
| CollectionTheorems.PipeHoldsOnlyPartial | src/client.cc:346-355 | while the parent waits and no child has finished unreaped, the pipe holds nothing but what the lock's holder has written |
| CollectionTheorems.SomethingCanHappen | src/client.cc:327-370 | deadlock freedom: in every reachable state in which the parent is not done, some step is enabled, though a child may block on a full pipe with the lock and the parent waits for it |
| CollectionTheorems.RankFalls | src/client.cc:346-431 | every step lowers a natural number |
| CollectionTheorems.EveryRunEnds | src/client.cc:346-431 | termination: no run is longer than a number fixed at the fork, and a run that cannot be continued has brought the parent to the end of `thread_sync` |
| CollectionTheorems.CanComplete | src/client.cc:346-370 | from every reachable state the parent can get to the end of `thread_sync` |
| PipeSize.FinishesIffPipeHoldsFrame | src/client.cc:408-430 | with at least one child, the collection can be completed from every reachable state if and only if the pipe holds one whole frame |
| PipeSize.SmallPipeSticks | src/client.cc:372-431 | a smaller pipe: a run into a state with a full pipe, a waiting parent and a child that cannot finish |
| PipeSize.StuckForever | src/client.cc:372-431 | from such a state no run leads out |
| CollectionTheorems.CollectionComplete | src/client.cc:346-363 | when the parent leaves the loop, every child has been reaped, the pipe is empty, the lock is free, and each child's report has been merged once, in lock order |
| CollectionTheorems.FiguresIndependentOfSchedule | src/client.cc:398-406 | the final figures are those of reading child 0, child 1, and so on, whatever the lock order and the reap order were |
| CollectionTheorems.EveryQueryCounted | src/client.cc:346-431 | the final count of a type is the number of processes times what each inherited and fired; as many clients as children plus the parent's connects |
| CollectionTheorems.TimesStayOrderly | src/query.cc:41-59 | every record of every process in every reachable state has 0 <= min <= max, the parent's also in the middle of a report |
| History.ReachablePast | src/query.cc:74-104 | in every reachable state the counters and connect time of each process are what its recorded operations and their times make of those at the fork, and these operations are as much of the program as is done |
| History.ReplayRecord | src/query.cc:48-59 | the record of a type after some operations is that of the times of its queries |
| Printed.PrintedTimes | src/query.cc:41-59 | over every completed run and all query times: the printed maximum is the longest query of all processes if and only if some process ended with one as long; the printed minimum is the shortest if and only if some process ended with one as short or, with one query each, some query took no time |
| Witnesses.EveryPastOccurs | src/client.cc:346-431 | whatever times the operations of the processes are to take, some completed run has them |
| Witnesses.WrongReport | src/query.cc:41-59 | a completed run of two processes whose queries take 5, 1, 1 and 2 ms, and whose printed maximum is not the maximum of these |
| Witnesses.WrongRecordRightReport | src/query.cc:41-59 | a completed run in which a process has a wrong record and the printed maximum is right |
| Printed.QueriesFired | src/query.cc:83-104 | the queries of a type that the processes of a completed run have fired since the fork |
| CollectionTheorems.TimesReported | src/query.cc:41-46 | the final times of a type are the maximum and minimum of the records of all processes |
| Printed.PrintedConnectTimes | src/client.cc:74-78 | for every completed run, whether and whenever its processes connect: the total is that of the parent's connects and of what the children report; the printed extremes are those of all connects, before the fork and after it, if and only if none is longer, or shorter, than all those reported; without any connect the total is minus the number of children |
| Witnesses.AverageAboveMaximum | TUTORIAL:52-66 | a completed run with an average of 50 ms and a maximum of 0 ms |
| Witnesses.EarlyConnectForgotten | src/client.cc:74-78 | a completed run with a connect of 100 ms before the fork and a printed maximum of 0 ms |
| Witnesses.NobodyCounted | src/client.cc:398-404 | a completed run without connects: one client, total and minimum -1, maximum 0 |
| CollectionTheorems.ConnectTimesReported | src/client.cc:398-404 | what reading the children's connect times adds to the total and makes of the extremes, whether the children have connected or not |
| Printed.ReportsCompatible | src/client.cc:346-431 | the children that report to one parent have all connected, or none has |
| Reports.OrderIndependence | src/query.cc:41-46 | two orders of the same reports give the parent the same figures, if all children connected or none did |
| Reports.WhenOrderMatters | src/client.cc:401-404 | and exactly then: for any reports, the figures do not depend on the order if and only if all senders connected or none did |
| Reports.TypeFigures | src/query.cc:41-46 | merging reports sums the counts and keeps the extremes |
| Reports.ConnectFigures | src/client.cc:398-404 | reading connect times sums them and keeps the maximum, and the minimum if all are times; if none is, the minimum stays -1 |
| Reports.RecordAfterRun | src/query.cc:48-59 | after a run of timed queries: the exact count, and as times those of the last query |
| Reports.TimesMeanWhatTheySay | src/query.cc:48-59 | the times kept are the maximum and minimum if and only if the last query was the longest, the shortest (a single query: took no time) |
| Reports.MaximumIsLost | src/query.cc:50-51 | 5 ms and then 1 ms are reported as a maximum of 1 ms |
| Reports.ElapsedIsClose | src/query.cc:99-101 | the milliseconds computed are the exact time rounded down, plus one if and only if the microseconds went down by other than whole milliseconds; never negative when the clock does not run backwards |
| Reports.RoundedUp | src/query.cc:99-101 | an instance: one microsecond comes out as one millisecond |
| SentTexts.RunRecords | src/query.cc:83-104 | for any run, the record of a type is that of its queries of this type, in order; the time of each, in terms of the two readings of the clock, is in whole milliseconds rounded down, plus one if and only if the microseconds went down by other than whole milliseconds |
| Codec.IntRoundTrip | src/query.cc:206-211 | four bytes bring back a number if and only if it fits a C `int` |
| Codec.BytesOfInt | src/query.cc:206-211 | what the four bytes of a C `int` are worth: the first least, and those of a negative number together 2 to the 32nd more than it |
| Codec.RecordLayout | src/query.cc:201-212 | where a record has the length of the name, the name, the number of queries, the longest and the shortest time |
| KeyOrder.LessIs | src/query.h:128 | the order of the map: by the first characters that differ, a name before those that it begins |
| Codec.ParseEncodedRecord | src/query.cc:160-185 | one record is read back, taking exactly its own bytes, if its name is at most 255 bytes without NUL and its counters fit; otherwise something else is read |
| Codec.ReportRoundTrip | src/query.cc:146-224 | a report is read back and nothing behind it is touched if and only if it has at most 255 records and each is such a record |
| Codec.StreamRoundTrip | src/client.cc:425-429 | frames written back to back are read back in order, each reading taking exactly one |
| Codec.CollectIsDecodeAndMerge | src/query.cc:158-185 | merging record by record off the pipe is decoding the records and merging them all |
| Codec.MergeRecordsOf | src/query.cc:158-185 | merging the records of a table one by one is merging the tables type by type |
| Codec.FittingCount | src/query.cc:192-220 | a report fits the buffer if and only if it is no longer than 1024 bytes, and then it has at most 78 records, so their number fits its byte |
| Codec.SizeIsOfNames | src/query.cc:196-217 | the length of a report depends on nothing but the names of the types |
| QueryReports.QueryTypeReport.constructor | src/query.h:119 | new counters are zeros |
| QueryReports.QueryTypeReport.Update | src/query.cc:48-59 | the fields after one timed query |
| QueryReports.QueryTypeReport.MergeWith | src/query.cc:41-46 | the fields after merging a child's record |
| QueryReports.QueryReport.Lookup | src/query.cc:180 | `operator[]` of the map: a missing key appears with a null, in order, and no counters change |
| QueryReports.QueryReport.Ensure | src/query.h:181-182 | a type gets zero counters unless it has some, and the others keep theirs |
| QueryReports.QueryReport.Update | src/query.cc:74-81 | a timed query goes to the record of its type, and a type without one is ignored |
| QueryReports.QueryReport.FillBuffer | src/query.cc:192-217 | array code: succeeds if and only if the records fit, stays inside the buffer, and leaves the encoding of all records in map order |
| QueryReports.QueryReport.FdSend | src/query.cc:188-224 | the whole report goes to the pipe, or, if and only if it does not fit, nothing does and the process dies |
| QueryReports.ReadRecord | src/query.cc:160-178 | array code: two reads take exactly one record off the pipe, or end at its end, or come back short |
| QueryReports.TakeRecord | src/query.cc:171-179 | array code: the first counter is saved before zeros overwrite it, and these end the name |
| QueryReports.QueryReport.UpdateFromFd | src/query.cc:146-186 | the bytes on the pipe decide how the call ends, what is left on the pipe and what the counters become |
| Clients.Client.constructor | src/client.h:79-83 | the figures a client starts with |
| Clients.Client.Connect | src/client.cc:66-80 | the milliseconds between the two readings of the clock are kept, rounded down except when the microseconds go down by other than whole milliseconds, and only a parent thread counts them |
| Clients.Client.SendReport | src/client.cc:425-429 | a child writes its frame; one whose report does not fit dies behind its connect time |
| Clients.MakeClient | src/parse.cc:220-237 | a client made from the text of its barrel: the actions of the text, zero counters for exactly their types, and the figures of a client that has done nothing |
| Clients.Client.ReceiveReport | src/client.cc:392-406 | the parent takes one connect time and one report off the pipe and merges both, with every way this can end, also when the connect time is cut short and completed with what was in memory |
| Runs.ReceivingIsReading | src/client.cc:392-406 | one such call has the effect of a series of single reads of the step system: same figures, same rest of the pipe |
| Runs.FrameIsAbsorbed | src/client.cc:392-406 | if the bytes are a child's frame, the parent has merged that child's table and nothing behind the frame is touched |
| Runs.FiringIsLegal | src/query.cc:83-104 | and these steps are enabled one after the other, for times that fit: a legal run of the step system that changes one child and its history |
| Runs.ParentFiringIsLegal | src/query.cc:83-104 | the same for the parent thread |
| Runs.FiringIsRunning | src/query.cc:83-104 | a process that fires queries is a process of the step system: as many steps, the same counters |
| Clients.Client.Fire | src/query.cc:83-104 | a charge fires its shots one after the other: each draws, sends and is accounted for, and the process dies at a missing dictionary |
| Clients.Client.UnloadQueryBarrel | src/client.cc:241-253 | all rounds of all actions: counters, dictionaries and texts sent are those of firing the queries of the run one by one |
| Clients.Client.Account | src/query.cc:101-102 | a query's time goes to the counters of its type |
| Clients.FireAllConcat | src/client.cc:245-251 | firing a run in parts, in order, is firing it whole |
| Runs.RoundInOrder | src/client.cc:247-249 | a round fires the actions in order: of a charge as many copies of its query as it has shots, of a pause none |
| Runs.RunInRounds | src/client.cc:245-251 | a run is as many rounds as asked for, each the same, one after the other |
| Runs.RunCounted | src/client.cc:245-251 | the queries of a type in a run are rounds times the sum of the positive shots of its charges |
| Runs.RunDraws | src/query.cc:91-94 | a run is one sequence of draws over all rounds, actions and shots, and its words are the words in the texts sent; it stops early exactly at a reference to no dictionary |
| Runs.SubstitutionsInTurn | src/dictionary.cc:111-117 | over a whole run the j-th substitution of a sequential dictionary gets its j-th word, round and round, and of the words drawn each is there as often as in as many copies of the list as rounds were finished, or begun |
| Runs.SubstitutionsUnique | src/dictionary.cc:153-158 | over a whole run the j-th substitution of a unique dictionary is the word for its j-th id, and these words, as long as they fit, are all different if and only if the template has a field or there is at most one |
| SentTexts.UniqueWordsSent | src/dictionary.cc:153-158 | for a template `a%<width>d<b>` the j-th substitution is a, then the digits of the j-th id with blanks (zeros after a leading 0) up to the width, then b, cut off behind 511 characters |
| SentTexts.RandomWordsSent | src/dictionary.cc:119-123 | of a list of n words a draw takes the one whose place is the remainder by n of the random number it uses up |
| Runs.ProcessesDrawAlike | src/client.cc:265-295 | processes that inherit the same dictionaries and fire the same barrel substitute the same words in the same order from every dictionary that is not random |
| Expander.UniqueInTurn | src/dictionary.cc:153-158 | whatever is drawn in between, a unique dictionary gives the words for consecutive ids |
| Expander.TurnsAreShared | src/dictionary.cc:111-117 | words drawn in turn are shared in this way, wherever the drawing starts and whether or not the list has duplicates |
| Expander.EachWordShared | src/dictionary.cc:111-117 | of a list of n different words each is among k drawn k / n times, rounded down or up |
| Clients.EscapeString | src/client.cc:126-141 | array code: the escaped word is stored behind what the buffer held, and its length returned |
| Expander.EscapeKeeps | src/client.cc:134-138 | a word without quotes and backslashes stays as it is |
| Expander.EscapeAdds | src/client.cc:134-138 | any word gets longer by exactly the number of its single quotes, double quotes and backslashes |
| Clients.PutChar | src/client.cc:175-176 | a character is stored if there is room for it and the terminator |
| Clients.PutEscaped | src/client.cc:204-206 | a word is stored whole, if there is room for it with every character escaped and two more |
| Clients.Client.SafeParsedQuery | src/client.cc:154-220 | array code with three flags: the text, the dictionaries and the number of draws are those of the template's meaning, or a name is no dictionary and the process dies |
| Clients.Client.EndOfName | src/client.cc:197-212 | a name that ends: one draw, the escaped word, the ending character |
| Expander.BuildIsDrawAndRender | src/client.cc:165-216 | exactly one word is drawn for each terminated name, left to right, whatever becomes of it in the text |
| Expander.RenderIsExpand | src/client.cc:204-208 | with room for the literals, twice the words and two more, the text is the full expansion |
| Expander.RenderLast | src/client.cc:175-206 | when a piece is left out: a literal character unless there is room for it and the terminator, a word unless there is room for twice its length and three more |
| SentTexts.SentWhole | src/client.cc:154-220 | with that room the text that is built is the full expansion; it is longer than the template with the words themselves by the number of their quotes and backslashes, and the same as that if they have none |
| SentTexts.SentInFull | src/query.cc:91-94 | the same for every query of a run that has room in 8192 characters, with the words drawn for it; a query that is not to be expanded is sent as it is |
| Expander.NameIsRead | src/client.cc:190-207 | a name is what follows `$` of digits, ASCII letters and underscores, of which 511 count; the next character is literal |
| Expander.RenderWithinBuffer | src/client.cc:204-218 | in every case the text leaves room for its terminator |
| Expander.TruncationSkipsWholePieces | src/client.cc:204-208 | a truncated text is the expansion of some of the pieces: each word is there whole or not at all |
| Expander.DrawFails | src/client.cc:198-200 | drawing fails if and only if some name is no dictionary |
| Expander.DrawnInTurn | src/dictionary.cc:111-117 | whatever is drawn in between, a sequential dictionary gives its words in turn |
| Expander.DrawAllConcat | src/client.cc:198-201 | drawing for two lists of names one after the other is drawing for both together |
| Templates.ReadAsMeant | MANUAL:53-63 | for every template: the code reads it as meant (each `$name` a reference, a backslash protecting one character, what ends a name read again) if and only if no name ends it, is too long or is followed by `$`, and nothing is to be expanded or protected behind the first protected character |
| Templates.SentAsMeantIfFine | src/client.cc:154-220 | and exactly then, for all dictionaries, random numbers and buffer sizes, the same text is sent, the same words are drawn, and the process dies or not |
| Templates.LastNameDropped | src/client.cc:165-219 | an instance: of `=$id` nothing is drawn and `=` is sent |
| Templates.SecondNameKept | src/client.cc:207-208 | an instance: in `$a$b ` the second name is literal |
| Templates.NamesBehindBackslash | src/client.cc:172 | an instance: a name behind a protected character is literal |
| Literals.EscapeIsReadBack | src/client.cc:126-141 | inside a quoted literal an escaped word is read as the word itself, and the literal goes on |
| Literals.LiteralsKept | src/client.cc:154-220 | a template that names its words inside literals: the database reads the template's text and literals, with the raw words in place of the names |
| Literals.SentQueryKeepsLiterals | src/client.cc:204-219 | the same for the text that is sent, when the buffer has room |
| Literals.WordsMatterOnlyOutside | src/client.cc:154-220 | for every template: no words can change the text outside its literals or their number if and only if it names all its words inside literals, and not behind a backslash there |
| Dictionaries.Dictionary.NextWord | src/dictionary.cc:111-158 | the word and the new state, for each of the three kinds |
| Dictionaries.Dictionary.SetTemplate | src/dictionary.h:89-94 | the template becomes the fixed source text |
| Dictionaries.Dictionary.FixTemplate | src/dictionary.cc:125-151 | the loop with its two flags computes the fixed text |
| Dictionaries.FixTemplateResult | src/dictionary.cc:125-151 | at most one `%`, never last, never longer; unchanged if and only if it had that shape; fixing twice is fixing once |
| Dictionaries.FixKeepsFirstField | src/dictionary.cc:131-150 | of a template its text, one `%` for the first ones in a row, and the text behind them up to the next are kept, and all else is cut off |
| Dictionaries.UniqueWordIs | src/dictionary.cc:153-158 | the word for an id, written out: text, padding, digits, text, at most 511 characters |
| Dictionaries.RandomWordIs | src/dictionary.cc:119-123 | each word of a list of n can be drawn: the i-th by the random numbers i, i + n, i + 2 * n and so on |
| Dictionaries.UniqueWordsDistinct | src/dictionary.cc:153-158 | two words that fit the buffer are equal if and only if their ids are or the template has no field |
| Dictionaries.Dictionary.LoadFile | src/dictionary.cc:36-71 | the words become those sampled from the file |
| Dictionaries.SampleIsEveryStepth | src/dictionary.cc:57-68 | exactly the lines number step, 2 * step, ..., each cut at the first delimiter |
| Dictionaries.SampleBound | src/dictionary.cc:46-49 | fewer than twice as many words as `file_size_equiv` says, whatever the file |
| Dictionaries.WordsOfFile | src/dictionary.cc:46-68 | the words of a file are, for every step-th line, its text up to the first delimiter; the step is the size divided by `file_size_equiv`, and 1, so that every line counts, if that is 0 (the default) or the file is smaller |
| Dictionaries.LinesAre | src/dictionary.cc:58-63 | the lines of a file are what its newlines end, in order; what is behind the last one is dropped |
| Barrels.QueryBarrel.AddQueryCharge | src/query.h:178-183 | the action is appended, and its type has counters from then on |
| Barrels.QueryBarrel.AddSleepAction | src/query.h:185-188 | the action is appended |
| Barrels.ParseBarrel | src/parse.cc:239-316 | the tokeniser's loop computes the actions of the text, exactly the charges' types have counters, all of them zero, and an undefined query kills |
| Barrels.KindsAreCharged | src/query.h:178-183 | the types with counters are those of the charges, each once, in the order of the map |
| Barrels.WrittenRoundTrip | src/parse.cc:249-315 | numbers of shots with names of defined queries, and pauses with or without a fraction, with any spaces between and around them, are parsed into what they mean |
| Barrels.PauseIsRead | src/parse.cc:263-272 | a pause of digits, or of digits, a point and digits: the seconds are the number before the point, the microseconds the first six digits behind it, with zeros for those that are missing |
| CStrings.AtoiReads | src/parse.cc:273 | a number of shots: white space is skipped, a sign counts, and what follows the digits does not |
| CStrings.DigitsAre | src/parse.cc:273 | the ten digits and what each is worth |
| CStrings.ValueNext | src/parse.cc:273 | a number is ten times that without its last digit, and that digit |
| Barrels.BarrelRoundTrip | src/parse.cc:249-315 | charges of defined queries and pauses, printed with any spaces between and around the tokens, are parsed back into the same actions |
| Barrels.SleepRoundTrip | src/parse.cc:263-272 | a printed pause is read back as the same seconds and microseconds |
| Barrels.EndsAgree | src/parse.cc:260-315 | the space branch and the tail agree on a token if and only if it is a pause where shots are expected, or none where a name is |
| Scripts.Interpreter.Execute | src/parse.cc:372-490 | what a process becomes at a line, and which processes it forks |
| Scripts.Interpreter.CreateThreadProcesses | src/client.cc:265-295 | the fork loop leaves n-1 children, if the process is a parent thread |
| Scripts.ScriptProjection | src/parse.cc:374-404 | without a client called "main", the control process executes the `init`s and nothing else, and each forks one process that executes exactly the later lines of its own client |
| Scripts.OnlyOwnLines | src/parse.cc:374-375 | processes of a client behave as if the script held only that client's lines |
| Scripts.RunConcat | src/parse.cc:372-490 | processes interpret a script independently of each other |
| Scripts.ParentExecutesAll | src/client.cc:265-295 | a parent thread executes all lines of its client, whatever it forks |
| Scripts.ThreadsExecuteTheMiddle | src/client.cc:346-370 | between `create_threads(n)` and `collect_threads` each line is executed max(1, n) times, before and after once |
| GenData.Generator.PrintRow | src/gen-data.cc:136-192 | the format automaton prints the items of the format and a newline and counts the row, or dies in the middle |
| GenData.Generator.PrintStr | src/gen-data.cc:125-133 | the letters of a string field, and how many random numbers they take |
| GenData.Generator.PrintRowNum | src/gen-data.cc:113-117 | the row number, padded to the width |
| GenData.Generator.PrintNum | src/gen-data.cc:119-123 | a random number, padded to the width drawn before it |
| GenData.Generator.ChooseWidth | src/gen-data.cc:98-111 | the width, and whether it takes a random number |
| GenData.FieldIs | src/gen-data.cc:98-133 | with bounds lo and hi a random number that is d above a multiple of their difference gives width lo + d; a string has so many letters (256 for 0 and beyond 256), each the one of the 25 from a to y at the remainder of its own random number by 25; numbers are right-aligned to that width |
| GenData.FixedFieldIs | src/gen-data.cc:103-133 | the same with equal bounds or without the second: the width is the first bound and takes no random number |
| GenData.WidthsOccur | src/gen-data.cc:98-133 | the lengths that a random string can have: exactly the widths from lo up to below hi, 256 standing for 0 and for those beyond 256 |
| GenData.SpecifierIs | src/gen-data.cc:152-190 | what `%nX` and `%m-nX` stand for, for every conversion X and all digits, and that others are invalid |
| GenData.Generator.PrintRows | src/gen-data.cc:194-202 | the rows of a run, up to the one that dies |
| GenData.RowKeepsFormat | src/gen-data.cc:136-190 | for every format and all random numbers: without the characters fields are made of, a row is the plain text of the format |
| GenData.CountInRow | src/gen-data.cc:136-190 | so a row has exactly the commas, and the newlines, of that plain text |
| GenData.DiesOnInvalid | src/gen-data.cc:181-186 | a row dies if and only if its format has an invalid specifier |
| GenData.RunDies | src/gen-data.cc:181-202 | a run with such a format prints what comes before the first one, once, and dies |
| GenData.RunPrintsRows | src/gen-data.cc:194-202 | the output of a run is its rows, each with a newline behind it |
| GenData.FirstColumnsDistinct | src/gen-data.cc:98-192 | if the first column is a random string and the row number, no two rows of a run have the same, whatever the widths and the random numbers |
| GenData.KeyFormat | smacks/select-key.smack:27 | a format that starts with `%m-ns%n` and goes on with a comma or ends is such a format |
| GenData.PromiseKept | src/gen-data.cc:58-65 | `%m-ns` prints between m and n letters for all random numbers if and only if 0 < n, m <= n, m <= 256, and n >= 256 where m is 0 |
| GenData.PromiseInstances | src/gen-data.cc:125-133 | `%0-5s` with a random number of 0, and `%300-400s` with any, print 256 letters |
| GenData.NumPromiseKept | src/gen-data.cc:119-123 | `%m-nd` prints between m and n characters for all random numbers up to a largest one if and only if m <= n and that one has at most n digits |
| GenData.RowNumPromiseKept | src/gen-data.cc:113-117 | `%m-nn` does if and only if m <= n and the row number has at most n digits |
| GenData.LoneWidthOfNumber | src/gen-data.cc:103-123 | of `%nd` and `%nn` the number has n characters if and only if it has n digits by itself |
| GenData.NumInstance | src/gen-data.cc:119-123 | an instance: `%0-5d` prints 7 characters |
| GenData.UpperBoundPrinted | src/gen-data.cc:98-133 | with different bounds the upper one is the number of letters for some random number if and only if the bounds are 0 and 256 |
| GenData.UpperWidthExcluded | src/gen-data.cc:98-111 | the width drawn (not the number of letters) never reaches the upper bound |
| GenData.LoneWidth | src/gen-data.cc:103-129 | of `%ns` the string has n letters if and only if n is 256 and the random number a multiple of it |

## Left out

- Database calls, their results and MySQL's own escape function: a query always succeeds, and words are escaped by the base class.
- TCP clients, table validation, loading of data, the engine registry, option parsing, the grammar and the setters of definitions.
- `Dictionary::load_list`.
- Failed forks, children that die, interrupted system calls, deaths at undefined clients or unknown methods in a script.
- Several client types at once, which reset the same System V semaphore: the collection has one client type.
- `select`: the child's becomes "the pipe is not full", the parent's is merged into the read that follows it.
- The clock of a run and queries per second, printing of the report, the expression values of a script.
- Overflow of the parent's totals: `int` sums are unbounded after the merge.
- Barrels.SleepRoundTrip: the `float` of a pause is an exact real, and `atof` reads plain decimal notation only.
- Barrels.PauseIsRead: the same; a fraction that no `float` is equal to may come out as a microsecond less.
- Barrels.WrittenRoundTrip: the same for the pauses in it.
- Barrels.BarrelRoundTrip: the same.
- Dictionaries.UniqueWordsDistinct: covers templates whose conversion is a decimal one (`d`, `i`, `u`) with an optional width, not the other conversions of `printf`.
- Dictionaries.Dictionary.NextWord: is for dictionaries with words, and for such templates.
- Clients.Client.SafeParsedQuery: draws from dictionaries of these kinds only.
- Dictionaries.Dictionary.LoadFile: takes a file whose lines are shorter than 512 bytes; the code does not end on a longer one.
- Scripts.Interpreter.Execute: records which lines a process executes; what they do to a client is in `Clients` and `Benchmark`.
- `isalnum` is that of ASCII.
- Strings are without NUL where the code takes them for C strings, except in the report, where the model follows the first NUL.
- A version of the counters with the guard of src/query.cc:50 corrected.
