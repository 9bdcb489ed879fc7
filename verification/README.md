# Verified models of blobio

Dafny models of the parts of blobio whose correctness depends on every interleaving, every chunking or
every reachable state, with proofs. `dafny verify dfyconfig.toml` checks the whole project.

## What is modelled

**flowd, the dataflow engine.** `Rummy` has the AND/OR tables over SQL's three values and WAIT. `FlowOps` gives every
goroutine of `flow.go` as an op: what it sends, as a function of the values on its ports, and that the order in which
the values arrive does not matter. `Network` and `Lockstep` are the state machine of goroutines, unbuffered channels and
the flow worker, with the invariant every step keeps; `Schedules` has the results over all schedules, and `Miscount` and
`Stall` what becomes of an argument vector too long to count. `Rules` gives flow rules their meaning by recursive
evaluation, and `Meaning` says again what they mean, without goroutines, nulls or channels. `Compile`, `CompileRules`,
`CompileProgram` and `Compiler` are `compile.go`, and `Tsort` and `Depend` the way from the text of a flow file to a
program in dependency order. `Engine` joins the two halves: the compiled network, under any schedule, delivers what the
rules mean. `Tail` is the reader of a rolling log.

**bio4d, the blob server.** `Scanner` reads the request line; `FsSha` receives and stores blobs; `Wire` serves a put and
a get from the bytes of the connection; `WrapRoll` takes whole requests against the store and the wrapped logs,
`ShaBlobs` joins the two, and `TakeRace` interleaves takes with wraps; `UdigSet` is the text of a wrapped set and its
parser; `BrrLogger` is the logger process with its children, `BrrRecord` the text of a record, `BrrRead` a reader of it,
`Framing` the messages on pipes, `BlobSet` the hash set, `Arbor` the process that renames and trims.

**PostgreSQL.** `PgUdig` is the udig type and its order; `Jaccard` the merge of blob lists.

`Text`, `Fields` and `Collections` hold what several of these use.

Outcomes of commands and queries, sync-map lookups and blob request records are a parameter (`FlowOps.World`); so are digests
(`FsSha.Digester`, `WrapRoll.Hash`). Shared files and directories are values that steps update. Reads, arrivals and
goroutine schedules are chosen arbitrarily.

## Where the code and its documentation differ

The models follow the code.

- A frozen traffic log is documented as named by the time and a sequence number; the code prints the address of
  `time()`, so the name depends on the 16-bit number alone (`bio4d/brr.c:93-103`). A limit on how many frozen names are outstanding
  does not prevent a collision: `BrrLogger.OneSlowChildCollides`. The exact condition is `BrrLogger.CollidesExactly`.
- The parser of udig sets does not take `z` as a first letter, takes at most seven characters of algorithm, and never
  checks the size of a digest because it compares the wrong pointers (`bio4d/brr.c:572-609`): `UdigSet.AnyDigestLength`.
- The tail can lose whole logs when the log rolls twice: `Tail.TwoRollsLose`. It loses nothing exactly when the logs passed
  over were empty, `Tail.LosesExactly`, and passes none over without such a roll, `Tail.PromptSkipsNothing`.
- The merge of blob lists counts in eight bits. It is right for all lists if and only if there are at most 256 databases,
  `Jaccard.RightExactly`; which blobs it gets wrong is `Jaccard.WrongExactly`.
- A log in spool/wrap is meant to stay stored. A take looks for the log before it sends the blob and removes the blob after the
  client's reply (`bio4d/bio4d.c:566-633`), so a wrap in between loses it: `TakeRace.OverlapCanLose`; apart, nothing is lost: `TakeRace.ApartKeepsLogs`.
- Comparing a udig with a bc160 digest orders sha and btc20 below bc160: `PgUdig.CmpBc160Exactly`.
- A call of the command `true` that mentions nothing and that nothing refers to is never compiled
  (`flowd/parser.go:1048-1076`): `Depend.LoadIdle` is such a file, `Depend.FoundExactly` the condition.
- A rule with exactly 255 references is accepted by the parser and crashes the compiler, whose eight-bit fan-out width
  wraps to 0 (`flowd/compile.go:108-160`): `Depend.LoadCrowd` is such a file, `Depend.CompileFile` has the condition.
- A rule with more than 255 arguments compiles, but `argv` keeps their count and positions in eight bits (`flowd/flow.go:1036-1037`,
  `flowd/flow.go:1066`): with 256 it sends an empty vector at once (`FlowOps.ArgvOf256`). The vector is right if and only if there
  are fewer than 256 (`FlowOps.ArgvExactly`), the calls of a compiled program get their vectors if and only if no rule has more than 255
  arguments (`Engine.EngineDeliversExactly`), and only then can the engine go on past a few flows (`Engine.EngineGoesOnExactly`).
- The request line is documented with a verb from a list and a digest of 32 to 128 characters; the scanner takes any verb of at
  most five letters and any algorithm and digest within their buffers, empty ones included (`bio4d/bio4d.c:842-957`), and leaves the rest to later checks.
- A message of more than 255 bytes is cut or refused, because its size goes through an unsigned char: `Framing.RoundTrip`, `Framing.SurvivesExactly`.

## Model

| member | source | states |
|---|---|---|
| Rummy.InitAnd | flowd/flow.go:53-119 | the AND table built entry by entry agrees with SQL AND on settled operands and waits otherwise |
| Rummy.InitOr | flowd/flow.go:120-190 | the same for OR |
| Rummy.AllSettled | flowd/flow.go:27-190 | every entry holds an answer exactly when that answer is forced whatever the waiting operands become |
| Rummy.WaitFoldIsSql | flowd/flow.go:852-896 | stopping at the first entry that is not WAIT gives the SQL answer, whichever side comes first |
| Rummy.WaitBool2 | flowd/flow.go:852-940 | one flow of an AND/OR goroutine: the SQL answer, and each side read exactly once, drain included |
| FlowOps.OpConfluent | flowd/flow.go:906-1779 | whatever order its inputs arrive in, each goroutine sends the value its specification gives, but for an argv with 256 inputs or more, which never does |
| FlowOps.ArgvExactly | flowd/flow.go:1028-1129 | argv, with count and positions in eight bits, sends the whole vector, null exactly when some element is, if and only if it has fewer than 256 inputs |
| FlowOps.ArgvOf256 | flowd/flow.go:1036-1129 | with 256 inputs it waits for none and sends an empty vector that is not null |
| FlowOps.ReduceCounts | flowd/flow.go:1592-1779 | reduce sends the number of records that say ok and the number of those that do not, each in eight bits; null and absent records count in neither |
| FlowOps.CountArrivals | flowd/flow.go:1748-1771 | counting over arrivals in any order is counting over all inputs, none lost or counted twice |
| Network.EvalAt | flowd/compile.go:58-294 | the value of an op is its specification applied to the values of the ops it is wired to |
| Lockstep.StepKeeps | flowd/server.go:693-745 | every step of every goroutine and of the worker keeps the invariant of the network |
| Lockstep.AllDone | flowd/server.go:721-726 | when the flow detail record of a flow is there, every op is done with that flow |
| Schedules.EveryScheduleDelivers | flowd/flow.go:351-363 | under every schedule each port takes, in each resolved flow, exactly the evaluated value of its sender, exactly once |
| Schedules.EveryScheduleReports | flowd/server.go:721-744 | the records the worker receives are those of flows 1, 2, 3 … in order, with the evaluated counts |
| Schedules.ValuesUnderWay | flowd/flow.go:852-940 | values taken or sent in an unresolved flow already agree with the evaluation |
| Schedules.NeverOutOfSync | flowd/flow.go:869-884 | the sanity panics of the goroutines are unreachable, and the record the worker receives is of the flow it pushed |
| Schedules.HandoffAfterAllDone | flowd/server.go:710-726 | no op is handed a flow before the flow before it has resolved and every op is done with it |
| Schedules.NeverStuck | flowd/README:17-22 | in every reachable state with a flow under way some step is enabled |
| Schedules.StepLowers | flowd/flow.go:1592-1779 | every step inside a flow lowers what is left to do |
| Schedules.EveryFlowResolves | flowd/README:17-22 | no schedule takes more than a known number of steps without resolving the flow |
| Schedules.AlwaysReports | flowd/server.go:693-745 | there are schedules with any number of reports |
| Miscount.LongArgvNeverWhole | flowd/flow.go:1028-1129 | under no schedule is a vector of all its inputs ever taken from an argv with 256 inputs or more |
| Stall.TallyKept | flowd/flow.go:1043-1073 | every step keeps account of the values that each input of such an argv holds back, in its relay and before it |
| Stall.ThreeFlowsAtMost | flowd/server.go:710-745 | under every schedule a network with such an argv reports three flows at most |
| Rules.EvalRulesSolves | flowd/README:8-22 | the recursive evaluation solves the equation of every rule |
| Rules.RecordExactly | flowd/flow.go:1199-1308 | a rule's record is null exactly when an argument or the when clause is; it is there exactly when all arguments are and the clause is true, and is then what the command or query called with the strings left, or the exit status 0 of the builtin |
| Rules.FdrIs | flowd/flow.go:1618-1631 | the flow detail record has the number of rules with a record that says ok and of those with one that does not, modulo 256 |
| Meaning.TruthCarried | flowd/flow.go:366-940 | for expressions of the grammar's types, projections, comparisons, casts, sync maps, AND and OR give the truth value that SQL's logic gives of values that may be missing, each null exactly when it is missing |
| Meaning.ProgramCarried | flowd/README:8-22 | each rule of a program lacks a value, is skipped, or fires with the strings of its arguments, and its record says which |
| Meaning.FdrCounts | flowd/flow.go:1592-1779 | the flow detail record counts the rules that fired and ended well and those that fired and did not |
| Rules.SolutionUnique | flowd/README:8-22 | the rules' equations have no other solution |
| Rules.OrderIrrelevant | flowd/compile.go:308-325 | any two dependency orders give every rule the same record |
| Compile.WiredMatches | flowd/compile.go:58-294 | a network built op by op gives every channel exactly one reader and leads every port to an earlier op |
| Compile.CompileExpr | flowd/compile.go:58-294 | compiling an expression fails exactly on a reference to a rule not compiled yet; else the last op computes the expression, and references take the next outlets |
| CompileRules.CompileArgs | flowd/compile.go:78-97 | the same for the arguments of a rule, each with its own waiting outlet |
| CompileProgram.CompileRule | flowd/compile.go:99-195 | a CALL, CALLX0 or QUERY gets a fan-out of one outlet more than its references, and a fire op that computes its record |
| Compiler.CompileRulesInOrder | flowd/compile.go:308-325 | compiling rule after rule succeeds exactly on a program in dependency order with fewer than 255 references to each rule |
| Compiler.AllOutletsRead | flowd/compile.go:327-388 | after reduce and the logs every outlet has a reader, so the checks of unconsumed channels cannot fail |
| Compiler.NetWellFormed | flowd/compile.go:327-392 | the finished network is well formed and its count is the number of ops that call get() |
| Compiler.CompileAll | flowd/compile.go:27-392 | compile() succeeds exactly on compilable programs; then its network computes every rule and the flow detail record, and all its argvs can count exactly when no rule has more than 255 arguments |
| Engine.EngineDelivers | flowd/server.go:665-750 | when no rule has more than 255 arguments, in every reachable state of the compiled network each rule of each resolved flow took the argument vector, the when value and the record that the rules mean, once each |
| Engine.EngineFires | flowd/flow.go:1199-1262 | under every schedule the fan-out of a rule takes, once in each resolved flow, a value that is null, without a record, or with the record of the call, exactly as the values of the rule's arguments and when clause say |
| Engine.EngineMeans | flowd/README:8-22 | for rules of the grammar's types, what the fan-out takes is what the rule means |
| Engine.EngineMiscounts | flowd/flow.go:1028-1129 | a rule with more than 255 arguments never gets its argument vector, in any flow of any schedule |
| Engine.EngineDeliversExactly | flowd/flow.go:1028-1129 | in a resolved flow all rules got their argument vectors if and only if none has more than 255 arguments |
| Engine.EngineGoesOnExactly | flowd/server.go:693-745 | the compiled engine can report any number of flows if and only if no rule has more than 255 arguments; else it stops within three |
| Engine.EngineReports | flowd/server.go:721-744 | the k-th reported record has the number of rules whose record in flow k says ok and of those whose record does not, modulo 256 |
| Engine.EngineCounts | flowd/server.go:721-744 | for rules of the grammar's types: the rules that fired and ended well, and those that fired and did not |
| Engine.EngineStarts | flowd/compile.go:389-392 | the count left by compile() is the one the schedules start from |
| Tsort.Visit | flowd/tsort.go:70-79 | the inner loop lowers each inbound count by the number of arcs and finds exactly the new roots |
| Tsort.OrderedIsAcyclic | flowd/tsort.go:80-83 | a graph with an order that puts sources first has no cycle |
| Tsort.BlockedIsCyclic | flowd/tsort.go:80-83 | nodes that all wait for each other hold a cycle |
| Tsort.Tsort | flowd/tsort.go:14-84 | an order is returned exactly when the graph without self-arcs is acyclic; it holds each node once with each source before its targets, for any choice of root |
| Depend.ReadReferences | flowd/parser.go:2188-2222 | reading a file is refused exactly on a self-reference or a 256th reference; else it yields one arc for every mention and the counts of references |
| Depend.FindUnreferenced | flowd/parser.go:1043-1082 | the rules added as self-arcs are exactly the unreferenced ones that are no call of "true" |
| Depend.ReverseInPlace | flowd/parser.go:1087-1095 | the order is reversed in place |
| Depend.ReversedOrder | flowd/parser.go:1084-1095 | in the reversed order every rule stands after all rules it refers to |
| Depend.LookUp | flowd/compile.go:308-325 | the lookup of a sorted name fails exactly for a name that no rule has; else the rules found are in dependency order |
| Depend.FoundExactly | flowd/parser.go:1043-1095 | a rule is compiled exactly when it is not idle |
| Depend.CountsKept | flowd/parser.go:2205-2209 | ordering and leaving out idle rules keeps every count of references |
| Depend.OrderRules | flowd/parser.go:1018-1103 | a file is refused, cyclic, or refers to an uncalled rule, each with its exact cause, or else gives a program in dependency order |
| Depend.AnyOrderMeansTheSame | flowd/parser.go:1080-1095 | the random order of map iteration changes no rule's record |
| Depend.CompileFile | flowd/compile.go:308-392 | from the text's rules to a correct network, and exactly when that fails |
| Depend.LoadCrowd | flowd/compile.go:108-160 | a file with n references to one rule is refused above 255, accepted up to 255, and compiles below 255 |
| Depend.LoadIdle | flowd/parser.go:1048-1076 | a file with nothing but a call of "true" is accepted, and the call is not compiled |
| Tail.Follow | flowd/tail.go:98-183 | the follower against any run of the writer puts out whole logs in the order written and part of the current one; all that was written, in a prompt run; and once it has caught up, everything exactly when the logs passed over were empty |
| Tail.OutputInOrder | flowd/tail.go:143-183 | in every run the output is whole visited logs in the order written and then a part of the current one |
| Tail.NothingLost | flowd/tail.go:98-183 | the output is a prefix of all lines written when the logs passed over were empty |
| Tail.LosesExactly | flowd/tail.go:98-183 | the output is everything written before the reader's place if and only if the logs passed over were empty |
| Tail.CaughtUpExactly | flowd/tail.go:98-183 | for a reader that has caught up: the output is everything written if and only if the logs passed over were empty |
| Tail.SwitchPassesOver | flowd/tail.go:98-140 | the logs passed over are exactly those that came and went between the log that rolled and the switch |
| Tail.PromptSkipsNothing | flowd/tail.go:98-140 | without a second roll before a switch no log is passed over |
| Tail.PromptLosesNothing | flowd/tail.go:126-140 | without a second roll before a switch the output is a prefix of all lines written |
| Tail.PromptExactly | flowd/tail.go:98-140 | a reader that has caught up has opened every log if and only if no second roll came before a switch |
| Tail.TwoRollsLose | flowd/tail.go:126-140 | with two rolls a whole log can be lost: the output of a reader that has caught up is no prefix of what was written |
| Tail.ReaderCatchesUp | flowd/tail.go:143-183 | when the writer rests the reader reaches the end of the log at the path in a bounded number of steps |
| BrrLogger.LogAll | bio4d/brr.c:76-266 | the logger over any messages: each record is once in the frozen logs and the active log, in order; each request is told the path of its freeze; and the newest 65536 frozen logs are the files on disk, each under its path |
| BrrLogger.PathsRead | bio4d/brr.c:79-103 | where the numbers stand in the path of the fifo and of a frozen log, and what stands around them |
| BrrLogger.PathsDiffer | bio4d/brr.c:79-103 | frozen names are equal exactly when their 16-bit numbers are |
| BrrLogger.EachRecordInOneLog | bio4d/brr.c:139-266 | in every interleaving each record sent is in exactly one of the frozen logs, the active log and the pipe, in pipe order, and the k-th frozen log holds exactly the records between two requests |
| BrrLogger.FrozenLogsNeverChange | bio4d/brr.c:76-132 | while no freeze finds its name in use, a frozen file keeps its records until its child moves it, and each child digests and moves the log frozen for it |
| BrrLogger.CollidesExactly | bio4d/brr.c:79-112 | a freeze finds its name in use exactly when a log frozen a multiple of 65536 freezes ago has not been moved |
| BrrLogger.QuickChildrenNeverCollide | bio4d/brr.c:79-112 | children that move their logs within 65535 freezes never lose one |
| BrrLogger.CollisionReplacesLog | bio4d/brr.c:101-112 | a collision puts the newer log in the place of the older child's log |
| BrrLogger.OneSlowChildCollides | bio4d/brr.c:79-112 | a run with a single outstanding name that collides |
| BrrRecord.Net32Addr2Text | bio4d/net.c:289-325 | the dotted decimal text, written backwards without leaving the buffer |
| BrrRecord.RecordSize | bio4d/brr.c:400-490 | every record of a tcp4 request has more than 25 and at most 255 bytes |
| BrrRead.RecordFields | bio4d/brr.c:38-39 | a record splits at its tabs into start time, transport, verb, udig, chat history, size and duration, in this order, and its only newline is the last character |
| BrrRead.TimeReads | bio4d/brr.c:466-473 | year, month, day, hour, minute, second and nanosecond stand at the places of RFC 3339 |
| BrrRead.RecordReads | bio4d/brr.c:400-490 | a record reads back as the request it was written for, both addresses and ports included |
| BrrRead.RecordsDiffer | bio4d/brr.c:400-490 | equal records come from equal requests |
| BrrRecord.NeverConfused | bio4d/brr.c:234-237 | no record is taken for a request to wrap, and no such request for a record |
| Framing.FramesReadBack | bio4d/io.c:341-420 | messages of 1 to 255 bytes written one after the other read back the same |
| Framing.ReadBackIsFrames | bio4d/io.c:341-391 | a stream that reads without a break is a sequence of such messages |
| Framing.SurvivesExactly | bio4d/io.c:402-420 | what is left of the messages after writing is all of them exactly when each has 1 to 255 bytes |
| Framing.Pipe.MsgRead | bio4d/io.c:341-391 | through any short reads one call takes exactly one message, and a break or the end of file is reported |
| Framing.RoundTrip | bio4d/io.c:341-420 | of any messages written, those that are left are read back in order; they are the ones written if and only if each has 1 to 255 bytes |
| UdigSet.Blob2UdigSet | bio4d/brr.c:505-662 | the parse ends although it steps back, accepts exactly the blobs that print distinct udigs, returns their set, and never ends in an unexpected state |
| UdigSet.PrintsOnce | bio4d/brr.c:910-936 | a blob prints at most one list of udigs |
| UdigSet.RoundTrip | bio4d/brr.c:505-662 | a printed set parses back to the same set |
| UdigSet.AnyDigestLength | bio4d/brr.c:581-619 | a digest of any length is accepted |
| UdigSet.ExtractWrapUdig | bio4d/brr.c:667-695 | a name in spool/wrap yields a udig exactly when it is the udig of a compiled-in module with its suffix |
| UdigSet.CompiledIsUdig | bio4d/brr.c:667-695 | every udig that wrap prints is one the parser takes |
| BlobSet.DjbIsWeighted | bio4d/blob_set.c:17-27 | the hash is the sum of the bytes weighted with powers of 33, in 32 bits, although it wraps around at each byte |
| BlobSet.HashSet.Exists | bio4d/blob_set.c:101-117 | membership in the set |
| BlobSet.HashSet.Put | bio4d/blob_set.c:129-159 | adds one element and tells whether it was there |
| BlobSet.HashSet.ForEach | bio4d/blob_set.c:48-79 | visits only elements, none twice, all of them unless the callback stops, and restores the nesting level |
| BlobSet.FromMembers | bio4d/blob_set.c:48-117 | the chains together hold exactly the values found through their hash |
| BlobSet.FromDistinct | bio4d/blob_set.c:48-79 | no value stands twice in the table |
| BlobSet.PutAll | bio4d/blob_set.c:129-159 | any sequence of puts gives the set of its elements, each new exactly at its first put |
| WrapRoll.Server.TakeRequest | bio4d/bio4d.c:548-634 | a wrapped log is refused, another blob is sent and goes exactly when the client took it |
| WrapRoll.Server.WrapRequest | bio4d/brr.c:983-1221 | freezes the log, stores and wraps it, prints every wrapped udig once with the new one first, stores that set and returns its udig |
| WrapRoll.Server.RollRequest | bio4d/brr.c:708-880 | removes exactly the wrapped logs that a stored set blob lists, and refuses what is not stored or no set |
| WrapRoll.ServeAll | bio4d/bio4d.c:548-634 | a new server over any requests makes a run of the requests as asked, after which every wrapped log is stored, and the wrapped logs and the active log hold all records once, in order |
| WrapRoll.WrapCutsTheLog | bio4d/brr.c:983-1103 | after a wrap the whole active log is in spool/wrap under the name listed first, and the new one holds the record of the wrap and nothing else |
| WrapRoll.EachRecordOnce | bio4d/brr.c:983-1103 | in every run the logs moved into spool/wrap and the active log, one after the other, are what was in the active log and the records of all requests, each once and in order |
| WrapRoll.EveryRunKeepsLogs | bio4d/bio4d.c:548-634 | in every run of requests each wrapped log has a stored blob of its udig; take never removes it |
| WrapRoll.SameBytesExactly | bio4d/brr.c:1060-1103 | the stored bytes stay those of the wrapped log exactly while no request stores other bytes of the same digest |
| WrapRoll.RollRemovesWhatWrapListed | bio4d/brr.c:838-872 | rolling the udig of a stored wrap set removes exactly the logs that wrap listed |
| WrapRoll.RollAtOnceRemovesAll | README:63-75 | rolled at once it leaves no wrapped log |
| WrapRoll.DisturbsExactly | bio4d/bio4d.c:512-634 | which requests change or remove a stored blob |
| WrapRoll.WrapThenRoll | README:63-75 | whatever requests come between, as long as none disturbs the set blob, the roll removes exactly what the wrap listed |
| WrapRoll.ForgottenStaysForgotten | README:69-72 | a log comes into spool/wrap only when a log of its digest is frozen |
| WrapRoll.RolledLogsStayOut | README:69-72 | after an ok roll no later wrap lists a rolled log unless a log of its digest was frozen since |
| WrapRoll.NextWrapHasTheRecord | README:63-78 | the record of any request is in the log that the next wrap freezes and lists first |
| FsSha.PathParts | bio4d/fs_sha.c:342-396 | below the root stand two directories of three digits each and then a file named by the whole digest |
| FsSha.PathsDiffer | bio4d/fs_sha.c:342-396 | different digests have different paths |
| FsSha.FoundHasDigest | bio4d/fs_sha.c:406-584 | a file found for a digest has that digest, so the mismatch panics cannot happen |
| FsSha.Store.ReceiveBlob | bio4d/fs_sha.c:592-745 | however the reads cut the stream, reading stops at the first cut whose bytes have the digest, and only there |
| FsSha.Store.PutBytes | bio4d/fs_sha.c:630-764 | ok exactly when what was read up to some cut has the digest; then the file holds exactly the bytes received and blob_size counts them; on no nothing is stored; every file keeps its digest as its name |
| FsSha.Store.Digest | bio4d/fs_sha.c:849-941 | a local stream is stored whole under its own digest |
| FsSha.Store.GetBytes | bio4d/fs_sha.c:398-468 | the bytes found have the digest asked for |
| FsSha.Store.TakeReply | bio4d/fs_sha.c:782-813 | an accepted blob is not found any more; every other digest, and the refused one, is found with the bytes it had |
| FsSha.SendBlob | bio4d/bio4d.c:512-528 | a client that sends one blob gets it stored whole, unless a proper part has the same digest |
| FsSha.SendTooMuch | bio4d/fs_sha.c:691-745 | a client that sends more than its blob gets ok, and just the blob stored, exactly when some read ends where the blob ends |
| ShaBlobs.Put | bio4d/bio4d.c:512-528 | a put into the files of the sha module is a put into the blobs of `WrapRoll`, of the bytes up to where reading stopped |
| ShaBlobs.Take | bio4d/bio4d.c:548-634 | a take from the files is a take from the blobs |
| ShaBlobs.StoreFrozen | bio4d/brr.c:1047-1084 | digesting a frozen log into the files is freezing it into the blobs |
| Wire.ServePut | bio4d/bio4d.c:512-528 | a request line and a blob in one stream, cut anyhow by the reads of the scanner and of the store: the blob is stored whole |
| Wire.PutThenGet | bio4d/bio4d.c:443-528 | a get after a put, from the bytes of the connections, finds the blob that was put |
| TakeRace.TakeAlone | bio4d/bio4d.c:566-633 | the steps of a take that nothing interrupts do what the request does |
| TakeRace.WrapAlone | bio4d/brr.c:1047-1103 | the same for the first half of a wrap |
| TakeRace.LosesExactly | bio4d/bio4d.c:566-633 | a wrapped log loses its blob only by the late removal of a blob wrapped since, or the move of a log taken since |
| TakeRace.ApartKeepsLogs | bio4d/bio4d.c:566-633 | while no take and wrap of the same digest overlap, every wrapped log stays stored |
| TakeRace.OverlapCanLose | bio4d/bio4d.c:566-633 | from any such overlap the run can go on to lose the log |
| Scanner.RequestExactly | bio4d/bio4d.c:854-961 | a stream is a request exactly when it begins with a line of the grammar; the line fixes verb, algorithm, digest and the rest |
| Scanner.UdigsAreServed | bio4d/bio4d.c:854-961 | each of the eight verbs with the udig of a compiled-in module is a request of these tokens |
| Scanner.Reader.Feed | bio4d/bio4d.c:867-957 | one character through the three token buffers, none overrun, has the outcome of the state machine |
| Scanner.Reader.Chew | bio4d/bio4d.c:856-961 | one chunk has the outcome of its characters |
| Scanner.ScanRequest | bio4d/bio4d.c:811-969 | the verdict is that on the whole stream, however it is read; scan_buf and the later reads are the stream after the newline |
| PgUdig.Hex2Dig20 | sync/pgsql/contrib/udig/udig.c:179-210 | reads exactly the texts of 40 hex digits, and what it reads prints back |
| PgUdig.Dig2Hex40 | sync/pgsql/contrib/udig/udig.c:222-239 | prints two digits for each byte and a null |
| PgUdig.TypeBytes | sync/pgsql/contrib/udig/udig.c:32-34 | the type byte is 1, 2 or 3, exactly as the text begins with sha, bc160 or btc20 |
| PgUdig.UdigIn | sync/pgsql/contrib/udig/udig.c:584-690 | takes a text exactly when it is the printed text of a udig, and gives that udig |
| PgUdig.RoundTrip | sync/pgsql/contrib/udig/udig.c:584-735 | what is printed reads back as the same udig |
| PgUdig.HexKeepsOrder | sync/pgsql/contrib/udig/udig.c:222-239 | hex text keeps the order of the bytes |
| PgUdig.OrderIsTextOrder | sync/pgsql/contrib/udig/udig.c:738-776 | the order of the stored form is the byte order of the printed texts |
| PgUdig.TotalOrder | sync/pgsql/contrib/udig/udig.c:743-776 | a total order |
| PgUdig.CrossTypesAgree | sync/pgsql/contrib/udig/udig.c:456-470 | comparing a sha or btc20 digest with a udig on either side, or a bc160 digest with a udig, is comparing after the cast |
| PgUdig.CmpBc160Exactly | sync/pgsql/contrib/udig/udig.c:1289-1305 | comparing a udig with a bc160 digest is right exactly when the udig is a bc160 |
| Jaccard.NextRow | sync/pgsql/jaccard.go:329-335 | the critical section, for whichever database's row comes next, keeps the map at the counts of all rows so far |
| Jaccard.Merge | sync/pgsql/jaccard.go:345-378 | for any interleaving of the rows the map ends with the blobs listed by a number of databases that is no multiple of the number of databases in eight bits |
| Jaccard.ListedExtremes | sync/pgsql/jaccard.go:329-335 | a count is positive on the union and full on the intersection |
| Jaccard.WrongExactly | sync/pgsql/jaccard.go:329-335 | the result is wrong for a blob exactly when some but not all databases list it and their number is a multiple of the period, or all list it and their number is none |
| Jaccard.WrongAbove256 | sync/pgsql/jaccard.go:329-335 | for every number of databases above 256 there are lists with a wrong result |
| Jaccard.RightExactly | sync/pgsql/jaccard.go:318-378 | the result is the union without the intersection for all lists if and only if there are at most 256 databases |
| Arbor.AncestorsExist | bio4d/arbor.c:47-73 | in a closed tree every blob has all its ancestor directories |
| Arbor.NothingBelowEmpty | bio4d/arbor.c:309-340 | an empty directory has nothing below it at any depth |
| Arbor.Arborist.MakeWay | bio4d/arbor.c:60-73 | making the directories on the way fails only because one of them is a blob |
| Arbor.Arborist.RenameBlob | bio4d/arbor.c:47-120 | works exactly when the target is no directory and no directory on the way is a blob; then all of them exist |
| Arbor.Arborist.TrimBlobDir | bio4d/arbor.c:308-350 | ends, removes only directories on the path that had no blob below, and leaves none of them empty; it panics exactly on a path that is a blob or has vanished with its parent, and then changed nothing |

## Left out

- flowd: end of input. The model's worker always has another record; the channels closing at shutdown, and the NIL state that marks a closed channel, are not part of it.
- flowd: a panic ends the process; in `Network` it stops one goroutine, so what is proved of every reachable state covers more states than the code has.
- flowd: the green, yellow and red counters, which several goroutines write without a lock.
- flowd: the commands, queries, sync maps and log files behind `World`; a call that never returns stops its flow.
- Meaning: `Typed` is what the grammar lets stand where, but for truth values as arguments, which the grammar takes and for which the compiler has no channel.
- flowd: generated parser tables, the lexer and the type checks of the grammar; rules begin as trees. Comparisons of `blob_size` are never wired by the compiler.
- Depend.OrderRules: the lexer gives a name one role and a rule one call, so `Lexed` is what it leaves.
- Tail: a roll is one step, although the path is missing for a moment; the panic when it stays missing is not modelled. Lines are appended whole.
- BrrLogger: a restart, which sets the sequence number back to 0; signals; write errors.
- BrrRecord.RecordSize: years of four digits and tcp4 transports only.
- BrrRead: the same.
- WrapRoll: requests run one after the other. Interleaved wraps are in `BrrLogger`, takes interleaved with wraps in `TakeRace`; wraps interleaved with rolls are not modelled.
- WrapRoll.Server.TakeRequest: errors on the client's connection.
- FsSha: the modules bc160 and btc20 have the same shape with other digests. Temporary files are written in full and renames succeed.
- FsSha.Store.PutBytes: for the empty digest the bytes received are ignored, as in the code.
- Scanner: timeouts and read errors; what the verb callbacks check after the scan.
- Framing: read errors inside a message, which the code does not notice.
- UdigSet: `Blob2UdigSet` collects into mathematical sets; `BlobSet` is the hash set they stand for.
- BlobSet: chains are immutable lists, since the code only ever adds at their head; freeing is not modelled.
- Arbor: symbolic links, moves between devices, and the reply to the requesting process.
- PgUdig: the six operators of each type only test the sign of these comparisons; `udig_can_cast` accepts other texts than `udig_in`.
