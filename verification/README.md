# Verified model of the game server

The server settles combat runs, keeps player accounts and styles, and talks to its clients over one sequenced frame
protocol. This project models the parts whose correctness is not local and proves what they promise for all inputs, all
histories and all interleavings.

| files | part of the server |
|---|---|
| Common, Settlement, Combat, Storage, SettlementAnswers, OverflowBound | the arithmetic of one settlement, the validator in front of it, what each call is answered, and how long rewards fit |
| Players, MemoryStore, MemoryHistory, ArchiveBuffers | the mutex-protected in-memory store, its histories, the buffers its callers hold |
| SqlSettlement, SqlMachine, SqlFallback, SqlSerial, SqlOrder, SqlHistory | the MySQL settlement: alone, interleaved, through the duplicate-key fallback, serialised, in commit order, as sums over the rewarded runs |
| Agreement, Marshalling | the two repositories compared; a concrete marshaller |
| Economy, UnlockMachine | gold earned and spent, in sequence and interleaved |
| Frame, RankMember, RateLimit | the frame codec, leaderboard members, the fixed-window limiter |
| Pipeline, Kernel, Login, Auth | hooks, dispatch, interleaved logins, authentication over whole runs |
| Connection, Wire | send buffer, one connection end to end |
| Hub, HubMachine, HubProgress, HubStages, HubServes | the hub's methods, the hub under concurrent callers, on every schedule, its stages and loops, what callers get from it |
| ServerLifecycle, ServerServing, ServerShutdown | server, handlers and hub together: safety, service while running, and the end of every shutdown |

Code that updates fields is a class whose methods are proved against functions on values; protocols are transition
systems in which any sequence of actions is a run and an action that does not apply changes nothing, so a statement
about all action sequences is one about all reachable states.

## Assumptions

- Marshalling is a pair of functions; the only law used is that what could be marshalled unmarshals to itself
  (`Storage.Lawful`). Either direction may fail, and the error branches are modelled.
- MySQL: `SELECT ... FOR UPDATE` on the player row is an exclusive lock held to commit or rollback; a plain read after
  it sees everything committed before; an insert waits for an uncommitted insert of the same key; `(player_id, run_id)`
  is unique and compared exactly; the gap locks that `FOR UPDATE` takes on missing archive or stats rows never make two
  transactions wait for each other. With the player lock switched off, the row locks on archive and stats are off too,
  which only adds interleavings to the exactly-once result.
- A commit may take effect without the caller being told, and any statement may fail; both are actions of the machine.
- Redis's clock is taken to be as fine as time.Duration, and one key sees nondecreasing times.
- `window.Seconds()` is taken without its float64 rounding, which can only matter for windows beyond about 2^24 seconds
  that lack nanoseconds to a whole second.
- A hook may return another input, but does not write into the decoded message it is given a pointer to.
- The float32 rounding of a dungeon's density is any value in [1, 3] that leaves 3 alone.
- The hub serves, turns away and loops in any order Go's select and map iteration allow.

## What the code does not do

- `settleArchive` is exact only while its two unguarded subexpressions do not wrap (`Settlement.SettledIsExactIff`).
- The rate limiter's bound of two limits per window fails for windows with a fraction of a second, because
  `int(window.Seconds())` cuts it off, and a window below one second limits nothing (`RateLimit.TwiceLimitIff`,
  `RateLimit.SubSecondAdmitsAll`).
- The guard on stats gold and exp (internal/store/mysql_settlement.go:151) compares an int64 with the largest int64 and
  never fires; gold and exp of the stats row wrap instead. `SqlSettlement.StatsRewardWraps` is such a row,
  `SqlSettlement.StatsAddExactlyIff`, `SqlHistory.StatsExactIff` and `Economy.GoldIsExactIff` say exactly when they do not.
- The stats totals guard refuses runs the in-memory store accepts: `Agreement.AgreeOnCall` says exactly when,
  `Agreement.TotalsGuardDisagrees` gives a row.
- `Dispatch` discards the input rewritten by before-hooks (internal/kernel/kernel.go:109): handlers get the request as
  decoded (`Kernel.RewritesAreDiscarded`, `Kernel.HandlerGetsRewriteIff`): what a hook returns in its place goes nowhere.
- Unlocking a style is not atomic. Without failing statements, overlapping unlocks of one style can be charged twice
  (`UnlockMachine.ChargedTwiceIff`). With failing ones, even unlocks that never overlap can: a charge whose recording
  fails leaves no style and is not refunded, and the retry pays again (`FailedRecordPaysTwice`,
  `LostDeductionPaysTwice`); a lookup that fails charges for a style the player has (`FailedLookupPays`). Otherwise a
  style is charged at most once (`ChargedOnce`).

## Model

| member | source | states |
|---|---|---|
| `Settlement.SettleArchive` | internal/store/settlement.go:20-56 | the in-place settlement: a refused run leaves the archive object untouched, an accepted one updates exactly it; equal to `Settled` with Go's wrap-around |
| `Settlement.SettledIsExactIff` | internal/store/settlement.go:20-50 | the guards settle exactly over unbounded integers if and only if neither a reward product nor `MaxInt64 - TotalKills` wraps |
| `Settlement.SettledIsExact` | internal/store/settlement.go:20-50 | rates that fit int32 and a natural kill total suffice for exact settlement |
| `Settlement.WrapAroundsOccur` | internal/store/settlement.go:24-33 | concrete inputs on which each of the two wrap-arounds makes the code accept or refuse wrongly |
| `Common.Wrap32Congruent` | internal/store/settlement.go:36-37 | the model of Go's int32 conversion only takes off whole turns of 2^32 |
| `Common.Wrap64Congruent` | internal/store/settlement.go:24-33 | the model of Go's int64 arithmetic only takes off whole turns of 2^64 |
| `Combat.ValidatedIff` | internal/combat/validator.go:15-60 | with the default configuration exactly the requests inside all bounds pass, run id and kill limit included |
| `Combat.RefusedForFirst` | internal/combat/validator.go:15-60 | a refused request is told the first check it fails, the kill limit written out |
| `Combat.ValidatedBounds` | internal/combat/validator.go:15-60 | what settlement may rely on behind the validator: kills in 0..180, score up to 1,000,000, levels 1..100 |
| `Combat.KillLimit` | internal/combat/config.go:94-111 | no dungeon admits more than 180 or fewer than 30 kills, and level 15 upwards exactly 180, whatever the float32 rounding of the density |
| `Combat.TrimmedIff` | internal/combat/service.go:41-43 | a run id survives trimming exactly when it neither starts nor ends with Unicode white space |
| `Combat.Characters` | internal/combat/service.go:41-43 | the 25 white space characters, and the bytes characters take |
| `Players.HistoriesStayConsistent` | internal/store/memory_development.go:75-119 | player table and OpenID index are inverse and ids below the next id after every sequence of creates and renaming updates, rejected ones included |
| `Players.PlayersOnlyGrow` | internal/store/memory_development.go:75-119 | no history withdraws or reuses an id |
| `Players.IdsAreConsecutive` | internal/store/memory_development.go:75-94 | after every history the ids are exactly 1 up to below the next id: each accepted create takes the next number |
| `Players.RefusedIff` | internal/store/memory_development.go:83-110 | a create or update is refused exactly when the id is unknown or another player has the OpenID, and then changes nothing |
| `Players.LookupFinds` | internal/store/memory_development.go:60-73 | looking up an OpenID finds the one player that has it, and fails exactly when nobody has |
| `MemoryStore.MemoryDevelopmentStore.constructor` | internal/store/memory_development.go:33-47 | a new store is empty and its next id is 1 |
| `MemoryStore.MemoryDevelopmentStore.CreatePlayer` | internal/store/memory_development.go:75-94 | the fields after a create are those of `Players.Create` |
| `MemoryStore.MemoryDevelopmentStore.UpdatePlayer` | internal/store/memory_development.go:96-119 | the fields after an update are those of `Players.Update` |
| `MemoryStore.MemoryDevelopmentStore.SaveArchive` | internal/store/memory_development.go:164-176 | the table maps the player to a fresh copy of the given bytes |
| `MemoryStore.MemoryDevelopmentStore.GetArchive` | internal/store/memory_development.go:152-162 | the caller gets a fresh copy of the stored bytes, or nothing exactly when nothing is stored |
| `MemoryStore.MemoryDevelopmentStore.Settle` | internal/store/memory_development.go:179-223 | one critical section: replay, or settle and store archive, level and response together, or change nothing |
| `MemoryStore.MemoryDevelopmentStore.GetDevelopmentPlayerLevel` | internal/store/memory_development.go:225-232 | the stored level, at least 1 |
| `ArchiveBuffers.Play` | internal/store/memory_development.go:152-223 | through every sequence of allocations, saves, reads, settlements and writes to callers' buffers, heap and store hold what they would hold as values: no caller ever holds a buffer of the store |
| `ArchiveBuffers.BuffersAreCallers` | internal/store/memory_development.go:152-176 | callers' buffers hold what they allocated or read and what they wrote since |
| `ArchiveBuffers.ReadsWhatWasSaved` | internal/store/memory_development.go:152-176 | bytes read back are those at save time, whatever callers did to any of their buffers in between |
| `MemoryHistory.RowsPersist` | internal/store/memory_development.go:187-222 | a stored response is never rewritten by any later history |
| `MemoryHistory.RewardedOnceAndReplayed` | internal/store/memory_development.go:187-222 | in every history a rewarded run is never rewarded again and each later request gets the first response marked as duplicate |
| `MemoryHistory.ArchiveIsFoldOfHistory` | internal/store/memory_development.go:152-223 | in every history a player's archive is the last save plus each rewarded run since, as sums, maxima and last style |
| `MemoryHistory.LevelIsFoldOfHistory` | internal/store/memory_development.go:218-232 | in every history the reported level is the maximum of 1 and all rewarded levels, saves notwithstanding |
| `MemoryHistory.NewPlayerArchive` | internal/store/memory_development.go:187-222 | the archive of a player that never saved one holds its rewarded runs and nothing else, field by field |
| `SettlementAnswers.MemoryAnswers` | internal/store/memory_development.go:179-223 | the in-memory answer to any call, decided in order: replay, malformed archive or response, each overflow exactly when the sum does not fit, encoding failure, else the exact response |
| `OverflowBound.NoOverflowBefore` | internal/store/settlement.go:26-35 | without saves in between, no validated run can overflow before 1,193,046 rewarded runs |
| `OverflowBound.OverflowAfter` | internal/store/settlement.go:26-31 | after that many runs of 180 kills the next one is refused and changes nothing |
| `OverflowBound.BoundIsReached` | internal/store/settlement.go:20-56 | such a history of validated, distinct, rewarded runs exists, so the bound is tight |
| `SqlSettlement.UpdateSettlementStats` | internal/store/mysql_settlement.go:141-171 | the stats row after a settlement, field by field, or the totals overflow error |
| `SqlSettlement.StatsAddExactlyIff` | internal/store/mysql_settlement.go:151-155 | an accepted reward is added exactly if and only if the sum fits int64; otherwise the column turns negative |
| `SqlSettlement.StatsRewardWraps` | internal/store/mysql_settlement.go:151-155 | a row at the largest int64 for which line 151 does not refuse and both columns wrap |
| `SqlSettlement.MySQLCombatSettlementRepository.Settle` | internal/store/mysql_settlement.go:35-123 | the statements of the transaction together are `SettleDb`: all rows or none, and the answer |
| `SqlSettlement.MySQLCombatSettlementRepository.ArchiveFromTransaction` | internal/store/mysql_settlement.go:125-139 | the decoded archive, a fresh one for a player without, or the malformed error |
| `SettlementAnswers.MySQLAnswers` | internal/store/mysql_settlement.go:35-171 | the MySQL answer to any call, decided in order: unknown player, replay, malformed archive or response, each overflow exactly when the sum does not fit, full totals, metadata, encoding failure, else the exact response |
| `SqlMachine.ExactlyOnce` | internal/store/mysql_settlement.go:43-60 | for every interleaving, with or without the player lock: at most one call is told its run was newly settled, never one whose row was there before, and duplicates repeat the stored response |
| `SqlMachine.ExactlyOnceAlways` | internal/store/mysql_settlement.go:98-118 | the invariant behind it, through unique key, rollback and re-read |
| `SqlMachine.Failures` | internal/store/mysql_settlement.go:41-118 | a transaction that fails leaves no trace and no lock; a commit whose answer is lost has its whole effect |
| `SqlFallback.TakenKeyIsReplayed` | internal/store/mysql_settlement.go:98-118 | in every reachable state an insert that meets its own key rolls back without writing, gives up the lock, and answers from the row read again |
| `SqlSerial.Serialisable` | internal/store/mysql_settlement.go:41-105 | with the lock, tables and answers after any interleaving are those of the logged calls run one after another; the log holds finished calls only, each once, and every answered one; no run is rewarded twice in it, acknowledged or not |
| `SqlSerial.SerialRewardsOnce` | internal/store/mysql_settlement.go:50-60 | in a serial run the settlement rows are the initial ones and one for each rewarded call, whose keys are distinct and new |
| `SqlOrder.EffectsInOrder` | internal/store/mysql_settlement.go:41-105 | the log is in commit order: a step changes nothing committed, or ends one transaction and makes its whole serial change at once |
| `SqlOrder.RealTimeOrder` | internal/store/mysql_settlement.go:41-123 | a call that ended before another began comes before it in the log, so each call takes effect between its beginning and its answer |
| `SqlSerial.NextPcStaysCurrent` | internal/store/mysql_settlement.go:65-104 | each statement between lock and end still sees what the serial settlement sees |
| `SqlSerial.FallbackUnreachable` | internal/store/mysql_settlement.go:98-118 | with the lock the duplicate-key rollback and re-read never happen |
| `SqlSerial.SomeoneAdvances` | internal/store/mysql_settlement.go:41-105 | no deadlock: while a call is unanswered, it or the holder of its player's lock can execute a statement and gets closer to its end |
| `SqlHistory.RowsAreFoldOfLog` | internal/store/mysql_settlement.go:65-171 | after a serial run archive, stats row, score rows and settlement rows are the initial ones plus each rewarded run once, its score row holding score, kills, survival time, level and style of that run; gold and exp of the stats row modulo 2^64 |
| `SqlHistory.NoRewardLost` | internal/store/mysql_settlement.go:35-171 | so after any interleaving, from any initial rows: the rewarded runs are distinct, each asked for by a call that finished, every run told newly settled is among them, and each is in all four tables once, in commit order, with its own values |
| `SqlHistory.NewPlayerRows` | internal/store/mysql_settlement.go:141-171 | stats row and archive of a new player hold its rewarded runs and a new player's health, stamina and attack power, field by field |
| `SqlHistory.StatsExactIff` | internal/store/mysql_settlement.go:151-155 | after any interleaving stats gold and exp took the rewards in exactly if and only if start plus rewards fits int64, which it always does from 2^32 - 1 below the largest; the level is the maximum where it fits int32 |
| `Agreement.AgreeOnCall` | internal/store/mysql_settlement.go:141-171 | on agreeing repositories one call is answered alike if and only if the stats row does not refuse an accepted run |
| `Agreement.TotalsGuardDisagrees` | internal/store/mysql_settlement.go:156-158 | a stats row with which only MySQL refuses the run |
| `Agreement.SameHistoriesIff` | internal/store/memory_development.go:179-223 | a history of answered calls of one repository is one of the other if and only if no accepted run is refused for the stats totals at its point; then both keep the same archives and rows |
| `Agreement.SameHistories` | internal/store/memory_development.go:179-223 | with room in the initial totals the two have the same histories |
| `Agreement.InterleavingsMatchMemory` | internal/store/mysql_settlement.go:35-123 | after any interleaving of locked transactions the logged answers are those of the in-memory store if and only if no logged run was refused for the totals; then archives and rows agree |
| `Marshalling.LawfulMarshallerExists` | internal/store/mysql_settlement.go:173-179 | the assumption on marshalling, that what was stored decodes to itself, can be met |
| `Economy.MySQLStore.DeductPlayerGold` | internal/store/mysql.go:320-331 | gold is deducted, and a row reported, exactly when the row exists and has enough |
| `Economy.MySQLStore.UnlockPlayerStyle` | internal/store/mysql.go:309-316 | the pair is in the table afterwards, once |
| `Economy.MySQLStore.UnlockStyle` | internal/combat/handler.go:184-225 | one unlock: unknown style, already unlocked, free, too little gold, or paid |
| `Economy.UnlockingSpends` | internal/combat/handler.go:191-218 | an unlock takes exactly the price of a paid style it adds, and never below zero |
| `Economy.UnlockAnswers` | internal/combat/handler.go:184-225 | an unlock succeeds exactly when the style is owned, free or affordable, at cost 0, 0 or 100, and is then owned; otherwise it says so and changes nothing; no other player, no other column is touched |
| `Economy.SettlingEarns` | internal/store/mysql_settlement.go:141-171 | a rewarding settlement adds the reported gold to the archive exactly and to the stats row modulo 2^64 |
| `Economy.GoldIsConserved` | internal/combat/handler.go:184-225 | over every sequential history of settlements and unlocks gold is the initial gold plus rewards minus 100 per paid style gained, modulo 2^64, and what was charged is the price of the styles gained |
| `Economy.GoldIsExactIff` | internal/combat/handler.go:184-225 | nothing wraps, and gold stays natural for a player who started so, if and only if that sum fits int64; starting 2^32 - 1 below the largest suffices |
| `Economy.StylesStay` | internal/combat/handler.go:191-200 | a style once unlocked is free ever after |
| `UnlockMachine.GoldIsConserved` | internal/combat/handler.go:191-218 | for every interleaving of unlock statements and settlements, whatever fails: gold is the initial gold plus rewards minus 100 per deduction that took effect, modulo 2^64 |
| `UnlockMachine.AloneIsUnlock` | internal/combat/handler.go:184-225 | the statements of one unlock, left alone and without failure, come to the sequential unlock |
| `UnlockMachine.ChargedOnce` | internal/combat/handler.go:191-221 | a style is charged at most once, and not if owned, in every interleaving in which no two unlocks of it are past their lookup together and none of three failures hits it: a lookup that fails though it is owned, a record that fails after the charge, a deduction whose effect is not reported |
| `UnlockMachine.FailedLookupPays` | internal/combat/handler.go:192-195 | a failing lookup, which is only logged, charges an owned style |
| `UnlockMachine.FailedRecordPaysTwice` | internal/combat/handler.go:218-221 | gold is deducted, recording fails, and the retry is charged again without any overlap |
| `UnlockMachine.LostDeductionPaysTwice` | internal/combat/handler.go:208-216 | a deduction that took effect but was reported as failed is repeated by the retry |
| `UnlockMachine.OverlappingUnlocksPayTwice` | internal/combat/handler.go:191-218 | two overlapping unlocks of one style by a player with 200 gold can both be charged and both succeed |
| `UnlockMachine.ChargedTwiceIff` | internal/combat/handler.go:191-218 | with no statement failing and no income, some interleaving charges a style twice that the player lacks if and only if the player has 200 gold |
| `UnlockMachine.ChargedTimesIff` | internal/combat/handler.go:191-221 | over all runs without income, whatever fails, a paid style can be charged n times if and only if the player has 100 n gold |
| `Frame.EncodeFrame` | internal/protocol/codec.go:28-46 | the filled buffer is the envelope of the message, or nothing when it would be too large |
| `Frame.DecodeFrame` | internal/protocol/codec.go:48-66 | header checks in order, then the message with a copied body |
| `Frame.PutLittleEndian` | internal/protocol/codec.go:41-43 | the bytes at the offset become the number's, the rest of the buffer stays |
| `Frame.DecodeInvertsEncode` | internal/protocol/codec.go:28-66 | exactly the messages that fit can be encoded, and they decode to themselves |
| `Frame.EncodeInvertsDecode` | internal/protocol/codec.go:28-66 | every accepted byte string is the encoding of what it decodes to |
| `Frame.AcceptedIff` | internal/protocol/codec.go:48-58 | accepted are exactly the strings of 10 to 65536 bytes whose length field is their length; each refusal has its reason |
| `Frame.HeaderBytes` | internal/protocol/codec.go:41-44 | length, message id and seq stand in the header byte by byte, lowest first, and the body after it |
| `RankMember.ParseInvertsMember` | internal/rank/handler.go:147-157 | parsing a written member returns uid and nickname, for every int64 and every nickname, colons included |
| `RankMember.FirstColonDecides` | internal/rank/handler.go:147-157 | every string: the part before the first colon is the uid if it is an int64; otherwise the whole string is the nickname of player 0 |
| `RankMember.MembersAreDistinct` | internal/store/redis.go:129-137 | different players or nicknames never share a member |
| `RankMember.MemberExamples` | internal/store/redis.go:129-137 | what members look like, colons and negative ids included |
| `RankMember.ParseFormatInt` | internal/store/redis.go:129-131 | ParseInt inverts the decimal format of every int64, which contains no colon |
| `RankMember.ParsedIff` | internal/rank/handler.go:147-157 | exactly the digit strings with at most one sign whose value fits an int64 parse, to that value |
| `RateLimit.RedisStore.CheckRateLimit` | internal/store/redis.go:175-195 | the script on one key, expiry included, leaves every other key alone |
| `RateLimit.CounterCounts` | internal/store/redis.go:180-189 | over a timeline the counter counts the requests since its window opened and admits the first `limit` |
| `RateLimit.WindowAdmitsLimit` | internal/store/redis.go:180-189 | one counter window admits at most the limit |
| `RateLimit.IntervalAdmitsTwice` | internal/store/redis.go:175-195 | an interval as long as the counter lives admits at most twice the limit |
| `RateLimit.TwiceLimitIff` | internal/store/redis.go:190 | for windows of at least a second an interval as long as the configured window admits at most twice the limit if and only if the limit is at most one or the window is whole seconds (to one nanosecond): the cut-off fraction lets a third burst in |
| `RateLimit.SubSecondAdmitsAll` | internal/store/redis.go:182-190 | a window below one second limits nothing |
| `Login.LoginsIdentify` | internal/login/service.go:55-99 | for every interleaving of logins: one player per OpenID, and two successes have the same uid exactly when they were for the same identity |
| `Login.UninterruptedLogin` | internal/login/service.go:55-99 | a login that nobody interrupts returns, and stores in player and session, the generated token with uid and nickname of the identity's player, created under the next id if there was none |
| `Login.CreateDecides` | internal/store/memory_development.go:83-86 | the create call of a login succeeds exactly when nobody has the identity by then, storing an unnamed player under the next id, and refuses otherwise |
| `Login.BreakingOff` | internal/login/service.go:76-97 | a login that breaks off changes neither players nor sessions by that |
| `Login.RefusedOnlyByRace` | internal/login/service.go:62-86 | a refused login had looked its identity up when nobody had it, and the player it now has was created by another login for the same identity |
| `Login.LoginInvAlways` | internal/login/service.go:55-99 | every copy a login holds between its calls still belongs to its identity |
| `Pipeline.Hooks.ExecuteBefore` | internal/pipeline/pipeline.go:50-60 | the loop is the chain up to the first error |
| `Pipeline.Hooks.ExecuteAfter` | internal/pipeline/pipeline.go:63-69 | the loop is the fold over all after-hooks |
| `Pipeline.RunBeforeAppends` | internal/pipeline/pipeline.go:50-60 | a longer chain continues where a shorter one stopped unless that failed |
| `Pipeline.OneBeforeHook` | internal/pipeline/pipeline.go:50-60 | a chain of one hook is that hook, state, context, input and error |
| `Pipeline.OneAfterHook` | internal/pipeline/pipeline.go:63-69 | a chain of one after-hook is that hook |
| `Pipeline.RunAfterAppends` | internal/pipeline/pipeline.go:63-69 | after-hooks all run, each on what the one before left, errors included |
| `Kernel.Kernel.Register` | internal/kernel/kernel.go:51-73 | registration panics exactly on duplicates, unknown or mismatched routes and wrong types, changes nothing then, and keeps every response id canonical |
| `Kernel.Kernel.DispatchFrame` | internal/kernel/kernel.go:89-126 | the method is `Dispatch`: decode, hooks, handler, after-hooks, reply |
| `Kernel.DispatchAnswers` | internal/kernel/kernel.go:89-126 | malformed and seq-0 frames are fatal, touch nothing and get no reply; any other gets at most one, with its own seq and the registered or the error id |
| `Kernel.UnhandledReply` | internal/kernel/kernel.go:98-108 | an unregistered message id or an unacceptable body touches nothing and gets exactly error 10002 with its text |
| `Kernel.SilenceIff` | internal/kernel/kernel.go:89-132 | a frame that is not fatal goes unanswered exactly if its handler ran and handler and after-hooks left nothing |
| `Kernel.HandledReply` | internal/kernel/kernel.go:114-159 | response, silence, business code or internal code, each exactly when handler and after-hooks ended so |
| `Kernel.FailedHookCutsChain` | internal/kernel/kernel.go:109-113 | after a failing before-hook no later hook, handler or after-hook matters, and there is exactly one error reply |
| `Kernel.IdleHandlerHasNoPart` | internal/kernel/kernel.go:89-114 | a handler has no part in the outcome unless frame, route, payload and all hooks let Dispatch reach it |
| `Kernel.RewritesAreDiscarded` | internal/kernel/kernel.go:109 | a hook that returns a replacement of the input changes no outcome |
| `Kernel.HandlerGetsRewriteIff` | internal/kernel/kernel.go:109-114 | the handler is given the decoded message, and so what the hooks returned if and only if that is the message unchanged |
| `Kernel.StreamAnswers` | internal/transport/connection.go:175-192 | over every stream the replies answer non-fatal frames only, in order, at most one each |
| `Kernel.RepliesAreAnswers` | internal/transport/connection.go:175-192 | over every stream the replies are exactly what Dispatch answers to the live frames, one state after the other |
| `Kernel.NothingAfterFatal` | internal/transport/connection.go:189-191 | after a fatal frame nothing is dispatched |
| `Auth.AuthGuardsDispatch` | internal/hooks/hooks.go:37-64 | in front of any handler an unauthenticated or expired request changes nothing, is not counted and gets the one error reply |
| `Auth.LimitGuardsDispatch` | internal/hooks/hooks.go:72-94 | a request over the limit is counted under its session's uid, runs nothing else, and gets error 10003 |
| `Auth.ServerHooks` | cmd/server/main.go:137-138 | the server chain is authentication and then the limiter |
| `Auth.FrameStep` | internal/hooks/hooks.go:37-94 | Dispatch with these hooks counts a request under its own uid and runs a handler exactly when the frame is sound, its route registered, its body accepted, and the route auth-free or session and limiter agree about that uid |
| `Auth.LoginBinds` | internal/login/handler.go:53-57 | a successful login binds its own connection to the uid and no other; a failed one binds nothing |
| `Auth.BusyReaderWaits` | internal/transport/connection.go:175-192 | a reader in its login handler takes no other frame |
| `Auth.LoginOpensTheDoor` | internal/login/handler.go:38-65 | a login that nobody interrupts binds the connection to its player, and a sound request then runs under that uid, store and limiter permitting |
| `Auth.HandlersRunAuthenticated` | internal/hooks/hooks.go:37-64 | over every run of many connections whose frames go through Dispatch, a protected handler executes only after a successful login on the same connection, under the uid of its latest one, which is a player in the store |
| `Auth.AuthInvAlways` | internal/login/handler.go:53-57 | a session's uid, under which every handler runs, is always the one its last successful login bound, 0 before any |
| `Connection.Connection.Enqueue` | internal/transport/connection.go:114-126 | closed, then full, then appended at the end |
| `Connection.Connection.Stop` | internal/transport/connection.go:128-140 | only the first stop closes the done channel |
| `Connection.Connection.SendMessage` | internal/transport/connection.go:96-112 | too large or closed is reported, a full buffer drops the message silently |
| `Connection.LinkStaysSound` | internal/transport/connection.go:114-140 | the buffer stays within 256 and done is closed at most once; a frame is refused exactly when closed or full, closed first, and else appended |
| `Wire.WireInvAlways` | internal/transport/connection.go:157-222 | through every step of reader, writer, pushes and end: accepted frames are written, in hand or buffered, in order |
| `Wire.WhatReachesTheWire` | internal/transport/connection.go:88-222 | end to end: what is written is a prefix of what was accepted; every frame decodes to a message that was pushed, with seq 0, or to message id, seq and body of the reply Dispatch gave to a non-fatal request; answers in reading order, none twice |
| `Wire.WhatIsRead` | internal/transport/connection.go:175-192 | a waiting reader dispatches the next frame in the shared state and goes on, answers or ends as Dispatch says |
| `Wire.WhatIsAccepted` | internal/transport/connection.go:88-126 | an open connection with room takes every push and answer that fits a frame, as that message; anything else is dropped |
| `Wire.EverythingIsWritten` | internal/transport/connection.go:200-222 | a writer without failures gets everything accepted onto the socket |
| `Wire.WhatEnds` | internal/transport/connection.go:128-222 | a failing reader or writer stops the connection, and a waiting writer ends once it is stopped |
| `Wire.EndsOnlySo` | internal/transport/connection.go:128-222 | nothing else ends them: the reader ends at a failed read or a fatal frame, the writer at a failed write or a stop, the connection by an explicit stop or such a failure |
| `Wire.StateIsServed` | internal/transport/connection.go:175-192 | with nobody else touching the state, a connection leaves it as serving its stream does |
| `Hub.Hub.OnUnregister` | internal/transport/hub.go:79-87 | only a connection in the map is removed and stopped |
| `Hub.Hub.OnBroadcast` | internal/transport/hub.go:89-99 | every connection with room gets the frame, whatever the others do |
| `Hub.Hub.OnPushToUid` | internal/transport/hub.go:100-108 | exactly one connection of the player takes the frame, or none could |
| `Hub.Hub.OnCloseAll` | internal/transport/hub.go:113-120 | the map is empty and all its connections are stopped |
| `HubMachine.HubSafety` | internal/transport/hub.go:70-181 | after every run a connection whose Register returned true is in the map, stopped or being stopped; a finished hub has an empty map and all closed; the count is those connections minus effective removals until closing; done is closed at most once |
| `HubServes.MapIsFoldOfCalls` | internal/transport/hub.go:75-87 | until closing the map holds exactly the connections whose Register the hub took and no Unregister since |
| `HubServes.ServicesAreTaken` | internal/transport/hub.go:125-181 | the calls the hub took are exactly those not turned away |
| `HubServes.OnlineCountIsExact` | internal/transport/hub.go:170-181 | an answered OnlineCount is the number of connections registered and not unregistered since |
| `HubServes.UnregisterTakesOut` | internal/transport/hub.go:79-87 | a served Unregister takes the connection out of the map, and if it was there the hub stops it next |
| `HubServes.StoppingStops` | internal/transport/hub.go:82-83 | a hub about to stop a connection does nothing else before |
| `HubServes.BroadcastReachesAll` | internal/transport/hub.go:89-99 | a served broadcast offers its frame exactly once to each connection mapped then, whatever happens in between |
| `HubServes.PushStep` | internal/transport/hub.go:100-108 | a push gives its frame to the first connection it looks at that is the player's and has room, and to no other |
| `HubServes.PushAlways` | internal/transport/hub.go:100-108 | the push the hub is working on is always the one its caller asked for |
| `HubServes.FalseOnlyIfNobodyTakes` | internal/transport/hub.go:100-108 | a push answers false only after looking once at each connection mapped when it was served, each another player's, closed or full at that moment |
| `HubServes.CallsAsMade` | internal/transport/hub.go:125-205 | every call the hub sees was made by a caller with that request |
| `HubServes.Elsewhere` | internal/transport/connection.go:114-222 | a login binds, the writer takes the oldest frame, a failure stops |
| `HubMachine.PendingCallHasStep` | internal/transport/hub.go:125-205 | in every state every pending call, Shutdown included, has an enabled step, its own or the hub's |
| `HubMachine.HubStepsDecrease` | internal/transport/hub.go:89-120 | each step of the hub's own loops leaves it less to do |
| `HubMachine.HubFinishes` | internal/transport/hub.go:113-120 | once closeAll is closed the hub finishes by its own steps in a bounded number |
| `HubMachine.EveryCallReturns` | internal/transport/hub.go:125-205 | every call pending then can return |
| `HubProgress.EveryScheduleEnds` | internal/transport/hub.go:70-205 | on every schedule without new calls hub and callers make at most Load steps of progress, and once closeAll is closed no step being left means the hub is done and every call has returned |
| `HubStages.HubKeepsItsPart` | internal/transport/hub.go:70-205 | the hub goes from open through closing to done and never back; when Register may say yes and no; nothing leaves an open map unasked; done means empty and all stopped |
| `HubStages.LoopVisitsEachOnce` | internal/transport/hub.go:89-120 | a broadcast or closing loop, with any calls, drains, stops and logins in between, visits each mapped connection exactly once and no other |
| `HubStages.BroadcastOffersToAll` | internal/transport/hub.go:89-99 | with nothing in between, the broadcast loop in any order leaves what the contract of the method says |
| `HubStages.ClosingStopsAll` | internal/transport/hub.go:113-120 | with nothing in between, the closing loop in any order leaves what the contract of the method says |
| `ServerLifecycle.StoppedMeansStopped` | internal/transport/server.go:94-167 | in every interleaving of server, handlers, hub, hub callers and connections the wait group counts exactly reserved handlers and running connections; when Stopped every handler has ended, the hub is done and empty, every connection ever made is closed once, and starts and attempts are refused |
| `ServerLifecycle.LifeMovesForward` | internal/transport/server.go:62-167 | the state never moves back and from Stopping on the wait group never grows |
| `ServerLifecycle.StartsOnce` | internal/transport/server.go:72-85 | only the first Start is let through |
| `ServerServing.StartsAndAttempts` | internal/transport/server.go:72-85 | each Start is answered as the state says, and an attempt gets a place exactly while running |
| `ServerServing.AttemptIsServed` | internal/transport/server.go:94-130 | with an idle hub a running server gets an attempt served: new, open, mapped, counted |
| `ServerServing.RegisterDecides` | internal/transport/server.go:113-129 | a connection that was registered is served as it is, one that was not is stopped and its place given back |
| `ServerServing.ReaderUnregisters` | internal/transport/connection.go:157-163 | when the read loop ends the handler unregisters its own connection |
| `ServerServing.UnregisteredIsStopped` | internal/transport/connection.go:142-163 | whatever the hub answers, the connection is then stopped and the place given back |
| `ServerServing.ServedStaysOpen` | internal/transport/server.go:94-130 | as long as nothing fails and the hub is not closing, every connection being served is open, mapped and not being unregistered |
| `ServerServing.ShutdownInOrder` | internal/transport/server.go:141-167 | shutdown runs once, stage by stage, each ending only when what it waits for has happened |
| `ServerShutdown.AssuredStepsDecrease` | internal/transport/server.go:94-167 | every step of server, handlers, hub and callers that needs no help from outside brings shutdown closer |
| `ServerShutdown.ShutdownNotStuck` | internal/transport/server.go:141-167 | between its beginning and its end shutdown always has such a step |
| `ServerShutdown.ShutdownCompletes` | internal/transport/server.go:141-167 | such steps alone complete shutdown in a bounded number |
| `ServerShutdown.EveryScheduleStops` | internal/transport/server.go:94-167 | on every schedule without new outside calls of the hub at most Work such steps are made, whatever happens in between, and the server is Stopped when none is left or that many are made |

## Left out

- MySQL, Redis, Lua, HTTP, WebSocket and protobuf wire formats: only the table, lock, counter, queue and frame behaviour above is modelled.
- Timers, pings, deadlines and socket errors: a reader or writer may fail at any moment instead.
- Nil receivers, nil requests and nil sessions: every call is made on constructed objects, as the server does.
- Player fields avatar, best score and timestamps: no modelled operation reads them.
- Overflow of the in-memory store's next player id: ids are unbounded.
- Reflection in Register beyond the comparison of request and response types: a signature is a pair of type names.
- The canonical route table, the enemy table and the style texts: finite data; Kernel takes the routes as a parameter.
- RefreshSession, the token and nickname agreement of interleaved logins, and the OnClose callbacks: Login is several critical sections, and only identities are claimed.
- The legacy branch of CombatResult after settlement, the leaderboard update after it, SubmitScore and GetRank: they add no shared state to the modelled results.
- UpdatePlayerStats and SaveArchive against MySQL: client overwrites that break conservation on purpose.
- Payment, GM commands, configuration, logging, code exchange and token generation: single-branch or external.
- Economy.GoldIsConserved: sequential events whose statements do not fail; UnlockMachine.GoldIsConserved has every interleaving and failing statements, which the handler does not refund.
- UnlockMachine: a settlement is one step, since its row locks last to its end; the style table is the five known ids.
- Auth.HandlersRunAuthenticated: the login frame enters as an action of its own, since its route is auth-free and both hooks let it through; other handlers appear only in that they ran.
- Pipeline.Hooks: appending an after-hook, which the server never does; ExecuteAfter folds whatever the field holds.
- Agreement.SameHistoriesIff: calls by players in the players table with a survival time JSON can express, since the in-memory store checks neither.
- OverflowBound.NoOverflowBefore: a store whose marshaller fails may still answer with an encoding error.
- Wire.WhatReachesTheWire: a frame whose write fails counts as not written, although part of it may have left the socket.
- ServerShutdown.EveryScheduleStops: no timing; the 5 second limit on the HTTP shutdown and a handler that never answers are outside, an upgrade is taken to succeed or fail in the end.
- Kernel.HandlerGetsRewriteIff: hooks that write into the message in place, which no hook of the server does.
