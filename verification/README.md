# Verified model of bot-relay-mcp

A Dafny 4.11 project that models the state-keeping cores of bot-relay-mcp and proves what they promise, for all
inputs, all runs and all reachable states. `dafny verify dfyconfig.toml` checks all of it.

## What is modelled

**The doorbell** (`src/doorbell-core.ts`, `src/doorbell-log.ts`, `src/doorbell-run.ts`) is an event-sourced job. Each
cycle derives a ledger per agent from an append-only log, judges earlier rings, opens and closes escalations and board
cases, and may write one new ring per agent. The job may die between two records or inside a line, starts again from
the log, and compacts the log at a start.

- `DoorbellLog`, `DoorbellLedger`, `DoorbellPlan`, `DoorbellKeep`: records, what the log says of an agent (its
  *account*), one cycle's plan, and the keep rule, as functions. `DoorbellDerive`, `DoorbellPlanner`,
  `DoorbellCompactor`, `DoorbellJob` and `DoorbellTail` are the same operations as the code runs them, loops and
  objects updated in place, each proved equal to those functions.
- `DoorbellAccount`, `DoorbellReplay`, `DoorbellKept`, `DoorbellJudged`, `DoorbellNamed`, `DoorbellTable` and
  `DoorbellRinging` say what those functions come to without naming them: of the records of the log, the bindings, the
  watch and the pending mail.
- `DoorbellAdmit` says which records *fit* a history. That every record of a plan fits the log it joins
  (`DoorbellCycle.PlanFits`) is the invariant the results over runs rest on.
- `DoorbellRuns` is the state machine: a cycle that writes any prefix of its plan, a start that compacts, a header or
  clock record, and a change of the world (mail, sessions, bindings). `DoorbellHistory`, `DoorbellDeaf` and
  `DoorbellAwake` are results over its runs; `DoorbellSetback` and `DoorbellTailLost` build particular runs, of records
  the schema accepts, on which a property fails.
- `DoorbellBytes`, `DoorbellJob`, `DoorbellCrash`: the log as bytes, short writes, torn tails, recovery.
- `Canon` holds the canonical (sorted, duplicate-free) lists everything is written in; `Wrappers` optional values.

**Secondary cores**: the failed-auth throttle (`Throttle`), addresses and blocks (`Cidr`, `CidrFormat`, `CidrText`), the
backup extractor (`BackupTar`, `BackupTarFormat`, `BackupTarAccepts`), the symlink walk (`PlaceReal`, `PlaceTurns`), the
single-owner lock (`OwnerLock`, `OwnerLockKernel`, `OwnerLockTable`), authentication and its cache (`Auth`, `AuthRuns`,
`AuthChanges`, `AuthCache`), and the fleet judgement with its process classifier (`Fleet`, `FleetVerdicts`,
`FleetWindows`, `FleetLines`, `FleetDeploy`, `FleetClassify`, `FleetReadings`).

## What the proofs found

Where a documented or natural property is not what the code does, the model follows the code, a lemma gives a concrete
input, and another says exactly when the property holds.

- **The budget across two restarts** (`src/doorbell-core.ts:797-821`). A compaction keeps the rings that still count.
  A later start counts as many as it would have without that compaction, in every run, exactly when its wall clock is
  not behind the compacting start's, or one of the two starts sees a backward jump (`DoorbellBudget.ClockAllows`,
  `DoorbellSetback.BudgetExactly`). Otherwise a run loses rings (`DoorbellSetback.BudgetLost`): with the clock set back
  and, in between, a start that wrote its header, which hides it, and never got to compact.
- **"Dropped exactly once" for the owner lock** (`src/db-owner-lock.ts:244-293`). One process that takes the lock twice
  before it registers either, with the file removed in between, registers the second over the first; the first is then
  never closed by any release (`OwnerLock.StrandedReached`). A release closes exactly when its acquisition is the
  registered one and no other token counts on it (`OwnerLock.ReleaseDropsWhen`). At most one owner holds regardless.
- **Revalidation against a full authentication** (`src/db.ts:3122-3166`). Storing a verdict compares a second time; if
  that compare meets a full pool or the throttle, the new token's digest is written over the old token's. A call still
  acts on the old token while `authenticateAgent` refuses it (`AuthRuns.PutMaySpoil`). What a call acts on is live
  regardless (`AuthRuns.AuthorityHolds`); `AuthRuns.ActsAuthenticWhen` says exactly when full authentication agrees.
- **A recovery landing during a verify** is reported as a plain revoke (`Auth.RecoveryReportedAsRevoke`).
- **Node option readings** (`src/fleet-verdicts.ts:122-161`): the comment says quadratic at worst; each argument is read
  once, but the lists are joined without dropping repeats, so of `n` unlisted options there are Fibonacci-many
  (`FleetClassify.ReadingsPileUp`).
- **The evidence gate** (`src/fleet-verdicts.ts:213-224`) does not see a script given after `--` by an argument that
  itself begins with a dash (`FleetClassify.DashedScriptHidden`). Where nothing else in the arguments names the relay it
  sees a script exactly when its argument does not begin with one (`FleetClassify.GateExactly`).
- **The symlink walk** steps over `.` and `..` after a regular file, which pathname resolution refuses
  (`PlaceReal.DotAfterFile`); and it drops a trailing slash, which to resolution is a final dot
  (`PlaceReal.TrailingSlash`).
- **The tailer** (`src/doorbell-log.ts:849-914`) looks, drains, then opens what the path names by then. What a poll
  misses is exactly what replacements took away: intents of a file it never opened that were not kept and are not in the
  file it has open (`DoorbellTail.TailerMissesExactly`). With one replacement between two looks an intent is lost when
  that replacement lands between a poll's look and its switch (`DoorbellTailLost.LostWithinPoll`); with two, between
  polls (`DoorbellTailLost.LostBetweenPolls`). While only the file it has open is replaced it misses nothing, and one
  replacement between two looks, none of them during a poll, is enough for that (`DoorbellTail.UndisturbedIsOpen`).

## Assumptions about the world

The doorbell's runs assume what its code states: an id that has left pending for a session does not come back to it
(`src/doorbell-run.ts:398-400`), a reading session never returns and is one agent's (`src/doorbell-core.ts:275`), the
monotonic clock does not go back within a lifetime, and new ids are new. The watch and the actuator are inputs of a
cycle. Serialised records are injective and hold no newline. A password hash is its token and its salt, a digest its
key and its token.

## Model

| member | source | states |
|---|---|---|
| `DoorbellDerive.DeriveLedger` | src/doorbell-core.ts:191-236 | The one-pass loop over an agent's history yields the ledger the log stands for (counter, outstanding rings oldest first, open escalations with the extra-ring flag, newly left ids, ring counts and last rings) and what is left of other sessions. |
| `DoorbellDerive.HistoryAccount` | src/doorbell-core.ts:242-270 | The grouping by agent loses nothing: an agent's own history gives the account the whole log gives. |
| `DoorbellDerive.TallyRing` | src/doorbell-core.ts:216-221 | Tallying one ring id by id keeps rung memory, ring counts and last times those of all rings so far. |
| `DoorbellDerive.NoteExtraRing` | src/doorbell-core.ts:206-212 | The in-place pass marks exactly the open episode a ring during an escalation belongs to. |
| `DoorbellPlanner.EffectRecords` | src/doorbell-core.ts:489-498 | The chunked records together carry each ring id and each left id once, in canonical order, at most the cap per record. |
| `DoorbellPlanner.Planner.Rescue` | src/doorbell-core.ts:512-514 | A new session makes every old session's unjudged ring moot and closes its escalations, and nothing else. |
| `DoorbellPlanner.Planner.MarkProgress` | src/doorbell-core.ts:516-526 | Ids that left since the last record are recorded once, every outstanding ring is judged effective, the counter restarts. |
| `DoorbellPlanner.Planner.CloseEpisodes` | src/doorbell-core.ts:527-539 | Closes exactly the escalations whose episode or id has left. |
| `DoorbellPlanner.Planner.CutHorizon` | src/doorbell-core.ts:540-546 | Exactly the outstanding rings past the horizon are judged ineffective, each counted. |
| `DoorbellPlanner.Planner.CheckThreshold` | src/doorbell-core.ts:547-562 | Opens an escalation exactly when the counter is at the threshold, none is open and a rung id is still pending; which ids it names, `DoorbellNamed.NamedExactly` says. |
| `DoorbellPlanner.Planner.Judge` | src/doorbell-core.ts:504-564 | The in-place judgement appends the judgement's records, leaves its ledger, and holds when no session is bound. |
| `DoorbellPlanner.Planner.MoveBoard` | src/doorbell-core.ts:577-589 | Board records are written exactly when the agent's case or its reason changes: the old one closed, the new one opened. |
| `DoorbellPlanner.Planner.ReRing` | src/doorbell-core.ts:703-715 | Ids due again join the ring; ids at the cap are dropped, each with its one stuck record. |
| `DoorbellPlanner.Planner.Ring` | src/doorbell-core.ts:690-741 | The ring step's records are the specified ones: at most one intent, within budget and window. |
| `DoorbellPlanner.Planner.CheckBudget` | src/doorbell-core.ts:621-627 | A budget record is written exactly on a change, for an agent bound on this host with a session. |
| `DoorbellPlanner.Planner.Evaluate` | src/doorbell-core.ts:600-742 | One evaluated agent's records, board move and unknown-watch count are the specified ones; which case that is, `DoorbellTable.BoardExactly` says of the windows themselves. |
| `DoorbellPlanner.GroupByAgent` | src/doorbell-core.ts:566-574 | Each named agent's bindings, in order, and no other's. |
| `DoorbellPlanner.PlanCycle` | src/doorbell-core.ts:431-759 | The whole cycle run in place equals the specified plan, and leaves each agent's consecutive-unknown count as the next cycle needs it. |
| `DoorbellJudged.JudgedExactly` | src/doorbell-core.ts:504-564 | What a judgement writes, record kind by record kind, told of the rings, their judgements and the pending read: which effects, of what outcome and with which ids; which closes and why; which escalation is opened and on what. |
| `DoorbellNamed.NamedExactly` | src/doorbell-core.ts:552-560 | An `agent_unresponsive` that a plan opens names exactly the ids some ring of its session in the log covers that are still pending; of more than ten thousand, the first ten thousand in canonical order. |
| `DoorbellNamed.DrainCloses` | src/doorbell-core.ts:527-539 | Over every run: opened on all those ids, it is closed by the next judgement of the agent once any one of them has left the pending set of the same session, and is open no more. |
| `DoorbellTable.BoardExactly` | src/doorbell-core.ts:632-681 | For a candidate that was read, the case open after the cycle by its bindings, its session and its watch: ambiguous with two windows not shown dead here, none live, unbound, then by the watch live, stale, absent, blind or unknown; with the bindings, counts and reason of the record, and exactly the close and open records of a change. |
| `DoorbellTable.BoardKept` | src/doorbell-core.ts:605-631 | Every other agent's case stays, and no board record is written of it. |
| `DoorbellTable.DecisionExactly` | src/doorbell-core.ts:632-689 | The same table for the decision alone, with when it holds and that a ring arises in the actuated row only. |
| `DoorbellTable.TicksCount` | src/doorbell-core.ts:662-671 | Over any course of cycles an agent's count is the length of its current run of unknown readings: the fifth running says `cannot_observe`, and none before it. |
| `DoorbellRinging.RingExactly` | src/doorbell-core.ts:690-741 | The rings of a plan: none but in the one row that allows them; there, the intent's ids, kinds, time and episode flag, and the ids called stuck, as the account after the judgement, the rung memory and the earlier ring times give them. |
| `DoorbellRinging.BudgetExactly` | src/doorbell-core.ts:621-627 | A budget record is there exactly on a change for an agent with a session and a window on this host, and says how many rings its last hour has. |
| `DoorbellCycle.PlanFits` | src/doorbell-core.ts:431-759 | Whatever a cycle reads, each record of its plan is one the history before it admits. |
| `DoorbellCoherence.JudgeCoherent` | src/doorbell-core.ts:504-564 | The ledger the judgement returns is the one the log derives once its records are appended. |
| `DoorbellJudgement.JudgedIsReconciled` | src/doorbell-core.ts:504-564 | From any well-formed history, crashes included: after a judgement a counter at the threshold with a rung id pending has exactly one open escalation, one whose episode or id has left is closed, no overdue ring stays unjudged. |
| `DoorbellJudgement.StuckMeansProgress` | src/doorbell-core.ts:125-140 | An id is called stuck only if the session made recorded progress after a ring for it. |
| `DoorbellJudgement.DeafIsUnresponsive` | src/doorbell-core.ts:540-562 | From any well-formed history, crashes included: a session with a rung id pending, no progress since its first ring (of one id, or of all) and ESCALATE_AFTER such rings past the horizon has an open `agent_unresponsive` once it is judged. |
| `DoorbellDeaf.DeafIsEscalated` | src/doorbell-core.ts:125-140 | Over every run with crashes, restarts and compactions: an agent that drains nothing of its session has an open `agent_unresponsive` from its round ESCALATE_AFTER + 1 on (a whole cycle in which it may be rung, its earlier rings past the horizon), for good, and never a record of progress or of a stuck id. |
| `DoorbellDeaf.RoundTells` | src/doorbell-core.ts:690-741 | Each such round finds the escalation open, opens it after ESCALATE_AFTER rings, or rings once more. |
| `DoorbellDeaf.RoundPossible` | src/doorbell-run.ts:439-508 | In every state in which the agent has a session and mail, such a round is possible. |
| `DoorbellJudgement.StreakBound` | src/doorbell-core.ts:125-140 | With no progress since an id first rang, every judged ring for it is one of the ineffective run. |
| `DoorbellWf.AccountWf` | src/doorbell-core.ts:191-236 | On a well-formed log an account has distinct rings of its own agent and open escalations opened once. |
| `DoorbellAccount.AccountExactly` | src/doorbell-core.ts:191-236 | What a log says of an agent, told of its records: what was judged and recorded as left, the run of ineffective rings since the last progress, and each open escalation with its own ids and its extra ring's as its episode. |
| `DoorbellReplay.ReplayExactly` | src/doorbell-log.ts:601-618 | What replay leaves in memory, told of the log: ids rung, ring times, the last header, whose budget is spent, and the board cases nothing has closed. |
| `DoorbellCompactor.IntentKeepRule` | src/doorbell-core.ts:283-325 | The loops of the keep rule give exactly the ids its six clauses name. |
| `DoorbellCompactor.KeptRecords` | src/doorbell-log.ts:742-764 | The kept records, in order and unchanged, of every type. |
| `DoorbellKept.KeptExactly` | src/doorbell-log.ts:742-764 | A compaction writes, unchanged and in order, exactly the records that matter: a ring for one of six reasons told of the log; an effect with a ring or id it concerns, or in the current run; escalations and board cases still open; last budget states; five headers; sixteen clocks. |
| `DoorbellKept.PlacedExactly` | src/doorbell-core.ts:797-821 | Where an earlier lifetime's ring lies on this one's clock, and that it counts exactly within the hour or where the clock was set back. |
| `DoorbellCompactor.StateDir.CompactLog` | src/doorbell-log.ts:725-805 | The log is replaced whole by the kept records' lines, or, on any failed write, sync or crash before the rename, is untouched. |
| `DoorbellCompaction.CompactionInvisible` | src/doorbell-core.ts:283-325 | For an agent bound at the compaction, the compacted log says of counter, outstanding rings, open escalations with episode and extra ring, newly left ids, and (for pending ids) rung memory, counts and last rings what the full log says. |
| `DoorbellCompaction.CompactionInvisibleNew` | src/doorbell-core.ts:275-277 | So it does for a session the log knows nothing of, whatever was pending. |
| `DoorbellCompaction.PickRings` | src/doorbell-log.ts:752-764 | The rings of a compacted log are the kept ones, in order. |
| `DoorbellCompaction.PickJudged` | src/doorbell-log.ts:818-840 | Whether a kept ring is judged is the same in the compacted log. |
| `DoorbellCompaction.PickStreak` | src/doorbell-log.ts:818-840 | The current session's ineffective run is kept whole. |
| `DoorbellCompaction.ExtraIsKept` | src/doorbell-core.ts:300-325 | The extra ring of an escalation still open is kept. |
| `DoorbellCompaction.PickOpen` | src/doorbell-log.ts:752-764 | The open escalations, with their extra-ring flag, are the same. |
| `DoorbellRestart.NextPlanSame` | src/doorbell-run.ts:404-421 | The plan made from the compacted log and the memory replayed from it is the full log's plan, record for record. |
| `DoorbellRestart.CompactedState` | src/doorbell-log.ts:725-805 | Board states, budget states and the last header come out of a compaction unchanged. |
| `DoorbellRuns.RunSafety` | src/doorbell-core.ts:504-741 | Over every run with crashes, restarts and compactions: each ring is named by at most one effect record, each (session, id) is rung at most the cap, each escalation opens once and closes at most once. |
| `DoorbellRuns.ReachableCompaction` | src/doorbell-run.ts:404-421 | In any reachable state a compaction does not change the next plan, even after the world has moved on. |
| `DoorbellHistory.CompactionsInvisible` | src/doorbell-run.ts:404-421 | At every point of every run, however many compactions it has had, what a cycle plans from the log is what it would plan from every record ever written. |
| `DoorbellHistory.CompactionFree` | src/doorbell-run.ts:404-421 | Every history a run with compactions writes is written by a run without any, in the same world. |
| `DoorbellRuns.ReachableJudgement` | src/doorbell-core.ts:504-564 | In every reachable state a judgement reconciles, calls an agent unresponsive once ESCALATE_AFTER rings without progress are past the horizon, and calls an id stuck only after recorded progress. |
| `DoorbellRuns.StepKeeps` | src/doorbell-run.ts:345-508 | Every step of a run keeps the invariant. |
| `DoorbellRuns.ReachableReady` | src/doorbell-run.ts:452-484 | What a cycle reads in a reachable state agrees with its log. |
| `DoorbellIds.PlanIds` | src/doorbell-core.ts:478-498 | The id the k-th record brings is the k-th of the supply: no id is used twice in a plan. |
| `DoorbellBudget.PlanFair` | src/doorbell-core.ts:719-726 | Any prefix of a plan holds at most one ring of an agent, allowed by budget and window. |
| `DoorbellBudget.LifetimePaced` | src/doorbell-core.ts:719-726 | In a lifetime, from any start, each ring is at least the window after the earlier ones and within the budget of its hour. |
| `DoorbellBudget.AnyHour` | src/doorbell-core.ts:621-627 | Any hour of the monotonic clock holds at most the budget of a lifetime's own rings. |
| `DoorbellBudget.BudgetSurvives` | src/doorbell-core.ts:797-821 | After a compaction and any later rings, a later start counts as many rings, up to the budget, as from the full log, whenever the clocks allow. |
| `DoorbellBudget.NextStartCounts` | src/doorbell-core.ts:808-821 | The start right after a compacting one always qualifies, even with the wall clock gone back. |
| `DoorbellSetback.BudgetExactly` | src/doorbell-core.ts:797-821 | Over all runs of schema-valid records that end with a compacting start and a later header: the next start counts as many rings of every agent as without that compaction, exactly when the clocks allow it. |
| `DoorbellSetback.BudgetLost` | src/doorbell-core.ts:797-821 | Whenever they do not, there is such a run, from an empty log, that loses rings. |
| `DoorbellSetback.OneRing` | src/doorbell-core.ts:431-759 | The whole plan for one agent with one live window and one new message, its earlier one drained: that the earlier ring was effective, and one ring. |
| `DoorbellSchema.PlanOk` | src/doorbell-log.ts:283-409 | From well-formed inputs, with UUIDs for the ids it draws, every record of a plan passes the closed schema: canonical sets, the id cap, kinds aligned with ids, binding counts by case, close reasons. |
| `DoorbellFold.NextFollows` | src/doorbell-log.ts:601-617 | What the next cycle reads of an agent follows from the agent's own part of the plan. |
| `DoorbellCalm.JudgedCalm` | src/doorbell-core.ts:504-564 | A judgement leaves nothing more to judge on the same input. |
| `DoorbellQuiescence.AgentSettles` | src/doorbell-core.ts:600-742 | After its whole part of a plan an agent is at rest. |
| `DoorbellRest.Quiescence` | src/doorbell-core.ts:431-759 | On unchanged inputs with no watch unknown, the second cycle writes at most a budget change of an agent the first rang, and the third nothing. |
| `DoorbellAwake.ReachableQuiescence` | src/doorbell-core.ts:431-759 | So from every state of a run whose agents' unjudged rings fit one record. |
| `DoorbellJob.LogState.FoldRecord` | src/doorbell-log.ts:601-617 | The reducer moves the in-memory state as the log's replay does. |
| `DoorbellJob.LogFile.AppendRecord` | src/doorbell-log.ts:559-577 | For any sequence of short, zero or missing writes: the whole line is durable, or some first part of it is and the caller is told. |
| `DoorbellJob.LogFile.OpenLog` | src/doorbell-log.ts:495-536 | A log whose complete lines are valid is cut to them and rebuilt; any other is refused untouched. |
| `DoorbellJob.Job.Write` | src/doorbell-run.ts:345-349 | Durable first, then the reducer: memory never runs ahead of the file. |
| `DoorbellJob.Job.WriteAll` | src/doorbell-run.ts:490-507 | A plan's records in order, stopping at the first not durable: memory holds exactly those written. |
| `DoorbellJob.PlaceIntents` | src/doorbell-run.ts:340-344 | Every earlier lifetime's intent is placed once on this lifetime's clock. |
| `DoorbellJob.CrashRecovers` | src/doorbell-log.ts:495-577 | After a crash at any byte of a run of appends, opening reads exactly the records whose whole line is there. |
| `DoorbellBytes.CutAnywhere` | src/doorbell-log.ts:495-536 | A log cut at any byte reads as the records whole in it, and the bytes kept are exactly theirs. |
| `DoorbellCrash.RunCycle` | src/doorbell-run.ts:439-508 | A cycle plans on what the job holds and writes ahead; what it leaves is a prefix of the plan. |
| `DoorbellCrash.CrashIsCycleStep` | src/doorbell-run.ts:490-507 | A crash at any byte of that writing is the crash step of a run. |
| `DoorbellTail.TailerMissesExactly` | src/doorbell-log.ts:849-914 | Over every interleaving of appends, replacements and polls, with any number of replacements at any moment: no intent twice, and what a finished poll has not yielded of what was due when it looked is exactly what replacements took away. |
| `DoorbellTail.TailerMissesNothing` | src/doorbell-log.ts:849-914 | While every replaced file is the one the tailer has open, a finished poll has yielded every intent due when it looked. |
| `DoorbellTail.UndisturbedIsOpen` | src/doorbell-log.ts:888-908 | With at most one replacement between two looks, and none between a look and the end of its poll, only the open file is ever replaced. |
| `DoorbellTailLost.LostWithinPoll` | src/doorbell-log.ts:888-908 | A run with at most one replacement between two looks, each the compaction of the valid log the path named, in which a finished poll has missed an intent: the second lands between look and switch and drops a judged ring an hour old. |
| `DoorbellTailLost.LostBetweenPolls` | src/doorbell-log.ts:888-908 | Such a run with every replacement between polls, two of them between two looks. |
| `DoorbellTail.LogTailer.DrainFile` | src/doorbell-log.ts:868-886 | Reads to the end: each new intent of a whole line once, the unterminated rest kept. |
| `DoorbellTail.LogTailer.Poll` | src/doorbell-log.ts:888-908 | A poll is a look, a drain, and on a replacement a switch and a second drain. |
| `Throttle.KeysApart` | src/auth-throttle.ts:42-44 | Name, scan and mint keys never collide, for sources free of the two separators. |
| `Throttle.OthersUntouched` | src/auth-throttle.ts:46-58 | A take or refund changes no other bucket but the one evicted. |
| `Throttle.ThrottleBound` | src/auth-throttle.ts:41-106 | From a bucket's first use, unevicted and with times not going back: tokens stay in range, and takes less refunds are at most the burst plus elapsed time over the refill time. |
| `Throttle.IdleGrants` | src/auth-throttle.ts:46-73 | A bucket left alone long enough grants again: the bound is met. |
| `Throttle.AuthThrottle.Touch` | src/auth-throttle.ts:46-58 | The table in place: refilled, put last, the oldest evicted when full. |
| `Throttle.AuthThrottle.Reserve` | src/auth-throttle.ts:67-73 | Check and reservation are one step. |
| `Throttle.AuthThrottle.GiveBack` | src/auth-throttle.ts:75-79 | A refund never goes over the burst. |
| `Throttle.TakeExactly` | src/auth-throttle.ts:46-73 | A known key is granted exactly when its tokens and the time since make one, a token for 2 s, or 5 s for a scan. |
| `Throttle.BurstExactly` | src/auth-throttle.ts:67-106 | At one instant a new key is granted five attempts or three scans, and no more. |
| `Throttle.GivenBack` | src/auth-throttle.ts:75-79 | A granted attempt given back at the same instant leaves the table as the touch left it. |
| `Throttle.PairsGranted` | src/auth-throttle.ts:67-79 | However many attempts are made, one whose compares all succeed is never refused. |
| `Throttle.KeysExactly` | src/auth-throttle.ts:46-58 | Which keys have buckets after an operation, the least recent of ten thousand making room for a new one. |
| `Cidr.Ipv6Bytes` | src/cidr.ts:45-72 | The in-place parse accepts exactly the grammar's texts and writes their sixteen bytes. |
| `Cidr.CidrContains` | src/cidr.ts:127-136 | Inside exactly when the family is the same and the first `prefix` bits agree. |
| `CidrText.IpExactly` | src/cidr.ts:45-103 | Which texts name an address: dotted decimal, or any spelling of eight groups, their compression and an embedded dotted tail, mapped addresses being IPv4 and deprecated ones none. |
| `CidrText.BareBlock` | src/cidr.ts:105-125 | A literal, with white space and one bracket pair around it or not, is the block of that address alone; a text that is none is refused. |
| `CidrText.PrefixedBlock` | src/cidr.ts:105-125 | With a slash and a prefix: refused exactly when the literal is, or the prefix is not one to three digits, or exceeds 32 or 128; otherwise it contains exactly the addresses whose first bits agree, families and mapped forms included. |
| `CidrText.BlockSpelled` | src/cidr.ts:105-125 | Every text that is taken for a block is of that form. |
| `Cidr.MappedBlock` | src/cidr.ts:105-125 | A text that names a mapped block of prefix 96 or more is taken for an IPv4 block, which contains exactly those addresses whose 128-bit form lies in the block as written (section 2.5.5.2 of RFC 4291); what the text itself means, `CidrText.PrefixedBlock` says. |
| `CidrFormat.FormatIp` | src/cidr.ts:138-160 | The loops write the canonical text (section 4.2 of RFC 5952): lower-case groups without leading zeros, the longest first run of zeros compressed. |
| `CidrFormat.FormatUnique` | src/cidr.ts:138-160 | An address has one canonical text. |
| `CidrFormat.FormatRoundTrip` | src/cidr.ts:94-160 | Parsing the text of any address gives the address back. |
| `CidrFormat.SameAddressSameText` | src/cidr.ts:94-160 | Two texts of one address format alike, two addresses never do. |
| `BackupTar.ExtractTiles` | src/backup-archive.ts:183-261 | Of any accepted bytes, headers, data, block padding and the zero trailer tile the file with no gap or overlap, and the extracted names are distinct. |
| `BackupTar.WalkTiles` | src/backup-archive.ts:183-261 | So from any block on, whatever was met before. |
| `BackupTarFormat.HeaderSums` | src/backup-archive.ts:120-126 | The two running sums are the unsigned and signed checksums with the field blanked. |
| `BackupTarFormat.CheckPaxRecords` | src/backup-archive.ts:140-158 | Accepts exactly a body that whole, allowed records fill. |
| `BackupTarAccepts.HeaderExactly` | src/backup-archive.ts:102-138 | A header is accepted exactly when it says what is read: its checksum stored is one of the two sums with the field blanked, one of the two magics, no prefix, and the name, type and size of its fields. |
| `BackupTarAccepts.PaxExactly` | src/backup-archive.ts:140-158 | A pax header passes exactly when it is records one after another, each as long as it says, of an allowed key. |
| `BackupTarAccepts.ExtractExactly` | src/backup-archive.ts:183-261 | Accepted are exactly the files that are members, AppleDoubles and pax headers one behind another, as they may stand, and a trailer of two zero blocks or more; and the members and skipped names are theirs, in order. |
| `BackupTarFormat.ExtractBackupTar` | src/backup-archive.ts:183-261 | The extraction loop gives the specified members or the specified refusal, for arbitrary bytes. |
| `BackupTarFormat.HeaderBack` | src/backup-archive.ts:102-137 | A header laid down by a ustar writer parses back to its name and size. |
| `BackupTarFormat.ArchiveRoundTrip` | src/backup-archive.ts:183-261 | Any distinct expected members within their caps, archived in the ustar format with any free fields, come back exactly. |
| `PlaceReal.PlaceRealPath` | src/approved-roots.ts:219-293 | The loop terminates, gives the specified place, and records the entries it met, in order. |
| `PlaceTurns.PlaceExactly` | src/approved-roots.ts:219-293 | A path is placed where its run of turns ends, told of the file system: dots by what is entered, symlinks from the directory they are in or the root, forty at most, a missing tail without its dots; and the entries recorded are those of that run. |
| `PlaceReal.KernelAgrees` | src/approved-roots.ts:219-293 | Whenever pathname resolution (section 4.13 of POSIX.1-2017, Base Definitions) succeeds within 40 links, the result is that path, existing. |
| `PlaceReal.PlaceExists` | src/approved-roots.ts:219-293 | It says a path exists exactly when resolution that steps over a dot after a file succeeds, and to the same place. |
| `PlaceReal.DotAfterFile` | src/approved-roots.ts:234-240 | A dot after a file tells the two apart. |
| `PlaceReal.TrailingSlash` | src/approved-roots.ts:230-234 | Whatever the path, the walk places it with a trailing slash, a final dot to resolution, as without: after a file, the case above. |
| `PlaceReal.PlaceIsReal` | src/approved-roots.ts:219-293 | An existing result is free of symlinks, and placing it again is the identity. |
| `PlaceReal.AbsentThenCreated` | src/approved-roots.ts:268-293 | A missing path, once created where the result says, exists there. |
| `PlaceReal.CheckContainment` | src/approved-roots.ts:298-314 | Accepts exactly a placed path under one of the roots. |
| `PlaceReal.ContainmentIsReal` | src/approved-roots.ts:168-175 | A path that resolves is contained exactly when the place it resolves to is the root or inside it. |
| `OwnerLock.OneOwner` | src/db-owner-lock.ts:258-275 | In every reachable state of any number of processes, the file removed or replaced at any moment, at most one process can pass the check before a write. |
| `OwnerLockKernel.LocksExactly` | src/db-owner-lock.ts:246-275 | In every reachable state the kernel has exactly the locks of live acquisitions and of locks in hand: none outlives a drop, a lock let go of, or its process, and none is taken from under its holder. |
| `OwnerLock.CountedExactly` | src/db-owner-lock.ts:277-293 | A registered acquisition counts exactly its unreleased tokens and is dropped when the last one goes. |
| `OwnerLock.ReleaseDropsWhen` | src/db-owner-lock.ts:281-287 | A release closes its acquisition exactly when it is the registered one and no other token counts on it. |
| `OwnerLock.StaleTokenHarmless` | src/db-owner-lock.ts:281-292 | A token of a dropped or replaced acquisition changes nothing but itself and passes no check. |
| `OwnerLock.DroppedOnce` | src/db-owner-lock.ts:246-275 | A drop is never undone, and only a last release, a file gone from its name or a failed cleanup drops. |
| `OwnerLock.OverwrittenNeverDropped` | src/db-owner-lock.ts:541-542 | An acquisition registered over is never dropped while its process lives. |
| `OwnerLock.CleanStaysRegistered` | src/db-owner-lock.ts:515-563 | As long as none is registered over another, every live acquisition stays registered. |
| `OwnerLock.StrandedReached` | src/db-owner-lock.ts:515-563 | A registration over another is reached by one process and one removed file. |
| `OwnerLock.StepInv` | src/db-owner-lock.ts:408-563 | Every step keeps the kernel's lock behind every live acquisition. |
| `OwnerLockTable.Table.DropEntry` | src/db-owner-lock.ts:246-255 | In place: forgotten if registered, its file closed once. |
| `OwnerLockTable.Table.Release` | src/db-owner-lock.ts:281-287 | In place it performs the release step for the token's key, and leaves every other key's books. |
| `OwnerLockTable.Table.AssertIntact` | src/db-owner-lock.ts:258-275 | Passes exactly when the model's check does; a file gone from its name drops the acquisition for every holder. |
| `OwnerLockTable.Table.Register` | src/db-owner-lock.ts:541-551 | Registers with a first token, or on a failed cleanup keeps neither entry nor lock. |
| `OwnerLockTable.Table.Acquire` | src/db-owner-lock.ts:515-563 | For any course of turns the retry loop reuses, registers, fails clean or refuses as its turns say, and every file it does not keep is closed. |
| `Auth.RecoveryReportedAsRevoke` | src/authorize-token.ts:61-62 | A recovery that lands during the verify is reported as a revoke; `Auth.DeniedExactly` says when each refusal is given. |
| `Auth.AuthorizedExactly` | src/authorize-token.ts:40-70 | With every compare made it authorizes exactly when a column of the row read admits and proves the token, and the later row, unrevoked, still has that column's hash and admits by it; the verdict names that agent, column and hash, with the capabilities of the row read. |
| `Auth.DeniedExactly` | src/authorize-token.ts:40-62 | Each refusal exactly, by the row read and by what landed during the verify. |
| `AuthChanges.RotationExactly` | src/db.ts:5236-5310 | A rotation into a grace window admits the new token, the one it replaced until the deadline, and no older one. |
| `AuthChanges.NewTokenExactly` | src/db.ts:2783-2812 | A registration, a rotation with no window, a mint or a recovery leaves the new token alone, and touches no other row. |
| `AuthRuns.AuthorityHolds` | src/auth-verdict.ts:81-121 | Over every run, with rotations, revokes, recoveries, removals and cached verdicts of any age: a call that acts holds a token live on its agent's row, unrevoked, with the capability. |
| `AuthRuns.ActsIsAuthentic` | src/authorize-token.ts:12-23 | If every second compare is made, a full authentication on that row accepts it too. |
| `AuthRuns.ActsAuthenticWhen` | src/token-lookup.ts:172-184 | In any run, exactly when it does. |
| `AuthRuns.PutMaySpoil` | src/db.ts:3122-3166 | A second compare that meets a full pool leads to a run where it does not. |
| `AuthRuns.StepInv` | src/db.ts:2783-2812 | Every mutation, verify, store and heal keeps each verdict's evidence. |
| `AuthCache.Cache.Get` | src/auth-cache.ts:72-84 | A hit moves its key last; a stale or expired one is dropped and not served. |
| `AuthCache.Cache.Set` | src/auth-cache.ts:91-104 | Stored last, the oldest dropped over capacity. |
| `AuthCache.ServedIsLastPut` | src/auth-cache.ts:72-104 | After any calls a hit is the very verdict stored last under that key, under the generation asked for and before its deadline. |
| `AuthCache.RecentSurvives` | src/auth-cache.ts:55-57 | A verdict outlives any calls that touch fewer other keys than the cache may hold. |
| `AuthCache.RecentServed` | src/auth-cache.ts:72-104 | Over any calls on fewer than a thousand other keys the verdict stored last is served exactly under its generation and before its deadline; and never are more than a thousand held. |
| `Fleet.WorstIsMax` | src/fleet-verdicts.ts:48-50 | The worst is one of them and none is worse. |
| `Fleet.NoneMissed` | src/fleet-verdicts.ts:571-638 | A key has an entry exactly when a row has it or a process has it that is not known to be no relay, and one only. |
| `Fleet.CurrentMeansInstalled` | src/fleet-verdicts.ts:362-376 | A current entry rests on an observable live row whose code and dependencies are the installed ones; each verdict exactly is in `FleetVerdicts.RowVerdict`. |
| `FleetVerdicts.RowVerdict` | src/fleet-verdicts.ts:362-376 | Each live row has one entry, inconsistent exactly where the install is, else unknown exactly for an unbuilt or unidentified side, else current or stale as code and dependencies are equal or one differs. |
| `FleetVerdicts.OthersUnknown` | src/fleet-verdicts.ts:593-638 | Every other entry is unknown: a row that cannot be observed, or a process without a row. |
| `FleetLines.SuspectExactly` | src/fleet-verdicts.ts:610-638 | A process without a row has an entry exactly when it is not known to be no relay, any process while the listeners cannot be read; it is shown as a connector only when classified as one. |
| `FleetVerdicts.RowNamesWindow` | src/fleet-verdicts.ts:520-592 | A row is shown under the window it names, or else under the nearest bound ancestor of its process, sixty-four steps up at most. |
| `FleetVerdicts.DaemonExactly` | src/fleet-verdicts.ts:694-722 | The daemon's line: the same comparison for the first listener that runs a relay install, and unknown in every other case. |
| `FleetVerdicts.FailingCounted` | src/fleet-verdicts.ts:725-729 | What counts as failing: each connector not current, each window without one, and the daemon. |
| `FleetWindows.BuildEntries` | src/fleet-verdicts.ts:571-638 | The three passes over the map give the specified entries. |
| `FleetWindows.Descend` | src/fleet-verdicts.ts:655-668 | The walk ends, cycles and all, having found every entry of a process transitively below the window and no other. |
| `FleetWindows.JudgeWindow` | src/fleet-verdicts.ts:640-691 | The line of a window is the worst over exactly the entries it owns, each once. |
| `FleetLines.WindowExactly` | src/fleet-verdicts.ts:640-691 | A window's line told of the process table: seen at the very UTC start it was bound at, it owns what is shown under it or runs below it; inconsistent before unknown before stale before current of those, and with none no connector if it is seen, unknown if not. |
| `FleetWindows.NoConnectorExactly` | src/fleet-verdicts.ts:640-691 | No connector is said exactly on positive absence: the descendants could be enumerated, every one is known to be no relay and has no row, and no entry names the window. |
| `FleetWindows.JudgeFleet` | src/fleet-verdicts.ts:509-731 | The judgement of a snapshot, with how many do not pass. |
| `FleetDeploy.AbsentIsUnnamed` | src/fleet-verdicts.ts:571-609 | On positive absence no row names the window as its parent. |
| `FleetDeploy.PassExactly` | src/fleet-verdicts.ts:914-937 | The check passes exactly when two verifiable looks agree and in each everything is current and every window has a connector. |
| `FleetVerdicts.InstallsPass` | src/fleet-verdicts.ts:914-937 | It passes exactly when both looks find a healthy host, told of installs, rows, windows and the daemon without a verdict, and agree: so a host all of which runs what is installed passes, and no other. |
| `FleetVerdicts.CannotVerifyExactly` | src/fleet-verdicts.ts:876-931 | Nothing is said exactly when a source is unread, the daemon has no identity, or the looks differ. |
| `FleetDeploy.RowsRunInstalled` | src/fleet-verdicts.ts:571-592 | Then each live row runs what is installed where it came from. |
| `FleetClassify.ReadingsExactly` | src/fleet-verdicts.ts:131-161 | The readings are exactly those in which some unlisted options take the next argument and the others do not. |
| `FleetReadings.ReadExactly` | src/fleet-verdicts.ts:131-161 | The readings told of the arguments: option after option, by one or by two as node's tables and an attached value say, an unlisted one by either, to the script, the end, or an option that runs none. |
| `FleetClassify.Reader.ReadAt` | src/fleet-verdicts.ts:132-154 | The memoised recursion gives the readings from each argument. |
| `FleetClassify.ReadNodeOptions` | src/fleet-verdicts.ts:131-161 | Each reading once, none lost. |
| `FleetClassify.ReadingsPileUp` | src/fleet-verdicts.ts:122-161 | Of unlisted options alone the list before that doubles with every two, though all say the same. |
| `FleetClassify.RelayEvidence` | src/fleet-verdicts.ts:227-259 | Evidence exactly when a span is the entrypoint's file or cannot be ruled out, or is of its shape, lost, and shares no argument with another file. |
| `FleetReadings.EvidentExactly` | src/fleet-verdicts.ts:213-259 | The gate told of the texts of the arguments: some file among them cannot be ruled out as the relay's entrypoint, or an entrypoint's name leads nowhere and shares no argument with another file's. |
| `FleetClassify.ClassifyProcess` | src/fleet-verdicts.ts:287-332 | No relay exactly for a listener, a process not node, or one without evidence; a connector exactly when every reading finds the same script. |
| `FleetReadings.ScriptExactly` | src/fleet-verdicts.ts:169-211 | What a script is taken for is what its file is: the relay's entrypoint, another program, or nothing that can be told; joined arguments are the one file among their joined texts. |
| `FleetReadings.ConnectorExactly` | src/fleet-verdicts.ts:287-332 | What it takes to be said to be a connector: every such reading finds that one entrypoint. |
| `FleetClassify.GateSeesScript` | src/fleet-verdicts.ts:213-225 | The gate never hides a script a reading finds in an existing file, unless its argument begins with a dash. |
| `FleetClassify.GateExactly` | src/fleet-verdicts.ts:213-259 | Whatever the arguments, where nothing else in them names the relay the gate sees such a script exactly when its argument does not begin with a dash. |
| `FleetClassify.DashedScriptHidden` | src/fleet-verdicts.ts:227-234 | Of the two arguments `--` and a dashed script without an equals sign, the only reading is that script, and the gate sees nothing, whatever file it is. |

## Left out

- Text: characters are UTF-16 code units; the log's serialisation is an injective function to bytes without a newline, and JSON key-exactness and the header's nested objects are left to the types.
- Doorbell: rung keys are pairs rather than joined text; the skip list, the not-evaluated list and reason wording are not modelled; the absent-ledger case of `planCycle`, which only tests use, is not; one cycle reads pending mail as one snapshot; `stuck` stays a list.
- Doorbell effect batches: a session with more unjudged rings than one record holds is excluded from `ReachableQuiescence` only.
- DoorbellAwake.ReachableQuiescence: assumes no session ever has a full record of unjudged rings, because a record then names only some of them and a later cycle goes on.
- DoorbellTail.TailerMissesExactly: excludes truncation of a torn tail under the reader.
- DoorbellTail.TailerMissesNothing: for runs in which only the file the tailer has open is replaced; for all others `DoorbellTail.TailerMissesExactly` says what is missed.
- DoorbellTail.LogTailer.DrainFile: joins the waiting part and the new bytes as bytes; the source turns each read into text first, so a character outside ASCII whose bytes are split between two reads comes out garbled there.
- DoorbellSetback.BudgetExactly: starts at wall times from 1970 on and a budget within the tunables; `DoorbellBudget.BudgetSurvives` has neither bound.
- Heartbeat, systemd notification, sleep and wake of the doorbell's loop, and its command line are not modelled.
- Throttle: token counts are real numbers, not floating point.
- CIDR: the platform's IPv4 and IPv6 tests are the grammars, trimming is of the language's white space.
- Tar: decompression and file writes are not modelled; the file is its bytes.
- PlaceReal: POSIX paths on a static file system; Windows paths, case-insensitive volumes (where the real path may differ in case), ownership and mode rules are not modelled.
- OwnerLock: one key; opening and locking are two steps for every platform; named pipes, network file systems and leftover-link removal are not modelled. In `OwnerLockTable.Table.Acquire` nothing else of the same process runs during a wait; `OwnerLock` has those interleavings.
- Auth: refusal wording is not modelled, and with it that a name containing a state's word is reported by that word; capabilities are a list or unreadable; the registration path's own verdict follows the same two functions and is not a separate step.
- AuthRuns: rows start empty or are registered with any digest of their own token, so rows from older versions are covered; a stored hash is never empty text.
- Fleet: classification of a process is an input of `Fleet`, proved in `FleetClassify`; agent names, warnings, build descriptions and display order are not modelled; signatures are compared as multisets.
- FleetClassify: path shape, the install's package and node's option table are given; reason text is not modelled.
- The dashboard, HTTP and MCP wiring, SQLite, encryption, fleet system reads, the agent state machine and binding judgements would add only wiring or short branch tables.
