# Verification of NotifyMatrix's alarm engine

NotifyMatrix watches an installation and pages people about it. This project
models, in Dafny, the parts whose failure would be silent: how an incident is
escalated, acknowledged and closed while several writers race for its row; the
protocol by which paired products report to it; the limiters that guard both;
and live reconfiguration. Instants and durations are integers counting
nanoseconds, and a nullable time is an option.

Check everything with `dafny verify dfyconfig.toml`.

## How it is laid out

| file | what it holds |
|---|---|
| `base.dfy`, `arith.dfy`, `text.dfy` | shared vocabulary, division by an interval, white space and case |
| `incident.dfy`, `history.dfy`, `dedup.dfy`, `store.dfy` | the incident row and its mutators, the row as a summary of its history, dedup keys, the compare-and-swap table |
| `policy.dfy`, `quiet.dfy`, `ladders.dfy` | escalation ladders, the quiet window, narrowing ladders to the channels that exist |
| `cas.dfy`, `scheduler.dfy`, `ackhandler.dfy` | the writers' loop, the scheduler's pass, the acknowledgement endpoint |
| `planned.dfy` | what a pass does with an incident, told by the incident's own fields |
| `engine.dfy` | all writers at once, as a step system |
| `races.dfy`, `acksonce.dfy`, `answeredtwice.dfy`, `honesty.dfy`, `critical.dfy`, `alertbound.dfy`, `onepass.dfy` | what every run of that system keeps |
| `reach.dfy`, `abreast.dfy`, `promptly.dfy`, `limits.dfy` | runs of that system: how they are put together, passes over several incidents at once, the schedule that spends the alert budget, and those that show where a promise stops |
| `queue.dfy`, `delivery.dfy` | a channel's queue and failure ladder, the fan-out |
| `tokenbucket.dfy`, `linkrate.dfy` | the two rate limiters |
| `base64.dfy`, `auth.dfy`, `events.dfy`, `claim.dfy`, `receiver.dfy`, `pair.dfy`, `peerlive.dfy` | the peer link |
| `peerlandings.dfy` | where the edges of a peer's liveness land, as a step system |
| `supervisor.dfy` | live replacement of sources: the turns taken under the supervisor's lock, and what a reload keeps |
| `supervising.dfy` | replacement, failing sources, the deadman and the run itself, as a step system |
| `truthful.dfy`, `misses.dfy` | when the deadman's incidents are true, and which report does not say what is so |
| `departures.dfy`, `channels.dfy` | what a replacement waits for, what a closed channel says, and when the process comes down |
| `tellings.dfy`, `lapses.dfy` | who reports what in which order, and the runs in which all that fails |
| `progress.dfy` | what each party at the supervisor comes to, and that no replacement is ever stuck |

Where the source updates an object in place there is a class; each of its
methods is tied, by its contract, to a function on values, and the laws are
proved of that function.

## The main results

- **No lost update, exactly.** In every interleaving a swap that moved the
  token on is kept by every later row if and only if no plain write of the
  rule engine writes a row that lacks some of it (`Races.NothingLost`), and
  what a plain write lacks is said of the copy it started from
  (`Limits.WhatAPlainWriteKeeps`). Another copy read under the same token fits
  over a swap if and only if that swap did not move the token on
  (`Races.StaleCopyStillFits`). The scheduler stamps with the time its pass
  began, so a recorded alert can be lost (`Limits.ARecordedAlertCanBeLost`).
- **One acknowledgement per incident.** Taps, clicks on the page and everything
  else may race: if no plain write misses an answer and no answer reads the
  clock at the very instant its row already carries, the row is answered once
  and keeps that stamp for good (`AcksOnce.AnswersCountOnce`), and the hook
  fires at most once (`AcksOnce.TheHookFiresOnce`). An incident is answered
  twice if and only if an answer lands over one that it had not read, under a
  token that did not move, or after one was erased
  (`AnsweredTwice.AnsweredTwiceExactlyWhen`), and likewise for the hook
  (`AnsweredTwice.HookFiresTwiceExactlyWhen`); on a tie of clocks it happens
  (`Limits.ATiedAcknowledgementCanBeLost`). The page records a click again
  exactly when the row had been answered (`AcksOnce.WebAckRepeatsExactlyWhen`).
- **Honesty.** An alert stamp is only ever written after a fan-out told
  somebody (`Honesty.EveryRunIsHonest`), and told means that a configured
  queue has just sent exactly this alert (`Scheduling.Scheduler.Tick`,
  `Scheduling.OnlyTheToldAreStamped`). What a pass scanned as critical it
  neither closes nor holds. A critical row is closed, or held, if and only if
  a pass that scanned it below critical catches it rising
  (`Criticals.ACriticalRowIsClosedExactlyWhen`,
  `Criticals.ACriticalRowIsHeldExactlyWhen`), and both do happen
  (`Limits.ARaisedIncidentCanBeClosed`, `Limits.AHeldIncidentCanBeRaised`).
- **Nobody due is forgotten.** For every severity a pass delivers, holds, gives up
  on or leaves alone exactly the incidents that their own stamps say
  (`Planned.UntoldIsPlannedExactlyWhen`, `Planned.ToldIsPlannedExactlyWhen`,
  `Planned.OwedIsPlannedExactlyWhen`, `Planned.GivenUpExactlyWhen`). Each delivery
  it plans is asked of every channel of the plan, and one whose queue sends it is
  enough (`Planned.EveryPlannedDeliveryIsMade`); a queue's caller hears that its
  alert was sent if and only if the channel, come to it, was asked and took it
  (`Queues.HeardExactlyWhen`). The record of it is written if and only if one of
  the loop's three attempts lands (`CasLoops.WrittenExactlyWhen`), which no other
  incident can prevent that is about something else
  (`Stores.ALiveRowIsNeverRefused`, `Abreast.BothAreRecorded`).
- **A bound on recorded alerts** over every run in which each recorded alert
  reads a row that fits its scan (`AlertBound.AlertsAreBounded`); that is so
  with one pass in flight at a time, through restarts, contention and lost
  swaps, as long as each alert moves the token on and no plain write goes out
  from a copy that missed one (`OnePass.OnePassAtATimeIsBounded`). The bound is reached
  (`PromptPasses.AlertBoundIsReached`). It is on what is recorded: a restart
  can make somebody be told twice (`Limits.ToldTwiceAndNeverRecorded`), and two
  stale plain writes buy one recorded alert more
  (`Limits.AStaleCopyBuysOneAlertMore`).
- **The peer link**: nothing signed is accepted twice, an event is ingested at
  most once within its record's lifetime unless the link's whole allowance of
  newer ids came in between, the claim means what it says, a punctual peer is
  never reported silent, one pairing code makes at most one credential. A
  peer's incident is true after any run that comes to rest if and only if the
  last edge to land said what was so (`PeerLandings.OpenIsTrueExactlyWhen`),
  and when an edge lands too late is said exactly
  (`PeerLandings.ARaiseIsLateExactlyWhen`, `PeerLandings.AResolveIsLateExactlyWhen`).
- **Reconfiguration**: narrowing a ladder keeps what it means. Replacing
  sources keeps the ones that stay. When a replacement returns, the channel of
  each source it dropped is closed; all its goroutines are gone if and only if
  none of them was started over another still at work
  (`Channels.ReturnsOnceTheyAreGone`), and such an overlap, which takes a
  replacement that `Run` begins in the middle of, is exactly what brings the
  process down (`Channels.CrashesExactlyWhen`). Without one a failure is always
  reported before it is resolved
  (`Tellings.FailuresAreReportedBeforeTheyAreResolved`), and whatever has
  happened a replacement under way can still return
  (`Progress.NoReplacementIsStuck`).
- **The deadman's incidents** are true after any run of replacements, failures
  and checks if and only if the last report on each name fitted when it landed
  (`Truthfulness.TruthfulExactlyWhen`). Which reports do not fit is said of what
  their teller did not look at again: for every teller
  (`Misses.AReportMissesExactlyWhen`), and for a replacement over everything that
  happens between its test and its resolve (`Misses.AResolveMissesExactlyWhen`).
  It happens: an incident is left open for a source that is gone
  (`Lapses.ADroppedSourceCanBeRaised`), or closed over one that is silent
  (`Lapses.AResolveCanHideAFault`, `Lapses.ARecoveryCanHideAFault`) or cannot run
  (`Lapses.ALookCanHideAFailure`).

## Where the code and its own words differ

- `internal/incident/store.go` says a concurrent read-modify-write uses the
  compare-and-swap write; `internal/rule/engine.go` resolves, folds and
  supersedes with the plain one. The model follows the code.
- `internal/link/ratelimit.go` gives 240 requests as the worst case of two
  windows back to back. In any half-open span of one window it is 239, because
  the request that opened the earlier window lies outside it.
- `internal/ingest/ingest.go` takes care, when a source is removed, not to
  close an incident another source of the same name still reports. Its
  liveness check does not take that care
  (`Lapses.ALookKeepsTruthExactlyWhen`), and its test and its resolve are apart.
- That check reads whether a source can run at all only in its first turn on it.
  A failure that is recorded and reported after that is closed by the check's own
  resolve, and every later check passes the source over
  (`Lapses.ALookCanHideAFailure`, `Misses.AFailedSourceIsPassedOver`).
- The same file says that a replacement before `Run` simply sets what `Run` will
  start, may be called from any goroutine, and does not return until what it
  stops has actually exited. If `Run` begins between a replacement's first turn
  and its last, both start what is new
  (`Departures.EachIsStartedOnceExactlyWhen`). A goroutine closes the channel its
  record holds when it exits, so the two of them close the later one: a
  replacement that drops the source can return while the earlier goroutine serves
  on, which is never told to stop (`Lapses.ADroppedSourceCanServeOn`), or while
  the later one does (`Lapses.AReplacementCanReturnTooEarly`); and whichever
  closes second brings the process down
  (`Lapses.ASecondCloseBringsTheProcessDown`).
- `cmd/notifymatrix/peerlive.go` closes a peer's incident at the contact itself so
  that "it is back" is news at once. It raises and resolves outside its lock; a
  contact between a check's finding and its raise resolves first, the raise lands
  after it, and the incident stays open for a healthy peer that no later contact
  closes (`PeerLandings.AHealthyPeerCanBeLeftOpen`,
  `PeerLandings.NoContactClosesIt`).
- `internal/web/api.go` shares one loop between acknowledging and closing; it
  does not look whether there is anything to change, so a second click is
  recorded as a second acknowledgement.
- `internal/config/config.go` introduces `BuildPolicies` by saying that an
  operator's own policy is never narrowed; its code narrows it, and the model
  follows the code.
- `internal/config/build.go` calls a channel its fan-out cannot find
  unreachable; it is reachable for a webhook whose name is not in lower case
  (`Ladders.AMixedCaseWebhookIsKeptAndNeverFound`).

## Model

| member | source | states |
|---|---|---|
| `Incidents.Incident.Touch` | internal/incident/incident.go:236-240 | the token moves to a later stamp and never back |
| `Incidents.Incident.RecordAlert` | internal/incident/incident.go:265-282 | refused on a row that is over; else the first stamp once, the last stamp, the count, the highest stage, and the error cleared |
| `Incidents.Incident.RecordDeliveryFailure` | internal/incident/incident.go:286-289 | the error is written, and nothing the schedule reads |
| `Incidents.Incident.Acknowledge` | internal/incident/incident.go:299-311 | refused on a row that is over; a second acknowledgement changes nothing |
| `Incidents.Incident.Resolve` | internal/incident/incident.go:317-328 | refused on a row that is over; the first clear is kept |
| `Incidents.Incident.Close` | internal/incident/incident.go:333-341 | only the first close writes its stamp and reason |
| `Incidents.Incident.Occur` | internal/incident/incident.go:350-364 | refused on a row that is over; the arrival is counted and the detail replaced |
| `Incidents.MutationsKeep` | internal/incident/incident.go:232-341 | no history of mutators takes back a stamp, a count or the token |
| `Histories.ALiveRowIsItsHistory` | internal/incident/incident.go:232-364 | a live row says exactly what its history says: counts, first and last stamps, highest stage, worst severity, last error |
| `Incidents.ClosedIsAbsorbing` | internal/incident/incident.go:188-213 | a row that is over stays over and keeps what was told, answered and cleared |
| `Incidents.AnsweredAndClearedIsClosed` | internal/incident/incident.go:179-205 | acknowledged and resolved together are closed, in either order and with the same row |
| `Incidents.RecurrenceCarriesNothing` | internal/incident/incident.go:370-382 | a recurrence is a new, unanswered incident linked to its predecessor |
| `DedupKeys.KeyReadsBack` | internal/incident/incident.go:135-177 | the entity and condition read out of a key are the segments it was built of |
| `DedupKeys.SameKeyMeansSameCondition` | internal/incident/incident.go:122-145 | two keys are equal exactly when all three cleaned segments are |
| `DedupKeys.PlainPartsTellApart` | internal/incident/incident.go:122-145 | and plain segments are told apart exactly when they differ |
| `Stores.WritesKeepOneLive` | internal/incident/store.go:36-74 | no write of either kind leaves two live incidents on one key, however stale its copy |
| `Stores.AcceptedExactlyWhen` | internal/store/migrate.go:74-76 | on a table with one live row a key, a write is accepted exactly if that is still so with it, and then changes that row alone |
| `Stores.RefusedExactlyWhen` | internal/store/sqlite.go:267-302 | nothing refuses a row but being live while another live row has its own key |
| `Stores.SwappedExactlyWhen` | internal/store/sqlite.go:316-394 | a guarded write is accepted exactly on a row that is there under the token, and each refusal says which of the three it was |
| `Stores.ALiveRowIsNeverRefused` | internal/store/sqlite.go:267-394 | however many other incidents are live, a live row is never refused a change of its own under its token |
| `Stores.Store.Put` | internal/store/sqlite.go:231-302 | replaces a row whole, or refuses exactly a second live incident for its key |
| `Stores.Store.PutIfUnchanged` | internal/store/sqlite.go:316-394 | writes exactly over the token that was read, never creates, and says which refusal it was |
| `Stores.Store.Active` | internal/store/sqlite.go:450-461 | every live row, each once |
| `Policies.Validate` | internal/escalate/policy.go:62-85 | accepted exactly when rungs are in order, each has a channel and a critical ladder is neither muted nor given up on; a refusal names the first fault |
| `Policies.ValidExactlyWhen` | internal/escalate/policy.go:62-85 | said rung by rung: offsets from nought up and rising, a channel on each, and a critical ladder neither muted nor given up on |
| `Policies.ComputeNextDue` | internal/escalate/policy.go:97-124 | the loop finds the first rung still ahead of the last alert, or the next repeat |
| `Policies.ComputeChannelsUpTo` | internal/escalate/policy.go:201-213 | the loop collects each channel of the rungs so far once, in ladder order |
| `Policies.ComputeHighestRungDue` | internal/escalate/policy.go:158-166 | the loop finds the highest rung whose time has come |
| `Policies.UnionNamesEachOnce` | internal/escalate/policy.go:201-213 | the collected channels are exactly those of the rungs, without duplicates |
| `Policies.WidestNetBeforeSuccess` | internal/escalate/policy.go:126-155 | before any success the channels due are those of every rung whose time has come |
| `Policies.OneRungAtATimeAfterSuccess` | internal/escalate/policy.go:97-155 | once somebody was told, due is exactly the first rung ahead of the last alert on its own channels, then the last rung every interval |
| `Policies.OwedExactlyWhen` | internal/escalate/policy.go:168-199 | owed exactly to an incident that cleared untold and unanswered, on the first rung's channels |
| `Policies.NetOnlyGrows` | internal/escalate/policy.go:145-166 | with time that list only grows at its end |
| `Policies.FailuresNeverPinTheLadder` | internal/escalate/policy.go:126-155 | however many deliveries fail, what is due at an instant is the same |
| `Policies.NoBurst` | internal/escalate/policy.go:87-124 | after a recorded alert the next is strictly in the future, so no backlog fires |
| `Policies.OwedUntilSettled` | internal/escalate/policy.go:168-199 | a momentary incident that cleared untold stays owed until answered, closed or told |
| `Policies.OnceToldNeverAgain` | internal/escalate/policy.go:184-199 | once one delivery is recorded on it, nothing is due or owed again |
| `Quiet.NextEndIsTheEndOfTheWindow` | internal/escalate/quiet.go:99-145 | from inside the window every instant up to the end is inside and the end is not, wrapping or not |
| `Quiet.StartIsInsideEndIsOutside` | internal/escalate/quiet.go:99-126 | the start is inclusive and the end exclusive on every day |
| `Quiet.ContainsExactlyWhen` | internal/escalate/quiet.go:99-126 | a disabled, unreadable or empty window holds nothing; another exactly what lies between its ends on the clock of its zone |
| `CasLoops.DeclinesExactlyWhen` | internal/escalate/scheduler.go:315-406 | how far an incident has come decides which writers still act on it |
| `CasLoops.Mutate` | internal/escalate/scheduler.go:319-406 | each writer decides again from the fresh copy, and what it writes when it goes ahead |
| `CasLoops.Commit` | internal/escalate/scheduler.go:436-473 | the bounded loop of read, decide, swap, retry, against a store others write |
| `CasLoops.OneGuardedWrite` | internal/escalate/scheduler.go:409-473 | whatever runs in between, at most one write, on a row whose token had not moved since it was read |
| `CasLoops.WrittenExactlyWhen` | internal/escalate/scheduler.go:436-473 | the loop writes exactly when the first of its three attempts not lost to a conflict lands, and is contended exactly when all three are lost |
| `Planned.GivenUpExactlyWhen` | internal/escalate/policy.go:217-240 | given up on exactly when unanswered, unclosed, told of and past its ladder's horizon |
| `Planned.OwedIsPlannedExactlyWhen` | internal/escalate/scheduler.go:339-369 | an incident that cleared untold is delivered on its first rung, or held, exactly when its condition is momentary |
| `Planned.UntoldIsPlannedExactlyWhen` | internal/escalate/scheduler.go:315-369 | an open incident nobody was told of is delivered, or held, exactly from its first rung on, to every channel of the rungs reached |
| `Planned.ToldIsPlannedExactlyWhen` | internal/escalate/scheduler.go:315-369 | one that was told of exactly at the first rung past the last alert, and at the repeats after the last rung |
| `Planned.SettledIsLeftAlone` | internal/escalate/scheduler.go:315-369 | whoever is answered, closed, or cleared after somebody was told hears no more of it |
| `Planned.WhatADeliveryWrites` | internal/escalate/scheduler.go:371-406 | the alert is recorded on the row read by the attempt that lands if somebody was told, and else the failure |
| `Planned.WhatGivingUpWrites` | internal/escalate/scheduler.go:315-337 | closes the row read exactly if that one is past its horizon |
| `Planned.EveryPlannedDeliveryIsMade` | internal/escalate/scheduler.go:265-298 | in any pass each incident due is asked of every channel of its plan, somebody is told if one of them sends it, and no other incident is asked of any |
| `Planned.TheOwedAreFannedOut` | internal/escalate/scheduler.go:339-353 | a momentary incident that cleared untold is announced in every pass that scans it outside the window |
| `Abreast.BothAreRecorded` | internal/escalate/scheduler.go:265-298 | two incidents of different keys, both due, are both told of and both recorded |
| `Scheduling.NewScheduler` | internal/escalate/scheduler.go:120-159 | starts exactly on ladders and a window that could be accepted live |
| `Scheduling.Scheduler.SetPolicies` | internal/escalate/scheduler.go:172-186 | swaps all the ladders, or refuses and changes none |
| `Scheduling.Scheduler.SetQuietHours` | internal/escalate/scheduler.go:193-201 | swaps the window or refuses it |
| `Scheduling.Scheduler.Process` | internal/escalate/scheduler.go:301-407 | one incident: give up, nothing, hold, or deliver through the queues and then record the alert or the failure; told means a queue of the plan's channels has just sent exactly this alert |
| `Scheduling.Scheduler.Tick` | internal/escalate/scheduler.go:265-298 | every live incident once, under one clock reading and the configuration in force when it is come to, with a fault not stopping the rest; whoever is told was sent exactly that alert |
| `Scheduling.OnlyTheToldAreStamped` | internal/escalate/scheduler.go:371-406 | an alert reaches a row only if somebody was told in that very evaluation; any other answer writes a delivery error at most |
| `Scheduling.CriticalIsNeverMuted` | internal/escalate/policy.go:62-85 | under accepted ladders a critical incident that is due is delivered, never held or given up on |
| `Scheduling.HeldIsDueAtTheEnd` | internal/escalate/scheduler.go:355-369 | held is not dropped: due when the window ends unless its horizon has passed |
| `Scheduling.FailureLeavesEverythingDue` | internal/escalate/scheduler.go:371-391 | a failed delivery leaves every decision as it was |
| `AckHandling.Handler.Acknowledge` | internal/ack/handler.go:193-241 | the endpoint's loop; the audit hook fires exactly when the page says the tap was recorded, with what was stored |
| `AckHandling.TapIsTheLoop` | internal/ack/handler.go:193-241 | for a caller with the right token it is the shared loop |
| `AckHandling.PageExactlyWhen` | internal/ack/handler.go:193-241 | which page a caller with the token gets: recorded exactly if an attempt landed, already exactly if the row read was answered or over, again exactly if all three were lost |
| `AckHandling.WrongTokenChangesNothing` | internal/ack/handler.go:245-262 | without it nothing is written |
| `AlarmEngine.StepsAreTheEvaluation` | internal/escalate/scheduler.go:301-407 | a pass's own steps come to the loop that the scheduler's evaluation comes to, from the same plan and answers |
| `AlarmEngine.StepIsOfAKind` | internal/escalate/scheduler.go:301-473 | every step of every goroutine writes no row, creates one, removes one, wins a swap, or is a plain engine write |
| `AlarmEngine.StepsAreTheLoop` | internal/escalate/scheduler.go:436-473 | a writer's interleaved steps do what one turn of its loop does |
| `AlarmEngine.LaddersStayValid` | internal/escalate/scheduler.go:172-186 | no reconfiguration in any run puts an invalid ladder in force |
| `Races.TokensNeverFall` | internal/incident/incident.go:219-240 | stored tokens never fall in any run whose plain writes do not set one back themselves |
| `Races.NothingLost` | internal/incident/store.go:44-60 | a write that strictly advanced the token is kept by every later row if and only if no plain write of the run lacks some of it; no swap ever loses it |
| `Races.AcknowledgementStays` | internal/ack/handler.go:193-241 | such a tap is then stored for good with its first stamp and channel |
| `Races.StaleCopyStillFits` | internal/incident/incident.go:236-240 | a copy read under the same token fits over a swap if and only if the swap's stamp was not later or it had nothing to add |
| `Races.TapIsAheadUnlessTied` | internal/ack/handler.go:211-224 | a tap fails to advance the token only on an exact tie of clocks |
| `AcksOnce.AnswersCountOnce` | internal/ack/handler.go:193-241 | one incident is answered once, however many taps and clicks race, and keeps that stamp and channel |
| `AcksOnce.TheHookFiresOnce` | internal/ack/handler.go:224-236 | the endpoint's hook fires at most once for one incident |
| `AcksOnce.WebAckRepeatsExactlyWhen` | internal/web/api.go:373-463 | the page records an acknowledgement again exactly when the row had been answered, and leaves the row as it was |
| `AnsweredTwice.AnsweredTwiceExactlyWhen` | internal/ack/handler.go:193-241 | over every run: exactly when an answer lands on a row answered since its copy under an unmoved token, or on one whose answer was erased before |
| `AnsweredTwice.HookFiresTwiceExactlyWhen` | internal/ack/handler.go:211-241 | the hook fires twice exactly when two taps land, the second over an answer its copy had not or after one was erased in between |
| `AnsweredTwice.AnswerGoesExactlyWhen` | internal/rule/engine.go:364-402 | a stored answer is gone exactly after the row's removal, or a write of it from a copy never answered: a plain one, or a swap of something else under an unmoved token |
| `AcksOnce.StartedSiteQualifies` | internal/ack/handler.go:193-241 | a site that has just started meets that theorem's premises |
| `Honesty.EveryRunIsHonest` | internal/escalate/scheduler.go:315-407 | over every run, alert stamps follow a fan-out that told somebody, and giving up or holding is never of what was scanned as critical |
| `Honesty.StartedSiteIsHonest` | internal/escalate/scheduler.go:243-262 | a site that has just started meets that theorem's premises |
| `Criticals.GiveUpLandsExactlyWhen` | internal/escalate/scheduler.go:315-337 | a ready give-up closes the row exactly if it is still under the token that was read |
| `Criticals.ACriticalRowIsClosedExactlyWhen` | internal/escalate/scheduler.go:315-337 | over every run: exactly when a pass that scanned it below critical gives up on its copy and swaps while it is critical or was read so |
| `Criticals.AClosedCriticalRowRose` | internal/escalate/scheduler.go:315-337 | whose severity then rose to critical after that scan |
| `Criticals.ACriticalRowIsHeldExactlyWhen` | internal/escalate/scheduler.go:355-369 | a hold meets a critical row exactly when a pass scanned it below critical, comes to it while that scan is due inside the window its ladder respects, and the row has risen in between |
| `Limits.ARecordedAlertCanBeLost` | internal/escalate/scheduler.go:389-406 | a run of swaps alone in which a told alert's record is overwritten |
| `Limits.ToldTwiceAndNeverRecorded` | internal/escalate/scheduler.go:371-406 | a run with a restart between delivery and record in which somebody is told twice and no alert is recorded |
| `Limits.AStaleCopyBuysOneAlertMore` | internal/rule/engine.go:364-402 | a run with one pass at a time in which two stale plain writes let the row record two alerts on a ladder that allows one |
| `Limits.ATiedAcknowledgementCanBeLost` | internal/ack/handler.go:211-224 | a run in which the hook fires twice on one tie |
| `Limits.APlainWriteErasesAnAcknowledgement` | internal/rule/engine.go:386-402 | a run in which a plain clear erases a stored acknowledgement |
| `Limits.WhatAPlainWriteKeeps` | internal/rule/engine.go:364-402 | a plain write keeps all that a row recorded if and only if its copy has it, but for the clear, close or severity it supplies |
| `Limits.WhenAPlainWriteSetsTheTokenBack` | internal/rule/engine.go:364-402 | a fold exactly when stamped before the stored token; a clear or a supersession exactly when the token moved since its read, to later than its stamp unless it adds nothing |
| `Limits.WhenAPlainWriteErases` | internal/rule/engine.go:364-402 | it changes the acknowledgement exactly if that was different when the copy was read |
| `Limits.ARaisedIncidentCanBeClosed` | internal/escalate/scheduler.go:315-337 | a run in which an incident raised to critical mid-pass is closed by its old ladder |
| `Limits.AHeldIncidentCanBeRaised` | internal/escalate/scheduler.go:355-369 | a run in which an incident raised to critical mid-pass is held by its old ladder |
| `AlertBound.AlertsAreBounded` | internal/escalate/policy.go:97-155 | over every run of the engine in which each recorded alert reads a row that fits its scan, at most one a rung and one a whole repeat interval are recorded |
| `AlertBound.OpenedSiteIsInBudget` | internal/escalate/policy.go:97-155 | a site on which the incident was just opened meets that theorem's premises |
| `OnePass.OnePassAtATimeIsBounded` | internal/escalate/scheduler.go:265-298 | with one pass in flight at a time that is so if each alert moves the token on and each plain write has the row's last alert and clear, and does not set the token back |
| `OnePass.LosslessRunsAreBounded` | internal/escalate/scheduler.go:265-298 | and, whatever the guards, in every such run in which no write puts back an earlier alert, a removed row or a cleared condition |
| `PromptPasses.AlertBoundIsReached` | internal/escalate/policy.go:97-155 | a run of the engine that records exactly as many alerts as the bound allows |
| `Queues.LadderIsTheTrailingRun` | internal/channel/queue.go:322-351 | the failure count is the trailing run of failures, and the hold ends that rung's wait after the last |
| `Queues.DiagnosticsAreTrue` | internal/channel/queue.go:322-351 | the last acceptance and the last error are those of what was attempted |
| `Queues.NoSendBeforeItsTime` | internal/channel/queue.go:213-235 | no attempt before the wait for that many failures has passed |
| `Queues.AskedExactlyWhen` | internal/channel/queue.go:228-235 | a job reaches the channel exactly unless two or more trailing failures hold it back, and their wait has not passed |
| `Queues.TheWaits` | internal/channel/queue.go:104-130 | the waits, in nanoseconds |
| `Queues.VerdictExactlyWhen` | internal/channel/queue.go:226-244 | after any run: Sent exactly if asked and taken, the channel's error exactly if asked and refused, held back exactly if not asked |
| `Queues.HeardExactlyWhen` | internal/channel/queue.go:254-298 | the same of the caller who waits behind a backlog, and when it is turned away or stops waiting |
| `Queues.OutageBound` | internal/channel/queue.go:104-130 | an outage of T seconds sees at most 6 + (T - 225) / 300 attempts once T is 225 |
| `Queues.BoundIsReached` | internal/channel/queue.go:104-130 | jobs timed by the ladder are all attempted |
| `Queues.Queue.Work` | internal/channel/queue.go:213-252 | the oldest job is held back or attempted, and the ladder moves as its outcome says |
| `Queues.Queue.SendAndWait` | internal/channel/queue.go:254-298 | Sent exactly when the channel, come to exactly this alert, was asked and took it; full, closed, held back and timed out are told apart |
| `Queues.Queue.RecordOutcome` | internal/channel/queue.go:322-351 | a success clears the ladder, a failure climbs it |
| `Queues.Queue.Test` | internal/channel/queue.go:414-452 | a passed test clears the hold and claims no delivery |
| `Deliveries.Delivery.Deliver` | internal/config/build.go:282-331 | success exactly when some channel is configured and its queue, come to this alert, sends it |
| `Deliveries.SomebodyIsToldExactlyWhen` | internal/config/build.go:282-331 | the same of every list of channels, as those before leave each queue |
| `Deliveries.OneWorkingChannelIsEnough` | internal/config/build.go:291-327 | one channel whose queue sends the alert is enough, whatever the others do |
| `TokenBuckets.Limiter.Allow` | internal/ack/ratelimit.go:77-116 | one call on the table: drop if full, refill by elapsed time, spend or refuse |
| `TokenBuckets.RemainderIsShort` | internal/ack/ratelimit.go:93-109 | after any call less than one refill is carried over and none of it lies ahead |
| `TokenBuckets.TokensAreConserved` | internal/ack/ratelimit.go:93-115 | what is spent came from the bucket or from whole refills taken off the clock |
| `TokenBuckets.AdmissionsInASpan` | internal/ack/ratelimit.go:71-116 | a source is answered at most burst times plus once a refill begun in the span |
| `TokenBuckets.RefusedPollsCostNothing` | internal/ack/ratelimit.go:102-113 | refused polls can be left out without changing any other answer or the bucket |
| `TokenBuckets.SteadyCallerIsAlwaysAnswered` | internal/ack/ratelimit.go:102-105 | a caller one refill apart is never refused |
| `TokenBuckets.PollExactly` | internal/ack/ratelimit.go:93-115 | one call without a division: what whole refills earn, up to the burst, and an answer exactly if there is a token |
| `TokenBuckets.WhatIsThereIsAnswered` | internal/ack/ratelimit.go:77-116 | a bucket answers as many calls as it holds tokens, however close together |
| `TokenBuckets.TheBurstAtOnce` | internal/ack/ratelimit.go:77-116 | and at one instant no more |
| `TokenBuckets.AStrangerHasItsBurst` | internal/ack/ratelimit.go:77-91 | a source the table does not know begins with the whole burst |
| `TokenBuckets.SourcesAreIndependent` | internal/ack/ratelimit.go:56-91 | between drops, a source's answers are those of its own bucket alone |
| `TokenBuckets.TableStaysSound` | internal/ack/ratelimit.go:39-49 | the table never outgrows its cap and no bucket is overdrawn |
| `TokenBuckets.OneSourceIsLimited` | internal/ack/ratelimit.go:77-116 | the limit as one source sees it, whatever all the others do |
| `FixedWindows.Limiter.Allow` | internal/link/ratelimit.go:63-84 | one request counted in its peer's window, the others' untouched |
| `FixedWindows.SpanBound` | internal/link/ratelimit.go:25-31 | at most one short of twice the limit in any half-open span of one window |
| `FixedWindows.SpanBoundIsReached` | internal/link/ratelimit.go:25-31 | requests that reach it |
| `FixedWindows.RefusalMeansOverTheLimit` | internal/link/ratelimit.go:9-23 | a refusal means more than the limit within less than a window |
| `Base64.DecodeUndoesEncode` | internal/link/auth.go:117-121 | round trip between bytes and their six-bit groups |
| `Base64.EverySpellingReadsTheSame` | internal/link/auth.go:96-122 | any of the four spellings of some bytes, with blanks around, reads as those bytes |
| `Authentication.CanonicalDeterminesTheRequest` | internal/link/auth.go:64-82 | requests with the same signed text agree in every field that changes their meaning |
| `Authentication.Verifier.UseNonce` | internal/link/auth.go:262-304 | expire by stamp, refuse a repeat, refuse when full, else remember |
| `Authentication.Verifier.Verify` | internal/link/auth.go:205-260 | the order of checks, the whole scan, and the nonce consumed last |
| `Authentication.AcceptedExactlyWhen` | internal/link/auth.go:174-260 | let in exactly when well formed, in the window, signed by its own link's key and its nonce is new and fits |
| `Authentication.VerdictExactlyWhen` | internal/link/auth.go:205-304 | every answer, by the request's own fields, the paired keys and the nonces used lately, with the bounds in numbers |
| `Authentication.UnreadableIsRefused` | internal/link/auth.go:205-230 | a request that cannot be read is refused for what it lacks and leaves no mark |
| `Authentication.OnlyTheGenuineLeaveAMark` | internal/link/auth.go:252-258 | whoever is not genuine changes no cache, and a peer only its own |
| `Authentication.SpellingOfASignatureIsNothing` | internal/link/auth.go:224-230 | the base64 spelling of a signature changes no outcome |
| `Authentication.NoRequestIsAcceptedTwice` | internal/link/auth.go:262-304 | a nonce is accepted again only once its first stamp left the window, and under a later stamp |
| `Authentication.CacheStaysBounded` | internal/link/auth.go:46-52 | each link's table keeps its cap, and drops a nonce only when its stamp would fail the skew check |
| `EventLedger.SeenStore.SeenEvent` | internal/store/linkseen.go:28-88 | expire everywhere, look up, insert and trim to the newest, or roll back |
| `EventLedger.SeenStore.ForgetEvent` | internal/store/linkseen.go:96-105 | releases one record |
| `EventLedger.AnsweredExactlyWhen` | internal/link/handler.go:354-445 | a duplicate exactly while the link's record of the id stands, ingested exactly when it does not, refused for what stands in the way |
| `EventLedger.AnExpiredIdIsIngestedAgain` | internal/store/linkseen.go:28-88 | an id whose records have expired is ingested again |
| `EventLedger.IngestedAtMostOnce` | internal/link/handler.go:398-417 | an event id is ingested twice only past its record's lifetime or past the link's whole allowance of newer ids |
| `EventLedger.CapForgetsTheFirst` | internal/store/linkseen.go:72-82 | at that allowance it is ingested again |
| `EventLedger.DuplicatesFollowAnIngest` | internal/link/handler.go:398-439 | a duplicate is only answered for an event that was ingested |
| `EventLedger.RefusalLeavesNoRecord` | internal/link/handler.go:357-439 | any refusal leaves no record, so a retry lands |
| `EventLedger.AnUnreleasedRecordLosesTheEvent` | internal/link/handler.go:428-438 | if the release itself fails, the retry is answered as a duplicate of nothing |
| `EventLedger.LinksAreSeparate` | internal/store/linkseen.go:26-27 | one link cannot spend or suppress another's events |
| `EventLedger.LedgerStaysBounded` | internal/store/linkseen.go:9-16 | no link's rows outgrow the allowance |
| `Claims.Claim.Heartbeat` | internal/link/claim.go:73-78 | contact is recorded and recovery may begin |
| `Claims.Claim.Observe` | internal/link/claim.go:85-100 | only approved conditions move the claim, both edges |
| `Claims.Claim.JudgedNow` | internal/link/claim.go:114-139 | the answer and its reason, in the order the reasons are given |
| `Claims.HeldExactlyWhen` | internal/link/claim.go:20-139 | held exactly when heard from in the window, nothing raised is uncleared, and recovery began long enough ago |
| `Claims.ReasonsAreTrue` | internal/link/claim.go:110-139 | the reason given for a claim not held is what the trace says |
| `Claims.NeverWaitingToRecover` | internal/link/claim.go:102-134 | while demoted the recovery clock is unset, and the waiting answer is never given |
| `Claims.NoFlapping` | internal/link/claim.go:9-18 | nothing is held sooner than the delay after any demotion |
| `Claims.SilenceCostsNothingAfterwards` | internal/link/claim.go:96-108 | after mere silence the first contact restores the claim |
| `Receiving.ReplyExactlyWhen` | internal/link/handler.go:354-445 | what an event is answered, by its envelope, the record and what it meets |
| `Receiving.Receiver.Events` | internal/link/handler.go:354-445 | the event pipeline: refused, duplicate or ingested, and when the claim moves |
| `Receiving.Receiver.Admit` | internal/link/handler.go:280-324 | authenticate, then charge the rate, then resolve the peer |
| `Receiving.Receiver.Serve` | internal/link/handler.go:213-352 | nothing is charged or acted on before its check; any genuine request is contact; what each route does to the peer's claim |
| `Pairing.Pairer.Complete` | internal/link/pair.go:250-334 | the order of refusals, and what each one charges |
| `Pairing.Pairer.Offered` | internal/link/pair.go:234-247 | the screen shows the code exactly while it could still be used |
| `Pairing.OfferIsItsAnswers` | internal/link/pair.go:249-334 | one offer makes at most one credential; exactly the fifth bad proof voids it |
| `Pairing.OnlyBadProofsAreCharged` | internal/link/pair.go:269-307 | a wrong certificate or manifest spends nothing |
| `Pairing.RightPeerIsPairedExactlyWhen` | internal/link/pair.go:249-334 | the peer with the right proof pairs exactly while the code lives, whatever else was sent |
| `Pairing.PairedExactlyWhen` | internal/link/pair.go:249-334 | at any point of any run anybody is paired exactly with the right certificate, manifest and proof, within ten minutes, once, before five bad proofs |
| `Pairing.BadProofExactlyWhen` | internal/link/pair.go:295-307 | a proof is refused as bad exactly when the offer stands and what the request brings does not read as the proof |
| `Pairing.FiveGuessesVoidTheCode` | internal/link/pair.go:295-307 | of any number of guesses the first five are charged, and the fifth voids the code |
| `Pairing.GuessesCostThePeerNothingUpToFour` | internal/link/pair.go:249-334 | four guesses leave the right peer its pairing, five do not |
| `Pairing.NothingOnOffer` | internal/link/pair.go:249-268 | with nothing on offer nobody is paired |
| `Pairing.SpellingIsNeverCharged` | internal/link/pair.go:295-307 | a right proof is never charged for its spelling |
| `Pairing.ComputeNormaliseCode` | internal/link/pair.go:72-92 | the loop over what was typed |
| `Pairing.TypedCodeIsTheCode` | internal/link/pair.go:67-92 | any grouping, case and look-alike letters read back as the code |
| `Pairing.FormatReadsBack` | internal/link/pair.go:94-105 | round trip through the displayed form |
| `PeerLiveness.SilentMeansThreeMissedBeats` | internal/link/manifest.go:129-149 | three beats fit in a window exactly if it is a minute or more, as every configurable one is |
| `PeerLiveness.ConfiguredSilence` | internal/config/config.go:786-811 | any configured window is clamped to between a minute and a day |
| `PeerLiveness.Liveness.Hear` | cmd/notifymatrix/peerlive.go:89-115 | one contact of one peer: the told window, the gap, and its incident closed |
| `PeerLiveness.Liveness.CheckAll` | cmd/notifymatrix/peerlive.go:117-208 | one pass gives every peer exactly its own check, and closes those unpaired |
| `PeerLiveness.EdgesAlternate` | cmd/notifymatrix/peerlive.go:126-208 | per peer, edges are taken in turn, in the order of the lock |
| `PeerLandings.OpenIsTrueExactlyWhen` | cmd/notifymatrix/peerlive.go:89-208 | after any run that comes to rest the incident says what the tables say exactly when the last edge to land did |
| `PeerLandings.ARaiseIsLateExactlyWhen` | cmd/notifymatrix/peerlive.go:117-208 | a check's raise lands too late exactly when the peer was heard since the check took it |
| `PeerLandings.AnUnpairingIsNeverLate` | cmd/notifymatrix/peerlive.go:183-208 | a check's resolve of an unpaired peer never does |
| `PeerLandings.AResolveIsLateExactlyWhen` | cmd/notifymatrix/peerlive.go:89-115 | a contact's resolve lands too late exactly when a check has found the peer late since, and it was neither heard nor unpaired after that |
| `PeerLandings.AHealthyPeerCanBeLeftOpen` | cmd/notifymatrix/peerlive.go:89-208 | a run in which a contact's resolve lands before the check's raise, and the incident is open for a peer that is well |
| `PeerLandings.NoContactClosesIt` | cmd/notifymatrix/peerlive.go:89-115 | it then stays open, whatever is heard, until a check finds the peer late again |
| `PeerLiveness.PunctualIsNeverRaised` | cmd/notifymatrix/peerlive.go:147-169 | a peer keeping to what it was last told is never reported, under any window changes |
| `PeerLiveness.QuietIsNoticed` | cmd/notifymatrix/peerlive.go:144-171 | a peer quiet for longer than both windows is |
| `PeerLiveness.CheckExactly` | cmd/notifymatrix/peerlive.go:126-192 | what one check does to a peer, heard of or not, paired or not |
| `PeerLiveness.GapsDecay` | cmd/notifymatrix/peerlive.go:96-106 | over every run of contacts at most G apart, checks included, the recorded gap is at most G or the old one halved once a contact |
| `Supervision.Supervisor.SwapTo` | internal/ingest/ingest.go:271-327 | a replacement's first turn: refused once stopped, for no source or for one listed twice, with nothing changed; else choose, make, drop and tell |
| `Supervision.SwapGivesTheList` | internal/ingest/ingest.go:251-327 | the sources given, in order; kept records untouched; new ones fresh and to be started; exactly the rest dropped and told to stop |
| `Supervision.SameSourcesChangeNothing` | internal/ingest/ingest.go:253-259 | handed the same sources, a replacement changes nothing at all |
| `Supervision.Supervisor.ReportsAFault` | internal/ingest/ingest.go:369-382 | whether a running source of this name has an open fault of its own |
| `Supervision.Supervisor.Start` | internal/ingest/ingest.go:234-249 | a new goroutine for each, known to its record in the place of any earlier one |
| `Supervision.Supervisor.Close` | internal/ingest/ingest.go:239-246 | a goroutine that ends closes the channel its record holds by then, or brings the process down if that is closed |
| `Supervision.Supervisor.Begin` | internal/ingest/ingest.go:191-214 | Run's first turn: refused twice, else everything running is started |
| `Supervision.Supervisor.Judge` | internal/ingest/ingest.go:534-543 | the deadman's second turn on a source, and the edge it takes |
| `Supervision.SilentExactlyWhen` | internal/ingest/ingest.go:524-543 | silent exactly if neither contact nor event lies within the window, with an edge exactly on a change |
| `Misses.AWholeLook` | internal/ingest/ingest.go:489-557 | one undisturbed look: passed over, or the flag set and the incident opened or closed exactly on a change |
| `Truthfulness.TruthfulExactlyWhen` | internal/ingest/ingest.go:309-367 | after any run of replacements, failures and checks that comes to rest the incidents are true exactly when the last report on each name fitted as it landed |
| `Departures.OtherStepsKeepCrew` | internal/ingest/ingest.go:191-367 | nobody is started or dropped but by Run's first turn and a replacement's first and last |
| `Departures.EachIsStartedOnceExactlyWhen` | internal/ingest/ingest.go:191-249 | each record has one goroutine unless Run began in the middle of a replacement that then had something to start |
| `Channels.SoleExactlyWhen` | internal/ingest/ingest.go:234-249 | a record keeps one goroutine at work, and one channel for it, exactly while it is never started over one at work |
| `Channels.ReturnsOnceTheyAreGone` | internal/ingest/ingest.go:319-327 | once a replacement has returned, what it dropped never runs again and its channel is closed; all its goroutines are gone exactly without such an overlap |
| `Channels.CrashesExactlyWhen` | internal/ingest/ingest.go:234-249 | the process comes down exactly when there was such an overlap, by when every goroutine has ended |
| `Misses.AReportMissesExactlyWhen` | internal/ingest/ingest.go:309-559 | exactly when a report does not say what is so: the deadman's resolve when its source was recorded as unable to run meanwhile or a namesake is faulted; its raise when the source is out and no namesake is; a failure's raise when it has nothing to say; a replacement's resolve when a namesake is faulted |
| `Misses.AResolveMissesExactlyWhen` | internal/ingest/ingest.go:329-349 | a replacement's resolve exactly when a running namesake fell since its test, whatever happened in between, or another that it dropped is faulted |
| `Tellings.FailuresAreReportedBeforeTheyAreResolved` | internal/ingest/ingest.go:319-349 | without an overlap a replacement's resolve comes after every report its source makes of a failure |
| `Tellings.OnlyADroppedSourceIsRaisedTooLate` | internal/ingest/ingest.go:451-559 | a raise that does not fit is the deadman's about a source dropped and dealt with since, or a failure's with nothing to say |
| `Tellings.RunReturnsWhenAllHaveLeft` | internal/ingest/ingest.go:216-231 | without an overlap, once Run has returned every goroutine has left and none is ever started |
| `Progress.LeavesExactlyWhenTold` | internal/ingest/ingest.go:239-246 | a serving goroutine takes itself off the list and closes its channel if and only if it, or everybody, is told to stop |
| `Progress.AFailureIsReported` | internal/ingest/ingest.go:421-464 | a run that breaks untold is recorded and raised under its name, once, before its goroutine goes |
| `Progress.ReturnsExactlyWhenNoneIsAwaited` | internal/ingest/ingest.go:319-366 | left alone, a replacement returns if and only if all it still awaits are gone, having resolved exactly the names of what it dropped faulted and no running source reports |
| `Progress.NoReplacementIsStuck` | internal/ingest/ingest.go:271-367 | in every run without an overlap a replacement under way can still return |
| `Progress.RunReturnsExactlyWhen` | internal/ingest/ingest.go:216-231 | Run stops once its context is done and the deadman rests, and returns exactly when all then live are gone |
| `Tellings.FreshIsSound` | internal/ingest/ingest.go:155-184 | a supervisor just built meets those theorems' premises |
| `Lapses.ADroppedSourceCanBeRaised` | internal/ingest/ingest.go:489-557 | a source dropped while the deadman holds its copied list is raised after the replacement returned |
| `Lapses.AResolveCanHideAFault` | internal/ingest/ingest.go:339-349 | a namesake falls silent between a replacement's test and its resolve, which closes what they share |
| `Lapses.ARecoveryCanHideAFault` | internal/ingest/ingest.go:544-557 | two silent namesakes, one is heard again, and the other's fault is no longer reported |
| `Lapses.ALookKeepsTruthExactlyWhen` | internal/ingest/ingest.go:496-557 | a look at one source, with nobody in between, keeps the incidents true unless it hears again a source whose namesake is faulted |
| `Lapses.ALookCanHideAFailure` | internal/ingest/ingest.go:496-557 | one silent source: it fails after the check's first turn on it, is heard again, and the check's resolve closes its failure |
| `Misses.AFailedSourceIsPassedOver` | internal/ingest/ingest.go:496-557 | once a source is recorded as unable to run and the check is past it, no check of any run reports about it again |
| `Lapses.ADroppedSourceCanServeOn` | internal/ingest/ingest.go:191-249 | Run begins in the middle of a replacement, a source is started twice, and the replacement that drops it returns while the earlier goroutine serves on |
| `Lapses.AReplacementCanReturnTooEarly` | internal/ingest/ingest.go:234-323 | the earlier of the two fails and closes the later one's channel, so that the replacement returns while the later one serves |
| `Lapses.ASecondCloseBringsTheProcessDown` | internal/ingest/ingest.go:239-246 | both end, and the second to close brings the process down |
| `Supervision.ReuseSources` | cmd/notifymatrix/main.go:454-483 | each running source is handed back at most once, to the first that asks for its key |
| `Supervision.NothingIsWantedTwice` | cmd/notifymatrix/main.go:462-483 | so no value is listed twice and a reload is never refused for it |
| `Supervision.UnchangedReloadKeepsAllExactlyWhen` | cmd/notifymatrix/main.go:466-483 | an unchanged configuration keeps every source exactly when no two share a key |
| `Ladders.ComputeFilterToEnabled` | internal/config/config.go:660-683 | the two loops that narrow a ladder |
| `Ladders.FilteredIsASubLadder` | internal/config/config.go:662-683 | the result is an order-preserving part of its source, each rung with exactly its enabled channels |
| `Ladders.NothingSurvivesExactlyWhen` | internal/config/config.go:676-678 | nothing is left exactly when no rung names a channel that exists |
| `Ladders.FilteringKeepsValid` | internal/config/config.go:660-683 | a valid ladder stays valid, all else as it was |
| `Ladders.FilteringTwiceIsOnce` | internal/config/config.go:660-683 | narrowing is idempotent |
| `Ladders.FilteringKeepsTheMeaning` | internal/config/config.go:558-572 | until somebody is told, the channels due are the existing ones among those due under the source |
| `Ladders.BuildPolicies` | internal/config/config.go:573-646 | what each severity runs on is what belongs there: the operator's own rungs with their existing channels, else the shipped ones', else every channel |
| `Ladders.InForceIsWhatBelongs` | internal/config/config.go:573-646 | the same: at ascending places, every other field untouched, absent exactly when no rung of the operator's names a channel that exists, whole when there is none at all |
| `Ladders.LaddersInForceAreValid` | internal/config/config.go:573-658 | every ladder in force is valid and names only channels that exist |
| `Ladders.EveryKeptChannelIsFoundExactlyWhen` | internal/config/build.go:306-314 | the fan-out finds every kept channel exactly when each queue's name is answered in lower case |
| `Ladders.AMixedCaseWebhookIsKeptAndNeverFound` | internal/config/build.go:168-186 | a webhook with a capital in its name is kept in ladders and never found |

## Left out

- HTTP serving, pages, headers, TLS, listeners, service control, the updater and setup: plumbing with no protocol of its own.
- The pairing and identify routes of the receiver; pairing itself is modelled, its HTTP handling is not.
- Keyed hashes, body hashes, certificate fingerprints and random generation: given functions and values, about whose strength nothing is claimed.
- JSON, YAML, duration and timestamp parsing: what a text parses to is given.
- Envelope and manifest validation, commercial permissions and the conditions catalogue: their verdict is an input of the event pipeline.
- Daylight saving and zone databases: quiet hours are at a fixed offset from UTC.
- Case folding outside ASCII, wherever the source lower-cases or upper-cases a name.
- Operator-facing sentences, receipts, statistics pages, logs and audit files.
- SQL: the store is its contract, with the two writes and the trimming order taken from the code.
- Process exit in the middle of one store write: a write is one step.
- Timestamps near the ends of the 64-bit range, where Go's duration arithmetic saturates.
- `RetireLink`, `IsMomentary`, `IsPerOccurrence`, the receipts ring and inbound hook counters: lookups and bounded lists with no law beyond their bodies.
- The rule engine's decision rules and its creation of incidents beyond the one-live-per-key refusal.
- A raise or a resolve of the deadman that the engine refuses to take, and the supervisor's counters and name lists.
- Authentication.CanonicalDeterminesTheRequest: assumes no field holds a line break, which header syntax and the fixed set of routes ensure before anything is signed or verified.
- Deliveries.Delivery.Deliver: fans out one channel after another, where the source runs them side by side; each queue has its own worker, so the verdicts are the same. That each name has a queue of its own is how the source builds them (internal/config/build.go:107-184), and asked of whoever builds one here.
- Queues.Queue.SendAndWait: the worker runs while the caller waits; jobs queued after the caller's are not interleaved before its verdict.
- TokenBuckets.OneSourceIsLimited: assumes the table is not dropped in the span, as a drop hands everybody a fresh allowance by design.
- Scheduling.Scheduler.Tick: is not cancelled half way, and its listing of the rows does not fail.
- Policies.DueNow: a ladder with no rungs, which never passes validation, is never due; the source's answer would name a stage -1.
- Stores.Store.Put: does not refuse a row with no id, no dedup key or no opening time; every row of the model has them.
- Stores.Store.PutIfUnchanged: the same three refusals are left out.
- Stores.Store.Active: its rows come in no particular order, where the source gives the oldest first; each is evaluated on its own.
- CasLoops.Commit: store faults that are none of the named refusals are left out; like a refusal they end the loop with nothing written.
- Receiving.Receiver.Serve: the body's size limit and its reading, and the record of a permission asked for, are left out.
- OnePass.OnePassAtATimeIsBounded: assumes that plain writes miss no alert, as `Limits.AStaleCopyBuysOneAlertMore` shows it must, and that alerts move the token on, which is enough and not always needed (`OnePass.LosslessRunsAreBounded`).
