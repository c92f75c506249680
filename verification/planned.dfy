/** What the scheduler does with an incident, told by the incident's own fields: whom
    a pass delivers to, holds, gives up on and leaves alone. */
module Planned {
  import opened Base
  import opened Incidents
  import opened Policies
  import opened Quiet
  import opened Queues
  import opened Stores
  import opened CasLoops
  import opened Deliveries
  import opened Scheduling
  import DedupKeys
  import Text

  /** Neither answered nor closed, by anybody. */
  predicate Pending(r: Record) {
    r.ackedAt.None? && r.closedAt.None?
  }

  /** Told at least once, and older than a horizon that the ladder sets. */
  predicate PastHorizon(p: Policy, r: Record, now: Time) {
    r.firstAlertAt.Some? && p.giveUpAfter > 0 && now - r.openedAt > p.giveUpAfter
  }

  /** Exactly when an incident is given up on: when it is pending, somebody was told,
      and its horizon has passed. */
  lemma GivenUpExactlyWhen(ladders: Ladders, quiet: QuietHours, momentary: set<string>, r: Record, now: Time)
    ensures var plan := PlanFor(ladders, quiet, momentary, r, now);
            && (plan.NoPolicy? <==> r.severity !in ladders)
            && (plan.GiveUp? <==> r.severity in ladders && Pending(r) && PastHorizon(ladders[r.severity], r, now))
            && (plan.GiveUp? ==> plan.policy == ladders[r.severity])
  {
  }

  /** A delivery that is due is held exactly if the ladder respects the quiet window
      and the pass began inside it. */
  predicate DeliversOrHolds(plan: Plan, p: Policy, quiet: QuietHours, now: Time) {
    if p.respectQuietHours && quiet.Contains(now) then plan == Hold(p) else plan.Deliver?
  }

  /** Exactly when an incident that cleared untold, unanswered and unclosed is still
      told of: when its condition is a momentary one; and then on the first rung's
      channels, each once. */
  lemma OwedIsPlannedExactlyWhen(ladders: Ladders, quiet: QuietHours, momentary: set<string>, r: Record, now: Time)
    requires r.severity in ladders && ladders[r.severity].stages != []
    requires Pending(r) && r.resolvedAt.Some? && r.firstAlertAt.None?
    ensures var p, plan := ladders[r.severity], PlanFor(ladders, quiet, momentary, r, now);
            if DedupKeys.Condition(r.dedupKey) in momentary then
              && DeliversOrHolds(plan, p, quiet, now)
              && (plan.Deliver? ==> plan.stage == 0 && Distinct(plan.channels)
                                    && forall c :: c in plan.channels <==> c in p.stages[0].channels)
            else plan == Nothing
  {
    OwedExactlyWhen(ladders[r.severity], r);
  }

  /** Open, and nobody has been told of it yet. */
  predicate OpenUntold(r: Record) {
    Pending(r) && r.resolvedAt.None? && r.firstAlertAt.None? && r.lastAlertAt.None?
  }

  /** Exactly when an open incident that nobody has been told of is delivered, for
      every severity: from the time of its first rung on, to the channels of every
      rung whose time has come, each once, and at the highest of them. */
  lemma UntoldIsPlannedExactlyWhen(ladders: Ladders, quiet: QuietHours, momentary: set<string>, r: Record, now: Time)
    requires r.severity in ladders && Valid(ladders[r.severity], r.severity) && OpenUntold(r)
    ensures var p, plan := ladders[r.severity], PlanFor(ladders, quiet, momentary, r, now);
            if r.openedAt + p.stages[0].after <= now then
              && DeliversOrHolds(plan, p, quiet, now)
              && (plan.Deliver? ==>
                    && Distinct(plan.channels)
                    && (forall c :: c in plan.channels <==>
                          exists i :: 0 <= i < |p.stages| && r.openedAt + p.stages[i].after <= now
                                      && c in p.stages[i].channels)
                    && plan.stage < |p.stages| && r.openedAt + p.stages[plan.stage].after <= now
                    && forall i :: plan.stage < i < |p.stages| ==> now < r.openedAt + p.stages[i].after)
            else plan == Nothing
  {
    WidestNetBeforeSuccess(ladders[r.severity], r.severity, r, now);
  }

  /** Open, and told of at `last`. */
  predicate OpenTold(r: Record, last: Time) {
    Pending(r) && r.resolvedAt.None? && r.firstAlertAt.Some? && r.lastAlertAt == Some(last)
  }

  /** This rung's own time came after the last alert, and the one before's had not;
      or it is the last rung, and its repeat is due. */
  predicate RungComes(p: Policy, openedAt: Time, last: Time, now: Time, st: nat)
    requires st < |p.stages|
  {
    || (last < openedAt + p.stages[st].after <= now && (st == 0 || openedAt + p.stages[st - 1].after <= last))
    || (st == |p.stages| - 1 && openedAt + p.stages[st].after <= last
        && p.repeatEvery > 0 && last + p.repeatEvery <= now)
  }

  /** Exactly when an open incident that was told of is delivered again: at the time
      of the first rung past the last alert, and past the last rung at every repeat,
      to that rung's own channels. */
  lemma ToldIsPlannedExactlyWhen(ladders: Ladders, quiet: QuietHours, momentary: set<string>, r: Record, now: Time,
                                 last: Time)
    requires r.severity in ladders && Valid(ladders[r.severity], r.severity) && OpenTold(r, last)
    requires !PastHorizon(ladders[r.severity], r, now)
    ensures var p, plan := ladders[r.severity], PlanFor(ladders, quiet, momentary, r, now);
            && ((exists st: nat :: st < |p.stages| && RungComes(p, r.openedAt, last, now, st)) ==>
                  DeliversOrHolds(plan, p, quiet, now))
            && (plan.Deliver? ==>
                  && plan.stage < |p.stages| && RungComes(p, r.openedAt, last, now, plan.stage)
                  && plan.channels == p.stages[plan.stage].channels)
            && ((forall st: nat :: st < |p.stages| ==> !RungComes(p, r.openedAt, last, now, st)) ==> plan == Nothing)
  {
    var p := ladders[r.severity];
    forall st: nat | st < |p.stages|
      ensures DueNow(p, r, now) == Fire(st, p.stages[st].channels) <==> RungComes(p, r.openedAt, last, now, st)
    {
      OneRungAtATimeAfterSuccess(p, r.severity, r, now, st);
    }
    OneRungAtATimeAfterSuccess(p, r.severity, r, now, 0);
  }

  /** Whoever is answered, closed or cleared after somebody was told hears no more of
      it; the last of them may still be given up on. */
  lemma SettledIsLeftAlone(ladders: Ladders, quiet: QuietHours, momentary: set<string>, r: Record, now: Time)
    requires r.severity in ladders && (!Pending(r) || (r.resolvedAt.Some? && r.firstAlertAt.Some?))
    ensures var plan := PlanFor(ladders, quiet, momentary, r, now);
            plan == Nothing
            || (plan == GiveUp(ladders[r.severity]) && Pending(r) && PastHorizon(ladders[r.severity], r, now))
  {
  }

  // ---- What is written of it ----------------------------------------------------------

  /** Once somebody was told, the alert is written on the row that the first attempt
      not lost to a conflict reads, if that one lands; and when nobody was, the
      failure is, and counted as a fault. */
  lemma WhatADeliveryWrites(w: Setting, inc: Record, env: Env, results: seq<ChannelResult>, rows: Table, stats: Stats,
                            k: nat)
    requires SoundWorld(env.world) && PlanFor(w.ladders, w.quiet, w.momentary, inc, w.now).Deliver?
    requires var stage := PlanFor(w.ladders, w.quiet, w.momentary, inc, w.now).stage;
             var intent := if SomebodyTold(results) then RecordAlert(inc, w.now, stage)
                           else RecordFailure(w.now, env.failure);
             FirstThrough(intent, inc.id, env.world, 0, k) && Lands(intent, inc.id, env.world, k)
    ensures var stage := PlanFor(w.ladders, w.quiet, w.momentary, inc, w.now).stage;
            var (end, next, fault) := Evaluated(w, inc, env, results, rows, stats);
            var read := env.world.atRead(k)[inc.id];
            if SomebodyTold(results) then
              && end == env.world.atWrite(k)[inc.id := read.RecordAlert(w.now, stage)]
              && next == stats.(delivered := stats.delivered + 1) && !fault
            else
              && end == env.world.atWrite(k)[inc.id := read.RecordDeliveryFailure(w.now, env.failure)]
              && next == stats.(failed := stats.failed + 1) && fault
  {
    var stage := PlanFor(w.ladders, w.quiet, w.momentary, inc, w.now).stage;
    AnnouncingIs(w, inc, env, results, rows, stats);
    ThroughAt(if SomebodyTold(results) then RecordAlert(inc, w.now, stage) else RecordFailure(w.now, env.failure),
              inc.id, env.world, k);
  }

  /** Giving up closes the row that the first attempt not lost to a conflict reads, with
      the ladder's name as the reason, exactly if that row is pending and past its own
      horizon; otherwise it writes nothing. */
  lemma WhatGivingUpWrites(w: Setting, inc: Record, env: Env, results: seq<ChannelResult>, rows: Table, stats: Stats,
                           k: nat)
    requires SoundWorld(env.world) && PlanFor(w.ladders, w.quiet, w.momentary, inc, w.now).GiveUp?
    requires inc.severity in w.ladders
    requires FirstThrough(GiveUpOn(inc, w.now, w.ladders[inc.severity]), inc.id, env.world, 0, k)
    requires inc.id in env.world.atRead(k) && inc.id in env.world.atWrite(k)
    requires env.world.atWrite(k)[inc.id].updatedAt == env.world.atRead(k)[inc.id].updatedAt
    ensures var p, row := w.ladders[inc.severity], env.world.atRead(k)[inc.id];
            var (end, next, fault) := Evaluated(w, inc, env, results, rows, stats);
            && (next == stats.(gaveUp := stats.gaveUp + 1) <==> Pending(row) && PastHorizon(p, row, w.now))
            && (Pending(row) && PastHorizon(p, row, w.now) ==>
                  !fault && end == env.world.atWrite(k)[inc.id := row.Close(w.now, GiveUpReason(p))])
  {
    var intent := GiveUpOn(inc, w.now, w.ladders[inc.severity]);
    RetiringIs(w, inc, env, results, rows, stats);
    GivingUpComesTo(intent, inc.id, env.world, k);
  }

  lemma GivingUpComesTo(intent: Intent, id: string, world: World, k: nat)
    requires SoundWorld(world) && intent.GiveUpOn? && FirstThrough(intent, id, world, 0, k)
    requires id in world.atRead(k) && id in world.atWrite(k)
    requires world.atWrite(k)[id].updatedAt == world.atRead(k)[id].updatedAt
    ensures var row := world.atRead(k)[id];
            var (end, out) := LoopFrom(intent, id, world, 0);
            && (out.Written? <==> Pending(row) && PastHorizon(intent.policy, row, intent.now))
            && (out.Written? ==> end == world.atWrite(k)[id := row.Close(intent.now, GiveUpReason(intent.policy))])
  {
    assert Keyed(world.atRead(k)) && OneLivePerKey(world.atWrite(k));
    GivingUpLands(intent, id, world, k);
    ThroughAt(intent, id, world, k);
  }

  lemma GivingUpLands(intent: Intent, id: string, world: World, k: nat)
    requires intent.GiveUpOn? && id in world.atRead(k) && id in world.atWrite(k)
    requires world.atWrite(k)[id].updatedAt == world.atRead(k)[id].updatedAt && OneLivePerKey(world.atWrite(k))
    ensures var row := world.atRead(k)[id];
            Lands(intent, id, world, k) <==> Pending(row) && PastHorizon(intent.policy, row, intent.now)
  {
    var row := world.atRead(k)[id];
    ClosingClashesWithNobody(world.atWrite(k), row.Close(intent.now, GiveUpReason(intent.policy)), id);
  }

  /** Holding one is counted and writes nothing; leaving one alone does neither; and one
      whose severity has no ladder is a fault. */
  lemma WhatTheRestWrite(w: Setting, inc: Record, env: Env, results: seq<ChannelResult>, rows: Table, stats: Stats)
    ensures var plan := PlanFor(w.ladders, w.quiet, w.momentary, inc, w.now);
            && (plan.Hold? ==>
                  Evaluated(w, inc, env, results, rows, stats) == (rows, stats.(held := stats.held + 1), false))
            && (plan.Nothing? ==> Evaluated(w, inc, env, results, rows, stats) == (rows, stats, false))
            && (plan.NoPolicy? ==> Evaluated(w, inc, env, results, rows, stats) == (rows, stats, true))
  {
  }

  /** A loop that is contended, or refused by the store, is a fault, and counted as
      nothing but that; one that finds the row gone or over is neither. */
  lemma WhatIsAFault(w: Setting, inc: Record, env: Env, results: seq<ChannelResult>, rows: Table, stats: Stats)
    requires IntentOf(w, inc, env.failure, results).Some?
    ensures var intent := IntentOf(w, inc, env.failure, results).value;
            var out := LoopFrom(intent, inc.id, env.world, 0).1;
            var lost := out.Contended? || out.Refused?;
            var (_, next, fault) := Evaluated(w, inc, env, results, rows, stats);
            if intent.RecordAlert? then
              (fault <==> lost) && next == if lost then stats else stats.(delivered := stats.delivered + 1)
            else if intent.RecordFailure? then
              fault && next == if lost then stats else stats.(failed := stats.failed + 1)
            else
              (fault <==> lost) && next == if out.Written? then stats.(gaveUp := stats.gaveUp + 1) else stats
  {
  }

  lemma ClosingClashesWithNobody(rows: Table, r: Record, id: string)
    requires r.Terminal()
    ensures OneLivePerKey(rows) ==> OneLivePerKey(rows[id := r])
  {
  }

  // ---- Whole passes ---------------------------------------------------------------------

  /** What meets the i-th incident of a pass. */
  function Met(momentary: set<string>, now: Time, scanned: seq<Record>, env: string -> Env, i: nat): Setting
    requires i < |scanned|
  {
    Setting(env(scanned[i].id).ladders, env(scanned[i].id).quiet, momentary, now)
  }

  /** The queues as the incidents before the i-th leave them. */
  function LinesBefore(momentary: set<string>, now: Time, scanned: seq<Record>, env: string -> Env,
                       alertFor: (Record, int) -> string, lines: Lines, i: nat): (at: Lines)
    requires i <= |scanned|
    ensures at.Keys == lines.Keys
  {
    FannedAll(momentary, now, scanned[..i], env, alertFor, lines).0
  }

  /** In a pass over these incidents the i-th, if its plan is to deliver, is fanned out
      to each of its plan's channels, and somebody is told if one of them leads to a
      queue that sends it and none before it led there. Anything else is asked of no
      channel at all. */
  lemma EveryPlannedDeliveryIsMade(momentary: set<string>, now: Time, scanned: seq<Record>, env: string -> Env,
                                   alertFor: (Record, int) -> string, lines: Lines, i: nat)
    requires i < |scanned|
    ensures var w, e := Met(momentary, now, scanned, env, i), env(scanned[i].id);
            var plan := PlanFor(w.ladders, w.quiet, w.momentary, scanned[i], now);
            var at := LinesBefore(momentary, now, scanned, env, alertFor, lines, i);
            var heard := FannedAll(momentary, now, scanned, env, alertFor, lines).1[i];
            if plan.Deliver? then
              var job := QueuedJob(alertFor(scanned[i], plan.stage), e.sendAt);
              && |heard| == |plan.channels|
              && (forall k :: 0 <= k < |heard| ==>
                    (heard[k].NotConfigured? <==> Text.Lower(plan.channels[k]) !in lines))
              && ((exists k :: 0 <= k < |plan.channels| && FirstToLead(plan.channels, k)
                               && Text.Lower(plan.channels[k]) in lines
                               && WouldSend(at[Text.Lower(plan.channels[k])], job, e.scripts(k))) ==>
                    SomebodyTold(heard))
            else heard == []
  {
    EachIsFanned(momentary, now, scanned, env, alertFor, lines, i);
    var w, e := Met(momentary, now, scanned, env, i), env(scanned[i].id);
    var plan := PlanFor(w.ladders, w.quiet, w.momentary, scanned[i], now);
    var at := LinesBefore(momentary, now, scanned, env, alertFor, lines, i);
    if plan.Deliver? {
      var job := QueuedJob(alertFor(scanned[i], plan.stage), e.sendAt);
      forall k: nat | k < |plan.channels|
        ensures FannedOut(at, plan.channels, job, e.scripts).1[k].NotConfigured?
                <==> Text.Lower(plan.channels[k]) !in lines
      {
        EachAnswers(at, plan.channels, job, e.scripts, k);
      }
      if k :| 0 <= k < |plan.channels| && FirstToLead(plan.channels, k) && Text.Lower(plan.channels[k]) in lines
              && WouldSend(at[Text.Lower(plan.channels[k])], job, e.scripts(k)) {
        OneWorkingChannelIsEnough(at, plan.channels, job, e.scripts, k);
      }
    }
  }

  /** No channel before this one leads to the same queue. */
  predicate FirstToLead(channels: seq<string>, k: nat)
    requires k < |channels|
  {
    forall j :: 0 <= j < k ==> Text.Lower(channels[j]) != Text.Lower(channels[k])
  }

  /** So no momentary incident that cleared untold goes unannounced: in any pass that
      scans one, outside a window its ladder respects, its first rung's channels are
      all asked. */
  lemma TheOwedAreFannedOut(momentary: set<string>, now: Time, scanned: seq<Record>, env: string -> Env,
                            alertFor: (Record, int) -> string, lines: Lines, i: nat, c: string)
    requires i < |scanned| && AllValid(env(scanned[i].id).ladders)
    requires var r, w := scanned[i], Met(momentary, now, scanned, env, i);
             && r.severity in w.ladders && Pending(r) && r.resolvedAt.Some? && r.firstAlertAt.None?
             && DedupKeys.Condition(r.dedupKey) in momentary
             && !(w.ladders[r.severity].respectQuietHours && w.quiet.Contains(now))
             && c in w.ladders[r.severity].stages[0].channels
    ensures var w := Met(momentary, now, scanned, env, i);
            var plan := PlanFor(w.ladders, w.quiet, momentary, scanned[i], now);
            && plan.Deliver? && plan.stage == 0 && c in plan.channels
            && |FannedAll(momentary, now, scanned, env, alertFor, lines).1[i]| == |plan.channels|
  {
    var w := Met(momentary, now, scanned, env, i);
    OwedIsPlannedExactlyWhen(w.ladders, w.quiet, momentary, scanned[i], now);
    EveryPlannedDeliveryIsMade(momentary, now, scanned, env, alertFor, lines, i);
  }
}
