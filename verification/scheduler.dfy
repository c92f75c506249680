/** Escalation: one pass over the live incidents, decided from what is
    persisted and nothing else. */
module Scheduling {
  import opened Base
  import opened Incidents
  import opened Policies
  import opened Quiet
  import opened Stores
  import opened CasLoops
  import opened Deliveries
  import opened Queues
  import DedupKeys
  import Text

  type Ladders = map<Severity, Policy>

  ghost predicate AllValid(ladders: Ladders) {
    forall sev :: sev in ladders ==> Valid(ladders[sev], sev)
  }

  datatype Plan =
    | NoPolicy
    | GiveUp(policy: Policy)
    | Nothing
    | Hold(policy: Policy)
    | Deliver(stage: nat, channels: seq<string>)

  /** Due by the ladder, or owed the one delivery a momentary condition that
      cleared early still gets. */
  function DueOrOwed(p: Policy, momentary: set<string>, r: Record, now: Time): Decision {
    var due := DueNow(p, r, now);
    if due.Fire? then due
    else if DedupKeys.Condition(r.dedupKey) in momentary then OwedFinalDelivery(p, r)
    else NotDue
  }

  function PlanFor(ladders: Ladders, quiet: QuietHours, momentary: set<string>, r: Record, now: Time): Plan {
    if r.severity !in ladders then NoPolicy
    else
      var p := ladders[r.severity];
      if ShouldGiveUp(p, r, now) then GiveUp(p)
      else
        match DueOrOwed(p, momentary, r, now)
        case NotDue => Nothing
        case Fire(stage, channels) =>
          if p.respectQuietHours && quiet.Contains(now) then Hold(p) else Deliver(stage, channels)
  }

  /** No accepted configuration can mute a critical incident or give up on one:
      when it is due, it is delivered. */
  lemma CriticalIsNeverMuted(ladders: Ladders, quiet: QuietHours, momentary: set<string>, r: Record, now: Time)
    requires AllValid(ladders) && r.severity == Critical && Critical in ladders
    ensures var plan := PlanFor(ladders, quiet, momentary, r, now);
            && !plan.Hold? && !plan.GiveUp?
            && (plan.Deliver? <==> DueOrOwed(ladders[Critical], momentary, r, now).Fire?)
  {
  }

  lemma DueStaysDue(p: Policy, momentary: set<string>, r: Record, now: Time, later: Time)
    requires now <= later && DueOrOwed(p, momentary, r, now).Fire?
    ensures DueOrOwed(p, momentary, r, later).Fire?
  {
  }

  /** Held, not dropped: an incident held by the quiet window is planned for
      delivery at its end and at every later instant outside a window, unless
      it had already been alerted and its horizon has passed by then. */
  lemma HeldIsDueAtTheEnd(ladders: Ladders, quiet: QuietHours, momentary: set<string>, r: Record,
                          now: Time, later: Time)
    requires PlanFor(ladders, quiet, momentary, r, now).Hold? && now <= later
    ensures var p := ladders[r.severity];
            var plan := PlanFor(ladders, quiet, momentary, r, later);
            && quiet.Contains(now) && now < quiet.NextEnd(now)
            && (later < quiet.NextEnd(now) ==> plan == Hold(p) || plan == GiveUp(p))
            && (later == quiet.NextEnd(now) || !quiet.Contains(later) ==>
                  plan.Deliver? || plan == GiveUp(p))
            && (plan == GiveUp(p) ==> r.firstAlertAt.Some? && later - r.openedAt > p.giveUpAfter)
  {
    NextEndIsTheEndOfTheWindow(quiet, now);
    DueStaysDue(ladders[r.severity], momentary, r, now, later);
  }

  /** A failed delivery is not an alert: writing it down leaves what is due,
      what is owed and what may be given up on exactly as it was. */
  lemma FailureLeavesEverythingDue(ladders: Ladders, quiet: QuietHours, momentary: set<string>, r: Record,
                                   at: Time, err: string, now: Time)
    ensures PlanFor(ladders, quiet, momentary, r.RecordDeliveryFailure(at, err), now)
            == PlanFor(ladders, quiet, momentary, r, now)
  {
  }

  datatype Stats = Stats(
    ticks: nat, delivered: nat, failed: nat, gaveUp: nat, held: nat, errors: nat,
    lastTickAt: Option<Time>)

  /** What meets a pass when it comes to one incident: the configuration then in
      force, what the channels do about its alert and when that was sent, the text
      of a failed delivery, and what everybody else does to the store meanwhile. */
  datatype Env = Env(
    ladders: Ladders, quiet: QuietHours, sendAt: Time, scripts: nat -> Script, failure: string, world: World)

  predicate CommitFails(out: Outcome) {
    out.Contended? || out.Refused?
  }

  /** What a pass has to go on for one incident. */
  datatype Setting = Setting(ladders: Ladders, quiet: QuietHours, momentary: set<string>, now: Time)

  /** What it does with the incident: the one guarded loop that its plan and the
      answers of the channels call for, if any. */
  function IntentOf(w: Setting, inc: Record, failure: string, results: seq<ChannelResult>): Option<Intent> {
    match PlanFor(w.ladders, w.quiet, w.momentary, inc, w.now)
    case GiveUp(p) => Some(GiveUpOn(inc, w.now, p))
    case Deliver(stage, _) =>
      Some(if SomebodyTold(results) then RecordAlert(inc, w.now, stage) else RecordFailure(w.now, failure))
    case _ => None
  }

  function Counted(intent: Intent, out: Outcome, stats: Stats): Stats {
    match intent
    case GiveUpOn(_, _, _) => if out.Written? then stats.(gaveUp := stats.gaveUp + 1) else stats
    case RecordAlert(_, _, _) => if CommitFails(out) then stats else stats.(delivered := stats.delivered + 1)
    case _ => if CommitFails(out) then stats else stats.(failed := stats.failed + 1)
  }

  /** The table, the counters and whether one incident's evaluation was a fault. */
  function Evaluated(w: Setting, inc: Record, env: Env, results: seq<ChannelResult>, rows: Table, stats: Stats)
    : (Table, Stats, bool)
  {
    match IntentOf(w, inc, env.failure, results)
    case Some(intent) =>
      var (end, out) := LoopFrom(intent, inc.id, env.world, 0);
      (end, Counted(intent, out, stats), CommitFails(out) || intent.RecordFailure?)
    case None =>
      match PlanFor(w.ladders, w.quiet, w.momentary, inc, w.now)
      case Hold(_) => (rows, stats.(held := stats.held + 1), false)
      case plan => (rows, stats, plan.NoPolicy?)
  }

  lemma RetiringIs(w: Setting, inc: Record, env: Env, results: seq<ChannelResult>, rows: Table, stats: Stats)
    requires PlanFor(w.ladders, w.quiet, w.momentary, inc, w.now).GiveUp?
    ensures var intent := GiveUpOn(inc, w.now, PlanFor(w.ladders, w.quiet, w.momentary, inc, w.now).policy);
            var (end, out) := LoopFrom(intent, inc.id, env.world, 0);
            Evaluated(w, inc, env, results, rows, stats) == (end, Counted(intent, out, stats), CommitFails(out))
  {
  }

  lemma AnnouncingIs(w: Setting, inc: Record, env: Env, results: seq<ChannelResult>, rows: Table, stats: Stats)
    requires PlanFor(w.ladders, w.quiet, w.momentary, inc, w.now).Deliver?
    ensures var told, stage := SomebodyTold(results), PlanFor(w.ladders, w.quiet, w.momentary, inc, w.now).stage;
            var intent := if told then RecordAlert(inc, w.now, stage) else RecordFailure(w.now, env.failure);
            var (end, out) := LoopFrom(intent, inc.id, env.world, 0);
            Evaluated(w, inc, env, results, rows, stats)
            == (end, Counted(intent, out, stats), CommitFails(out) || !told)
  {
  }

  /** The whole pass over these incidents, in order, each under the configuration
      it meets; a fault on one is counted and does not stop the rest. */
  function EvaluatedAll(momentary: set<string>, now: Time, scanned: seq<Record>, env: string -> Env,
                        results: seq<seq<ChannelResult>>, rows: Table, stats: Stats): (Table, Stats)
    requires |results| == |scanned|
  {
    if scanned == [] then (rows, stats)
    else
      var n := |scanned| - 1;
      var (before, counted) := EvaluatedAll(momentary, now, scanned[..n], env, results[..n], rows, stats);
      var e := env(scanned[n].id);
      var (end, next, fault) := Evaluated(Setting(e.ladders, e.quiet, momentary, now), scanned[n], e, results[n],
                                          before, counted);
      (end, if fault then next.(errors := next.errors + 1) else next)
  }

  /** An alert is only ever written on a row when somebody was told in this very
      evaluation; whatever else the channels answered, the loop writes a delivery
      error, a close or nothing, at most once and over an unmoved token. */
  lemma OnlyTheToldAreStamped(w: Setting, inc: Record, env: Env, results: seq<ChannelResult>, rows: Table,
                              stats: Stats)
    requires forall k :: Keyed(env.world.atRead(k))
    ensures var end := Evaluated(w, inc, env, results, rows, stats).0;
            || end == rows || LeftByOthers(env.world, end)
            || exists intent: Intent, k: nat, m: Mutation ::
                 && k < ATTEMPTS && WroteAt(intent, inc.id, env.world, k, m, end)
                 && (m.Alert? ==>
                       SomebodyTold(results) && PlanFor(w.ladders, w.quiet, w.momentary, inc, w.now).Deliver?)
  {
    var intent := IntentOf(w, inc, env.failure, results);
    if intent.Some? {
      OneGuardedWrite(intent.value, inc.id, env.world, 0);
      var out := LoopFrom(intent.value, inc.id, env.world, 0).1;
      if out.Written? {
        var k: nat :| k < ATTEMPTS && WroteAt(intent.value, inc.id, env.world, k, out.m,
                                              LoopFrom(intent.value, inc.id, env.world, 0).0);
      }
    }
  }

  /** There are ladders, and every one of them passes validation. */
  method Usable(ladders: Ladders) returns (ok: bool)
    ensures ok <==> ladders != map[] && AllValid(ladders)
  {
    if |ladders| == 0 {
      return false;
    }
    var left := ladders.Keys;
    while left != {}
      invariant left <= ladders.Keys
      invariant forall sev :: sev in ladders && sev !in left ==> Policies.Valid(ladders[sev], sev)
      decreases left
    {
      var sev :| sev in left;
      var err := Validate(ladders[sev], sev);
      if err.Some? {
        return false;
      }
      left := left - {sev};
    }
    return true;
  }

  /** If somebody was told, the queue of one of the plan's channels has sent exactly
      this incident's alert at this stage since. */
  ghost predicate TrulyTold(w: Setting, inc: Record, results: seq<ChannelResult>, alertFor: (Record, int) -> string,
                            at: Time, before: map<string, seq<QueuedJob>>, after: map<string, seq<QueuedJob>>) {
    SomebodyTold(results) ==>
      match PlanFor(w.ladders, w.quiet, w.momentary, inc, w.now)
      case Deliver(stage, channels) => SentOn(before, after, channels, QueuedJob(alertFor(inc, stage), at))
      case _ => false
  }

  /** The fan-out that an incident's plan calls for, if it calls for one: what it
      makes of the queues, and what each of the plan's channels answers. */
  function Fanned(w: Setting, inc: Record, e: Env, alertFor: (Record, int) -> string, lines: Lines)
    : (out: (Lines, seq<ChannelResult>))
    ensures out.0.Keys == lines.Keys
  {
    match PlanFor(w.ladders, w.quiet, w.momentary, inc, w.now)
    case Deliver(stage, channels) => FannedOut(lines, channels, QueuedJob(alertFor(inc, stage), e.sendAt), e.scripts)
    case _ => (lines, [])
  }

  /** ... and that of each of these incidents in turn. */
  function FannedAll(momentary: set<string>, now: Time, scanned: seq<Record>, env: string -> Env,
                     alertFor: (Record, int) -> string, lines: Lines): (out: (Lines, seq<seq<ChannelResult>>))
    ensures out.0.Keys == lines.Keys && |out.1| == |scanned|
  {
    if scanned == [] then (lines, [])
    else
      var n := |scanned| - 1;
      var (before, results) := FannedAll(momentary, now, scanned[..n], env, alertFor, lines);
      var e := env(scanned[n].id);
      var (after, heard) := Fanned(Setting(e.ladders, e.quiet, momentary, now), scanned[n], e, alertFor, before);
      (after, results + [heard])
  }

  lemma OneMoreFannedAll(momentary: set<string>, now: Time, scanned: seq<Record>, env: string -> Env,
                         alertFor: (Record, int) -> string, lines: Lines, inc: Record)
    ensures var (before, results) := FannedAll(momentary, now, scanned, env, alertFor, lines);
            var e := env(inc.id);
            var (after, heard) := Fanned(Setting(e.ladders, e.quiet, momentary, now), inc, e, alertFor, before);
            FannedAll(momentary, now, scanned + [inc], env, alertFor, lines) == (after, results + [heard])
  {
    assert (scanned + [inc])[..|scanned|] == scanned;
  }

  /** Each incident is fanned out as its own plan says, on the queues as those before
      it leave them. */
  lemma {:induction false} EachIsFanned(momentary: set<string>, now: Time, scanned: seq<Record>, env: string -> Env,
                                        alertFor: (Record, int) -> string, lines: Lines, i: nat)
    requires i < |scanned|
    ensures var e := env(scanned[i].id);
            FannedAll(momentary, now, scanned, env, alertFor, lines).1[i]
            == Fanned(Setting(e.ladders, e.quiet, momentary, now), scanned[i], e, alertFor,
                      FannedAll(momentary, now, scanned[..i], env, alertFor, lines).0).1
    decreases |scanned|
  {
    var n := |scanned| - 1;
    if i < n {
      EachIsFanned(momentary, now, scanned[..n], env, alertFor, lines, i);
      assert scanned[..n][..i] == scanned[..i];
    }
  }

  lemma FannedIsTrulyTold(w: Setting, inc: Record, e: Env, alertFor: (Record, int) -> string, lines: Lines)
    ensures var (after, results) := Fanned(w, inc, e, alertFor, lines);
            && Grown(LandedOf(lines), LandedOf(after))
            && TrulyTold(w, inc, results, alertFor, e.sendAt, LandedOf(lines), LandedOf(after))
  {
    match PlanFor(w.ladders, w.quiet, w.momentary, inc, w.now)
    case Deliver(stage, channels) =>
      ToldMeansSent(lines, channels, QueuedJob(alertFor(inc, stage), e.sendAt), e.scripts);
    case _ =>
  }

  /** ... for each of these incidents in turn. */
  ghost predicate AllTrulyTold(momentary: set<string>, now: Time, scanned: seq<Record>, env: string -> Env,
                               results: seq<seq<ChannelResult>>, alertFor: (Record, int) -> string,
                               before: map<string, seq<QueuedJob>>, after: map<string, seq<QueuedJob>>)
    requires |results| == |scanned|
  {
    forall i :: 0 <= i < |scanned| ==>
      var e := env(scanned[i].id);
      TrulyTold(Setting(e.ladders, e.quiet, momentary, now), scanned[i], results[i], alertFor, e.sendAt, before, after)
  }

  lemma TrulyToldStays(w: Setting, inc: Record, results: seq<ChannelResult>, alertFor: (Record, int) -> string,
                       at: Time, first: map<string, seq<QueuedJob>>, before: map<string, seq<QueuedJob>>,
                       after: map<string, seq<QueuedJob>>, last: map<string, seq<QueuedJob>>)
    requires Grown(first, before) && Grown(before, after) && Grown(after, last)
    requires TrulyTold(w, inc, results, alertFor, at, before, after)
    ensures TrulyTold(w, inc, results, alertFor, at, first, last)
  {
    if SomebodyTold(results) {
      var plan := PlanFor(w.ladders, w.quiet, w.momentary, inc, w.now);
      SentOnStays(first, before, after, last, plan.channels, QueuedJob(alertFor(inc, plan.stage), at));
    }
  }

  lemma OneMoreTrulyTold(momentary: set<string>, now: Time, scanned: seq<Record>, env: string -> Env,
                         results: seq<seq<ChannelResult>>, alertFor: (Record, int) -> string, inc: Record,
                         heard: seq<ChannelResult>, first: map<string, seq<QueuedJob>>,
                         before: map<string, seq<QueuedJob>>, after: map<string, seq<QueuedJob>>)
    requires |results| == |scanned| && Grown(first, before) && Grown(before, after)
    requires AllTrulyTold(momentary, now, scanned, env, results, alertFor, first, before)
    requires var e := env(inc.id);
             TrulyTold(Setting(e.ladders, e.quiet, momentary, now), inc, heard, alertFor, e.sendAt, before, after)
    ensures AllTrulyTold(momentary, now, scanned + [inc], env, results + [heard], alertFor, first, after)
  {
    forall i | 0 <= i <= |scanned|
      ensures var one := (scanned + [inc])[i];
              var e := env(one.id);
              TrulyTold(Setting(e.ladders, e.quiet, momentary, now), one, (results + [heard])[i], alertFor, e.sendAt,
                        first, after)
    {
      if i < |scanned| {
        var e := env(scanned[i].id);
        TrulyToldStays(Setting(e.ladders, e.quiet, momentary, now), scanned[i], results[i], alertFor, e.sendAt,
                       first, first, before, after);
      } else {
        var e := env(inc.id);
        TrulyToldStays(Setting(e.ladders, e.quiet, momentary, now), inc, heard, alertFor, e.sendAt,
                       first, before, after, after);
      }
    }
  }

  lemma {:induction false} FannedAllIsTrulyTold(momentary: set<string>, now: Time, scanned: seq<Record>,
                                                env: string -> Env, alertFor: (Record, int) -> string, lines: Lines)
    ensures var (after, results) := FannedAll(momentary, now, scanned, env, alertFor, lines);
            && Grown(LandedOf(lines), LandedOf(after))
            && AllTrulyTold(momentary, now, scanned, env, results, alertFor, LandedOf(lines), LandedOf(after))
  {
    if scanned != [] {
      var n := |scanned| - 1;
      FannedAllIsTrulyTold(momentary, now, scanned[..n], env, alertFor, lines);
      var (before, results) := FannedAll(momentary, now, scanned[..n], env, alertFor, lines);
      var e := env(scanned[n].id);
      var w := Setting(e.ladders, e.quiet, momentary, now);
      FannedIsTrulyTold(w, scanned[n], e, alertFor, before);
      var (after, heard) := Fanned(w, scanned[n], e, alertFor, before);
      OneMoreTrulyTold(momentary, now, scanned[..n], env, results, alertFor, scanned[n], heard, LandedOf(lines),
                       LandedOf(before), LandedOf(after));
      assert scanned[..n] + [scanned[n]] == scanned;
    }
  }

  lemma OneMoreEvaluated(momentary: set<string>, now: Time, scanned: seq<Record>, env: string -> Env,
                         results: seq<seq<ChannelResult>>, rows: Table, stats: Stats, inc: Record,
                         heard: seq<ChannelResult>)
    requires |results| == |scanned|
    ensures var (before, counted) := EvaluatedAll(momentary, now, scanned, env, results, rows, stats);
            var e := env(inc.id);
            var (end, next, fault) := Evaluated(Setting(e.ladders, e.quiet, momentary, now), inc, e, heard, before,
                                                counted);
            EvaluatedAll(momentary, now, scanned + [inc], env, results + [heard], rows, stats)
            == (end, if fault then next.(errors := next.errors + 1) else next)
  {
    assert (scanned + [inc])[..|scanned|] == scanned && (results + [heard])[..|results|] == results;
  }

  /** A pass over these incidents led from the one table, counters and queues to the
      other. */
  ghost predicate PassedOver(momentary: set<string>, now: Time, scanned: seq<Record>, env: string -> Env,
                             results: seq<seq<ChannelResult>>, alertFor: (Record, int) -> string,
                             rows: Table, stats: Stats, end: Table, counted: Stats, lines: Lines, after: Lines)
  {
    && |results| == |scanned|
    && (end, counted) == EvaluatedAll(momentary, now, scanned, env, results, rows, stats)
    && (after, results) == FannedAll(momentary, now, scanned, env, alertFor, lines)
  }

  /** The same for one incident. */
  ghost predicate Came(momentary: set<string>, now: Time, inc: Record, e: Env, heard: seq<ChannelResult>,
                       alertFor: (Record, int) -> string, table: Table, numbers: Stats, end: Table, counted: Stats,
                       lines: Lines, after: Lines)
  {
    var w := Setting(e.ladders, e.quiet, momentary, now);
    var (t, next, fault) := Evaluated(w, inc, e, heard, table, numbers);
    && end == t && counted == (if fault then next.(errors := next.errors + 1) else next)
    && (after, heard) == Fanned(w, inc, e, alertFor, lines)
  }

  lemma ItCame(momentary: set<string>, now: Time, inc: Record, e: Env, heard: seq<ChannelResult>,
               alertFor: (Record, int) -> string, table: Table, numbers: Stats, end: Table, next: Stats, fault: bool,
               lines: Lines, after: Lines)
    requires var w := Setting(e.ladders, e.quiet, momentary, now);
             && (end, next, fault) == Evaluated(w, inc, e, heard, table, numbers)
             && (after, heard) == Fanned(w, inc, e, alertFor, lines)
    ensures Came(momentary, now, inc, e, heard, alertFor, table, numbers, end,
                 if fault then next.(errors := next.errors + 1) else next, lines, after)
  {
  }

  lemma OneMorePassed(momentary: set<string>, now: Time, scanned: seq<Record>, env: string -> Env,
                      results: seq<seq<ChannelResult>>, alertFor: (Record, int) -> string,
                      rows: Table, stats: Stats, table: Table, numbers: Stats, lines: Lines, before: Lines,
                      inc: Record, heard: seq<ChannelResult>, end: Table, counted: Stats, after: Lines)
    requires PassedOver(momentary, now, scanned, env, results, alertFor, rows, stats, table, numbers, lines, before)
    requires Came(momentary, now, inc, env(inc.id), heard, alertFor, table, numbers, end, counted, before, after)
    ensures PassedOver(momentary, now, scanned + [inc], env, results + [heard], alertFor, rows, stats, end, counted,
                       lines, after)
  {
    OneMoreEvaluated(momentary, now, scanned, env, results, rows, stats, inc, heard);
    OneMoreFannedAll(momentary, now, scanned, env, alertFor, lines, inc);
  }

  /** Nothing starts on a configuration that could not be accepted live. */
  method NewScheduler(s: Store, d: Delivery, ladders: Ladders, q: QuietHours, m: set<string>)
    returns (r: Option<Scheduler>)
    requires d.Valid()
    ensures r.Some? <==> ladders != map[] && AllValid(ladders) && q.Valid()
    ensures r.Some? ==> fresh(r.value) && r.value.Valid() && r.value.store == s && r.value.delivery == d
                        && r.value.policies == ladders && r.value.quiet == q && r.value.momentary == m
  {
    var ok := Usable(ladders);
    if !ok || !q.Valid() {
      return None;
    }
    var made := new Scheduler(s, d, ladders, q, m);
    return Some(made);
  }

  class Scheduler {
    const store: Store
    const delivery: Delivery
    const momentary: set<string>
    var policies: Ladders
    var quiet: QuietHours
    var stats: Stats

    ghost predicate Valid()
      reads this`policies, this`quiet
    {
      policies != map[] && AllValid(policies) && quiet.Valid() && delivery.Valid()
    }

    /** What NewScheduler builds once it has accepted everything. */
    constructor (s: Store, d: Delivery, ladders: Ladders, q: QuietHours, m: set<string>)
      requires ladders != map[] && AllValid(ladders) && q.Valid() && d.Valid()
      ensures Valid() && store == s && delivery == d && policies == ladders && quiet == q && momentary == m
      ensures stats == Stats(0, 0, 0, 0, 0, 0, None)
    {
      store, delivery, policies, quiet, momentary := s, d, ladders, q, m;
      stats := Stats(0, 0, 0, 0, 0, 0, None);
    }

    /** Replaces the ladders whole, or refuses and changes nothing. */
    method SetPolicies(ladders: Ladders) returns (ok: bool)
      requires Valid()
      modifies this`policies
      ensures Valid()
      ensures ok <==> ladders != map[] && AllValid(ladders)
      ensures policies == if ok then ladders else old(policies)
    {
      ok := Usable(ladders);
      if ok {
        policies := ladders;
      }
    }

    method SetQuietHours(q: QuietHours) returns (ok: bool)
      requires Valid()
      modifies this`quiet
      ensures Valid()
      ensures ok <==> q.Valid()
      ensures quiet == if ok then q else old(quiet)
    {
      if !q.Valid() {
        return false;
      }
      quiet := q;
      return true;
    }

    function Now(now: Time): Setting
      reads this`policies, this`quiet
    {
      Setting(policies, quiet, momentary, now)
    }

    method Retire(inc: Record, p: Policy, now: Time, env: Env) returns (err: bool)
      modifies this`stats, store
      ensures var (end, out) := LoopFrom(GiveUpOn(inc, now, p), inc.id, env.world, 0);
              && store.rows == end && err == CommitFails(out)
              && stats == Counted(GiveUpOn(inc, now, p), out, old(stats))
    {
      var out := Commit(store, inc.id, GiveUpOn(inc, now, p), env.world);
      if out.Written? {
        stats := stats.(gaveUp := stats.gaveUp + 1);
      }
      return CommitFails(out);
    }

    /** Writes down on a fresh copy what came of a delivery. */
    method WriteDown(inc: Record, stage: int, now: Time, told: bool, env: Env) returns (err: bool)
      modifies this`stats, store
      ensures var intent := if told then RecordAlert(inc, now, stage) else RecordFailure(now, env.failure);
              var (end, out) := LoopFrom(intent, inc.id, env.world, 0);
              && store.rows == end && err == (CommitFails(out) || !told)
              && stats == Counted(intent, out, old(stats))
    {
      if !told {
        var out := Commit(store, inc.id, RecordFailure(now, env.failure), env.world);
        if !CommitFails(out) {
          stats := stats.(failed := stats.failed + 1);
        }
        return true;
      }
      var out := Commit(store, inc.id, RecordAlert(inc, now, stage), env.world);
      if CommitFails(out) {
        return true;
      }
      stats := stats.(delivered := stats.delivered + 1);
      return false;
    }

    /** Delivers through the channels' own queues, and writes down what came of it. */
    method Announce(inc: Record, stage: int, channels: seq<string>, now: Time, env: Env)
      returns (err: bool, results: seq<ChannelResult>)
      requires delivery.Valid()
      modifies this`stats, store, delivery.queues.Values
      ensures var told := SomebodyTold(results);
              var intent := if told then RecordAlert(inc, now, stage) else RecordFailure(now, env.failure);
              var (end, out) := LoopFrom(intent, inc.id, env.world, 0);
              && store.rows == end && err == (CommitFails(out) || !told)
              && stats == Counted(intent, out, old(stats))
      ensures (delivery.View(), results)
              == FannedOut(old(delivery.View()), channels, QueuedJob(delivery.alertFor(inc, stage), env.sendAt),
                           env.scripts)
    {
      var told;
      told, results := delivery.Deliver(inc, stage, channels, env.sendAt, env.scripts);
      ghost var view := delivery.View();
      err := WriteDown(inc, stage, now, told, env);
      assert delivery.View() == view;
    }

    /** Due by the ladder, or owed its one delivery by a momentary condition. */
    method Due(pol: Policy, inc: Record, now: Time) returns (due: Decision)
      ensures due == DueOrOwed(pol, momentary, inc, now)
    {
      due := DueNow(pol, inc, now);
      if due.NotDue? && DedupKeys.Condition(inc.dedupKey) in momentary {
        due := OwedFinalDelivery(pol, inc);
      }
    }

    /** Evaluates one scanned incident. An alert is written down only when a
        configured queue has just sent exactly that alert. */
    method Process(inc: Record, now: Time, env: Env) returns (err: bool, results: seq<ChannelResult>)
      requires delivery.Valid()
      modifies this`stats, store, delivery.queues.Values
      ensures (store.rows, stats, err) == Evaluated(Now(now), inc, env, results, old(store.rows), old(stats))
      ensures (delivery.View(), results) == Fanned(Now(now), inc, env, delivery.alertFor, old(delivery.View()))
      ensures TrulyTold(Now(now), inc, results, delivery.alertFor, env.sendAt,
                        old(delivery.Landed()), delivery.Landed())
    {
      ghost var w := Now(now);
      FannedIsTrulyTold(w, inc, env, delivery.alertFor, delivery.View());
      ghost var plan := PlanFor(policies, quiet, momentary, inc, now);
      results := [];
      if inc.severity !in policies {
        return true, [];
      }
      var pol := policies[inc.severity];
      if ShouldGiveUp(pol, inc, now) {
        assert plan == GiveUp(pol);
        RetiringIs(w, inc, env, [], store.rows, stats);
        err := Retire(inc, pol, now, env);
        return;
      }
      var due := Due(pol, inc, now);
      if due.NotDue? {
        return false, [];
      }
      if pol.respectQuietHours && quiet.Contains(now) {
        stats := stats.(held := stats.held + 1);
        return false, [];
      }
      assert plan == Deliver(due.stage, due.channels);
      ghost var rows, counted := store.rows, stats;
      err, results := Announce(inc, due.stage, due.channels, now, env);
      AnnouncingIs(w, inc, env, results, rows, counted);
    }

    /** A live reconfiguration by somebody else, of ladders and a window that were
        accepted. */
    method Elsewhere(ladders: Ladders, q: QuietHours)
      requires ladders != map[] && AllValid(ladders) && q.Valid() && delivery.Valid()
      modifies this`policies, this`quiet
      ensures Valid() && policies == ladders && quiet == q
    {
      policies, quiet := ladders, q;
    }

    /** Comes to one incident, under the configuration then in force, and counts a
        fault. */
    method ComeTo(inc: Record, now: Time, e: Env) returns (heard: seq<ChannelResult>)
      requires e.ladders != map[] && AllValid(e.ladders) && e.quiet.Valid() && delivery.Valid()
      modifies this`policies, this`quiet, this`stats, store, delivery.queues.Values
      ensures Valid()
      ensures Came(momentary, now, inc, e, heard, delivery.alertFor, old(store.rows), old(stats), store.rows, stats,
                   old(delivery.View()), delivery.View())
    {
      Elsewhere(e.ladders, e.quiet);
      assert Now(now) == Setting(e.ladders, e.quiet, momentary, now);
      ghost var rows, counted, lines := store.rows, stats, delivery.View();
      var err;
      err, heard := Process(inc, now, e);
      ItCame(momentary, now, inc, e, heard, delivery.alertFor, rows, counted, store.rows, stats, err, lines,
             delivery.View());
      if err {
        stats := stats.(errors := stats.errors + 1);
      }
    }

    /** Comes to each of these incidents in turn. */
    method PassOver(scanned: seq<Record>, now: Time, env: string -> Env) returns (results: seq<seq<ChannelResult>>)
      requires Valid()
      requires forall id :: env(id).ladders != map[] && AllValid(env(id).ladders) && env(id).quiet.Valid()
      modifies this`policies, this`quiet, this`stats, store, delivery.queues.Values
      ensures Valid()
      ensures PassedOver(momentary, now, scanned, env, results, delivery.alertFor,
                         old(store.rows), old(stats), store.rows, stats, old(delivery.View()), delivery.View())
    {
      ghost var rows, counted, lines := store.rows, stats, delivery.View();
      results := [];
      for i := 0 to |scanned|
        invariant Valid()
        invariant PassedOver(momentary, now, scanned[..i], env, results, delivery.alertFor,
                             rows, counted, store.rows, stats, lines, delivery.View())
      {
        ghost var before, table, numbers := delivery.View(), store.rows, stats;
        var heard := ComeTo(scanned[i], now, env(scanned[i].id));
        OneMorePassed(momentary, now, scanned[..i], env, results, delivery.alertFor, rows, counted, table, numbers,
                      lines, before, scanned[i], heard, store.rows, stats, delivery.View());
        assert scanned[..i + 1] == scanned[..i] + [scanned[i]];
        results := results + [heard];
      }
      assert scanned[..|scanned|] == scanned;
    }

    method Ticked(now: Time)
      modifies this`stats
      ensures stats == old(stats).(ticks := old(stats).ticks + 1, lastTickAt := Some(now))
    {
      stats := stats.(ticks := stats.ticks + 1, lastTickAt := Some(now));
    }

    /** One pass: every row that was live at the scan is evaluated once, from the
        copy that was scanned, under one reading of the clock and under the
        configuration in force when the pass comes to it. Wherever somebody was
        told, a configured queue has sent exactly that incident's alert. */
    method Tick(now: Time, env: string -> Env) returns (scanned: seq<Record>, results: seq<seq<ChannelResult>>)
      requires Valid() && Keyed(store.rows)
      requires forall id :: env(id).ladders != map[] && AllValid(env(id).ladders) && env(id).quiet.Valid()
      modifies this`policies, this`quiet, this`stats, store, delivery.queues.Values
      ensures Valid()
      ensures Distinct(scanned) && |results| == |scanned|
      ensures forall r :: r in scanned <==>
                r.id in old(store.rows) && old(store.rows)[r.id] == r && !r.Terminal()
      ensures var (end, counted) := EvaluatedAll(momentary, now, scanned, env, results, old(store.rows), old(stats));
              && store.rows == end
              && stats == counted.(ticks := counted.ticks + 1, lastTickAt := Some(now))
      ensures (delivery.View(), results)
              == FannedAll(momentary, now, scanned, env, delivery.alertFor, old(delivery.View()))
      ensures AllTrulyTold(momentary, now, scanned, env, results, delivery.alertFor,
                           old(delivery.Landed()), delivery.Landed())
    {
      scanned := store.Active();
      FannedAllIsTrulyTold(momentary, now, scanned, env, delivery.alertFor, delivery.View());
      results := PassOver(scanned, now, env);
      Ticked(now);
    }
  }
}
