/** Concrete runs that show where the engine's guarantees stop, each beside the
    exact condition under which they hold. */
module Limits {
  import opened Base
  import opened Incidents
  import opened Policies
  import opened Quiet
  import opened Queues
  import opened Stores
  import opened CasLoops
  import opened Deliveries
  import opened Scheduling
  import opened AlarmEngine
  import opened Races
  import opened Honesty
  import opened Reaching
  import opened PromptPasses
  import opened AlertBound

  function OneRung(giveUp: Duration): Policy {
    Policy("one rung", [Stage(0, ["ntfy"])], 0, giveUp, false)
  }

  function Row(): Record {
    OpenRecord("i", "protect/door/open", High, "protect", "Door open", "", 10)
  }

  function SiteWith(r: Record, now: Time): Site {
    Site(map["i" := r], {"i"}, now, map[High := OneRung(5), Critical := OneRung(0)],
         QuietHours(false, None, None, None), {}, map[], [])
  }

  // ---- A recorded alert can be lost -----------------------------------------

  function Start(): Site {
    SiteWith(Row(), 10)
  }

  function AfterTelling(): Site {
    ToldOf(Start(), Row(), 0)
  }

  lemma TheRowIsDue()
    ensures PlanFor(Start().ladders, Start().quiet, Start().momentary, Row(), 10).Deliver?
    ensures PlanFor(Start().ladders, Start().quiet, Start().momentary, Row(), 10).stage == 0
  {
    var p := OneRung(5);
    assert Start().ladders[Row().severity] == p;
    assert NextDue(p, Row()) == DueAt(10, 0);
    assert HighestRungDue(p.stages, 10, 10) == 0;
    assert DueNow(p, Row(), 10).Fire?;
  }

  lemma TellingHappens()
    ensures CanReach(Start(), AfterTelling(), true)
  {
    Here(Start(), true);
    TheRowIsDue();
    var plan := PlanFor(Start().ladders, Start().quiet, Start().momentary, Row(), 10);
    APassTells(Start(), Start(), Row(), 0, plan.channels, true);
  }

  /** Another writer reads under the token, the worker 0 decides and swaps
      without moving it on, and the other one swaps at the next instant. */
  lemma OverwriteAtTheSameToken(s: Site, via: string)
    requires 0 in s.workers && s.workers[0].Trying? && s.workers[0].id == "i" && 2 !in s.workers
    requires s.clock == 10 && s.rows == map["i" := Row()] && !Declines(s.workers[0].intent, Row())
    requires Apply(Change(s.workers[0].intent, 10), Row()).updatedAt == 10
    ensures exists t :: CanReach(s, t, true)
              && t.rows == map["i" := Row().Acknowledge(11, via)]
              && t.log == s.log + Recorded(s.workers[0].intent, "i", Row(), Change(s.workers[0].intent, 10))
                          + [Acked("i", 11, via)]
  {
    var w := s.workers[0];
    var change := Change(w.intent, 10);
    Here(s, true);
    OnByRequest(s, s, 2, "i", Tap(via), true);
    var s1 := With(s, 2, Trying("i", Tap(via), 0));
    OnByRead(s, s1, 0, true);
    var s2 := With(s1, 0, Got("i", w.intent, w.attempt, Row()));
    OnByRead(s, s2, 2, true);
    var s3 := With(s2, 2, Got("i", Tap(via), 0, Row()));
    OnByDecide(s, s3, 0, true);
    var s4 := With(s3, 0, Ready("i", w.intent, w.attempt, Row(), change));
    OnBySwap(s, s4, 0, true);
    var log := s.log + Recorded(w.intent, "i", Row(), change);
    var s5 := Without(s4, 0).(rows := s4.rows["i" := Apply(change, Row())], log := log);
    OnByClock(s, s5, 11, true);
    OnByDecide(s, s5.(clock := 11), 2, true);
    var s6 := With(s5.(clock := 11), 2, Ready("i", Tap(via), 0, Row(), Ack(11, via)));
    OnBySwap(s, s6, 2, true);
    assert s6.rows["i" := Row().Acknowledge(11, via)] == map["i" := Row().Acknowledge(11, via)];
  }

  /** A tick stamps its alert with the time it began, so the alert may fail to
      move the token on, and a tap that had read the row before it then erases
      the record of it, although somebody was told. Nothing but swaps happens. */
  lemma ARecordedAlertCanBeLost()
    ensures exists t :: CanReach(Start(), t, true)
              && Alerted("i", 10, 0) in t.log
              && t.rows == map["i" := Row().Acknowledge(11, "push")]
              && t.rows["i"].alertCount == 0 && t.rows["i"].lastAlertAt == None
  {
    TellingHappens();
    OverwriteAtTheSameToken(AfterTelling(), "push");
    var t :| CanReach(AfterTelling(), t, true)
             && t.rows == map["i" := Row().Acknowledge(11, "push")]
             && t.log == AfterTelling().log + [Alerted("i", 10, 0)] + [Acked("i", 11, "push")];
    BothLegs(Start(), AfterTelling(), t, true);
    assert t.log[1] == Alerted("i", 10, 0);
  }

  /** On a tie the same happens to an acknowledgement: a tap whose clock reads
      the instant the row already carries is overwritten by a second one, and
      the hook fires twice for one incident. */
  lemma ATiedAcknowledgementCanBeLost()
    ensures exists t :: CanReach(Start(), t, true)
              && t.log == [Acked("i", 10, "push"), Acked("i", 11, "email")]
              && t.rows == map["i" := Row().Acknowledge(11, "email")]
  {
    Here(Start(), true);
    OnByRequest(Start(), Start(), 0, "i", Tap("push"), true);
    var s := With(Start(), 0, Trying("i", Tap("push"), 0));
    OverwriteAtTheSameToken(s, "email");
    var t :| CanReach(s, t, true) && t.rows == map["i" := Row().Acknowledge(11, "email")]
             && t.log == s.log + [Acked("i", 10, "push")] + [Acked("i", 11, "email")];
    BothLegs(Start(), s, t, true);
  }

  /** A restart between a delivery and its record makes the next pass deliver
      again: somebody is told twice about an incident on which no alert is
      recorded, by a ladder that allows one. */
  lemma ToldTwiceAndNeverRecorded()
    ensures exists t :: CanReach(Start(), t, true)
              && t.log == [Told("i", 10, 0, HEARD), Told("i", 10, 0, HEARD)]
              && t.rows == map["i" := Row()] && t.rows["i"].alertCount == 0
              && t.ladders == Start().ladders && Allowance(OneRung(5), 10, t.clock) == 1
  {
    TellingHappens();
    OnByRestart(Start(), AfterTelling(), true);
    var restarted := AfterTelling().(workers := map[]);
    TheRowIsDue();
    var plan := PlanFor(Start().ladders, Start().quiet, Start().momentary, Row(), 10);
    APassTells(Start(), restarted, Row(), 0, plan.channels, true);
    var t := ToldOf(restarted, Row(), 0);
    assert t.log == [Told("i", 10, 0, HEARD), Told("i", 10, 0, HEARD)];
  }

  // ---- A stale copy can buy one alert more -------------------------------------

  function AlertedAt(r: Record, at: Time): Record {
    r.RecordAlert(at, 0)
  }

  /** The engine read the row twice: before its first alert and after it. */
  function TwoReads(): Site {
    Start().(workers := map[2 := EngineRead("i", Row()), 3 := EngineRead("i", AlertedAt(Row(), 10))],
             rows := map["i" := AlertedAt(Row(), 10)],
             log := [Told("i", 10, 0, HEARD), Alerted("i", 10, 0)])
  }

  lemma TheEngineReadsTwice()
    ensures CanReach(Start(), TwoReads(), false)
  {
    var s := Start();
    Here(s, false);
    OnByEngineRead(s, s, 2, "i");
    var one := With(s, 2, EngineRead("i", Row()));
    TheRowIsDue();
    var plan := PlanFor(s.ladders, s.quiet, s.momentary, Row(), 10);
    APassRecords(s, one, Row(), 0, plan.channels, false);
    var recorded := RecordedOn(one, Row(), 0);
    OnByEngineRead(s, recorded, 3, "i");
    assert With(recorded, 3, EngineRead("i", AlertedAt(Row(), 10))).workers == TwoReads().workers;
    assert With(recorded, 3, EngineRead("i", AlertedAt(Row(), 10))).log == TwoReads().log;
  }

  function Risen(r: Record, at: Time): Record {
    EngineRow(FoldPut(at, Critical, ""), r)
  }

  /** The older read is written back: the alert is gone from the row. */
  function Forgotten(): Site {
    TwoReads().(workers := map[3 := EngineRead("i", AlertedAt(Row(), 10))], rows := map["i" := Risen(Row(), 10)],
                clock := 11)
  }

  lemma TheOlderReadIsWritten()
    ensures CanReach(Start(), Forgotten().(clock := 10), false)
  {
    TheEngineReadsTwice();
    var s := TwoReads();
    OnByEnginePut(Start(), s, 2, FoldPut(10, Critical, ""));
    assert s.rows["i" := Risen(Row(), 10)] == Forgotten().rows;
    assert s.workers - {2} == Forgotten().workers;
  }

  lemma TheAlertIsForgotten()
    ensures CanReach(Start(), Forgotten(), false)
  {
    TheOlderReadIsWritten();
    OnByClock(Start(), Forgotten().(clock := 10), 11, false);
  }

  lemma TheRisenRowIsDue()
    ensures PlanFor(Forgotten().ladders, Forgotten().quiet, Forgotten().momentary, Risen(Row(), 10), 11)
            == Deliver(0, ChannelsUpTo(OneRung(0), 0))
  {
    var p := OneRung(0);
    assert Forgotten().ladders[Critical] == p;
    assert HighestRungDue(p.stages, 10, 11) == 0;
    assert DueNow(p, Risen(Row(), 10), 11) == Fire(0, ChannelsUpTo(p, 0));
  }

  /** A pass scans that row and tells somebody; then the later read is written
      back, with the first alert in it. */
  function Remembered(): Site {
    ToldOf(Forgotten(), Risen(Row(), 10), 0)
    .(workers := map[0 := Trying("i", RecordAlert(Risen(Row(), 10), 11, 0), 0)],
      rows := map["i" := Risen(AlertedAt(Row(), 10), 11)])
  }

  lemma SomebodyIsTold()
    ensures CanReach(Start(), ToldOf(Forgotten(), Risen(Row(), 10), 0), false)
  {
    TheAlertIsForgotten();
    TheRisenRowIsDue();
    APassTells(Start(), Forgotten(), Risen(Row(), 10), 0, ChannelsUpTo(OneRung(0), 0), false);
  }

  lemma TheLaterReadIsPutBack()
    ensures var told := ToldOf(Forgotten(), Risen(Row(), 10), 0);
            Without(told, 3).(rows := told.rows["i" := Risen(AlertedAt(Row(), 10), 11)]) == Remembered()
  {
    var told := ToldOf(Forgotten(), Risen(Row(), 10), 0);
    assert told.rows["i" := Risen(AlertedAt(Row(), 10), 11)] == Remembered().rows;
    assert told.workers - {3} == Remembered().workers;
  }

  lemma TheAlertIsRemembered()
    ensures CanReach(Start(), Remembered(), false)
  {
    SomebodyIsTold();
    OnByEnginePut(Start(), ToldOf(Forgotten(), Risen(Row(), 10), 0), 3, FoldPut(11, Critical, ""));
    TheLaterReadIsPutBack();
  }

  /** One pass at a time, and no restart; but one stale plain write takes an alert
      off the row before the scan, and another puts it back before the next alert
      is recorded. The row then records two, on a ladder that allows one. */
  lemma AStaleCopyBuysOneAlertMore()
    ensures exists t :: CanReach(Start(), t, false)
              && "i" in t.rows && t.rows["i"].alertCount == 2
              && t.ladders == Start().ladders && Allowance(OneRung(0), 10, t.clock) == 1
  {
    TheAlertIsRemembered();
    ThenRecords(Start(), Remembered(), Risen(Row(), 10), 11, 0, Risen(AlertedAt(Row(), 10), 11), false);
  }

  // ---- The rule engine's plain writes -----------------------------------------

  /** The site after a whole tap. */
  function Tapped(s: Site, via: string, at: Time): Site
    requires "i" in s.rows
  {
    s.(rows := s.rows["i" := s.rows["i"].Acknowledge(at, via)], clock := at,
       log := s.log + [Acked("i", at, via)])
  }

  function TapReady(s: Site, k: nat, via: string, at: Time): Site
    requires "i" in s.rows
  {
    s.(workers := s.workers[k := Ready("i", Tap(via), 0, s.rows["i"], Ack(at, via))], clock := at)
  }

  lemma ATapIsDecided(s: Site, k: nat, via: string, at: Time)
    requires k !in s.workers && "i" in s.rows && s.clock < at
    requires s.rows["i"].ackedAt.None? && !s.rows["i"].Terminal()
    ensures CanReach(s, TapReady(s, k, via, at), false)
  {
    var r := s.rows["i"];
    Here(s, false);
    OnByRequest(s, s, k, "i", Tap(via), false);
    var s1 := With(s, k, Trying("i", Tap(via), 0));
    OnByRead(s, s1, k, false);
    var s2 := With(s1, k, Got("i", Tap(via), 0, r));
    OnByClock(s, s2, at, false);
    OnByDecide(s, s2.(clock := at), k, false);
    assert s2.workers[k := Ready("i", Tap(via), 0, r, Ack(at, via))] == TapReady(s, k, via, at).workers;
  }

  /** A whole tap, with nothing in between. */
  lemma ATapLands(s: Site, k: nat, via: string, at: Time)
    requires k !in s.workers && s.rows.Keys == {"i"} && s.clock < at
    requires s.rows["i"].id == "i" && s.rows["i"].ackedAt.None? && !s.rows["i"].Terminal()
    ensures CanReach(s, Tapped(s, via, at), false)
  {
    ATapIsDecided(s, k, via, at);
    var ready := TapReady(s, k, via, at);
    OnBySwap(s, ready, k, false);
    assert Without(ready, k).workers == s.workers;
  }

  /** A clear that read the row before a tap landed and writes it after, by a
      plain write, erases the acknowledgement although the tap had moved the
      token on and its hook had fired. */
  lemma APlainWriteErasesAnAcknowledgement()
    ensures exists t :: CanReach(Start(), t, false)
              && t.log == [Acked("i", 11, "push")]
              && t.rows == map["i" := Row().Resolve(11)] && t.rows["i"].ackedAt == None
  {
    var s0 := Start();
    Here(s0, false);
    OnByEngineRead(s0, s0, 1, "i");
    var s1 := With(s0, 1, EngineRead("i", Row()));
    ATapLands(s1, 2, "push", 11);
    var s2 := Tapped(s1, "push", 11);
    BothLegs(s0, s1, s2, false);
    AStaleClearLands(s0, s2);
  }

  lemma AStaleClearLands(from: Site, s: Site)
    requires CanReach(from, s, false) && 1 in s.workers && s.workers[1] == EngineRead("i", Row())
    requires s.rows.Keys == {"i"} && s.clock == 11
    ensures exists t :: CanReach(from, t, false) && t.log == s.log && t.rows == map["i" := Row().Resolve(11)]
  {
    OnByEnginePut(from, s, 1, ResolvePut(11));
    var row := EngineRow(ResolvePut(11), Row());
    assert s.rows["i" := row] == map["i" := row];
  }

  /** The write has something to add to the copy, and so stamps it. */
  predicate AddsTo(e: EngineWrite, copy: Record) {
    match e
    case ResolvePut(_) => !copy.Terminal() && copy.resolvedAt.None?
    case SupersedePut(_, _) => copy.closedAt.None?
    case FoldPut(_, _, _) => true
  }

  predicate SetsBack(row: Record, e: EngineWrite, copy: Record) {
    if e.FoldPut? then e.at < row.updatedAt
    else copy.updatedAt < row.updatedAt && (AddsTo(e, copy) ==> e.at < row.updatedAt)
  }

  /** Exactly when a plain write sets the token back: a fold when it is stamped
      before the stored token, whatever it read; a clear or a supersession when the
      token has moved since it read the row, and it adds nothing to its copy or is
      stamped before where the token is now. */
  lemma WhenAPlainWriteSetsTheTokenBack(s: Site, k: nat, e: EngineWrite)
    requires PutLands(s, k, e) && s.workers[k].copy.id in s.rows
    ensures var copy := s.workers[k].copy;
            var row := s.rows[copy.id];
            Next(s, EnginePuts(k, e)).rows[copy.id].updatedAt < row.updatedAt
            <==> SetsBack(row, e, copy)
  {
    EngineRowStamps(e, s.workers[k].copy);
  }

  /** Everything `row` recorded is in the copy a plain write starts from, or is
      what the write itself puts there. */
  predicate CopyHasAll(row: Record, e: EngineWrite, copy: Record) {
    && copy.dedupKey == row.dedupKey && copy.openedAt == row.openedAt && copy.predecessorID == row.predecessorID
    && (row.firstAlertAt.Some? ==> copy.firstAlertAt == row.firstAlertAt)
    && (row.lastAlertAt.Some? ==> copy.lastAlertAt.Some?)
    && row.alertCount <= copy.alertCount && row.stage <= copy.stage && row.occurrences <= copy.occurrences
    && (row.ackedAt.Some? ==> copy.ackedAt == row.ackedAt && copy.ackVia == row.ackVia)
    && (row.resolvedAt.Some? ==>
          || copy.resolvedAt == row.resolvedAt
          || (e.ResolvePut? && copy.resolvedAt.None? && !copy.Terminal() && row.resolvedAt == Some(e.at)))
    && (row.closedAt.Some? ==>
          || (copy.closedAt == row.closedAt && copy.closeReason == row.closeReason)
          || (e.SupersedePut? && copy.closedAt.None? && row.closedAt == Some(e.at) && row.closeReason == e.reason))
    && (row.severity.Rank() <= copy.severity.Rank()
        || (e.FoldPut? && row.severity.Rank() <= e.severity.Rank()))
    && !SetsBack(row, e, copy)
    && (row.Terminal() ==> copy.alertCount == row.alertCount && copy.lastAlertAt == row.lastAlertAt
                           && copy.occurrences == row.occurrences)
  }

  /** Exactly what a plain write loses: it keeps everything a row recorded if and
      only if nothing of it is missing from the copy that the write started
      from, but for the clear, the close or the severity that it supplies. */
  lemma WhatAPlainWriteKeeps(row: Record, e: EngineWrite, copy: Record)
    requires row.id == copy.id
    ensures row.KeptBy(EngineRow(e, copy)) <==> CopyHasAll(row, e, copy)
  {
    match e
    case ResolvePut(at) =>
    case SupersedePut(at, reason) =>
    case FoldPut(at, sev, title) =>
  }

  /** In particular it changes what the stored row says about its acknowledgement
      exactly if that was different when the copy was read. */
  lemma WhenAPlainWriteErases(s: Site, k: nat, e: EngineWrite)
    requires PutLands(s, k, e) && s.workers[k].copy.id in s.rows
    ensures var copy := s.workers[k].copy;
            var was, now := s.rows[copy.id], Next(s, EnginePuts(k, e)).rows[copy.id];
            (now.ackedAt, now.ackVia) != (was.ackedAt, was.ackVia)
            <==> (copy.ackedAt, copy.ackVia) != (was.ackedAt, was.ackVia)
  {
    EngineRowStamps(e, s.workers[k].copy);
  }

  // ---- A critical incident can be closed ----------------------------------------

  function OldAlarm(): Record {
    Row().(firstAlertAt := Some(10), lastAlertAt := Some(10), alertCount := 1)
  }

  function Overdue(): Site {
    With(SiteWith(OldAlarm(), 20), 1, Trying("i", GiveUpOn(OldAlarm(), 20, OneRung(5)), 0))
  }

  lemma ATickMeansToGiveUp()
    ensures CanReach(SiteWith(OldAlarm(), 20), Overdue(), false)
  {
    var s0 := SiteWith(OldAlarm(), 20);
    Here(s0, false);
    OnByScan(s0, s0, 1, "i", 20, false);
    var s1 := With(s0, 1, Scanned(OldAlarm(), 20));
    assert ShouldGiveUp(OneRung(5), OldAlarm(), 20);
    OnByProcess(s0, s1, 1, false);
    assert Processed(s1, 1, OldAlarm(), 20).workers == Overdue().workers;
  }

  function Raised(): Record {
    OldAlarm().(severity := Critical, updatedAt := 20)
  }

  function RaisedSite(): Site {
    Overdue().(rows := map["i" := Raised()])
  }

  lemma TheEngineRaisesIt()
    ensures CanReach(Overdue(), RaisedSite(), false)
  {
    var s := Overdue();
    Here(s, false);
    OnByEngineRead(s, s, 2, "i");
    var s1 := With(s, 2, EngineRead("i", OldAlarm()));
    AFoldLands(s, s1, 2);
    assert Without(s1, 2).workers == s.workers;
  }

  lemma AFoldLands(from: Site, s: Site, k: nat)
    requires CanReach(from, s, false) && k in s.workers && s.workers[k] == EngineRead("i", OldAlarm())
    requires s.rows.Keys == {"i"} && s.clock == 20
    ensures CanReach(from, Without(s, k).(rows := map["i" := Raised()]), false)
  {
    OnByEnginePut(from, s, k, FoldPut(20, Critical, ""));
    assert EngineRow(FoldPut(20, Critical, ""), OldAlarm()) == Raised();
    assert s.rows["i" := Raised()] == map["i" := Raised()];
  }

  function GivenUp(): Record {
    Raised().Close(20, GiveUpReason(OneRung(5)))
  }

  function GivenUpSite(): Site {
    RaisedSite().(rows := map["i" := GivenUp()], workers := map[],
                  log := [GaveUp(OldAlarm(), Raised(), 20, OneRung(5))])
  }

  function Deciding(): Site {
    RaisedSite().(workers := map[1 := Ready("i", GiveUpOn(OldAlarm(), 20, OneRung(5)), 0, Raised(),
                                            Mutation.Close(20, GiveUpReason(OneRung(5))))])
  }

  lemma TheOldHorizonDecides()
    ensures CanReach(RaisedSite(), Deciding(), false)
  {
    var s := RaisedSite();
    var intent := GiveUpOn(OldAlarm(), 20, OneRung(5));
    Here(s, false);
    OnByRead(s, s, 1, false);
    var s1 := With(s, 1, Got("i", intent, 0, Raised()));
    assert ShouldGiveUp(OneRung(5), Raised(), 20);
    OnByDecide(s, s1, 1, false);
    assert With(s1, 1, Deciding().workers[1]).workers == Deciding().workers;
  }

  lemma TheOldHorizonClosesIt()
    ensures CanReach(RaisedSite(), GivenUpSite(), false)
  {
    TheOldHorizonDecides();
    var s := Deciding();
    OnBySwap(RaisedSite(), s, 1, false);
    assert s.rows["i" := GivenUp()] == map["i" := GivenUp()];
    assert s.workers - {1} == map[];
  }

  /** A tick looks up the ladder under the severity it scanned. If the rule
      engine raises the incident to critical before the tick reads it again,
      the old ladder's horizon still closes it. */
  lemma ARaisedIncidentCanBeClosed()
    ensures exists t :: CanReach(SiteWith(OldAlarm(), 20), t, false)
              && "i" in t.rows && t.rows["i"].severity == Critical && t.rows["i"].closedAt == Some(20)
              && t.log == [GaveUp(OldAlarm(), Raised(), 20, OneRung(5))]
  {
    ATickMeansToGiveUp();
    TheEngineRaisesIt();
    TheOldHorizonClosesIt();
    BothLegs(SiteWith(OldAlarm(), 20), Overdue(), RaisedSite(), false);
    BothLegs(SiteWith(OldAlarm(), 20), RaisedSite(), GivenUpSite(), false);
  }

  // ---- A critical incident can be held --------------------------------------------

  function QuietRung(): Policy {
    Policy("quiet at night", [Stage(0, ["ntfy"])], 0, 0, true)
  }

  function LowRow(): Record {
    Row().(severity := Low)
  }

  /** A row of low severity, in the first minute of its quiet window. */
  function AtNight(): Site {
    Site(map["i" := LowRow()], {"i"}, 10, map[Low := QuietRung(), Critical := OneRung(0)],
         QuietHours(true, Some(0), Some(1), Some(0)), {}, map[], [])
  }

  function RaisedAtNight(): Site {
    AtNight().(rows := map["i" := Risen(LowRow(), 10)], workers := map[1 := Scanned(LowRow(), 10)])
  }

  function ReadAtNight(): Site {
    AtNight().(workers := map[1 := Scanned(LowRow(), 10), 2 := EngineRead("i", LowRow())])
  }

  lemma ItIsReadAtNight()
    ensures CanReach(AtNight(), ReadAtNight(), false)
  {
    var s := AtNight();
    Here(s, false);
    OnByScan(s, s, 1, "i", 10, false);
    var scanned := With(s, 1, Scanned(LowRow(), 10));
    OnByEngineRead(s, scanned, 2, "i");
    assert With(scanned, 2, EngineRead("i", LowRow())).workers == ReadAtNight().workers;
  }

  lemma ItIsRaisedAtNight()
    ensures CanReach(AtNight(), RaisedAtNight(), false)
  {
    ItIsReadAtNight();
    OnByEnginePut(AtNight(), ReadAtNight(), 2, FoldPut(10, Critical, ""));
    assert ReadAtNight().rows["i" := Risen(LowRow(), 10)] == RaisedAtNight().rows;
    assert ReadAtNight().workers - {2} == RaisedAtNight().workers;
  }

  lemma TheScanIsHeld()
    ensures PlanFor(AtNight().ladders, AtNight().quiet, {}, LowRow(), 10) == Hold(QuietRung())
  {
    var p := QuietRung();
    assert AtNight().ladders[Low] == p;
    assert DueNow(p, LowRow(), 10).Fire?;
    assert MinuteAt(10, 0) == 0;
  }

  /** A pass looks up the ladder and the quiet window under the severity it
      scanned. If the rule engine raises the incident to critical before the pass
      comes to it, it is held although it is critical by then. */
  lemma AHeldIncidentCanBeRaised()
    ensures exists t :: CanReach(AtNight(), t, false)
              && "i" in t.rows && t.rows["i"].severity == Critical
              && t.log == [Held(LowRow(), 10, QuietRung())]
  {
    ItIsRaisedAtNight();
    TheScanIsHeld();
    OnByProcess(AtNight(), RaisedAtNight(), 1, false);
    var t := Processed(RaisedAtNight(), 1, LowRow(), 10);
    assert t.log == [Held(LowRow(), 10, QuietRung())];
  }
}
