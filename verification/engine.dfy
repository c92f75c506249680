/** The alarm engine as a step system: one shared table, and any number of
    scheduler passes, acknowledgement taps, dismissals, arrivals and rule
    engine writes in flight at once, each step of each of them interleaved
    with the others' in any order, with the clock, restarts and live
    reconfiguration in between. */
module AlarmEngine {
  import opened Base
  import opened Incidents
  import opened Policies
  import opened Quiet
  import opened Stores
  import opened CasLoops
  import opened Deliveries
  import opened Scheduling

  /** What one goroutine holds between two of its steps. */
  datatype Worker =
    | Scanned(inc: Record, now: Time)
    | Delivering(inc: Record, now: Time, stage: int)
    | Trying(id: string, intent: Intent, attempt: nat)
    | Got(id: string, intent: Intent, attempt: nat, copy: Record)
    | Ready(id: string, intent: Intent, attempt: nat, copy: Record, change: Mutation)
    | EngineRead(id: string, copy: Record)

  /** What happened, in the order it became true. */
  datatype Event =
    | Told(id: string, now: Time, stage: int, results: seq<ChannelResult>)
    | Alerted(id: string, now: Time, stage: int)
    | Acked(id: string, at: Time, via: string)
    | WebAcked(id: string, at: Time, again: bool)
    | GaveUp(scanned: Record, copy: Record, now: Time, policy: Policy)
    | Held(scanned: Record, now: Time, policy: Policy)

  datatype Site = Site(
    rows: Table, used: set<string>, clock: Time,
    ladders: Ladders, quiet: QuietHours, momentary: set<string>,
    workers: map<nat, Worker>, log: seq<Event>)

  /** The rule engine's plain writes of a row it read earlier. The fold assigns
      the token outright. */
  datatype EngineWrite =
    | ResolvePut(at: Time)
    | SupersedePut(at: Time, reason: string)
    | FoldPut(at: Time, severity: Severity, title: string)

  function EngineRow(e: EngineWrite, copy: Record): Record {
    match e
    case ResolvePut(at) => copy.Resolve(at)
    case SupersedePut(at, reason) => copy.Close(at, reason)
    case FoldPut(at, sev, title) =>
      var raised := copy.RaiseSeverity(sev);
      raised.(title := if raised.title == "" then title else raised.title, updatedAt := at)
  }

  /** A fold that would change nothing is not written at all. */
  predicate Writes(e: EngineWrite, copy: Record) {
    e.FoldPut? ==> e.severity.Rank() > copy.severity.Rank() || (copy.title == "" && e.title != "")
  }

  datatype Label =
    | ClockTo(t: Time)
    | Create(r: Record)
    | Remove(id: string)
    | Restart
    | SetPolicies(ladders: Ladders)
    | SetQuiet(q: QuietHours)
    | Scan(k: nat, id: string, now: Time)
    | Process(k: nat)
    | DeliveryReturns(k: nat, results: seq<ChannelResult>, failure: string)
    | Request(k: nat, id: string, intent: Intent)
    | Read(k: nat)
    | Decide(k: nat)
    | Swap(k: nat)
    | EngineReads(k: nat, id: string)
    | EnginePuts(k: nat, e: EngineWrite)

  function Stamp(m: Mutation): Time {
    m.at
  }

  /** Intents that come from outside; the others are the scheduler's. */
  predicate FromOutside(intent: Intent, clock: Time) {
    || intent.Tap? || intent.WebAck? || intent.WebClose? || intent.Dismiss?
    || (intent.Arrival? && intent.at <= clock)
  }

  /** The successful swap as the log records it: the hook's call for a tap, and
      the page's own entry, which it also makes for a row already answered. */
  function Recorded(intent: Intent, id: string, copy: Record, change: Mutation): seq<Event> {
    match intent
    case RecordAlert(_, now, stage) => [Alerted(id, now, stage)]
    case Tap(via) => [Acked(id, Stamp(change), via)]
    case WebAck => [WebAcked(id, Stamp(change), copy.ackedAt.Some?)]
    case GiveUpOn(scanned, now, p) => [GaveUp(scanned, copy, now, p)]
    case _ => []
  }

  predicate Fresh(r: Record, clock: Time) {
    && r.updatedAt == r.openedAt <= clock && r.ackedAt.None? && r.resolvedAt.None? && r.closedAt.None?
    && r.firstAlertAt.None? && r.lastAlertAt.None? && r.alertCount == 0
  }

  function With(s: Site, k: nat, w: Worker): Site {
    s.(workers := s.workers[k := w])
  }

  function Without(s: Site, k: nat): Site {
    s.(workers := s.workers - {k})
  }

  function Swapped(s: Site, k: nat, w: Worker): Site
    requires w.Ready?
  {
    match PutRowIfUnchanged(s.rows, Apply(w.change, w.copy), w.copy.updatedAt)
    case Ok(rows) =>
      Without(s, k).(rows := rows, log := s.log + Recorded(w.intent, w.id, w.copy, w.change))
    case Err(Conflict) =>
      if w.attempt + 1 < ATTEMPTS then With(s, k, Trying(w.id, w.intent, w.attempt + 1)) else Without(s, k)
    case Err(_) => Without(s, k)
  }

  function Processed(s: Site, k: nat, inc: Record, now: Time): Site {
    match PlanFor(s.ladders, s.quiet, s.momentary, inc, now)
    case NoPolicy => Without(s, k)
    case Nothing => Without(s, k)
    case Hold(p) => Without(s, k).(log := s.log + [Held(inc, now, p)])
    case GiveUp(p) => With(s, k, Trying(inc.id, GiveUpOn(inc, now, p), 0))
    case Deliver(stage, _) => With(s, k, Delivering(inc, now, stage))
  }

  function Returned(s: Site, k: nat, w: Worker, results: seq<ChannelResult>, failure: string): Site
    requires w.Delivering?
  {
    if SomebodyTold(results) then
      With(s, k, Trying(w.inc.id, RecordAlert(w.inc, w.now, w.stage), 0))
      .(log := s.log + [Told(w.inc.id, w.now, w.stage, results)])
    else With(s, k, Trying(w.inc.id, RecordFailure(w.now, failure), 0))
  }

  /** One step of the worker k, by what it was doing. */
  function Worked(s: Site, l: Label, w: Worker): Site
    requires l.Process? || l.DeliveryReturns? || l.Read? || l.Decide? || l.Swap? || l.EnginePuts?
  {
    match l
    case Process(k) => if w.Scanned? then Processed(s, k, w.inc, w.now) else s
    case DeliveryReturns(k, results, failure) =>
      if w.Delivering? then Returned(s, k, w, results, failure) else s
    case Read(k) =>
      if !w.Trying? then s
      else if w.id in s.rows then With(s, k, Got(w.id, w.intent, w.attempt, s.rows[w.id]))
      else Without(s, k)
    case Decide(k) =>
      if !w.Got? then s
      else if Declines(w.intent, w.copy) then Without(s, k)
      else With(s, k, Ready(w.id, w.intent, w.attempt, w.copy, Change(w.intent, s.clock)))
    case Swap(k) => if w.Ready? then Swapped(s, k, w) else s
    case EnginePuts(k, e) =>
      if !w.EngineRead? || e.at > s.clock then s
      else if !Writes(e, w.copy) then Without(s, k)
      else
        (match PutRow(s.rows, EngineRow(e, w.copy))
         case Ok(rows) => Without(s, k).(rows := rows)
         case Err(_) => Without(s, k))
  }

  /** One step of the site. A step whose moment has not come changes nothing,
      so every sequence of labels is a run. */
  ghost function Next(s: Site, l: Label): Site {
    match l
    case ClockTo(t) => if t >= s.clock then s.(clock := t) else s
    case Create(r) =>
      if r.id in s.used || !Fresh(r, s.clock) || PutRow(s.rows, r).Err? then s
      else s.(rows := s.rows[r.id := r], used := s.used + {r.id})
    case Remove(id) => s.(rows := s.rows - {id})
    case Restart => s.(workers := map[])
    case SetPolicies(ladders) => if ladders != map[] && AllValid(ladders) then s.(ladders := ladders) else s
    case SetQuiet(q) => if q.Valid() then s.(quiet := q) else s
    case Scan(k, id, now) =>
      if k in s.workers || id !in s.rows || s.rows[id].Terminal() || now > s.clock then s
      else With(s, k, Scanned(s.rows[id], now))
    case Request(k, id, intent) =>
      if k in s.workers || !FromOutside(intent, s.clock) then s else With(s, k, Trying(id, intent, 0))
    case EngineReads(k, id) =>
      if k in s.workers || id !in s.rows || s.rows[id].Terminal() then s
      else With(s, k, EngineRead(id, s.rows[id]))
    case _ => if l.k in s.workers then Worked(s, l, s.workers[l.k]) else s
  }

  ghost function Exec(s: Site, ls: seq<Label>): Site
    decreases ls
  {
    if ls == [] then s else Exec(Next(s, ls[0]), ls[1..])
  }

  // ---- Every step is one of five kinds -------------------------------------

  /** Somebody was told about this incident by the pass that began at now. */
  ghost predicate ToldIn(log: seq<Event>, id: string, now: Time, stage: int) {
    exists i :: 0 <= i < |log| && log[i].Told? && log[i].id == id && log[i].now == now
                && log[i].stage == stage && SomebodyTold(log[i].results)
  }

  /** How the worker k can have come to w in one step that wrote no row. */
  ghost predicate Moves(s: Site, log: seq<Event>, k: nat, w: Worker) {
    if k !in s.workers then
      || (w.Scanned? && w.now <= s.clock && w.inc in s.rows.Values)
      || (w.Trying? && FromOutside(w.intent, s.clock))
      || (w.EngineRead? && w.id in s.rows && w.copy == s.rows[w.id])
    else
      var v := s.workers[k];
      || w == v
      || (v.Scanned? && w.Delivering? && w.inc == v.inc && w.now == v.now)
      || (v.Scanned? && v.inc.severity in s.ladders
          && ShouldGiveUp(s.ladders[v.inc.severity], v.inc, v.now)
          && w == Trying(v.inc.id, GiveUpOn(v.inc, v.now, s.ladders[v.inc.severity]), 0))
      || (v.Delivering? && w == Trying(v.inc.id, RecordAlert(v.inc, v.now, v.stage), 0)
          && ToldIn(log, v.inc.id, v.now, v.stage))
      || (v.Delivering? && w.Trying? && w.intent.RecordFailure? && w.intent.now == v.now)
      || (v.Trying? && v.id in s.rows && w == Got(v.id, v.intent, v.attempt, s.rows[v.id]))
      || (v.Got? && !Declines(v.intent, v.copy)
          && w == Ready(v.id, v.intent, v.attempt, v.copy, Change(v.intent, s.clock)))
      || (v.Ready? && w == Trying(v.id, v.intent, v.attempt + 1))
  }

  /** A hold is only ever logged under the ladder in force for that severity. */
  predicate HeldUnder(s: Site, e: Event)
    requires e.Held?
  {
    && e.scanned.severity in s.ladders && e.policy == s.ladders[e.scanned.severity]
    && e.policy.respectQuietHours
  }

  ghost predicate WorkersMove(s: Site, t: Site) {
    forall k :: k in t.workers ==> Moves(s, t.log, k, t.workers[k])
  }

  ghost predicate Still(s: Site, t: Site) {
    && t.rows == s.rows && t.used == s.used && s.clock <= t.clock
    && WorkersMove(s, t)
    && s.log <= t.log
    && forall i :: |s.log| <= i < |t.log| ==> t.log[i].Told? || (t.log[i].Held? && HeldUnder(s, t.log[i]))
  }

  predicate Created(s: Site, t: Site, r: Record) {
    && r.id !in s.used && Fresh(r, s.clock) && t == s.(rows := s.rows[r.id := r], used := s.used + {r.id})
  }

  predicate Removed(s: Site, t: Site, id: string) {
    t == s.(rows := s.rows - {id})
  }

  /** The worker's swap went through. */
  predicate Won(s: Site, t: Site, k: nat) {
    && k in s.workers && s.workers[k].Ready?
    && var w := s.workers[k];
       var row := Apply(w.change, w.copy);
       && row.id in s.rows && s.rows[row.id].updatedAt == w.copy.updatedAt
       && t == Without(s, k).(rows := s.rows[row.id := row],
                              log := s.log + Recorded(w.intent, w.id, w.copy, w.change))
  }

  /** The engine's plain write goes through now. */
  predicate PutLands(s: Site, k: nat, e: EngineWrite) {
    && k in s.workers && s.workers[k].EngineRead? && e.at <= s.clock && Writes(e, s.workers[k].copy)
    && !Clashes(s.rows, EngineRow(e, s.workers[k].copy))
  }

  predicate EnginePut(s: Site, t: Site, k: nat, e: EngineWrite) {
    && PutLands(s, k, e)
    && var row := EngineRow(e, s.workers[k].copy);
       t == Without(s, k).(rows := s.rows[row.id := row])
  }

  ghost predicate OfAKind(s: Site, l: Label, t: Site) {
    || Still(s, t)
    || (l.Create? && Created(s, t, l.r))
    || (l.Remove? && Removed(s, t, l.id))
    || (l.Swap? && Won(s, t, l.k))
    || (l.EnginePuts? && EnginePut(s, t, l.k, l.e))
  }

  lemma ToldJustNow(log: seq<Event>, id: string, now: Time, stage: int, results: seq<ChannelResult>)
    requires SomebodyTold(results)
    ensures ToldIn(log + [Told(id, now, stage, results)], id, now, stage)
  {
    var all := log + [Told(id, now, stage, results)];
    assert all[|log|] == Told(id, now, stage, results);
  }

  lemma ProcessedIsStill(s: Site, k: nat)
    requires k in s.workers && s.workers[k].Scanned?
    ensures Still(s, Processed(s, k, s.workers[k].inc, s.workers[k].now))
  {
  }

  lemma ReturnedIsStill(s: Site, k: nat, results: seq<ChannelResult>, failure: string)
    requires k in s.workers && s.workers[k].Delivering?
    ensures Still(s, Returned(s, k, s.workers[k], results, failure))
  {
    var w := s.workers[k];
    if SomebodyTold(results) {
      ToldJustNow(s.log, w.inc.id, w.now, w.stage, results);
    }
  }

  lemma SwappedIsOfAKind(s: Site, k: nat)
    requires k in s.workers && s.workers[k].Ready?
    ensures Still(s, Swapped(s, k, s.workers[k])) || Won(s, Swapped(s, k, s.workers[k]), k)
  {
  }

  lemma WorkedIsOfAKind(s: Site, l: Label)
    requires l.Process? || l.DeliveryReturns? || l.Read? || l.Decide? || l.Swap? || l.EnginePuts?
    requires l.k in s.workers
    ensures OfAKind(s, l, Worked(s, l, s.workers[l.k]))
  {
    var w := s.workers[l.k];
    match l
    case Process(k) => if w.Scanned? { ProcessedIsStill(s, k); }
    case DeliveryReturns(k, results, failure) => if w.Delivering? { ReturnedIsStill(s, k, results, failure); }
    case Read(k) =>
    case Decide(k) =>
    case Swap(k) => if w.Ready? { SwappedIsOfAKind(s, k); }
    case EnginePuts(k, e) =>
  }

  lemma ArrivalIsStill(s: Site, l: Label)
    requires l.Scan? || l.Request? || l.EngineReads?
    ensures Still(s, Next(s, l))
  {
  }

  lemma SettingIsStill(s: Site, l: Label)
    requires l.ClockTo? || l.Restart? || l.SetPolicies? || l.SetQuiet?
    ensures Still(s, Next(s, l))
  {
  }

  /** The whole step relation in five cases: a step that writes no row, a new
      row, a removed row, a won swap, a plain engine write. */
  lemma StepIsOfAKind(s: Site, l: Label)
    ensures OfAKind(s, l, Next(s, l))
  {
    match l
    case Create(r) =>
    case Remove(id) =>
    case Scan(_, _, _) => ArrivalIsStill(s, l);
    case Request(_, _, _) => ArrivalIsStill(s, l);
    case EngineReads(_, _) => ArrivalIsStill(s, l);
    case ClockTo(_) => SettingIsStill(s, l);
    case Restart => SettingIsStill(s, l);
    case SetPolicies(_) => SettingIsStill(s, l);
    case SetQuiet(_) => SettingIsStill(s, l);
    case _ =>
      if l.k in s.workers {
        WorkedIsOfAKind(s, l);
      }
  }

  /** A step of a worker's own. */
  predicate Own(l: Label) {
    l.Process? || l.DeliveryReturns? || l.Read? || l.Decide? || l.Swap? || l.EnginePuts?
  }

  lemma ProcessTouchesOne(s: Site, j: nat, inc: Record, now: Time, k: nat)
    requires j in s.workers && k != j
    ensures k in Processed(s, j, inc, now).workers <==> k in s.workers
    ensures k in s.workers ==> Processed(s, j, inc, now).workers[k] == s.workers[k]
  {
  }

  lemma SwapTouchesOne(s: Site, j: nat, w: Worker, k: nat)
    requires w.Ready? && k != j
    ensures k in Swapped(s, j, w).workers <==> k in s.workers
    ensures k in s.workers ==> Swapped(s, j, w).workers[k] == s.workers[k]
  {
  }

  lemma OwnStepTouchesOne(s: Site, l: Label, k: nat)
    requires Own(l) && l.k in s.workers && k != l.k
    ensures k in Worked(s, l, s.workers[l.k]).workers <==> k in s.workers
    ensures k in s.workers ==> Worked(s, l, s.workers[l.k]).workers[k] == s.workers[k]
  {
    var w := s.workers[l.k];
    match l
    case Process(j) => if w.Scanned? { ProcessTouchesOne(s, j, w.inc, w.now, k); }
    case Swap(j) => if w.Ready? { SwapTouchesOne(s, j, w, k); }
    case _ =>
  }

  lemma OthersBegin(s: Site, l: Label, k: nat)
    requires !Own(l) && k in Next(s, l).workers && (k !in s.workers || s.workers[k] != Next(s, l).workers[k])
    ensures k !in s.workers
    ensures Next(s, l).workers[k].Scanned? || Next(s, l).workers[k].Trying? || Next(s, l).workers[k].EngineRead?
  {
  }

  /** A worker that is new or changed has just begun, or has taken a step of its
      own. */
  lemma TakenOnBy(s: Site, l: Label, k: nat)
    requires k in Next(s, l).workers && (k !in s.workers || s.workers[k] != Next(s, l).workers[k])
    ensures || (k !in s.workers && !Own(l)
                && (var w := Next(s, l).workers[k]; w.Scanned? || w.Trying? || w.EngineRead?))
            || (k in s.workers && Own(l) && l.k == k && Next(s, l) == Worked(s, l, s.workers[k]))
  {
    if Own(l) {
      if l.k in s.workers && k != l.k {
        OwnStepTouchesOne(s, l, k);
      }
    } else {
      OthersBegin(s, l, k);
    }
  }

  /** A copy is taken by a read, and decided on by the decision on it. */
  lemma NewCopyIsARead(s: Site, l: Label, k: nat)
    requires k in Next(s, l).workers && (Next(s, l).workers[k].Got? || Next(s, l).workers[k].Ready?)
    requires k !in s.workers || s.workers[k] != Next(s, l).workers[k]
    ensures var w := Next(s, l).workers[k];
            && k in s.workers
            && (w.Got? ==> l == Read(k) && s.workers[k] == Trying(w.id, w.intent, w.attempt)
                           && w.id in s.rows && s.rows[w.id] == w.copy)
            && (w.Ready? ==> l == Decide(k) && s.workers[k] == Got(w.id, w.intent, w.attempt, w.copy))
  {
    TakenOnBy(s, l, k);
  }

  /** A delivery is begun by the pass whose plan it is. */
  lemma NewDeliveryIsAPlan(s: Site, l: Label, k: nat)
    requires k in Next(s, l).workers && Next(s, l).workers[k].Delivering?
    requires k !in s.workers || s.workers[k] != Next(s, l).workers[k]
    ensures l == Process(k) && k in s.workers && s.workers[k].Scanned?
    ensures Next(s, l) == Processed(s, k, s.workers[k].inc, s.workers[k].now)
  {
    TakenOnBy(s, l, k);
  }

  lemma LaddersStayValid(s: Site, l: Label)
    requires AllValid(s.ladders)
    ensures AllValid(Next(s, l).ladders)
  {
  }

  // ---- The steps are the loop -----------------------------------------------

  /** The worker k is untouched from the end of a step of its own in s until its
      next one, in t. */
  predicate Carried(s: Site, t: Site, k: nat) {
    k in s.workers ==> k in t.workers && t.workers[k] == s.workers[k]
  }

  /** What the loop meets at one attempt, and what the worker is then doing. */
  ghost predicate Attempting(atRead: Site, atDecide: Site, k: nat, id: string, intent: Intent, attempt: nat,
                             w: World) {
    && attempt < ATTEMPTS
    && k in atRead.workers && atRead.workers[k] == Trying(id, intent, attempt)
    && Carried(Next(atRead, Read(k)), atDecide, k)
    && w.atRead(attempt) == atRead.rows && w.clock(attempt) == atDecide.clock
  }

  lemma ReadIsTheLoops(atRead: Site, atDecide: Site, k: nat, id: string, intent: Intent, attempt: nat, w: World)
    requires Attempting(atRead, atDecide, k, id, intent, attempt, w)
    ensures if id in atRead.rows then
              k in atDecide.workers && atDecide.workers[k] == Got(id, intent, attempt, atRead.rows[id])
            else
              k !in Next(atRead, Read(k)).workers && LoopFrom(intent, id, w, attempt) == (atRead.rows, Gone)
  {
  }

  lemma DecisionIsTheLoops(s: Site, k: nat, id: string, intent: Intent, attempt: nat, copy: Record, w: World)
    requires attempt < ATTEMPTS && k in s.workers && s.workers[k] == Got(id, intent, attempt, copy)
    requires id in w.atRead(attempt) && w.atRead(attempt)[id] == copy && w.clock(attempt) == s.clock
    ensures if Declines(intent, copy) then
              && k !in Next(s, Decide(k)).workers
              && LoopFrom(intent, id, w, attempt) == (w.atRead(attempt), Declined)
            else
              && k in Next(s, Decide(k)).workers
              && Next(s, Decide(k)).workers[k] == Ready(id, intent, attempt, copy, Change(intent, s.clock))
  {
  }

  /** A worker's three steps of one attempt, however far apart they come, do
      what one turn of the writers' loop does: on a conflict they go on as it
      goes on, and otherwise they leave the table that it leaves. */
  lemma StepsAreTheLoop(atRead: Site, atDecide: Site, atSwap: Site, k: nat, id: string, intent: Intent,
                        attempt: nat, w: World)
    requires Attempting(atRead, atDecide, k, id, intent, attempt, w)
    requires id in atRead.rows && !Declines(intent, atRead.rows[id])
    requires Carried(Next(atDecide, Decide(k)), atSwap, k) && w.atWrite(attempt) == atSwap.rows
    ensures k in atSwap.workers && atSwap.workers[k].Ready?
    ensures var t := Swapped(atSwap, k, atSwap.workers[k]);
            if k in t.workers then
              && t.rows == atSwap.rows && t.workers[k] == Trying(id, intent, attempt + 1)
              && LoopFrom(intent, id, w, attempt) == LoopFrom(intent, id, w, attempt + 1)
            else LoopFrom(intent, id, w, attempt).0 == t.rows
  {
    ReadIsTheLoops(atRead, atDecide, k, id, intent, attempt, w);
    DecisionIsTheLoops(atDecide, k, id, intent, attempt, atRead.rows[id], w);
    TurnEndsAsTheSwap(atSwap, k, id, intent, attempt, atRead.rows[id], Change(intent, atDecide.clock), w);
  }

  lemma TurnEndsAsTheSwap(s: Site, k: nat, id: string, intent: Intent, attempt: nat, copy: Record,
                          change: Mutation, w: World)
    requires attempt < ATTEMPTS && k in s.workers && s.workers[k] == Ready(id, intent, attempt, copy, change)
    requires id in w.atRead(attempt) && w.atRead(attempt)[id] == copy && w.atWrite(attempt) == s.rows
    requires !Declines(intent, copy) && change == Change(intent, w.clock(attempt))
    ensures var t := Swapped(s, k, s.workers[k]);
            if k in t.workers then
              && t.rows == s.rows && t.workers[k] == Trying(id, intent, attempt + 1)
              && LoopFrom(intent, id, w, attempt) == LoopFrom(intent, id, w, attempt + 1)
            else LoopFrom(intent, id, w, attempt).0 == t.rows
  {
    var put := PutRowIfUnchanged(s.rows, Apply(change, copy), copy.updatedAt);
    if put.Err? && put.error == Conflict && attempt + 1 == ATTEMPTS {
      assert LoopFrom(intent, id, w, ATTEMPTS) == (w.atWrite(ATTEMPTS - 1), Contended);
    }
  }

  /** A pass's own steps before its loop do what the scheduler's evaluation of one
      incident does: from the same plan, and from the answers of the same fan-out,
      it comes to the same loop, or to none. */
  lemma StepsAreTheEvaluation(s: Site, k: nat, t: Site, results: seq<ChannelResult>, failure: string)
    requires k in s.workers && s.workers[k].Scanned?
    requires Carried(Next(s, Process(k)), t, k)
    ensures var (inc, now) := (s.workers[k].inc, s.workers[k].now);
            var plan := PlanFor(s.ladders, s.quiet, s.momentary, inc, now);
            var intent := IntentOf(Setting(s.ladders, s.quiet, s.momentary, now), inc, failure, results);
            if plan.Deliver? then
              && intent.Some? && k in Next(t, DeliveryReturns(k, results, failure)).workers
              && Next(t, DeliveryReturns(k, results, failure)).workers[k] == Trying(inc.id, intent.value, 0)
            else if k in Next(s, Process(k)).workers then
              intent.Some? && Next(s, Process(k)).workers[k] == Trying(inc.id, intent.value, 0)
            else intent.None?
  {
    var (inc, now) := (s.workers[k].inc, s.workers[k].now);
    assert Next(s, Process(k)) == Processed(s, k, inc, now);
    var plan := PlanFor(s.ladders, s.quiet, s.momentary, inc, now);
    if plan.Deliver? {
      assert t.workers[k] == Delivering(inc, now, plan.stage);
      assert Next(t, DeliveryReturns(k, results, failure)) == Returned(t, k, t.workers[k], results, failure);
    }
  }
}
