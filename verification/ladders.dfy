/** The ladders that are put into force: every policy narrowed to the channels
    that exist. */
module Ladders {
  import opened Base
  import opened Incidents
  import opened Policies
  import opened Text

  /** The channels that exist, in lower case. */
  type Channels = set<string>

  function KeepChannels(channels: seq<string>, have: Channels): seq<string> {
    if channels == [] then []
    else
      var n := |channels| - 1;
      KeepChannels(channels[..n], have) + if Lower(channels[n]) in have then [channels[n]] else []
  }

  /** What is left of one rung, at its own offset; nothing when no channel is. */
  function Narrowed(stage: Stage, have: Channels): Option<Stage> {
    var keep := KeepChannels(stage.channels, have);
    if keep == [] then None else Some(Stage(stage.after, keep))
  }

  function Somes(stages: seq<Option<Stage>>): seq<Stage> {
    if stages == [] then []
    else
      var n := |stages| - 1;
      Somes(stages[..n]) + if stages[n].Some? then [stages[n].value] else []
  }

  function NarrowedAll(stages: seq<Stage>, have: Channels): (out: seq<Option<Stage>>)
    ensures |out| == |stages| && forall i :: 0 <= i < |stages| ==> out[i] == Narrowed(stages[i], have)
  {
    seq(|stages|, i requires 0 <= i < |stages| => Narrowed(stages[i], have))
  }

  function FilterStages(stages: seq<Stage>, have: Channels): seq<Stage> {
    Somes(NarrowedAll(stages, have))
  }

  function FilterToEnabled(p: Policy, have: Channels): Option<Policy> {
    var stages := FilterStages(p.stages, have);
    if stages == [] then None else Some(p.(stages := stages))
  }

  /** The fallback for a shipped ladder that names nothing this site has. */
  function EveryChannelLadder(p: Policy, enabled: seq<string>): Policy {
    p.(stages := [Stage(0, enabled)])
  }

  lemma OneMoreRung(stages: seq<Stage>, stage: Stage, have: Channels)
    ensures FilterStages(stages + [stage], have)
            == FilterStages(stages, have)
               + if Narrowed(stage, have).Some? then [Narrowed(stage, have).value] else []
  {
    var all := NarrowedAll(stages + [stage], have);
    assert all[..|stages|] == NarrowedAll(stages, have);
  }

  method ComputeFilterToEnabled(p: Policy, have: Channels) returns (q: Option<Policy>)
    ensures q == FilterToEnabled(p, have)
  {
    var stages: seq<Stage> := [];
    for i := 0 to |p.stages|
      invariant stages == FilterStages(p.stages[..i], have)
    {
      var channels := p.stages[i].channels;
      var keep: seq<string> := [];
      for j := 0 to |channels|
        invariant keep == KeepChannels(channels[..j], have)
      {
        assert channels[..j + 1][..j] == channels[..j];
        if Lower(channels[j]) in have {
          keep := keep + [channels[j]];
        }
      }
      assert channels[..|channels|] == channels;
      OneMoreRung(p.stages[..i], p.stages[i], have);
      assert p.stages[..i + 1] == p.stages[..i] + [p.stages[i]];
      if |keep| > 0 {
        stages := stages + [Stage(p.stages[i].after, keep)];
      }
    }
    assert p.stages[..|p.stages|] == p.stages;
    if |stages| == 0 {
      return None;
    }
    return Some(p.(stages := stages));
  }

  // ---- What narrowing keeps ------------------------------------------------------------

  /** Positions in ascending order. */
  predicate Ascending(f: seq<nat>, n: nat) {
    && (forall i :: 0 <= i < |f| ==> f[i] < n)
    && (forall i, j :: 0 <= i < j < |f| ==> f[i] < f[j])
  }

  ghost predicate KeptPlaces(channels: seq<string>, have: Channels, keep: seq<string>, f: seq<nat>) {
    && |f| == |keep| && Ascending(f, |channels|)
    && (forall i :: 0 <= i < |f| ==> keep[i] == channels[f[i]] && Lower(keep[i]) in have)
    && (forall j: nat :: j < |channels| && Lower(channels[j]) in have ==> j in f)
  }

  lemma OneMoreChannel(channels: seq<string>, have: Channels, keep: seq<string>, f: seq<nat>, c: string)
    returns (g: seq<nat>)
    requires KeptPlaces(channels, have, keep, f)
    ensures KeptPlaces(channels + [c], have, keep + if Lower(c) in have then [c] else [], g)
  {
    var all := channels + [c];
    g := if Lower(c) in have then f + [|channels|] else f;
    forall j: nat | j < |all| && Lower(all[j]) in have
      ensures j in g
    {
      if j < |channels| {
        var i :| 0 <= i < |f| && f[i] == j;
        assert g[i] == j;
      } else {
        assert g[|f|] == j;
      }
    }
  }

  /** The kept channels are the enabled ones, each where it was among the
      others. */
  lemma {:induction false} KeptInOrder(channels: seq<string>, have: Channels) returns (f: seq<nat>)
    ensures KeptPlaces(channels, have, KeepChannels(channels, have), f)
  {
    f := [];
    if channels != [] {
      var before, c := channels[..|channels| - 1], channels[|channels| - 1];
      f := KeptInOrder(before, have);
      f := OneMoreChannel(before, have, KeepChannels(before, have), f, c);
      assert before + [c] == channels;
    }
  }

  lemma KeptAreTheEnabled(channels: seq<string>, have: Channels)
    ensures forall c :: c in KeepChannels(channels, have) <==> c in channels && Lower(c) in have
  {
    var keep := KeepChannels(channels, have);
    var f := KeptInOrder(channels, have);
    forall c
      ensures c in keep <==> c in channels && Lower(c) in have
    {
      if c in channels && Lower(c) in have {
        var j: nat :| j < |channels| && channels[j] == c;
        var i :| 0 <= i < |f| && f[i] == j;
        assert keep[i] == c;
      }
      if c in keep {
        var i :| 0 <= i < |keep| && keep[i] == c;
        assert channels[f[i]] == c;
      }
    }
  }

  /** Where each survivor stood. */
  ghost predicate Places(stages: seq<Option<Stage>>, kept: seq<Stage>, f: seq<nat>) {
    && |f| == |kept| && Ascending(f, |stages|)
    && (forall i :: 0 <= i < |f| ==> stages[f[i]] == Some(kept[i]))
    && (forall j: nat :: j < |stages| && stages[j].Some? ==> j in f)
  }

  lemma {:induction false} SomesInOrder(stages: seq<Option<Stage>>) returns (f: seq<nat>)
    ensures Places(stages, Somes(stages), f)
  {
    f := [];
    if stages != [] {
      var n := |stages| - 1;
      f := SomesInOrder(stages[..n]);
      f := OneMorePlace(stages[..n], Somes(stages[..n]), f, stages[n]);
      assert stages[..n] + [stages[n]] == stages;
    }
  }

  lemma OneMorePlace(stages: seq<Option<Stage>>, kept: seq<Stage>, f: seq<nat>, stage: Option<Stage>)
    returns (g: seq<nat>)
    requires Places(stages, kept, f)
    ensures Places(stages + [stage], kept + if stage.Some? then [stage.value] else [], g)
  {
    var all := stages + [stage];
    g := if stage.Some? then f + [|stages|] else f;
    forall j: nat | j < |all| && all[j].Some?
      ensures j in g
    {
      if j < |stages| {
        var i :| 0 <= i < |f| && f[i] == j;
        assert g[i] == j;
      } else {
        assert g[|f|] == j;
      }
    }
  }

  /** A narrowed ladder is an order-preserving part of its source: its rungs are
      source rungs at their own offsets, each with exactly its enabled
      channels; and the rungs left out had none. */
  lemma FilteredIsASubLadder(stages: seq<Stage>, have: Channels) returns (f: seq<nat>)
    ensures var kept := FilterStages(stages, have);
            && |f| == |kept| && Ascending(f, |stages|)
            && (forall i :: 0 <= i < |f| ==> Narrowed(stages[f[i]], have) == Some(kept[i]))
            && (forall j: nat :: j < |stages| && Narrowed(stages[j], have).Some? ==> j in f)
  {
    f := SomesInOrder(NarrowedAll(stages, have));
  }

  /** Nothing survives exactly when no rung names a channel that exists. */
  lemma NothingSurvivesExactlyWhen(p: Policy, have: Channels)
    ensures FilterToEnabled(p, have).None? <==>
              forall i, c :: 0 <= i < |p.stages| && c in p.stages[i].channels ==> Lower(c) !in have
  {
    var f := FilteredIsASubLadder(p.stages, have);
    forall i: nat, c | i < |p.stages| && c in p.stages[i].channels && Lower(c) in have
      ensures FilterToEnabled(p, have).Some?
    {
      KeptAreTheEnabled(p.stages[i].channels, have);
      assert i in f;
    }
    if FilterToEnabled(p, have).Some? {
      var c := FilterStages(p.stages, have)[0].channels[0];
      KeptAreTheEnabled(p.stages[f[0]].channels, have);
      assert c in p.stages[f[0]].channels;
    }
  }

  ghost predicate NamesOnly(p: Policy, have: Channels) {
    forall i, c :: 0 <= i < |p.stages| && c in p.stages[i].channels ==> Lower(c) in have
  }

  /** A valid ladder stays valid: rungs still in order, each with somewhere to
      go, and a critical one still neither muted nor given up on. */
  lemma FilteringKeepsValid(p: Policy, sev: Severity, have: Channels)
    requires Valid(p, sev) && FilterToEnabled(p, have).Some?
    ensures Valid(FilterToEnabled(p, have).value, sev)
    ensures FilterToEnabled(p, have).value.(stages := p.stages) == p
    ensures NamesOnly(FilterToEnabled(p, have).value, have)
  {
    var q := FilterToEnabled(p, have).value;
    var f := FilteredIsASubLadder(p.stages, have);
    forall i, c | 0 <= i < |q.stages| && c in q.stages[i].channels
      ensures Lower(c) in have
    {
      KeptAreTheEnabled(p.stages[f[i]].channels, have);
    }
  }

  lemma {:induction false} KeepAgain(channels: seq<string>, have: Channels)
    ensures KeepChannels(KeepChannels(channels, have), have) == KeepChannels(channels, have)
  {
    if channels != [] {
      var n := |channels| - 1;
      KeepAgain(channels[..n], have);
      var before := KeepChannels(channels[..n], have);
      if Lower(channels[n]) in have {
        assert (before + [channels[n]])[..|before|] == before;
      } else {
        assert before + [] == before;
      }
    }
  }

  lemma {:induction false} FilterAgain(stages: seq<Stage>, have: Channels)
    ensures FilterStages(FilterStages(stages, have), have) == FilterStages(stages, have)
  {
    if stages != [] {
      var n := |stages| - 1;
      var before, stage := stages[..n], stages[n];
      assert before + [stage] == stages;
      FilterAgain(before, have);
      OneMoreRung(before, stage, have);
      if Narrowed(stage, have).Some? {
        var kept := Narrowed(stage, have).value;
        KeepAgain(stage.channels, have);
        assert Narrowed(kept, have) == Some(kept);
        OneMoreRung(FilterStages(before, have), kept, have);
      } else {
        assert FilterStages(before, have) + [] == FilterStages(before, have);
      }
    }
  }

  /** Narrowing twice is narrowing once. */
  lemma FilteringTwiceIsOnce(p: Policy, have: Channels)
    ensures match FilterToEnabled(p, have)
            case None => true
            case Some(q) => FilterToEnabled(q, have) == Some(q)
  {
    FilterAgain(p.stages, have);
  }

  /** Narrowing keeps what the ladder means. Until somebody has been told, the
      channels due under the narrowed ladder at any instant are exactly the
      existing ones among those due under the source. */
  lemma FilteringKeepsTheMeaning(p: Policy, sev: Severity, have: Channels, r: Record, now: Time, c: string)
    requires Valid(p, sev) && Unheard(r) && FilterToEnabled(p, have).Some?
    ensures var q := FilterToEnabled(p, have).value;
            DueNow(q, r, now).Fire? && c in DueNow(q, r, now).channels
            <==> DueNow(p, r, now).Fire? && c in DueNow(p, r, now).channels && Lower(c) in have
  {
    var q := FilterToEnabled(p, have).value;
    FilteringKeepsValid(p, sev, have);
    WidestNetBeforeSuccess(p, sev, r, now);
    WidestNetBeforeSuccess(q, sev, r, now);
    SameRungs(p, q, have, r.openedAt, now, c);
    FirstRungComesFirst(p, sev, r.openedAt, now, c);
    FirstRungComesFirst(q, sev, r.openedAt, now, c);
  }

  /** Some rung whose time has come names this channel. */
  ghost predicate NamedBy(p: Policy, openedAt: Time, now: Time, c: string) {
    exists i :: 0 <= i < |p.stages| && openedAt + p.stages[i].after <= now && c in p.stages[i].channels
  }

  lemma FirstRungComesFirst(p: Policy, sev: Severity, openedAt: Time, now: Time, c: string)
    requires Valid(p, sev)
    ensures NamedBy(p, openedAt, now, c) ==> openedAt + p.stages[0].after <= now
  {
    if NamedBy(p, openedAt, now, c) {
      var i :| 0 <= i < |p.stages| && openedAt + p.stages[i].after <= now && c in p.stages[i].channels;
      assert i == 0 || p.stages[0].after < p.stages[i].after;
    }
  }

  lemma SameRungs(p: Policy, q: Policy, have: Channels, openedAt: Time, now: Time, c: string)
    requires FilterToEnabled(p, have) == Some(q)
    ensures NamedBy(q, openedAt, now, c) <==> NamedBy(p, openedAt, now, c) && Lower(c) in have
  {
    var f := FilteredIsASubLadder(p.stages, have);
    if NamedBy(q, openedAt, now, c) {
      var i :| 0 <= i < |q.stages| && openedAt + q.stages[i].after <= now && c in q.stages[i].channels;
      KeptAreTheEnabled(p.stages[f[i]].channels, have);
      assert c in p.stages[f[i]].channels;
    }
    if NamedBy(p, openedAt, now, c) && Lower(c) in have {
      var j: nat :| j < |p.stages| && openedAt + p.stages[j].after <= now && c in p.stages[j].channels;
      KeptAreTheEnabled(p.stages[j].channels, have);
      assert j in f;
      var i :| 0 <= i < |f| && f[i] == j;
      assert c in q.stages[i].channels;
    }
  }

  // ---- The ladders in force --------------------------------------------------------------

  const DEFAULTS: map<Severity, Policy> := map[
    Critical := Policy("critical", [Stage(0, ["ntfy"]), Stage(2 * MINUTE, ["ntfy", "email"])],
                       5 * MINUTE, 0, false),
    High := Policy("high", [Stage(0, ["ntfy"]), Stage(15 * MINUTE, ["ntfy", "email"])],
                   30 * MINUTE, 4 * HOUR, false),
    Medium := Policy("medium", [Stage(0, ["ntfy"])], 2 * HOUR, 12 * HOUR, false),
    Low := Policy("low", [Stage(0, ["ntfy"])], 0, 24 * HOUR, true),
    Info := Policy("info", [Stage(0, ["ntfy"])], 0, HOUR, true)
  ]

  function Have(enabled: seq<string>): Channels {
    set i | 0 <= i < |enabled| :: Lower(TrimSpace(enabled[i]))
  }

  /** The ladder put into force for one severity, if any. own holds the
      operator's policies as they parse; an explicit one replaces the default
      even when nothing of it survives. */
  function InForce(own: map<Severity, Result<Policy, string>>, enabled: seq<string>, sev: Severity): Option<Policy> {
    var have := Have(enabled);
    if sev in own then
      if own[sev].Err? then None
      else if enabled == [] then Some(own[sev].value)
      else FilterToEnabled(own[sev].value, have)
    else if sev !in DEFAULTS then None
    else if enabled == [] then Some(DEFAULTS[sev])
    else
      var filtered := FilterToEnabled(DEFAULTS[sev], have);
      if filtered.Some? then filtered else Some(EveryChannelLadder(DEFAULTS[sev], enabled))
  }

  // ---- ... and what they are ------------------------------------------------------------

  /** One of the enabled channels has this name, case and surrounding blanks aside. */
  ghost predicate Exists(enabled: seq<string>, c: string) {
    exists i :: 0 <= i < |enabled| && Lower(TrimSpace(enabled[i])) == Lower(c)
  }

  ghost predicate NamesNothing(p: Policy, enabled: seq<string>) {
    forall i, c :: 0 <= i < |p.stages| && c in p.stages[i].channels ==> !Exists(enabled, c)
  }

  /** The channels of a rung that exist, each where it was among the others. */
  ghost predicate ExistingOf(channels: seq<string>, enabled: seq<string>, keep: seq<string>, g: seq<nat>) {
    && |g| == |keep| && Ascending(g, |channels|)
    && (forall i :: 0 <= i < |g| ==> keep[i] == channels[g[i]] && Exists(enabled, keep[i]))
    && (forall j: nat :: j < |channels| && Exists(enabled, channels[j]) ==> j in g)
  }

  ghost predicate Existing(channels: seq<string>, enabled: seq<string>, keep: seq<string>) {
    exists g: seq<nat> :: ExistingOf(channels, enabled, keep, g)
  }

  /** The rungs at these places, at their own offsets, with the channels of each that
      exist; and every rung that names one is among them. */
  ghost predicate RungsAt(stages: seq<Stage>, enabled: seq<string>, kept: seq<Stage>, f: seq<nat>) {
    && |f| == |kept| && Ascending(f, |stages|)
    && (forall i :: 0 <= i < |f| ==>
          && kept[i].after == stages[f[i]].after && kept[i].channels != []
          && Existing(stages[f[i]].channels, enabled, kept[i].channels))
    && (forall j: nat, c :: j < |stages| && c in stages[j].channels && Exists(enabled, c) ==> j in f)
  }

  /** The ladder with only the rungs and channels that exist, and else as it was. */
  ghost predicate NarrowedTo(p: Policy, enabled: seq<string>, q: Policy) {
    q.(stages := p.stages) == p && exists f: seq<nat> :: RungsAt(p.stages, enabled, q.stages, f)
  }

  /** What belongs in force for one severity: the operator's own ladder, narrowed to
      what exists and left out when nothing of it does; the shipped one where the
      operator has none, narrowed, or every channel on one rung when nothing of it
      exists. With no channel at all each is whole. */
  ghost predicate Belongs(own: map<Severity, Result<Policy, string>>, enabled: seq<string>, sev: Severity,
                          got: Option<Policy>) {
    if sev in own then
      own[sev].Ok? ==>
        if enabled == [] then got == Some(own[sev].value)
        else if NamesNothing(own[sev].value, enabled) then got.None?
        else got.Some? && NarrowedTo(own[sev].value, enabled, got.value)
    else if sev !in DEFAULTS then got.None?
    else
      && got.Some?
      && if enabled == [] then got.value == DEFAULTS[sev]
         else if NamesNothing(DEFAULTS[sev], enabled) then
           got.value == DEFAULTS[sev].(stages := [Stage(0, enabled)])
         else NarrowedTo(DEFAULTS[sev], enabled, got.value)
  }

  lemma ExistsIsHave(enabled: seq<string>, c: string)
    ensures Exists(enabled, c) <==> Lower(c) in Have(enabled)
  {
  }

  lemma KeptAreExisting(channels: seq<string>, enabled: seq<string>)
    ensures Existing(channels, enabled, KeepChannels(channels, Have(enabled)))
  {
    var keep := KeepChannels(channels, Have(enabled));
    var g := KeptInOrder(channels, Have(enabled));
    forall c
      ensures Exists(enabled, c) <==> Lower(c) in Have(enabled)
    {
      ExistsIsHave(enabled, c);
    }
    assert ExistingOf(channels, enabled, keep, g);
  }

  lemma AllExistIsHave(enabled: seq<string>)
    ensures forall c :: Exists(enabled, c) <==> Lower(c) in Have(enabled)
  {
    forall c
      ensures Exists(enabled, c) <==> Lower(c) in Have(enabled)
    {
      ExistsIsHave(enabled, c);
    }
  }

  lemma NothingIsLeftExactlyWhen(p: Policy, enabled: seq<string>)
    ensures FilterToEnabled(p, Have(enabled)).None? <==> NamesNothing(p, enabled)
  {
    AllExistIsHave(enabled);
    NothingSurvivesExactlyWhen(p, Have(enabled));
  }

  lemma SomethingExists(channels: seq<string>, enabled: seq<string>, c: string)
    requires c in channels && Exists(enabled, c)
    ensures KeepChannels(channels, Have(enabled)) != []
  {
    ExistsIsHave(enabled, c);
    KeptAreTheEnabled(channels, Have(enabled));
  }

  lemma FilteredRungs(stages: seq<Stage>, enabled: seq<string>) returns (f: seq<nat>)
    ensures RungsAt(stages, enabled, FilterStages(stages, Have(enabled)), f)
  {
    var have := Have(enabled);
    f := FilteredIsASubLadder(stages, have);
    forall i | 0 <= i < |f|
      ensures Existing(stages[f[i]].channels, enabled, FilterStages(stages, have)[i].channels)
    {
      KeptAreExisting(stages[f[i]].channels, enabled);
    }
    forall j: nat, c | j < |stages| && c in stages[j].channels && Exists(enabled, c)
      ensures j in f
    {
      SomethingExists(stages[j].channels, enabled, c);
    }
  }

  lemma FilteredIsNarrowed(p: Policy, enabled: seq<string>)
    ensures match FilterToEnabled(p, Have(enabled))
            case None => NamesNothing(p, enabled)
            case Some(q) => !NamesNothing(p, enabled) && NarrowedTo(p, enabled, q)
  {
    NothingIsLeftExactlyWhen(p, enabled);
    var f := FilteredRungs(p.stages, enabled);
  }

  /** What is put into force is what belongs there. */
  lemma InForceIsWhatBelongs(own: map<Severity, Result<Policy, string>>, enabled: seq<string>, sev: Severity)
    ensures Belongs(own, enabled, sev, InForce(own, enabled, sev))
  {
    if sev in own {
      if own[sev].Ok? {
        FilteredIsNarrowed(own[sev].value, enabled);
      }
    } else if sev in DEFAULTS {
      FilteredIsNarrowed(DEFAULTS[sev], enabled);
    }
  }

  method BuildPolicies(own: map<Severity, Result<Policy, string>>, enabled: seq<string>)
    returns (r: Result<map<Severity, Policy>, string>)
    ensures r.Ok? <==> forall sev :: sev in own ==> own[sev].Ok?
    ensures r.Ok? ==> forall sev :: (if sev in r.value then Some(r.value[sev]) else None) == InForce(own, enabled, sev)
    ensures r.Ok? ==>
              forall sev :: Belongs(own, enabled, sev, if sev in r.value then Some(r.value[sev]) else None)
  {
    forall sev
      ensures Belongs(own, enabled, sev, InForce(own, enabled, sev))
    {
      InForceIsWhatBelongs(own, enabled, sev);
    }
    var have: Channels := {};
    for i := 0 to |enabled|
      invariant have == Have(enabled[..i])
    {
      assert enabled[..i + 1] == enabled[..i] + [enabled[i]];
      HaveOneMore(enabled[..i], enabled[i]);
      have := have + {Lower(TrimSpace(enabled[i]))};
    }
    assert enabled[..|enabled|] == enabled;
    var out: map<Severity, Policy> := map[];
    var left := DEFAULTS.Keys;
    while left != {}
      invariant left <= DEFAULTS.Keys
      invariant forall sev :: (if sev in out then Some(out[sev]) else None)
                              == if sev in left then None else InForce(map[], enabled, sev)
      decreases left
    {
      var sev :| sev in left;
      left := left - {sev};
      if |enabled| == 0 {
        out := out[sev := DEFAULTS[sev]];
      } else {
        var filtered := ComputeFilterToEnabled(DEFAULTS[sev], have);
        out := out[sev := if filtered.Some? then filtered.value else EveryChannelLadder(DEFAULTS[sev], enabled)];
      }
    }
    left := own.Keys;
    while left != {}
      invariant left <= own.Keys
      invariant forall sev :: sev in own && sev !in left ==> own[sev].Ok?
      invariant forall sev :: (if sev in out then Some(out[sev]) else None)
                              == InForce(if sev in left then map[] else own, enabled, sev)
      decreases left
    {
      var sev :| sev in left;
      if own[sev].Err? {
        return Err(own[sev].error);
      }
      left := left - {sev};
      if |enabled| == 0 {
        out := out[sev := own[sev].value];
      } else {
        out := out - {sev};
        var filtered := ComputeFilterToEnabled(own[sev].value, have);
        if filtered.Some? {
          out := out[sev := filtered.value];
        }
      }
    }
    return Ok(out);
  }

  lemma HaveOneMore(enabled: seq<string>, name: string)
    ensures Have(enabled + [name]) == Have(enabled) + {Lower(TrimSpace(name))}
  {
    var all := enabled + [name];
    assert all[|enabled|] == name;
    forall x | x in Have(enabled)
      ensures x in Have(all)
    {
      var i :| 0 <= i < |enabled| && Lower(TrimSpace(enabled[i])) == x;
      assert all[i] == enabled[i];
    }
    forall x | x in Have(all)
      ensures x in Have(enabled) + {Lower(TrimSpace(name))}
    {
      var i :| 0 <= i < |all| && Lower(TrimSpace(all[i])) == x;
      assert i < |enabled| ==> all[i] == enabled[i];
    }
  }

  lemma DefaultsAreValid(sev: Severity)
    requires sev in DEFAULTS
    ensures Valid(DEFAULTS[sev], sev)
  {
  }

  /** Every ladder in force passes validation if the operator's own do, and once
      any channel exists it names nothing but channels that exist. Every
      shipped severity nobody overrode has a ladder. */
  lemma LaddersInForceAreValid(own: map<Severity, Result<Policy, string>>, enabled: seq<string>, sev: Severity)
    requires sev in own && own[sev].Ok? ==> Valid(own[sev].value, sev)
    ensures var p := InForce(own, enabled, sev);
            && (p.Some? ==> Valid(p.value, sev))
            && (p.Some? && enabled != [] ==>
                  NamesOnly(p.value, Have(enabled)) || p.value.stages == [Stage(0, enabled)])
            && (sev in DEFAULTS && sev !in own ==> p.Some?)
  {
    if sev in own {
      if own[sev].Ok? && enabled != [] && FilterToEnabled(own[sev].value, Have(enabled)).Some? {
        FilteringKeepsValid(own[sev].value, sev, Have(enabled));
      }
    } else if sev in DEFAULTS {
      DefaultsAreValid(sev);
      if enabled != [] && FilterToEnabled(DEFAULTS[sev], Have(enabled)).Some? {
        FilteringKeepsValid(DEFAULTS[sev], sev, Have(enabled));
      }
    }
  }

  // ---- Whether delivery finds them ---------------------------------------------------------

  /** How the fan-out looks a channel up among its queues. */
  predicate Finds(queues: seq<string>, c: string) {
    Lower(c) in queues
  }

  /** Every channel narrowing could keep, and every channel of the fallback. */
  ghost predicate Keepable(queues: seq<string>, c: string) {
    Lower(c) in Have(queues) || c in queues
  }

  /** Exactly when the fan-out can find every channel a ladder in force may
      name: when every queue's own name is already in lower case and trimmed,
      or another queue answers to its lower-cased form. Only a webhook can be
      named otherwise. */
  lemma EveryKeptChannelIsFoundExactlyWhen(queues: seq<string>)
    ensures (forall c :: Keepable(queues, c) ==> Finds(queues, c)) <==>
            AllAnswered(queues)
  {
    if forall c :: Keepable(queues, c) ==> Finds(queues, c) {
      FoundMeansAnswered(queues);
    }
    if AllAnswered(queues) {
      AnsweredMeansFound(queues);
    }
  }

  lemma FoundMeansAnswered(queues: seq<string>)
    requires forall c :: Keepable(queues, c) ==> Finds(queues, c)
    ensures AllAnswered(queues)
  {
    forall i | 0 <= i < |queues|
      ensures Answered(queues, queues[i])
    {
      assert Keepable(queues, queues[i]) && Finds(queues, queues[i]);
      ItsOwnNameIsKeepable(queues, i);
    }
  }

  lemma AnsweredMeansFound(queues: seq<string>)
    requires AllAnswered(queues)
    ensures forall c :: Keepable(queues, c) ==> Finds(queues, c)
  {
    forall c | Keepable(queues, c)
      ensures Finds(queues, c)
    {
      var i := KeepableIsNamed(queues, c);
      AnsweredIsFound(queues, c, queues[i]);
    }
  }

  /** A queue's name leads to a queue both as it is and as it is configured. */
  predicate Answered(queues: seq<string>, name: string) {
    Lower(name) in queues && Lower(TrimSpace(name)) in queues
  }

  predicate AllAnswered(queues: seq<string>) {
    forall i {:trigger Answered(queues, queues[i])} :: 0 <= i < |queues| ==> Answered(queues, queues[i])
  }

  lemma ItsOwnNameIsKeepable(queues: seq<string>, i: nat)
    requires i < |queues|
    ensures var c := Lower(TrimSpace(queues[i])); Keepable(queues, c) && (Finds(queues, c) ==> c in queues)
  {
    LowerTwice(TrimSpace(queues[i]));
    assert Lower(TrimSpace(queues[i])) in Have(queues);
  }

  lemma AnsweredIsFound(queues: seq<string>, c: string, name: string)
    requires Answered(queues, name) && (name == c || Lower(TrimSpace(name)) == Lower(c))
    ensures Finds(queues, c)
  {
  }

  lemma KeepableIsNamed(queues: seq<string>, c: string) returns (i: nat)
    requires Keepable(queues, c)
    ensures i < |queues| && (queues[i] == c || Lower(TrimSpace(queues[i])) == Lower(c))
  {
    if Lower(c) in Have(queues) {
      i :| 0 <= i < |queues| && Lower(TrimSpace(queues[i])) == Lower(c);
    } else {
      i :| 0 <= i < |queues| && queues[i] == c;
    }
  }

  lemma LowerTwice(s: string)
    ensures Lower(Lower(s)) == Lower(s)
  {
  }

  /** So a webhook called "Pager" is kept in every ladder that names it, and no
      delivery ever finds it. */
  lemma AMixedCaseWebhookIsKeptAndNeverFound()
    ensures var queues := ["Pager"];
            && KeepChannels(["Pager"], Have(queues)) == ["Pager"]
            && !Finds(queues, "Pager")
  {
    var queues := ["Pager"];
    assert Lower("Pager") == "pager";
    assert TrimSpace(queues[0]) == "Pager";
    assert Lower(TrimSpace(queues[0])) in Have(queues);
    assert ["Pager"][..0] == [];
  }
}
