// What holds after any events.
module ConntrackRuns {
  import opened Basics
  import opened Conntrack

  // ---- Flags and streak ----

  /** While the loop runs both flags say "enabled and under pressure"; afterwards they are off. */
  predicate FlagsOk(s: State) {
    && s.sharedFlag == s.statsFlag == (s.running && s.enabled && s.active)
    && s.lowStreak < PRESSURE_RELEASE_TICKS
    && (!s.active ==> s.lowStreak == 0)
  }

  lemma StepFlagsOk(s: State, e: Event)
    requires FlagsOk(s)
    ensures FlagsOk(Step(s, e))
  {}

  lemma {:induction false} AlwaysFlagsOk(s: State, events: seq<Event>)
    requires FlagsOk(s)
    ensures FlagsOk(After(s, events))
    decreases |events|
  {
    if events != [] {
      AlwaysFlagsOk(s, events[..|events| - 1]);
      StepFlagsOk(After(s, events[..|events| - 1]), events[|events| - 1]);
    }
  }

  /** The delete command is run only while both published flags are up. */
  lemma DeletesUnderPressure(s: State, events: seq<Event>, e: Event)
    requires FlagsOk(s)
    ensures var before, after := After(s, events), Step(After(s, events), e);
      after.attempts != before.attempts ==>
        before.sharedFlag && before.statsFlag && after.attempts == before.attempts + 1 && before.tokens > 0
  {
    AlwaysFlagsOk(s, events);
  }

  // ---- Budget ----

  /** Budget handed out: at the start, at every tick and at every change of configuration. */
  function Granted(s: State, events: seq<Event>): nat
    decreases |events|
  {
    if events == [] then s.tokens else
      var before := events[..|events| - 1];
      Granted(s, before) + Refill(After(s, before), events[|events| - 1])
  }

  function Refill(s: State, e: Event): nat {
    if !s.running then 0
    else if e.Tick? then s.cfg.budget
    else if e.ConfigChanged? then e.cfg.budget
    else 0
  }

  lemma StepBudget(s: State, e: Event)
    ensures Step(s, e).attempts + Step(s, e).tokens <= s.attempts + s.tokens + Refill(s, e)
  {}

  lemma {:induction false} AttemptsWithinBudget(s: State, events: seq<Event>)
    requires s.attempts == 0
    ensures After(s, events).attempts + After(s, events).tokens <= Granted(s, events)
    decreases |events|
  {
    if events != [] {
      var before := events[..|events| - 1];
      AttemptsWithinBudget(s, before);
      StepBudget(After(s, before), events[|events| - 1]);
    }
  }

  function Refills(events: seq<Event>): nat
    decreases |events|
  {
    if events == [] then 0 else
      var e := events[|events| - 1];
      Refills(events[..|events| - 1]) + if e.Tick? || e.ConfigChanged? then 1 else 0
  }

  ghost predicate ConstantBudget(events: seq<Event>, budget: nat) {
    forall i :: 0 <= i < |events| && events[i].ConfigChanged? ==> events[i].cfg.budget == budget
  }

  lemma StepConstant(s: State, e: Event, budget: nat)
    requires s.cfg.budget == budget && (e.ConfigChanged? ==> e.cfg.budget == budget)
    ensures Step(s, e).cfg.budget == budget
    ensures Refill(s, e) <= if e.Tick? || e.ConfigChanged? then budget else 0
  {}

  lemma {:induction false} ConstantGrant(s: State, events: seq<Event>, budget: nat)
    requires s.cfg.budget == s.tokens == budget && ConstantBudget(events, budget)
    ensures Granted(s, events) <= budget * (1 + Refills(events)) && After(s, events).cfg.budget == budget
    decreases |events|
  {
    if events != [] {
      var before, e := events[..|events| - 1], events[|events| - 1];
      ConstantGrant(s, before, budget);
      StepConstant(After(s, before), e, budget);
      assert budget * (1 + (Refills(before) + 1)) == budget * (1 + Refills(before)) + budget;
    }
  }

  /** With one budget for the whole run, attempts are at most that budget for the start and for every refill. */
  lemma AttemptsBounded(cfg: Config, support: Support, a: U64, q: U64, events: seq<Event>)
    requires ConstantBudget(events, cfg.budget)
    ensures After(Start(cfg, support, a, q), events).attempts <= cfg.budget * (1 + Refills(events))
  {
    var s := Start(cfg, support, a, q);
    AttemptsWithinBudget(s, events);
    ConstantGrant(s, events, cfg.budget);
  }

  lemma StepOutcomes(s: State, e: Event)
    ensures Step(s, e).attempts - Step(s, e).deleted - Step(s, e).notFound - Step(s, e).errors
      == s.attempts - s.deleted - s.notFound - s.errors
  {}

  /** Every attempt has exactly one outcome. */
  lemma {:induction false} AttemptsHaveOutcomes(s: State, events: seq<Event>)
    requires s.attempts == s.deleted + s.notFound + s.errors
    ensures var t := After(s, events); t.attempts == t.deleted + t.notFound + t.errors
    decreases |events|
  {
    if events != [] {
      AttemptsHaveOutcomes(s, events[..|events| - 1]);
      StepOutcomes(After(s, events[..|events| - 1]), events[|events| - 1]);
    }
  }

  // ---- Sampling ----

  /** The multiplication may saturate, but the percentage is the exact one. */
  lemma ConnPctExact(connections: U64, maxConnections: U32)
    requires maxConnections > 0
    ensures ConnPct(connections, maxConnections) == Some(Min(connections * 100 / maxConnections, 100))
  {
    if connections * 100 > U64_MAX {
      Big(U64_MAX, maxConnections);
      Big(connections * 100, maxConnections);
    }
  }

  lemma Big(n: nat, m: U32)
    requires n >= U64_MAX && m > 0
    ensures n / m >= 100
  {
    if n / m < 100 {
      LessThan(n, m, 100);
    }
  }

  lemma LessThan(n: nat, m: nat, k: nat)
    requires m > 0 && n / m < k
    ensures n < k * m
  {
    assert n == m * (n / m) + n % m;
    assert m * (n / m + 1) <= m * k;
  }

  function StepDelta(s: State, e: Event, c: Counter): nat {
    if s.running && e.Tick? then Delta(s, e.readings, c) else 0
  }

  /** All the growth the ticks have seen. */
  function DeltaSum(s: State, events: seq<Event>, c: Counter): nat
    decreases |events|
  {
    if events == [] then 0 else
      var before := events[..|events| - 1];
      DeltaSum(s, before, c) + StepDelta(After(s, before), events[|events| - 1], c)
  }

  /** The tick did not find the counter below where it was. */
  predicate Grows(s: State, e: Event, c: Counter) {
    s.running && e.Tick? ==> Prev(s, c) <= Total(e.readings, c)
  }

  predicate Monotone(s: State, events: seq<Event>, c: Counter)
    decreases |events|
  {
    events == [] ||
      (var before := events[..|events| - 1];
       Monotone(s, before, c) && Grows(After(s, before), events[|events| - 1], c))
  }

  lemma StepGrowth(s: State, e: Event, c: Counter)
    ensures Prev(s, c) + StepDelta(s, e, c) >= Prev(Step(s, e), c)
    ensures Prev(s, c) + StepDelta(s, e, c) == Prev(Step(s, e), c) <==> Grows(s, e, c)
  {}

  /** The growth seen adds up to the growth there was, exactly when the counter never went back. */
  lemma {:induction false} DeltasAddUp(s: State, events: seq<Event>, c: Counter)
    ensures Prev(s, c) + DeltaSum(s, events, c) >= Prev(After(s, events), c)
    ensures Prev(s, c) + DeltaSum(s, events, c) == Prev(After(s, events), c) <==> Monotone(s, events, c)
    decreases |events|
  {
    if events != [] {
      var before := events[..|events| - 1];
      DeltasAddUp(s, before, c);
      StepGrowth(After(s, before), events[|events| - 1], c);
    }
  }
}
