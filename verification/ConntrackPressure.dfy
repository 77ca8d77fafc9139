// When there is pressure, told from the ticks alone.
module ConntrackPressure {
  import opened Basics
  import opened Conntrack
  import opened ConntrackRuns

  /** What the ticks said, one after another. */
  function Verdicts(s: State, events: seq<Event>): seq<Verdict>
    decreases |events|
  {
    if events == [] then [] else
      var before, e := events[..|events| - 1], events[|events| - 1];
      Verdicts(s, before) + if After(s, before).running && e.Tick? then [Judge(After(s, before), e.readings)] else []
  }

  /** Three ticks in a row that all are low and clear. */
  predicate Release(h: seq<Verdict>, j: nat) {
    j + 2 < |h| && h[j].lowClear && h[j + 1].lowClear && h[j + 2].lowClear
  }

  /** The high mark was hit at tick `a`, and since then the feature stayed enabled and nothing released it. */
  ghost predicate PressedSince(h: seq<Verdict>, a: nat) {
    && a < |h| && h[a].enabled && h[a].highHit
    && (forall j :: a < j < |h| ==> h[j].enabled)
    && (forall j :: a < j ==> !Release(h, j))
  }

  ghost predicate Pressed(h: seq<Verdict>) {
    exists a :: PressedSince(h, a)
  }

  /** How many ticks at the end are low and clear. */
  function Trailing(h: seq<Verdict>): nat {
    if h == [] || !h[|h| - 1].lowClear then 0 else 1 + Trailing(h[..|h| - 1])
  }

  /** No tick both hits the high mark and is low and clear. */
  ghost predicate Apart(h: seq<Verdict>) {
    forall j :: 0 <= j < |h| ==> !(h[j].highHit && h[j].lowClear)
  }

  lemma {:induction false} TrailingAre(h: seq<Verdict>)
    ensures Trailing(h) <= |h|
    ensures forall j :: |h| - Trailing(h) <= j < |h| ==> h[j].lowClear
    ensures Trailing(h) < |h| ==> !h[|h| - Trailing(h) - 1].lowClear
    decreases |h|
  {
    if h != [] {
      TrailingAre(h[..|h| - 1]);
    }
  }

  // ---- One more tick ----

  /** The last tick completes three in a row that are low and clear. */
  predicate Completes(h: seq<Verdict>, v: Verdict) {
    |h| >= 2 && h[|h| - 2].lowClear && h[|h| - 1].lowClear && v.lowClear
  }

  lemma ReleaseGrows(h: seq<Verdict>, v: Verdict, j: nat)
    ensures Release(h + [v], j) <==> Release(h, j) || (j == |h| - 2 && Completes(h, v))
  {}

  lemma StillPressed(h: seq<Verdict>, v: Verdict, a: nat)
    requires PressedSince(h, a) && v.enabled && !(a < |h| - 2 && Completes(h, v))
    ensures PressedSince(h + [v], a)
  {
    forall j | a < j ensures !Release(h + [v], j) {
      ReleaseGrows(h, v, j);
    }
  }

  lemma WasPressed(h: seq<Verdict>, v: Verdict, a: nat)
    requires a < |h| && PressedSince(h + [v], a)
    ensures PressedSince(h, a) && v.enabled && !(a < |h| - 2 && Completes(h, v))
  {
    var g := h + [v];
    assert forall j :: 0 <= j < |h| ==> g[j] == h[j];
    assert g[|h|].enabled;
    forall j | a < j ensures !Release(h, j) {
      ReleaseGrows(h, v, j);
    }
    if a < |h| - 2 {
      ReleaseGrows(h, v, |h| - 2);
    }
  }

  lemma NewlyPressed(h: seq<Verdict>, v: Verdict)
    requires v.enabled && v.highHit
    ensures PressedSince(h + [v], |h|)
  {}

  lemma ReleasedNow(h: seq<Verdict>, v: Verdict)
    requires Apart(h + [v]) && Completes(h, v)
    ensures !Pressed(h + [v])
  {
    forall a: nat ensures !PressedSince(h + [v], a) {
      var g := h + [v];
      if PressedSince(g, a) {
        assert g[a].highHit;
        assert g[|h|] == v && g[|h| - 1] == h[|h| - 1] && g[|h| - 2] == h[|h| - 2];
        assert a < |h| - 2;
        WasPressed(h, v, a);
      }
    }
  }

  lemma NotPressed(h: seq<Verdict>, v: Verdict)
    requires !v.enabled || (!Pressed(h) && !v.highHit)
    ensures !Pressed(h + [v])
  {
    forall a: nat ensures !PressedSince(h + [v], a) {
      if PressedSince(h + [v], a) && a < |h| {
        WasPressed(h, v, a);
      }
    }
  }

  lemma KeepsPressed(h: seq<Verdict>, v: Verdict)
    requires Pressed(h) && v.enabled && !Completes(h, v)
    ensures Pressed(h + [v])
  {
    var a :| PressedSince(h, a);
    StillPressed(h, v, a);
  }

  lemma TrailingMore(h: seq<Verdict>, v: Verdict)
    ensures Trailing(h + [v]) == if v.lowClear then 1 + Trailing(h) else 0
    ensures Completes(h, v) <==> v.lowClear && Trailing(h) >= 2
  {
    assert (h + [v])[..|h|] == h;
    TrailingAre(h);
    if |h| >= 1 {
      assert h[|h| - 1].lowClear <==> Trailing(h) >= 1;
    }
  }

  /** The machine's two variables, told from the ticks. */
  ghost predicate Told(s: State, h: seq<Verdict>) {
    && (s.active <==> Pressed(h))
    && (s.active ==> s.lowStreak == Trailing(h) < PRESSURE_RELEASE_TICKS)
  }

  lemma TickTold(s: State, h: seq<Verdict>, v: Verdict)
    requires Told(s, h) && Apart(h + [v])
    ensures Told(Update(s, v), h + [v])
  {
    TrailingMore(h, v);
    if !v.enabled {
      NotPressed(h, v);
    } else if !s.active {
      if v.highHit {
        NewlyPressed(h, v);
        assert (h + [v])[|h|] == v;
      } else {
        NotPressed(h, v);
      }
    } else if Completes(h, v) {
      ReleasedNow(h, v);
    } else {
      KeepsPressed(h, v);
    }
  }

  // ---- Runs ----

  /** Configurations are loaded only with the low mark below the high one. */
  ghost predicate MarksOrdered(s: State, events: seq<Event>) {
    && s.cfg.low < s.cfg.high
    && forall i :: 0 <= i < |events| && events[i].ConfigChanged? ==> events[i].cfg.low < events[i].cfg.high
  }

  lemma {:induction false} ConfigOrdered(s: State, events: seq<Event>)
    requires MarksOrdered(s, events)
    ensures After(s, events).cfg.low < After(s, events).cfg.high
    decreases |events|
  {
    if events != [] {
      ConfigOrdered(s, events[..|events| - 1]);
      StepConfig(After(s, events[..|events| - 1]), events[|events| - 1]);
    }
  }

  lemma StepConfig(s: State, e: Event)
    ensures Step(s, e).cfg == if s.running && e.ConfigChanged? then e.cfg else s.cfg
  {}

  lemma JudgeApart(s: State, r: Readings)
    requires s.cfg.low < s.cfg.high
    ensures !(Judge(s, r).highHit && Judge(s, r).lowClear)
  {}

  lemma {:induction false} VerdictsApart(s: State, events: seq<Event>)
    requires MarksOrdered(s, events)
    ensures Apart(Verdicts(s, events))
    decreases |events|
  {
    if events != [] {
      var before, e := events[..|events| - 1], events[|events| - 1];
      VerdictsApart(s, before);
      ConfigOrdered(s, before);
      if e.Tick? {
        JudgeApart(After(s, before), e.readings);
      }
    }
  }

  lemma OtherEventsTold(s: State, e: Event, h: seq<Verdict>)
    requires Told(s, h) && !(s.running && e.Tick?)
    ensures Told(Step(s, e), h)
  {}

  lemma TickEventTold(s: State, e: Event, h: seq<Verdict>)
    requires Told(s, h) && s.running && e.Tick? && Apart(h + [Judge(s, e.readings)])
    ensures Told(Step(s, e), h + [Judge(s, e.readings)])
  {
    var r := e.readings;
    var t := s.(tokens := s.cfg.budget, prevAcceptTotal := r.acceptTotal, prevQueueFullTotal := r.queueFullTotal);
    TickTold(t, h, Judge(s, r));
  }

  lemma {:induction false} AlwaysTold(s: State, events: seq<Event>)
    requires MarksOrdered(s, events) && !s.active
    ensures Told(After(s, events), Verdicts(s, events))
    decreases |events|
  {
    if events != [] {
      var before, e := events[..|events| - 1], events[|events| - 1];
      AlwaysTold(s, before);
      VerdictsApart(s, events);
      if After(s, before).running && e.Tick? {
        TickEventTold(After(s, before), e, Verdicts(s, before));
      } else {
        OtherEventsTold(After(s, before), e, Verdicts(s, before));
        assert Verdicts(s, events) == Verdicts(s, before);
      }
    }
  }

  /**
   * After any events the flags are up exactly when the loop runs, the feature is enabled, and some tick hit the high
   * mark since when every tick was enabled and no three in a row were low and clear.
   */
  lemma PressureExactly(cfg: Config, support: Support, a: U64, q: U64, events: seq<Event>)
    requires MarksOrdered(Start(cfg, support, a, q), events)
    ensures var s := Start(cfg, support, a, q);
      var t := After(s, events);
      t.sharedFlag == t.statsFlag == (t.running && t.enabled && Pressed(Verdicts(s, events)))
  {
    var s := Start(cfg, support, a, q);
    AlwaysTold(s, events);
    AlwaysFlagsOk(s, events);
  }

  /** While enabled and under pressure, a tick ends it exactly when it is the third in a row that is low and clear. */
  lemma ReleaseExactly(s: State, events: seq<Event>, r: Readings)
    requires MarksOrdered(s, events) && !s.active
    requires var t := After(s, events); t.running && t.enabled && t.active
    ensures var t := After(s, events);
      !Step(t, Tick(r)).active <==> Completes(Verdicts(s, events), Judge(t, r))
  {
    AlwaysTold(s, events);
    TrailingMore(Verdicts(s, events), Judge(After(s, events), r));
  }

  // ---- The low mark has to be below the high one ----

  /** A tick on which the descriptors are exactly at the high mark and nothing else happens. */
  function AtHighMark(s: State): Readings {
    Readings(0, Some(s.cfg.high), s.prevAcceptTotal, s.prevQueueFullTotal)
  }

  predicate MarksCrossed(s: State) {
    s.running && s.enabled && s.cfg.high <= s.cfg.low
  }

  /** It hits the one mark and clears the other. */
  lemma TickOfBoth(s: State)
    requires MarksCrossed(s)
    ensures var t := Step(s, Tick(AtHighMark(s)));
      && Judge(s, AtHighMark(s)) == Verdict(true, true, true)
      && MarksCrossed(t) && AtHighMark(t) == AtHighMark(s)
      && t.active == (!s.active || s.lowStreak < 2)
      && t.lowStreak == if s.active && s.lowStreak < 2 then s.lowStreak + 1 else 0
  {}

  lemma OneMoreTick(s: State, events: seq<Event>, r: Readings)
    ensures After(s, events + [Tick(r)]) == Step(After(s, events), Tick(r))
    ensures After(s, events).running ==>
      Verdicts(s, events + [Tick(r)]) == Verdicts(s, events) + [Judge(After(s, events), r)]
  {
    assert (events + [Tick(r)])[..|events|] == events;
  }

  /** With crossed marks four such ticks end the pressure that the last of them should start. */
  lemma CrossedMarksFail(s: State)
    requires MarksCrossed(s) && !s.active
    ensures var t := Tick(AtHighMark(s));
      !After(s, [t, t, t, t]).active && Pressed(Verdicts(s, [t, t, t, t]))
  {
    var r := AtHighMark(s);
    var t := Tick(r);
    OneMoreTick(s, [], r);
    OneMoreTick(s, [t], r);
    OneMoreTick(s, [t, t], r);
    OneMoreTick(s, [t, t, t], r);
    assert [] + [t] == [t] && [t] + [t] == [t, t] && [t, t] + [t] == [t, t, t] && [t, t, t] + [t] == [t, t, t, t];
    var s1 := Step(s, t);
    var s2 := Step(s1, t);
    var s3 := Step(s2, t);
    TickOfBoth(s);
    TickOfBoth(s1);
    TickOfBoth(s2);
    TickOfBoth(s3);
    NewlyPressed(Verdicts(s, [t, t, t]), Verdict(true, true, true));
  }

  ghost predicate OneConfig(events: seq<Event>) {
    forall i :: 0 <= i < |events| ==> !events[i].ConfigChanged?
  }

  /** Pressure can be told from the ticks. */
  ghost predicate ToldByTicks(s: State) {
    forall events :: OneConfig(events) ==> (After(s, events).active <==> Pressed(Verdicts(s, events)))
  }

  /** Under one enabled configuration it can, for all events, exactly when the low mark is below the high one. */
  lemma ToldByTicksIff(cfg: Config, support: Support, a: U64, q: U64)
    requires EffectiveEnabled(cfg, support)
    ensures ToldByTicks(Start(cfg, support, a, q)) <==> cfg.low < cfg.high
  {
    var s := Start(cfg, support, a, q);
    if cfg.low < cfg.high {
      forall events | OneConfig(events) ensures After(s, events).active <==> Pressed(Verdicts(s, events)) {
        AlwaysTold(s, events);
      }
    } else {
      var t := Tick(AtHighMark(s));
      CrossedMarksFail(s);
      assert OneConfig([t, t, t, t]);
    }
  }
}
