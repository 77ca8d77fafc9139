// The controller told from its events alone: which configuration holds, what each tick says, and when the flags are up.
module ConntrackHistory {
  import opened Basics
  import opened Conntrack
  import opened ConntrackRuns
  import opened ConntrackPressure

  /** What the controller is started with. */
  datatype Origin = Origin(cfg: Config, support: Support, acceptTotal: U64, queueFullTotal: U64)

  function Begin(o: Origin): State {
    Start(o.cfg, o.support, o.acceptTotal, o.queueFullTotal)
  }

  predicate Ends(e: Event) {
    e.ConfigClosed? || e.CloseChannelClosed?
  }

  /** Some channel was closed. */
  predicate Ended(events: seq<Event>) {
    exists i :: 0 <= i < |events| && Ends(events[i])
  }

  /** What is known after the events: the last configuration, and the totals of the last tick. */
  function Latest(o: Origin, events: seq<Event>): Origin
    decreases |events|
  {
    if events == [] then o else
      var known, e := Latest(o, events[..|events| - 1]), events[|events| - 1];
      match e
      case ConfigChanged(cfg, support) => known.(cfg := cfg, support := support)
      case Tick(r) => known.(acceptTotal := r.acceptTotal, queueFullTotal := r.queueFullTotal)
      case _ => known
  }

  predicate Enabled(o: Origin) {
    o.cfg.inlineControl && o.support == Support(true, true, true)
  }

  /** The connections are at or above the share; they count as the whole at most. */
  predicate ShareAtLeast(r: Readings, cfg: Config, mark: nat) {
    0 < cfg.maxConnections && mark <= 100 && r.connections * 100 >= mark * cfg.maxConnections
  }

  predicate ShareAtMost(r: Readings, cfg: Config, mark: nat) {
    cfg.maxConnections == 0 || 100 <= mark || r.connections * 100 < (mark + 1) * cfg.maxConnections
  }

  /** What a tick says when this is known before it. */
  function Says(known: Origin, r: Readings): Verdict {
    var grown := known.acceptTotal < r.acceptTotal || known.queueFullTotal < r.queueFullTotal;
    Verdict(
      Enabled(known),
      grown || ShareAtLeast(r, known.cfg, known.cfg.high) || (r.fdPct.Some? && known.cfg.high <= r.fdPct.value),
      !grown && ShareAtMost(r, known.cfg, known.cfg.low) && (r.fdPct.None? || r.fdPct.value <= known.cfg.low))
  }

  /** What the ticks say, one after another. */
  function Said(o: Origin, events: seq<Event>): seq<Verdict>
    decreases |events|
  {
    if events == [] then [] else
      var before, e := events[..|events| - 1], events[|events| - 1];
      Said(o, before) + if e.Tick? then [Says(Latest(o, before), e.readings)] else []
  }

  // ---- The state is what the events say ----

  /** While it runs the controller has what is known. */
  predicate Knows(s: State, known: Origin) {
    && s.cfg == known.cfg && s.enabled == Enabled(known)
    && s.prevAcceptTotal == known.acceptTotal && s.prevQueueFullTotal == known.queueFullTotal
  }

  lemma EndedMore(before: seq<Event>, e: Event)
    ensures Ended(before + [e]) <==> Ended(before) || Ends(e)
  {
    var all := before + [e];
    assert all[|before|] == e;
    if i :| 0 <= i < |before| && Ends(before[i]) {
      assert Ends(all[i]);
    }
  }

  lemma StepKnows(s: State, e: Event, known: Origin)
    requires s.running && Knows(s, known) && !Ends(e)
    ensures Step(s, e).running && Knows(Step(s, e), Latest(known, [e]))
  {
    assert [e][..0] == [];
  }

  lemma LatestMore(o: Origin, before: seq<Event>, e: Event)
    ensures Latest(o, before + [e]) == Latest(Latest(o, before), [e])
  {
    assert (before + [e])[..|before|] == before && [e][..0] == [];
  }

  lemma {:induction false} AlwaysKnows(o: Origin, events: seq<Event>)
    ensures var s := After(Begin(o), events);
      (s.running <==> !Ended(events)) && (s.running ==> Knows(s, Latest(o, events)))
    decreases |events|
  {
    if events != [] {
      var before, e := events[..|events| - 1], events[|events| - 1];
      var s := After(Begin(o), before);
      assert events == before + [e];
      AlwaysKnows(o, before);
      EndedMore(before, e);
      LatestMore(o, before, e);
      if s.running && !Ends(e) {
        StepKnows(s, e, Latest(o, before));
      }
    }
  }

  // ---- The verdict of a tick ----

  lemma Quotient(n: nat, m: nat, k: nat)
    requires 0 < m
    ensures n / m >= k <==> n >= k * m
  {
    if n / m < k {
      LessThan(n, m, k);
    } else {
      assert n == m * (n / m) + n % m;
      assert m * (n / m) >= m * k;
    }
  }

  lemma ShareReached(r: Readings, cfg: Config, mark: nat)
    ensures AtLeast(ConnPct(r.connections, cfg.maxConnections), mark) <==> ShareAtLeast(r, cfg, mark)
  {
    if 0 < cfg.maxConnections {
      ConnPctExact(r.connections, cfg.maxConnections);
      Quotient(r.connections * 100, cfg.maxConnections, mark);
    }
  }

  lemma ShareCleared(r: Readings, cfg: Config, mark: nat)
    ensures AtMost(ConnPct(r.connections, cfg.maxConnections), mark) <==> ShareAtMost(r, cfg, mark)
  {
    if 0 < cfg.maxConnections {
      ConnPctExact(r.connections, cfg.maxConnections);
      Quotient(r.connections * 100, cfg.maxConnections, mark + 1);
    }
  }

  lemma JudgeSays(s: State, known: Origin, r: Readings)
    requires Knows(s, known)
    ensures Judge(s, r) == Says(known, r)
  {
    ShareReached(r, s.cfg, s.cfg.high);
    ShareCleared(r, s.cfg, s.cfg.low);
  }

  lemma {:induction false} VerdictsAreSaid(o: Origin, events: seq<Event>)
    requires !Ended(events)
    ensures Verdicts(Begin(o), events) == Said(o, events)
    decreases |events|
  {
    if events != [] {
      var before, e := events[..|events| - 1], events[|events| - 1];
      assert events == before + [e];
      EndedMore(before, e);
      VerdictsAreSaid(o, before);
      AlwaysKnows(o, before);
      if e.Tick? {
        JudgeSays(After(Begin(o), before), Latest(o, before), e.readings);
      }
    }
  }

  // ---- The flags ----

  /** The events put the flags up: no channel closed, the feature on, and the ticks speak of pressure. */
  ghost predicate Up(o: Origin, events: seq<Event>) {
    !Ended(events) && Enabled(Latest(o, events)) && Pressed(Said(o, events))
  }

  /** Both flags are up exactly when the events say so. */
  lemma FlagsFromEvents(o: Origin, events: seq<Event>)
    requires MarksOrdered(Begin(o), events)
    ensures var s := After(Begin(o), events); s.sharedFlag == s.statsFlag == Up(o, events)
  {
    PressureExactly(o.cfg, o.support, o.acceptTotal, o.queueFullTotal, events);
    AlwaysKnows(o, events);
    if !Ended(events) {
      VerdictsAreSaid(o, events);
    }
  }
}
