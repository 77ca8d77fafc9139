// Which closes lead to a delete: the first forced ones between two refills, as many as the budget allows.
module ConntrackAttempts {
  import opened Basics
  import opened Conntrack
  import opened ConntrackRuns
  import opened ConntrackPressure
  import opened ConntrackHistory

  /** The outcomes that deletes for the forced closes have or would have. */
  function Forced(closes: seq<Event>): seq<Outcome>
    decreases |closes|
  {
    if closes == [] then [] else
      var before := Forced(closes[..|closes| - 1]);
      match closes[|closes| - 1]
      case Close(Timeout, outcome) => before + [outcome]
      case Close(Pressure, outcome) => before + [outcome]
      case Close(Reset, outcome) => before + [outcome]
      case _ => before
  }

  predicate OnlyCloses(events: seq<Event>) {
    forall i :: 0 <= i < |events| ==> events[i].Close?
  }

  function Times(outcomes: seq<Outcome>, o: Outcome): nat {
    multiset(outcomes)[o]
  }

  /** The state once deletes with these outcomes have been attempted. */
  ghost predicate Did(s: State, outcomes: seq<Outcome>, t: State) {
    && |outcomes| <= s.tokens
    && t == s.(tokens := s.tokens - |outcomes|, attempts := s.attempts + |outcomes|,
               deleted := s.deleted + Times(outcomes, Deleted), notFound := s.notFound + Times(outcomes, NotFound),
               errors := s.errors + Times(outcomes, Error))
  }

  /** As many as the budget allows. */
  function Within(outcomes: seq<Outcome>, budget: nat): seq<Outcome> {
    if |outcomes| <= budget then outcomes else outcomes[..budget]
  }

  /** What a stretch of closes leads to, from its first state. */
  function Led(s: State, closes: seq<Event>): seq<Outcome> {
    if s.sharedFlag then Within(Forced(closes), s.tokens) else []
  }

  lemma DidNothing(s: State)
    ensures Did(s, [], s)
  {}

  lemma DidOneMore(s: State, done: seq<Outcome>, t: State, o: Outcome)
    requires Did(s, done, t) && |done| < s.tokens
    ensures Did(s, done + [o], Counted(t.(attempts := t.attempts + 1, tokens := t.tokens - 1), o))
  {
    assert multiset(done + [o]) == multiset(done) + multiset{o};
  }

  lemma WithinMore(outcomes: seq<Outcome>, o: Outcome, budget: nat)
    ensures Within(outcomes + [o], budget)
      == if |outcomes| < budget then Within(outcomes, budget) + [o] else Within(outcomes, budget)
  {}

  lemma OneForced(e: Event)
    requires e.Close?
    ensures Forced([e]) == if e.reason in {Timeout, Pressure, Reset} then [e.outcome] else []
  {
    assert [e][..0] == [];
  }

  /** One close after others. */
  lemma CloseLeads(s: State, done: seq<Outcome>, t: State, e: Event, before: seq<Outcome>)
    requires FlagsOk(s) && Did(s, done, t) && done == (if s.sharedFlag then Within(before, s.tokens) else [])
    requires e.Close?
    ensures Did(s, if s.sharedFlag then Within(before + Forced([e]), s.tokens) else [], Step(t, e))
  {
    OneForced(e);
    if s.sharedFlag && e.reason in {Timeout, Pressure, Reset} {
      WithinMore(before, e.outcome, s.tokens);
      if |before| < s.tokens {
        DidOneMore(s, done, t, e.outcome);
      }
    } else {
      assert before + [] == before;
    }
  }

  lemma ForcedMore(closes: seq<Event>)
    requires closes != []
    ensures Forced(closes) == Forced(closes[..|closes| - 1]) + Forced([closes[|closes| - 1]])
  {
    assert [closes[|closes| - 1]][..0] == [];
  }

  /**
   * Over any stretch of closes the first forced ones lead to deletes, as many as there were tokens, if the flags were
   * up at its start; otherwise none does. Nothing else changes.
   */
  lemma {:induction false} StretchExactly(s: State, closes: seq<Event>)
    requires FlagsOk(s) && OnlyCloses(closes)
    ensures Did(s, Led(s, closes), After(s, closes))
    ensures After(s, closes).attempts
      == s.attempts + if s.sharedFlag then Min(s.tokens, |Forced(closes)|) else 0
    decreases |closes|
  {
    if closes == [] {
      DidNothing(s);
    } else {
      var before, e := closes[..|closes| - 1], closes[|closes| - 1];
      StretchExactly(s, before);
      ForcedMore(closes);
      CloseLeads(s, Led(s, before), After(s, before), e, Forced(before));
    }
  }

  /** Every tick and every configuration starts a stretch with its full budget, and attempts nothing. */
  lemma RefillIsFull(s: State, e: Event)
    requires s.running && (e.Tick? || e.ConfigChanged?)
    ensures var t := Step(s, e);
      && t.tokens == t.cfg.budget && t.cfg == (if e.Tick? then s.cfg else e.cfg)
      && t.attempts == s.attempts && t.deleted == s.deleted && t.notFound == s.notFound && t.errors == s.errors
  {}

  // ---- Whole runs ----

  /** Where the closes at the end start. */
  function LastStretch(events: seq<Event>): (k: nat)
    ensures k <= |events| && OnlyCloses(events[k..]) && (k > 0 ==> !events[k - 1].Close?)
    decreases |events|
  {
    if events == [] || !events[|events| - 1].Close? then |events| else
      var k := LastStretch(events[..|events| - 1]);
      assert forall i :: k <= i < |events| - 1 ==> events[i] == events[..|events| - 1][k..][i - k];
      k
  }

  /** What a stretch leads to, told from the events before it. */
  function Here(o: Origin, before: seq<Event>, closes: seq<Event>): seq<Outcome> {
    if After(Begin(o), before).sharedFlag then Within(Forced(closes), Latest(o, before).cfg.budget) else []
  }

  /** The deletes of a run from its start: stretch by stretch, with the budget of the configuration at its start. */
  function Deletes(o: Origin, events: seq<Event>): seq<Outcome>
    decreases |events|
  {
    var k := LastStretch(events);
    var here := Here(o, events[..k], events[k..]);
    if k == 0 then here else Deletes(o, events[..k - 1]) + here
  }

  /** The statistics count these deletes and their outcomes. */
  predicate Counts(s: State, deletes: seq<Outcome>) {
    && s.attempts == |deletes| && s.deleted == Times(deletes, Deleted)
    && s.notFound == Times(deletes, NotFound) && s.errors == Times(deletes, Error)
  }

  lemma CountsMore(s: State, deletes: seq<Outcome>, here: seq<Outcome>, t: State)
    requires Counts(s, deletes) && Did(s, here, t)
    ensures Counts(t, deletes + here)
  {
    assert multiset(deletes + here) == multiset(deletes) + multiset(here);
  }

  lemma OtherEventCounts(s: State, e: Event, deletes: seq<Outcome>)
    requires Counts(s, deletes) && !e.Close?
    ensures Counts(Step(s, e), deletes)
  {}

  lemma {:induction false} AfterSplit(s: State, a: seq<Event>, b: seq<Event>)
    ensures After(s, a + b) == After(After(s, a), b)
    decreases |b|
  {
    if b == [] {
      assert a + b == a;
    } else {
      var n := |b| - 1;
      AfterSplit(s, a, b[..n]);
      assert (a + b)[..|a + b| - 1] == a + b[..n];
    }
  }

  /** What a stretch finds at its start, if the flags are up. */
  lemma StretchBudget(o: Origin, before: seq<Event>)
    requires (before == [] || !before[|before| - 1].Close?) && After(Begin(o), before).sharedFlag
    ensures After(Begin(o), before).tokens == Latest(o, before).cfg.budget
  {
    AlwaysFlagsOk(Begin(o), before);
    AlwaysKnows(o, before);
    if before != [] {
      RefillOrEnd(After(Begin(o), before[..|before| - 1]), before[|before| - 1]);
    }
  }

  lemma RefillOrEnd(s: State, e: Event)
    requires !e.Close? && Step(s, e).running
    ensures Step(s, e).tokens == Step(s, e).cfg.budget
  {}

  lemma StretchCounts(o: Origin, before: seq<Event>, closes: seq<Event>, deletes: seq<Outcome>)
    requires (before == [] || !before[|before| - 1].Close?) && OnlyCloses(closes)
    requires Counts(After(Begin(o), before), deletes)
    ensures Counts(After(Begin(o), before + closes), deletes + Here(o, before, closes))
  {
    var s := After(Begin(o), before);
    AlwaysFlagsOk(Begin(o), before);
    if s.sharedFlag {
      StretchBudget(o, before);
    }
    StretchExactly(s, closes);
    CountsMore(s, deletes, Led(s, closes), After(s, closes));
    AfterSplit(Begin(o), before, closes);
  }

  /**
   * After any events the attempts are exactly the first forced closes of every stretch, with the flags up at its start,
   * up to the budget then in force; every outcome is counted as often as it occurred among them.
   */
  lemma {:induction false} AttemptsExactly(o: Origin, events: seq<Event>)
    ensures Counts(After(Begin(o), events), Deletes(o, events))
    decreases |events|
  {
    var k := LastStretch(events);
    var before := if k == 0 then [] else Deletes(o, events[..k - 1]);
    if k > 0 {
      AttemptsExactly(o, events[..k - 1]);
      assert events[..k][..k - 1] == events[..k - 1];
      OtherEventCounts(After(Begin(o), events[..k - 1]), events[k - 1], before);
    }
    StretchCounts(o, events[..k], events[k..], before);
    assert events == events[..k] + events[k..];
  }
}
