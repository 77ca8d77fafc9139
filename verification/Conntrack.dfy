// The conntrack pressure controller: its event loop as a state machine, and the same loop on mutable state.
module Conntrack {
  import opened Basics

  const PRESSURE_RELEASE_TICKS := 3
  const U64_MAX := 0xFFFF_FFFF_FFFF_FFFF
  const U32_MAX := 0xFFFF_FFFF

  type U64 = n: nat | n <= U64_MAX
  type U32 = n: nat | n <= U32_MAX

  datatype Config = Config(inlineControl: bool, high: nat, low: nat, budget: nat, maxConnections: U32)

  datatype Support = Support(hasBackend: bool, hasCapNetAdmin: bool, hasConntrackBinary: bool)

  datatype Reason = NormalEof | Timeout | Pressure | Reset | Other

  datatype Outcome = Deleted | NotFound | Error

  /** What one sampling tick finds. */
  datatype Readings = Readings(connections: U64, fdPct: Option<nat>, acceptTotal: U64, queueFullTotal: U64)

  datatype Event =
    | ConfigChanged(cfg: Config, support: Support)
    | ConfigClosed
    | Close(reason: Reason, outcome: Outcome)
    | CloseChannelClosed
    | Tick(readings: Readings)

  datatype State = State(
    running: bool,
    cfg: Config,
    enabled: bool,
    active: bool,
    lowStreak: nat,
    prevAcceptTotal: U64,
    prevQueueFullTotal: U64,
    tokens: nat,
    sharedFlag: bool,
    statsFlag: bool,
    attempts: nat,
    deleted: nat,
    notFound: nat,
    errors: nat)

  function EffectiveEnabled(cfg: Config, support: Support): bool {
    cfg.inlineControl && support.hasCapNetAdmin && support.hasBackend && support.hasConntrackBinary
  }

  function SaturatingMul(a: U64, b: nat): U64 {
    if a * b <= U64_MAX then a * b else U64_MAX
  }

  function Min(a: nat, b: nat): nat {
    if a < b then a else b
  }

  function ConnPct(connections: U64, maxConnections: U32): Option<nat> {
    if maxConnections == 0 then None else Some(Min(SaturatingMul(connections, 100) / maxConnections, 100))
  }

  /** What a tick says about the load. */
  datatype Verdict = Verdict(enabled: bool, highHit: bool, lowClear: bool)

  predicate AtLeast(pct: Option<nat>, mark: nat) {
    pct.Some? && pct.value >= mark
  }

  predicate AtMost(pct: Option<nat>, mark: nat) {
    pct.Some? ==> pct.value <= mark
  }

  /** The two counters that only ever grow. */
  datatype Counter = AcceptTimeouts | QueueFull

  function Total(r: Readings, c: Counter): U64 {
    if c.AcceptTimeouts? then r.acceptTotal else r.queueFullTotal
  }

  function Prev(s: State, c: Counter): U64 {
    if c.AcceptTimeouts? then s.prevAcceptTotal else s.prevQueueFullTotal
  }

  /** How much a counter has grown since the tick before. */
  function Delta(s: State, r: Readings, c: Counter): nat {
    SaturatingSub(Total(r, c), Prev(s, c))
  }

  function Judge(s: State, r: Readings): Verdict {
    var conn := ConnPct(r.connections, s.cfg.maxConnections);
    var accept, full := Delta(s, r, AcceptTimeouts), Delta(s, r, QueueFull);
    Verdict(s.enabled,
            AtLeast(conn, s.cfg.high) || AtLeast(r.fdPct, s.cfg.high) || accept > 0 || full > 0,
            AtMost(conn, s.cfg.low) && AtMost(r.fdPct, s.cfg.low) && accept == 0 && full == 0)
  }

  function Flags(s: State, on: bool): State {
    s.(sharedFlag := on, statsFlag := on)
  }

  function Update(s: State, v: Verdict): State {
    if !v.enabled then if s.active then Flags(s.(active := false, lowStreak := 0), false) else s
    else if !s.active && v.highHit then Flags(s.(active := true, lowStreak := 0), true)
    else if s.active && v.lowClear then
      if s.lowStreak + 1 >= PRESSURE_RELEASE_TICKS
      then Flags(s.(active := false, lowStreak := 0), false)
      else s.(lowStreak := s.lowStreak + 1)
    else s.(lowStreak := 0)
  }

  /** A close event leads to a delete only under pressure, for a forced close, with budget left. */
  predicate Attempts(s: State, e: Event) {
    s.running && e.Close? && s.enabled && s.active && e.reason in {Timeout, Pressure, Reset} && s.tokens > 0
  }

  function Counted(s: State, o: Outcome): State {
    match o
    case Deleted => s.(deleted := s.deleted + 1)
    case NotFound => s.(notFound := s.notFound + 1)
    case Error => s.(errors := s.errors + 1)
  }

  function Step(s: State, e: Event): State {
    if !s.running then s else
      match e
      case ConfigChanged(cfg, support) =>
        var on := EffectiveEnabled(cfg, support);
        Flags(s.(cfg := cfg, enabled := on, tokens := cfg.budget), on && s.active)
      case ConfigClosed => Flags(s.(running := false), false)
      case CloseChannelClosed => Flags(s.(running := false), false)
      case Close(_, outcome) =>
        if Attempts(s, e) then Counted(s.(attempts := s.attempts + 1, tokens := s.tokens - 1), outcome) else s
      case Tick(r) =>
        Update(s.(tokens := s.cfg.budget, prevAcceptTotal := r.acceptTotal, prevQueueFullTotal := r.queueFullTotal),
               Judge(s, r))
  }

  function Start(cfg: Config, support: Support, acceptTotal: U64, queueFullTotal: U64): State {
    State(true, cfg, EffectiveEnabled(cfg, support), false, 0, acceptTotal, queueFullTotal, cfg.budget,
          false, false, 0, 0, 0, 0)
  }

  /** The state after the events. */
  function After(s: State, events: seq<Event>): State
    decreases |events|
  {
    if events == [] then s else Step(After(s, events[..|events| - 1]), events[|events| - 1])
  }

  /** After the loop has ended nothing happens any more. */
  lemma {:induction false} Stopped(s: State, events: seq<Event>)
    requires !s.running
    ensures After(s, events) == s
    decreases |events|
  {
    if events != [] {
      Stopped(s, events[..|events| - 1]);
    }
  }

  lemma {:induction false} AfterFirst(s: State, events: seq<Event>)
    requires events != []
    ensures After(s, events) == After(Step(s, events[0]), events[1..])
    decreases |events|
  {
    var n := |events| - 1;
    if n > 0 {
      AfterFirst(s, events[..n]);
      assert events[..n][1..] == events[1..][..n - 1];
    }
  }
}
