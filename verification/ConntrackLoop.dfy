// The loop on the state it changes.
module ConntrackLoop {
  import opened Basics
  import opened Conntrack

  datatype PressureSample =
    PressureSample(connPct: Option<nat>, fdPct: Option<nat>, acceptDelta: nat, queueFullDelta: nat)

  class Controller {
    var running: bool
    var cfg: Config
    var enabled: bool
    // pressure state
    var active: bool
    var lowStreak: nat
    var prevAcceptTotal: U64
    var prevQueueFullTotal: U64
    var tokens: nat
    // published flags
    var sharedFlag: bool
    var statsFlag: bool
    // statistics
    var attempts: nat
    var deleted: nat
    var notFound: nat
    var errors: nat

    ghost function Now(): State
      reads this
    {
      State(running, cfg, enabled, active, lowStreak, prevAcceptTotal, prevQueueFullTotal, tokens,
            sharedFlag, statsFlag, attempts, deleted, notFound, errors)
    }

    constructor (cfg: Config, support: Support, acceptTotal: U64, queueFullTotal: U64)
      ensures Now() == Start(cfg, support, acceptTotal, queueFullTotal)
    {
      this.cfg := cfg;
      running, active, lowStreak := true, false, 0;
      prevAcceptTotal, prevQueueFullTotal := acceptTotal, queueFullTotal;
      tokens := cfg.budget;
      enabled := EffectiveEnabled(cfg, support);
      attempts, deleted, notFound, errors := 0, 0, 0, 0;
      sharedFlag, statsFlag := false, false;
    }

    method SetFlags(on: bool)
      modifies `sharedFlag, `statsFlag
      ensures sharedFlag == statsFlag == on
    {
      sharedFlag := on;
      statsFlag := on;
    }

    method ChangeConfig(next: Config, support: Support)
      requires running
      modifies this
      ensures Now() == Step(old(Now()), ConfigChanged(next, support))
    {
      cfg := next;
      enabled := EffectiveEnabled(cfg, support);
      tokens := cfg.budget;
      SetFlags(enabled && active);
    }

    /** `outcome` is what the external delete command reports. */
    method HandleClose(reason: Reason, outcome: Outcome)
      requires running
      modifies this
      ensures Now() == Step(old(Now()), Close(reason, outcome))
    {
      if !enabled || !active || reason !in {Timeout, Pressure, Reset} || tokens == 0 {
        return;
      }
      attempts := attempts + 1;
      tokens := SaturatingSub(tokens, 1);
      match outcome {
        case Deleted => deleted := deleted + 1;
        case NotFound => notFound := notFound + 1;
        case Error => errors := errors + 1;
      }
    }

    method CollectPressureSample(r: Readings) returns (sample: PressureSample)
      modifies `prevAcceptTotal, `prevQueueFullTotal
      ensures prevAcceptTotal == r.acceptTotal && prevQueueFullTotal == r.queueFullTotal
      ensures sample == PressureSample(ConnPct(r.connections, cfg.maxConnections), r.fdPct,
                                       SaturatingSub(r.acceptTotal, old(prevAcceptTotal)),
                                       SaturatingSub(r.queueFullTotal, old(prevQueueFullTotal)))
    {
      var connPct := ConnPct(r.connections, cfg.maxConnections);
      var acceptDelta := SaturatingSub(r.acceptTotal, prevAcceptTotal);
      prevAcceptTotal := r.acceptTotal;
      var queueFullDelta := SaturatingSub(r.queueFullTotal, prevQueueFullTotal);
      prevQueueFullTotal := r.queueFullTotal;
      return PressureSample(connPct, r.fdPct, acceptDelta, queueFullDelta);
    }

    method UpdatePressureState(sample: PressureSample)
      modifies `active, `lowStreak, `sharedFlag, `statsFlag
      ensures Now() == Update(old(Now()), Verdict(enabled,
        AtLeast(sample.connPct, cfg.high) || AtLeast(sample.fdPct, cfg.high) || sample.acceptDelta > 0
          || sample.queueFullDelta > 0,
        AtMost(sample.connPct, cfg.low) && AtMost(sample.fdPct, cfg.low) && sample.acceptDelta == 0
          && sample.queueFullDelta == 0))
    {
      if !enabled {
        if active {
          active := false;
          lowStreak := 0;
          SetFlags(false);
        }
        return;
      }
      var highHit := AtLeast(sample.connPct, cfg.high) || AtLeast(sample.fdPct, cfg.high)
        || sample.acceptDelta > 0 || sample.queueFullDelta > 0;
      var lowClear := AtMost(sample.connPct, cfg.low) && AtMost(sample.fdPct, cfg.low)
        && sample.acceptDelta == 0 && sample.queueFullDelta == 0;
      if !active && highHit {
        active := true;
        lowStreak := 0;
        SetFlags(true);
        return;
      }
      if active && lowClear {
        lowStreak := lowStreak + 1;
        if lowStreak >= PRESSURE_RELEASE_TICKS {
          active := false;
          lowStreak := 0;
          SetFlags(false);
        }
        return;
      }
      lowStreak := 0;
    }

    method HandleTick(r: Readings)
      requires running
      modifies this
      ensures Now() == Step(old(Now()), Tick(r))
    {
      tokens := cfg.budget;
      var sample := CollectPressureSample(r);
      UpdatePressureState(sample);
    }

    /** The loop, until a channel closes or no more events have come. */
    method Run(events: seq<Event>)
      modifies this
      ensures Now() == After(old(Now()), events)
    {
      var i := 0;
      while i < |events| && running
        invariant 0 <= i <= |events|
        invariant After(Now(), events[i..]) == After(old(Now()), events)
      {
        AfterFirst(Now(), events[i..]);
        assert events[i..][1..] == events[i + 1..];
        match events[i] {
          case ConfigChanged(next, support) => ChangeConfig(next, support);
          case Close(reason, outcome) => HandleClose(reason, outcome);
          case Tick(r) => HandleTick(r);
          case _ =>
            running := false;
            SetFlags(false);
        }
        i := i + 1;
      }
      if !running {
        Stopped(Now(), events[i..]);
      }
    }
  }
}
