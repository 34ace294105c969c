/** The power guard in terms of what it reads (power_guard.py, lines 215 to 286): which readings
    lead to which state, over whole runs, without the guard's own memory of earlier polls. */
module PowerReadings {
  import opened Floats
  import opened Options
  import opened PowerGuard

  /** Every ceiling is int(max * factor). */
  ghost predicate CeilingsAt(orig: seq<nat>, s: State, factor: real) {
    && |s.ceilings| == |orig|
    && forall k :: 0 <= k < |orig| ==> s.ceilings[k] == Trunc(orig[k] as real * factor)
  }

  /** Both readings are there and the second is lower. */
  ghost predicate Lower(before: Option<int>, after: Option<int>) {
    before.Some? && after.Some? && after.value < before.value
  }

  /** A drain: the battery says so, its power does, or its energy fell for the second time. */
  ghost predicate Drain(cfg: Config, p: Poll, fell: bool, fellBefore: bool) {
    || (p.ac && p.status == "Discharging")
    || (p.power.Some? && p.power.value < cfg.drainThreshold)
    || (fell && fellBefore)
  }

  /** What one processed poll does: `power` and `energy` are the last poll's readings, `fellBefore`
      says whether that poll saw the energy fall. */
  ghost predicate Moves(cfg: Config, orig: seq<nat>, s: State, p: Poll, s': State,
                        power: Option<int>, energy: Option<int>, fellBefore: bool)
  {
    if !p.ac then
      && s'.mode == Discharging
      && if s.mode == Init || s.mode == Discharging then s'.factor == s.factor && s'.ceilings == s.ceilings
         else s'.factor == 1.0 && s'.ceilings == orig
    else if Drain(cfg, p, p.ac && Lower(energy, p.energy), fellBefore) then
      s'.mode == Emergency && s'.factor == cfg.emergency && CeilingsAt(orig, s', cfg.emergency)
    else match s.mode
      case Reconnecting =>
        && s'.mode == (if p.now - s.t0 >= cfg.observe then Expanding else Reconnecting)
        && s'.t0 == s.t0 && s'.factor == s.factor && s'.ceilings == s.ceilings
      case Expanding =>
        if Lower(power, p.power) then s'.mode == Cautionary && s'.factor == s.factor && s'.ceilings == s.ceilings
        else
          && s'.mode == Expanding
          && if cfg.expandStep > 0.0 && s.factor < 1.0
             then s'.factor == (if s.factor + cfg.expandStep <= 1.0 then s.factor + cfg.expandStep else 1.0)
                  && CeilingsAt(orig, s', s'.factor)
             else s'.factor == s.factor && s'.ceilings == s.ceilings
      case Cautionary =>
        && s'.mode == (if Lower(p.power, power) then Expanding else Cautionary)
        && s'.factor == s.factor && s'.ceilings == s.ceilings
      case _ =>
        && s'.mode == (if cfg.observe <= 0 then Expanding else Reconnecting) && s'.t0 == p.now
        && s'.factor == cfg.reconnect && CeilingsAt(orig, s', cfg.reconnect)
  }

  /** One processed poll, from any state. */
  lemma PollMoves(cfg: Config, orig: seq<nat>, s: State, p: Poll)
    requires !p.frozen && |s.ceilings| == |orig|
    ensures Moves(cfg, orig, s, p, Step(cfg, orig, s, p), s.lastPower, s.lastEnergy, s.streak >= 1)
  {
    hide Step;
    StepIsNext(cfg, orig, s, p);
    FullScale(orig);
  }

  /** The stop handler touches nothing while the guard is idle; else it restores every ceiling. */
  lemma StopReleases(orig: seq<nat>, s: State)
    requires |s.ceilings| == |orig|
    ensures StopHandler(orig, s) == if s.mode == Init || s.mode == Discharging then s else s.(ceilings := orig)
  {
    CeilingsApplied(orig, 1.0, s);
    FullScale(orig);
  }

  // ---------- over whole runs ----------

  /** The guard starts with every ceiling as it found it. */
  lemma StartsUnthrottled(cfg: Config, orig: seq<nat>)
    ensures var s := RunFrom(cfg, orig, Initial(orig), []);
            s.mode == Init && s.factor == 1.0 && s.ceilings == orig && s.streak == 0
  {
  }

  /** The polls at which the kill switch was off. */
  function Processed(polls: seq<Poll>): seq<Poll> {
    if polls == [] then []
    else
      var n := |polls| - 1;
      Processed(polls[..n]) + if polls[n].frozen then [] else [polls[n]]
  }

  /** Polls at which the kill switch is on leave no trace. */
  lemma {:induction false} FrozenLeavesNoTrace(cfg: Config, orig: seq<nat>, s: State, polls: seq<Poll>)
    ensures RunFrom(cfg, orig, s, polls) == RunFrom(cfg, orig, s, Processed(polls))
    ensures forall p <- Processed(polls) :: !p.frozen
    decreases |polls|
  {
    if polls != [] {
      var n := |polls| - 1;
      var before, done := polls[..n], Processed(polls[..n]);
      FrozenLeavesNoTrace(cfg, orig, s, before);
      if polls[n].frozen {
        assert done + [] == done;
        assert Step(cfg, orig, RunFrom(cfg, orig, s, before), polls[n]) == RunFrom(cfg, orig, s, before);
      } else {
        assert (done + [polls[n]])[..|done|] == done;
      }
    }
  }

  /** The i-th of these polls saw the battery energy fall while AC was online. */
  ghost predicate Fell(ps: seq<Poll>, i: int) {
    0 < i < |ps| && ps[i].ac && Lower(ps[i - 1].energy, ps[i].energy)
  }

  ghost function PowerBefore(ps: seq<Poll>): Option<int> { if ps == [] then None else ps[|ps| - 1].power }

  ghost function EnergyBefore(ps: seq<Poll>): Option<int> { if ps == [] then None else ps[|ps| - 1].energy }

  /** What the guard remembers is the last processed poll's readings. */
  lemma {:induction false} Memory(cfg: Config, orig: seq<nat>, ps: seq<Poll>)
    requires forall p <- ps :: !p.frozen
    ensures var s := RunFrom(cfg, orig, Initial(orig), ps);
            && |s.ceilings| == |orig| && s.lastPower == PowerBefore(ps) && s.lastEnergy == EnergyBefore(ps)
            && (s.streak >= 1 <==> Fell(ps, |ps| - 1))
    decreases |ps|
  {
    hide Step;
    if ps != [] {
      var n := |ps| - 1;
      Memory(cfg, orig, ps[..n]);
      assert ps[n] in ps;
      StepIsNext(cfg, orig, RunFrom(cfg, orig, Initial(orig), ps[..n]), ps[n]);
    }
  }

  /** In every run each processed poll moves the guard by its readings, those of the processed poll
      before it, and whether that one saw the energy fall. */
  lemma RunMoves(cfg: Config, orig: seq<nat>, polls: seq<Poll>, p: Poll)
    requires !p.frozen
    ensures var done := Processed(polls);
            Moves(cfg, orig, RunFrom(cfg, orig, Initial(orig), polls), p,
                  RunFrom(cfg, orig, Initial(orig), polls + [p]),
                  PowerBefore(done), EnergyBefore(done), Fell(done, |done| - 1))
  {
    hide Step;
    hide Moves;
    var done := Processed(polls);
    FrozenLeavesNoTrace(cfg, orig, Initial(orig), polls);
    Memory(cfg, orig, done);
    assert (polls + [p])[..|polls|] == polls;
    PollMoves(cfg, orig, RunFrom(cfg, orig, Initial(orig), done), p);
  }

  /** With AC online a processed poll ends in EMERGENCY, every ceiling at int(max * emergency),
      exactly when the battery says it discharges, or its power is below the threshold, or this
      poll and the processed one before it each saw a lower energy than the one before. */
  lemma EmergencyExactlyWhen(cfg: Config, orig: seq<nat>, polls: seq<Poll>)
    requires polls != [] && !polls[|polls| - 1].frozen && polls[|polls| - 1].ac
    ensures var p, s := polls[|polls| - 1], RunFrom(cfg, orig, Initial(orig), polls);
            var ps := Processed(polls);
            var n := |ps| - 1;
            && (s.mode == Emergency <==>
                  || p.status == "Discharging"
                  || (p.power.Some? && p.power.value < cfg.drainThreshold)
                  || (Fell(ps, n) && Fell(ps, n - 1)))
            && (s.mode == Emergency ==> s.factor == cfg.emergency && CeilingsAt(orig, s, cfg.emergency))
  {
    hide RunFrom;
    hide CeilingsAt;
    var n := |polls| - 1;
    var before, p := polls[..n], polls[n];
    assert polls == before + [p];
    var done := Processed(before);
    assert Processed(polls) == done + [p];
    RunMoves(cfg, orig, before, p);
    assert forall i :: 0 <= i < |done| ==> (done + [p])[i] == done[i];
  }
}
