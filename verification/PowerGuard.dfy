/** The power guard (power_guard.py): a polling state machine that throttles the CPUs while
    the battery back-feeds and releases them step by step. Every poll is modelled as the list
    of its single writes, so that a stop signal may arrive between any two of them. Writes
    succeed and dry_run is off. */
module PowerGuard {
  import opened Floats
  import opened Options

  datatype Mode = Init | Discharging | Emergency | Reconnecting | Expanding | Cautionary

  datatype Config = Config(
    emergency: real, reconnect: real, expandStep: real,   // fractions of the original ceiling
    observe: int, drainThreshold: int)

  /** What one poll reads; `frozen` is the kill-switch file. */
  datatype Poll = Poll(frozen: bool, ac: bool, status: string, power: Option<int>, energy: Option<int>, now: int)

  datatype State = State(
    mode: Mode, t0: int, factor: real,
    lastPower: Option<int>, lastEnergy: Option<int>, streak: nat,
    ceilings: seq<int>)      // scaling_max_freq of each CPU

  /** int(max * factor). */
  function Khz(max: nat, factor: real): int { Trunc(max as real * factor) }

  function Scaled(orig: seq<nat>, factor: real): (khz: seq<int>)
    ensures |khz| == |orig|
  {
    seq(|orig|, i requires 0 <= i < |orig| => Khz(orig[i], factor))
  }

  // ---------- one poll as a list of writes ----------

  datatype Act =
    | Remember(power: Option<int>, energy: Option<int>, streak: nat)
    | Enter(mode: Mode)
    | Observe(now: int)
    | Factor(f: real)
    | Ceiling(cpu: nat, khz: int)

  function Apply(s: State, a: Act): State {
    match a
    case Remember(power, energy, streak) => s.(lastPower := power, lastEnergy := energy, streak := streak)
    case Enter(mode) => s.(mode := mode)
    case Observe(now) => s.(t0 := now)
    case Factor(f) => s.(factor := f)
    case Ceiling(cpu, khz) => if cpu < |s.ceilings| then s.(ceilings := s.ceilings[cpu := khz]) else s
  }

  function ApplyAll(s: State, acts: seq<Act>): State
    decreases |acts|
  {
    if acts == [] then s else ApplyAll(Apply(s, acts[0]), acts[1..])
  }

  /** `_apply_freq`, and `_release` with factor 1. */
  function Ceilings(orig: seq<nat>, factor: real): seq<Act> {
    seq(|orig|, i requires 0 <= i < |orig| => Ceiling(i, Khz(orig[i], factor)))
  }

  /** Consecutive falls of the battery energy while AC is online. */
  function Streak(s: State, p: Poll): nat {
    if p.energy.Some? && s.lastEnergy.Some? && p.ac && p.energy.value < s.lastEnergy.value then s.streak + 1 else 0
  }

  predicate Draining(cfg: Config, s: State, p: Poll) {
    || (p.status == "Discharging" && p.ac)
    || (p.power.Some? && p.power.value < cfg.drainThreshold)
    || Streak(s, p) >= 2
  }

  function Delta(s: State, p: Poll): int {
    if p.power.Some? && s.lastPower.Some? then p.power.value - s.lastPower.value else 0
  }

  function Min(a: real, b: real): real { if b < a then b else a }

  function React(cfg: Config, orig: seq<nat>, s: State, p: Poll): seq<Act> {
    if !p.ac then
      (if s.mode != Discharging && s.mode != Init then Ceilings(orig, 1.0) + [Factor(1.0)] else [])
      + [Enter(Discharging)]
    else if Draining(cfg, s, p) then
      [Enter(Emergency)] + Ceilings(orig, cfg.emergency) + [Factor(cfg.emergency)]
    else if s.mode in {Discharging, Init, Emergency} then
      [Enter(Reconnecting), Observe(p.now)] + Ceilings(orig, cfg.reconnect) + [Factor(cfg.reconnect)]
      + (if 0 >= cfg.observe then [Enter(Expanding)] else [])
    else match s.mode
      case Reconnecting => if p.now - s.t0 >= cfg.observe then [Enter(Expanding)] else []
      case Expanding =>
        if Delta(s, p) < 0 then [Enter(Cautionary)]
        else
          var f := Min(1.0, s.factor + cfg.expandStep);
          if f > s.factor then [Factor(f)] + Ceilings(orig, f) else []
      case _ => if Delta(s, p) > 0 then [Enter(Expanding)] else []
  }

  function Actions(cfg: Config, orig: seq<nat>, s: State, p: Poll): seq<Act> {
    if p.frozen then [] else [Remember(p.power, p.energy, Streak(s, p))] + React(cfg, orig, s, p)
  }

  function Step(cfg: Config, orig: seq<nat>, s: State, p: Poll): State {
    ApplyAll(s, Actions(cfg, orig, s, p))
  }

  function RunFrom(cfg: Config, orig: seq<nat>, s: State, polls: seq<Poll>): State {
    if polls == [] then s
    else Step(cfg, orig, RunFrom(cfg, orig, s, polls[..|polls| - 1]), polls[|polls| - 1])
  }

  /** Started on an unthrottled machine. */
  function Initial(orig: seq<nat>): State { State(Init, 0, 1.0, None, None, 0, orig) }

  /** The SIGTERM/SIGINT handler. */
  function StopHandler(orig: seq<nat>, s: State): State {
    if s.mode in {Emergency, Reconnecting, Cautionary, Expanding} then ApplyAll(s, Ceilings(orig, 1.0)) else s
  }

  // ---------- lists of writes ----------

  lemma {:induction false} ApplyConcat(s: State, a: seq<Act>, b: seq<Act>)
    ensures ApplyAll(s, a + b) == ApplyAll(ApplyAll(s, a), b)
    decreases |a|
  {
    if a == [] {
      assert a + b == b;
    } else {
      ApplyConcat(Apply(s, a[0]), a[1..], b);
      assert (a + b)[1..] == a[1..] + b;
    }
  }

  lemma {:induction false} CeilingsPrefix(orig: seq<nat>, factor: real, s: State, k: nat)
    requires |s.ceilings| == |orig| && k <= |orig|
    ensures ApplyAll(s, Ceilings(orig, factor)[..k]) == s.(ceilings := Scaled(orig, factor)[..k] + s.ceilings[k..])
  {
    var acts, full := Ceilings(orig, factor), Scaled(orig, factor);
    if k == 0 {
      assert full[..0] + s.ceilings[0..] == s.ceilings;
    } else {
      CeilingsPrefix(orig, factor, s, k - 1);
      var mid := ApplyAll(s, acts[..k - 1]);
      assert acts[..k] == acts[..k - 1] + [acts[k - 1]];
      ApplyConcat(s, acts[..k - 1], [acts[k - 1]]);
      assert [acts[k - 1]][1..] == [];
      assert ApplyAll(mid, [acts[k - 1]]) == Apply(mid, acts[k - 1]);
      assert mid.ceilings[k - 1 := full[k - 1]] == full[..k] + s.ceilings[k..];
    }
  }

  /** Writing all ceilings. */
  lemma CeilingsApplied(orig: seq<nat>, factor: real, s: State)
    requires |s.ceilings| == |orig|
    ensures ApplyAll(s, Ceilings(orig, factor)) == s.(ceilings := Scaled(orig, factor))
  {
    CeilingsPrefix(orig, factor, s, |orig|);
    assert Ceilings(orig, factor)[..|orig|] == Ceilings(orig, factor);
    assert Scaled(orig, factor)[..|orig|] + s.ceilings[|orig|..] == Scaled(orig, factor);
  }

  lemma FullScale(orig: seq<nat>)
    ensures Scaled(orig, 1.0) == orig
  {
    forall i | 0 <= i < |orig| ensures Scaled(orig, 1.0)[i] == orig[i] {
      assert orig[i] as real * 1.0 == orig[i] as real;
    }
  }

  lemma ApplyOne(s: State, a: Act)
    ensures ApplyAll(s, [a]) == Apply(s, a)
  {
    assert [a][1..] == [];
  }

  /** The poll in one piece. */
  function Next(cfg: Config, orig: seq<nat>, s: State, p: Poll): State {
    if p.frozen then s
    else
      var r := Apply(s, Remember(p.power, p.energy, Streak(s, p)));
      if !p.ac then
        if s.mode != Discharging && s.mode != Init then
          r.(ceilings := Scaled(orig, 1.0), factor := 1.0, mode := Discharging)
        else r.(mode := Discharging)
      else if Draining(cfg, s, p) then
        r.(mode := Emergency, ceilings := Scaled(orig, cfg.emergency), factor := cfg.emergency)
      else if s.mode in {Discharging, Init, Emergency} then
        r.(mode := if 0 >= cfg.observe then Expanding else Reconnecting, t0 := p.now,
           ceilings := Scaled(orig, cfg.reconnect), factor := cfg.reconnect)
      else match s.mode
        case Reconnecting => if p.now - s.t0 >= cfg.observe then r.(mode := Expanding) else r
        case Expanding =>
          if Delta(s, p) < 0 then r.(mode := Cautionary)
          else
            var f := Min(1.0, s.factor + cfg.expandStep);
            if f > s.factor then r.(factor := f, ceilings := Scaled(orig, f)) else r
        case _ => if Delta(s, p) > 0 then r.(mode := Expanding) else r
  }

  lemma ApplyTwo(s: State, a: Act, rest: seq<Act>)
    ensures ApplyAll(s, [a] + rest) == ApplyAll(Apply(s, a), rest)
  {
    ApplyConcat(s, [a], rest);
    ApplyOne(s, a);
  }

  lemma ApplyLast(s: State, acts: seq<Act>, a: Act)
    ensures ApplyAll(s, acts + [a]) == Apply(ApplyAll(s, acts), a)
  {
    ApplyConcat(s, acts, [a]);
    ApplyOne(ApplyAll(s, acts), a);
  }

  lemma ApplyNone(s: State)
    ensures ApplyAll(s, []) == s
  {
  }

  lemma ReactIsNext(cfg: Config, orig: seq<nat>, s: State, p: Poll)
    requires !p.frozen && |s.ceilings| == |orig|
    ensures var r := Apply(s, Remember(p.power, p.energy, Streak(s, p)));
            ApplyAll(r, React(cfg, orig, s, p)) == Next(cfg, orig, s, p)
  {
    hide ApplyAll;
    hide Ceilings;
    hide Scaled;
    var r := Apply(s, Remember(p.power, p.energy, Streak(s, p)));
    var acts := React(cfg, orig, s, p);
    if acts == [] {
      ApplyNone(r);
    } else if !p.ac {
      if s.mode != Discharging && s.mode != Init {
        ApplyLast(r, Ceilings(orig, 1.0) + [Factor(1.0)], Enter(Discharging));
        ApplyLast(r, Ceilings(orig, 1.0), Factor(1.0));
        CeilingsApplied(orig, 1.0, r);
      } else {
        assert acts == [Enter(Discharging)];
        ApplyOne(r, Enter(Discharging));
      }
    } else if Draining(cfg, s, p) {
      ApplyLast(r, [Enter(Emergency)] + Ceilings(orig, cfg.emergency), Factor(cfg.emergency));
      ApplyTwo(r, Enter(Emergency), Ceilings(orig, cfg.emergency));
      CeilingsApplied(orig, cfg.emergency, r.(mode := Emergency));
    } else if s.mode in {Discharging, Init, Emergency} {
      var start := r.(mode := Reconnecting, t0 := p.now);
      var clamp := [Enter(Reconnecting), Observe(p.now)] + Ceilings(orig, cfg.reconnect);
      assert clamp == [Enter(Reconnecting)] + ([Observe(p.now)] + Ceilings(orig, cfg.reconnect));
      ApplyTwo(r, Enter(Reconnecting), [Observe(p.now)] + Ceilings(orig, cfg.reconnect));
      ApplyTwo(r.(mode := Reconnecting), Observe(p.now), Ceilings(orig, cfg.reconnect));
      CeilingsApplied(orig, cfg.reconnect, start);
      ApplyLast(r, clamp, Factor(cfg.reconnect));
      if 0 >= cfg.observe {
        ApplyLast(r, clamp + [Factor(cfg.reconnect)], Enter(Expanding));
      } else {
        assert clamp + [Factor(cfg.reconnect)] + [] == clamp + [Factor(cfg.reconnect)];
      }
    } else if s.mode == Expanding && Delta(s, p) >= 0 {
      var f := Min(1.0, s.factor + cfg.expandStep);
      ApplyTwo(r, Factor(f), Ceilings(orig, f));
      CeilingsApplied(orig, f, r.(factor := f));
    } else {
      assert acts == [acts[0]];
      ApplyOne(r, acts[0]);
    }
  }

  /** The writes of a poll add up to it. */
  lemma StepIsNext(cfg: Config, orig: seq<nat>, s: State, p: Poll)
    requires |s.ceilings| == |orig|
    ensures Step(cfg, orig, s, p) == Next(cfg, orig, s, p)
  {
    if !p.frozen {
      ApplyTwo(s, Remember(p.power, p.energy, Streak(s, p)), React(cfg, orig, s, p));
      ReactIsNext(cfg, orig, s, p);
    }
  }

  // ---------- ceilings always follow the factor; stopping never leaves a clamp ----------

  /** Each ceiling is int(max * factor); unclamped states have factor 1. */
  ghost predicate Consistent(orig: seq<nat>, s: State) {
    s.ceilings == Scaled(orig, s.factor) && (s.mode in {Init, Discharging} ==> s.factor == 1.0)
  }

  lemma StepKeepsConsistent(cfg: Config, orig: seq<nat>, s: State, p: Poll)
    requires Consistent(orig, s)
    ensures Consistent(orig, Step(cfg, orig, s, p))
  {
    hide Step;
    StepIsNext(cfg, orig, s, p);
  }

  lemma {:induction false} AlwaysConsistent(cfg: Config, orig: seq<nat>, polls: seq<Poll>)
    ensures Consistent(orig, RunFrom(cfg, orig, Initial(orig), polls))
    decreases |polls|
  {
    hide Step;
    if polls == [] {
      FullScale(orig);
    } else {
      AlwaysConsistent(cfg, orig, polls[..|polls| - 1]);
      StepKeepsConsistent(cfg, orig, RunFrom(cfg, orig, Initial(orig), polls[..|polls| - 1]), polls[|polls| - 1]);
    }
  }

  /** The handler does nothing in two states; then nothing may be clamped. */
  ghost predicate StopSafe(orig: seq<nat>, s: State) {
    |s.ceilings| == |orig| && (s.mode in {Init, Discharging} ==> s.ceilings == orig)
  }

  /** Stop-safe now and after every single write. */
  ghost predicate SafeThrough(orig: seq<nat>, s: State, acts: seq<Act>)
    decreases |acts|
  {
    StopSafe(orig, s) && (acts != [] ==> SafeThrough(orig, Apply(s, acts[0]), acts[1..]))
  }

  lemma {:induction false} SafeConcat(orig: seq<nat>, s: State, a: seq<Act>, b: seq<Act>)
    requires SafeThrough(orig, s, a) && SafeThrough(orig, ApplyAll(s, a), b)
    ensures SafeThrough(orig, s, a + b)
    decreases |a|
  {
    if a == [] {
      assert a + b == b;
    } else {
      SafeConcat(orig, Apply(s, a[0]), a[1..], b);
      assert (a + b)[1..] == a[1..] + b;
    }
  }

  lemma {:induction false} SafePrefix(orig: seq<nat>, s: State, acts: seq<Act>, k: nat)
    requires SafeThrough(orig, s, acts) && k <= |acts|
    ensures StopSafe(orig, ApplyAll(s, acts[..k]))
    decreases |acts|
  {
    if k > 0 {
      SafePrefix(orig, Apply(s, acts[0]), acts[1..], k - 1);
      assert acts[..k][1..] == acts[1..][..k - 1];
    }
  }

  /** No unclamped state is entered. */
  ghost predicate Clamping(acts: seq<Act>) {
    forall i :: 0 <= i < |acts| && acts[i].Enter? ==> acts[i].mode !in {Init, Discharging}
  }

  /** In a clamp state any writes are safe as long as no unclamped state is entered. */
  lemma {:induction false} ClampedIsSafe(orig: seq<nat>, s: State, acts: seq<Act>)
    requires |s.ceilings| == |orig| && s.mode !in {Init, Discharging}
    requires Clamping(acts)
    ensures SafeThrough(orig, s, acts)
    decreases |acts|
  {
    if acts != [] {
      ClampedIsSafe(orig, Apply(s, acts[0]), acts[1..]);
    }
  }

  lemma ReactIsSafe(cfg: Config, orig: seq<nat>, s: State, p: Poll, r: State)
    requires Consistent(orig, s) && Scaled(orig, 1.0) == orig
    requires r == Apply(s, Remember(p.power, p.energy, Streak(s, p)))
    ensures SafeThrough(orig, r, React(cfg, orig, s, p))
  {
    var acts := React(cfg, orig, s, p);
    if !p.ac {
      var last := [Enter(Discharging)];
      assert last[1..] == [];
      if s.mode != Discharging && s.mode != Init {
        var body := Ceilings(orig, 1.0) + [Factor(1.0)];
        ClampedIsSafe(orig, r, body);
        ApplyLast(r, Ceilings(orig, 1.0), Factor(1.0));
        CeilingsApplied(orig, 1.0, r);
        assert SafeThrough(orig, ApplyAll(r, body), last);
        SafeConcat(orig, r, body, last);
      } else {
        assert acts == last;
        assert SafeThrough(orig, r, last);
      }
    } else if s.mode in {Discharging, Init} {
      assert acts[0].Enter? && acts[0].mode !in {Init, Discharging};
      ClampedIsSafe(orig, Apply(r, acts[0]), acts[1..]);
    } else {
      ClampedIsSafe(orig, r, acts);
    }
  }

  lemma ActionsAreSafe(cfg: Config, orig: seq<nat>, s: State, p: Poll)
    requires Consistent(orig, s)
    ensures SafeThrough(orig, s, Actions(cfg, orig, s, p))
  {
    FullScale(orig);
    if !p.frozen {
      var first := [Remember(p.power, p.energy, Streak(s, p))];
      var r := Apply(s, first[0]);
      var acts := React(cfg, orig, s, p);
      ApplyOne(s, first[0]);
      assert first[1..] == [];
      assert SafeThrough(orig, s, first);
      ReactIsSafe(cfg, orig, s, p, r);
      SafeConcat(orig, s, first, acts);
    }
  }

  lemma StopRestores(orig: seq<nat>, s: State)
    requires StopSafe(orig, s)
    ensures StopHandler(orig, s).ceilings == orig
  {
    CeilingsApplied(orig, 1.0, s);
    FullScale(orig);
    match s.mode
    case Init =>
    case Discharging =>
    case _ =>
  }

  /** In every run, whenever the signal arrives - between polls or between any two writes of
      one - stopping leaves every CPU at its original ceiling. */
  lemma StopNeverLeavesClamp(cfg: Config, orig: seq<nat>, polls: seq<Poll>, p: Poll, k: nat)
    requires k <= |Actions(cfg, orig, RunFrom(cfg, orig, Initial(orig), polls), p)|
    ensures var s := RunFrom(cfg, orig, Initial(orig), polls);
            StopHandler(orig, ApplyAll(s, Actions(cfg, orig, s, p)[..k])).ceilings == orig
  {
    hide Actions;
    hide ApplyAll;
    hide RunFrom;
    AlwaysConsistent(cfg, orig, polls);
    var s := RunFrom(cfg, orig, Initial(orig), polls);
    ActionsAreSafe(cfg, orig, s, p);
    SafePrefix(orig, s, Actions(cfg, orig, s, p), k);
    StopRestores(orig, ApplyAll(s, Actions(cfg, orig, s, p)[..k]));
  }

  // ---------- no release without an observation period ----------

  predicate Sane(cfg: Config) { cfg.emergency <= cfg.reconnect <= 1.0 }

  /** A processed poll that saw no drain. */
  ghost predicate QuietAt(cfg: Config, orig: seq<nat>, s: State, polls: seq<Poll>, i: nat)
    requires i < |polls|
  {
    !polls[i].frozen ==> !Draining(cfg, RunFrom(cfg, orig, s, polls[..i]), polls[i])
  }

  /** Processed polls k and j, `observe` apart, with no drain seen from k to the end. */
  ghost predicate QuietSpan(cfg: Config, orig: seq<nat>, s: State, polls: seq<Poll>, k: nat, j: nat) {
    && 0 < k <= j < |polls| && !polls[k].frozen && !polls[j].frozen
    && polls[j].now - polls[k].now >= cfg.observe
    && forall i :: k <= i < |polls| ==> QuietAt(cfg, orig, s, polls, i)
  }

  /** What a run that started with a drain can be in. */
  ghost predicate SinceDrain(cfg: Config, orig: seq<nat>, s: State, polls: seq<Poll>, k: nat, j: nat) {
    var now := RunFrom(cfg, orig, s, polls);
    && |now.ceilings| == |orig|
    && match now.mode
       case Emergency => now.factor == cfg.emergency
       case Reconnecting =>
         && now.factor == cfg.reconnect && 0 < k < |polls| && !polls[k].frozen && now.t0 == polls[k].now
         && forall i :: k <= i < |polls| ==> QuietAt(cfg, orig, s, polls, i)
       case Expanding => QuietSpan(cfg, orig, s, polls, k, j)
       case Cautionary => QuietSpan(cfg, orig, s, polls, k, j)
       case _ => false
  }

  lemma QuietAtPrefix(cfg: Config, orig: seq<nat>, s: State, polls: seq<Poll>, n: nat, i: nat)
    requires i < n <= |polls|
    ensures QuietAt(cfg, orig, s, polls[..n], i) == QuietAt(cfg, orig, s, polls, i)
  {
    assert polls[..n][..i] == polls[..i];
  }

  /** Starting at a drain with AC online throughout, track the quiet stretch. */
  lemma {:induction false} TrackQuiet(cfg: Config, orig: seq<nat>, s: State, polls: seq<Poll>) returns (k: nat, j: nat)
    requires polls != [] && |s.ceilings| == |orig|
    requires !polls[0].frozen && Draining(cfg, s, polls[0])
    requires forall p <- polls :: !p.frozen ==> p.ac
    ensures SinceDrain(cfg, orig, s, polls, k, j)
    decreases |polls|
  {
    hide Step;
    k, j := 0, 0;
    var n := |polls| - 1;
    var before, p := polls[..n], polls[n];
    var was := RunFrom(cfg, orig, s, before);
    if n == 0 {
      assert before == [];
      assert p in polls;
      StepIsNext(cfg, orig, s, p);
    } else {
      k, j := TrackQuiet(cfg, orig, s, before);
      StepIsNext(cfg, orig, was, p);
      assert p in polls;
      forall i | 0 <= i < n ensures QuietAt(cfg, orig, s, before, i) == QuietAt(cfg, orig, s, polls, i) {
        QuietAtPrefix(cfg, orig, s, polls, n, i);
      }
      if !p.frozen && !Draining(cfg, was, p) {
        if was.mode == Emergency {
          k, j := n, n;
        } else if was.mode == Reconnecting {
          j := n;
        }
      }
    }
  }

  /** After a drain with AC online since, the factor exceeds the reconnect clamp only after
      an observation period in which every processed poll was quiet. */
  lemma ReleaseNeedsObservation(cfg: Config, orig: seq<nat>, s: State, polls: seq<Poll>)
    requires Sane(cfg) && polls != [] && |s.ceilings| == |orig|
    requires !polls[0].frozen && Draining(cfg, s, polls[0])
    requires forall p <- polls :: !p.frozen ==> p.ac
    requires RunFrom(cfg, orig, s, polls).factor > cfg.reconnect
    ensures exists k, j :: QuietSpan(cfg, orig, s, polls, k, j)
  {
    var k, j := TrackQuiet(cfg, orig, s, polls);
  }

  // ---------- full recovery ----------

  /** Processed, online, no drain, and the margin not shrinking. */
  ghost predicate Favourable(cfg: Config, s: State, p: Poll) {
    !p.frozen && p.ac && !Draining(cfg, s, p) && Delta(s, p) >= 0
  }

  lemma ExpandOnce(cfg: Config, orig: seq<nat>, s: State, p: Poll)
    requires |s.ceilings| == |orig| && s.mode == Expanding && s.factor <= 1.0 && cfg.expandStep > 0.0
    requires Favourable(cfg, s, p)
    ensures var end := Step(cfg, orig, s, p);
            end.mode == Expanding && |end.ceilings| == |orig| && end.factor == Min(1.0, s.factor + cfg.expandStep)
  {
    hide Step;
    StepIsNext(cfg, orig, s, p);
  }

  ghost predicate AllFavourable(cfg: Config, orig: seq<nat>, s: State, polls: seq<Poll>) {
    forall i :: 0 <= i < |polls| ==> Favourable(cfg, RunFrom(cfg, orig, s, polls[..i]), polls[i])
  }

  /** `n` expansion steps. */
  function Steps(cfg: Config, n: nat): real { if n == 0 then 0.0 else Steps(cfg, n - 1) + cfg.expandStep }

  lemma MinReached(f: real, x: real)
    ensures x >= 1.0 - f ==> Min(1.0, f + x) == 1.0
  {
  }

  lemma OneMore(x: real, y: real)
    ensures (x + 1.0) * y == x * y + y
  {
  }

  lemma {:induction false} StepsAre(cfg: Config, n: nat)
    ensures Steps(cfg, n) == n as real * cfg.expandStep
  {
    if n > 0 {
      StepsAre(cfg, n - 1);
      OneMore((n - 1) as real, cfg.expandStep);
    }
  }

  lemma {:induction false} ExpandsStepwise(cfg: Config, orig: seq<nat>, s: State, polls: seq<Poll>)
    requires |s.ceilings| == |orig| && s.mode == Expanding && s.factor <= 1.0 && cfg.expandStep > 0.0
    requires AllFavourable(cfg, orig, s, polls)
    ensures var end := RunFrom(cfg, orig, s, polls);
            end.mode == Expanding && |end.ceilings| == |orig| && end.factor == Min(1.0, s.factor + Steps(cfg, |polls|))
    decreases |polls|
  {
    hide Step;
    hide Favourable;
    if polls != [] {
      var n := |polls| - 1;
      var before := polls[..n];
      forall i | 0 <= i < n ensures Favourable(cfg, RunFrom(cfg, orig, s, before[..i]), before[i]) {
        assert before[..i] == polls[..i];
      }
      ExpandsStepwise(cfg, orig, s, before);
      var was := RunFrom(cfg, orig, s, before);
      assert Favourable(cfg, was, polls[n]);
      ExpandOnce(cfg, orig, was, polls[n]);
    }
  }

  /** From EXPANDING each favourable poll adds exactly one step, capped at 1, so the machine
      is fully released after ceil((1 - factor) / step) of them. */
  lemma ExpansionReachesFull(cfg: Config, orig: seq<nat>, s: State, polls: seq<Poll>)
    requires |s.ceilings| == |orig| && s.mode == Expanding && s.factor <= 1.0 && cfg.expandStep > 0.0
    requires AllFavourable(cfg, orig, s, polls)
    ensures var end := RunFrom(cfg, orig, s, polls);
            && end.mode == Expanding && end.factor == Min(1.0, s.factor + |polls| as real * cfg.expandStep)
            && (|polls| as real * cfg.expandStep >= 1.0 - s.factor ==> end.factor == 1.0)
  {
    hide *;
    ExpandsStepwise(cfg, orig, s, polls);
    StepsAre(cfg, |polls|);
    MinReached(s.factor, |polls| as real * cfg.expandStep);
  }

  lemma WrittenAt(orig: seq<nat>, f: real, i: nat)
    requires i < |orig|
    ensures Scaled(orig, f)[i] == Khz(orig[i], f)
    ensures Ceilings(orig, f)[i] == Ceiling(i, Khz(orig[i], f))
  {
  }

  lemma NextFrozen(cfg: Config, orig: seq<nat>, s: State, p: Poll)
    requires p.frozen
    ensures Next(cfg, orig, s, p) == s
  {
  }

  // ---------- the guard itself ----------

  class Guard {
    const cfg: Config
    const orig: seq<nat>       // captured at start
    const cpus: array<int>     // scaling_max_freq nodes
    var mode: Mode
    var t0: int
    var factor: real
    var lastPower: Option<int>
    var lastEnergy: Option<int>
    var streak: nat
    ghost var log: seq<Act>    // every write, in order

    ghost predicate Valid()
      reads this
    {
      cpus.Length == |orig|
    }

    ghost function View(): State
      reads this, cpus
    {
      State(mode, t0, factor, lastPower, lastEnergy, streak, cpus[..])
    }

    /** `_capture_originals` on a machine whose ceilings are at their maximum. */
    constructor (cfg: Config, cpus: array<int>, orig: seq<nat>)
      requires cpus[..] == orig
      ensures Valid() && this.cfg == cfg && this.orig == orig && this.cpus == cpus
      ensures View() == Initial(orig) && log == []
    {
      this.cfg, this.cpus, this.orig := cfg, cpus, orig;
      mode, t0, factor, lastPower, lastEnergy, streak := Init, 0, 1.0, None, None, 0;
      log := [];
    }

    /** `_apply_freq`; `_release` is the same loop with factor 1. */
    method ApplyFreq(f: real)
      requires Valid()
      modifies cpus, this`log
      ensures View() == old(View()).(ceilings := Scaled(orig, f))
      ensures log == old(log) + Ceilings(orig, f)
    {
      ghost var acts, want := Ceilings(orig, f), Scaled(orig, f);
      for i := 0 to cpus.Length
        invariant forall j :: 0 <= j < i ==> cpus[j] == want[j]
        invariant log == old(log) + acts[..i]
      {
        cpus[i] := Khz(orig[i], f);
        WrittenAt(orig, f, i);
        log := log + [acts[i]];
        assert acts[..i + 1] == acts[..i] + [acts[i]];
      }
      assert acts[..|acts|] == acts;
      assert cpus[..] == want;
    }

    method SetMode(m: Mode)
      modifies this`mode, this`log
      ensures mode == m && log == old(log) + [Enter(m)]
    {
      mode := m;
      log := log + [Enter(m)];
    }

    method SetFactor(f: real)
      modifies this`factor, this`log
      ensures factor == f && log == old(log) + [Factor(f)]
    {
      factor := f;
      log := log + [Factor(f)];
    }

    /** Lines 220 to 237: what this poll says about the battery. */
    method Sense(p: Poll) returns (draining: bool, delta: int)
      requires Valid()
      modifies this`streak, this`lastEnergy, this`lastPower, this`log
      ensures draining == Draining(cfg, old(View()), p) && delta == Delta(old(View()), p)
      ensures View() == Apply(old(View()), Remember(p.power, p.energy, Streak(old(View()), p)))
      ensures log == old(log) + [Remember(p.power, p.energy, Streak(old(View()), p))]
    {
      if p.energy.Some? && lastEnergy.Some? && p.ac {
        streak := if p.energy.value < lastEnergy.value then streak + 1 else 0;
      } else {
        streak := 0;
      }
      lastEnergy := p.energy;
      draining :=
        || (p.status == "Discharging" && p.ac)
        || (p.power.Some? && p.power.value < cfg.drainThreshold)
        || streak >= 2;
      delta := if p.power.Some? && lastPower.Some? then p.power.value - lastPower.value else 0;
      lastPower := p.power;
      log := log + [Remember(p.power, p.energy, streak)];
    }

    /** Lines 240 to 246. */
    method Offline(p: Poll, ghost s: State)
      requires Valid() && !p.frozen && !p.ac
      requires View() == Apply(s, Remember(p.power, p.energy, Streak(s, p)))
      modifies this, cpus
      ensures View() == Next(cfg, orig, s, p) && log == old(log) + React(cfg, orig, s, p)
    {
      hide Scaled;
      hide Ceilings;
      if mode != Discharging && mode != Init {
        ApplyFreq(1.0);
        SetFactor(1.0);
      }
      SetMode(Discharging);
    }

    /** Lines 249 to 255. */
    method Emergent(p: Poll, ghost s: State)
      requires Valid() && !p.frozen && p.ac && Draining(cfg, s, p)
      requires View() == Apply(s, Remember(p.power, p.energy, Streak(s, p)))
      modifies this, cpus
      ensures View() == Next(cfg, orig, s, p) && log == old(log) + React(cfg, orig, s, p)
    {
      hide Scaled;
      hide Ceilings;
      SetMode(Emergency);
      ApplyFreq(cfg.emergency);
      SetFactor(cfg.emergency);
    }

    /** Enter RECONNECTING: start the observation clock and clamp. */
    method BeginObserving(now: int)
      requires Valid()
      modifies this, cpus
      ensures Valid()
      ensures View() == old(View()).(mode := Reconnecting, t0 := now,
                                     ceilings := Scaled(orig, cfg.reconnect), factor := cfg.reconnect)
      ensures log == old(log)
                     + ([Enter(Reconnecting), Observe(now)] + Ceilings(orig, cfg.reconnect) + [Factor(cfg.reconnect)])
    {
      hide Scaled;
      hide Ceilings;
      SetMode(Reconnecting);
      t0 := now;
      log := log + [Observe(now)];
      ApplyFreq(cfg.reconnect);
      SetFactor(cfg.reconnect);
    }

    /** Lines 261 to 284. */
    method Stable(p: Poll, delta: int, ghost s: State)
      requires Valid() && !p.frozen && p.ac && !Draining(cfg, s, p) && delta == Delta(s, p)
      requires View() == Apply(s, Remember(p.power, p.energy, Streak(s, p)))
      modifies this, cpus
      ensures View() == Next(cfg, orig, s, p) && log == old(log) + React(cfg, orig, s, p)
    {
      hide Scaled;
      hide Ceilings;
      hide Draining;
      hide Streak;
      hide Delta;
      if mode == Discharging || mode == Init || mode == Emergency {
        BeginObserving(p.now);
      }
      if mode == Reconnecting {
        if p.now - t0 >= cfg.observe {
          SetMode(Expanding);
        }
      } else if mode == Expanding {
        if delta < 0 {
          SetMode(Cautionary);
        } else {
          var f := Min(1.0, factor + cfg.expandStep);
          if f > factor {
            SetFactor(f);
            ApplyFreq(f);
          }
        }
      } else if mode == Cautionary {
        if delta > 0 {
          SetMode(Expanding);
        }
      }
    }

    method PollOnce(p: Poll)
      requires Valid()
      modifies this, cpus
      ensures View() == Step(cfg, orig, old(View()), p)
      ensures log == old(log) + Actions(cfg, orig, old(View()), p)
    {
      hide React;
      hide Next;
      hide Draining;
      hide Streak;
      ghost var s := View();
      StepIsNext(cfg, orig, s, p);
      if p.frozen {
        NextFrozen(cfg, orig, s, p);
        return;
      }
      var draining, delta := Sense(p);
      if !p.ac {
        Offline(p, s);
      } else if draining {
        Emergent(p, s);
      } else {
        Stable(p, delta, s);
      }
    }

    /** `_on_stop`. */
    method OnStop()
      requires Valid()
      modifies cpus, this`log
      ensures View() == StopHandler(orig, old(View()))
    {
      CeilingsApplied(orig, 1.0, View());
      if mode in {Emergency, Reconnecting, Cautionary, Expanding} {
        ApplyFreq(1.0);
      }
    }
  }
}
