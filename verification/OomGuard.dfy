/** The out-of-memory guard (oom_guard.py): when it acts, on what, and how often. Times are
    seconds; I/O failures, notifications and the painless relief itself are not modelled. */
module OomGuard {
  import opened Options
  import opened Sorting

  datatype Mode = Normal | Soft | Hard

  /** A cgroup as sampled by `top_cgroups`. */
  datatype Entry = Entry(cgroup: string, mb: nat, idle: real)

  datatype Backend = Backend(name: string, cgroup: string)

  datatype Config = Config(
    soft: int, hard: int, tSoft: real, tHard: real, topN: nat, bias: real,
    backends: seq<Backend>, patterns: seq<string>, selfCgroup: string, dryRun: bool)

  const OWN_UNIT := "system.slice/oom-guard.service"

  // ---------- who may be hit ----------

  /** The backend a cgroup belongs to; None is an ordinary app. */
  function Classify(backends: seq<Backend>, e: Entry): Option<string> {
    if backends == [] then None
    else if e.cgroup == backends[0].cgroup then Some(backends[0].name)
    else Classify(backends[1..], e)
  }

  predicate IsModel(cfg: Config, e: Entry) { Classify(cfg.backends, e).Some? }

  /** The part after the last slash. */
  function Basename(name: string): string {
    if name == "" || name[|name| - 1] == '/' then "" else Basename(name[..|name| - 1]) + [name[|name| - 1]]
  }

  function DropDigits(s: string): string {
    if s != "" && '0' <= s[|s| - 1] <= '9' then DropDigits(s[..|s| - 1]) else s
  }

  predicate EndsWith(s: string, tail: string) {
    |tail| <= |s| && s[|s| - |tail|..] == tail
  }

  /** `user@<digits>.service` at the end of the name. */
  predicate EndsAsSession(base: string) {
    EndsWith(base, ".service") &&
    var stem := base[..|base| - |".service"|];
    |DropDigits(stem)| < |stem| && EndsWith(DropDigits(stem), "user@")
  }

  predicate Contains(name: string, part: string) {
    part <= name || (name != "" && Contains(name[1..], part))
  }

  predicate IsProtected(cfg: Config, e: Entry) {
    || e.cgroup == cfg.selfCgroup || e.cgroup == OWN_UNIT
    || EndsAsSession(Basename(e.cgroup))
    || exists p <- cfg.patterns :: Contains(e.cgroup, p)
  }

  /** Lower is evicted first: idle time, raised for models by their restart cost. */
  function Priority(cfg: Config, e: Entry): real {
    e.idle + if IsModel(cfg, e) then cfg.bias else 0.0
  }

  function TopCgroups(cfg: Config, sampled: seq<Entry>): seq<Entry> {
    var byRss := StableSort(sampled, (e: Entry) => Key(0, -(e.mb as real)));
    if cfg.topN < |byRss| then byRss[..cfg.topN] else byRss
  }

  function Unprotected(cfg: Config, entries: seq<Entry>): seq<Entry> {
    if entries == [] then []
    else (if IsProtected(cfg, entries[0]) then [] else [entries[0]]) + Unprotected(cfg, entries[1..])
  }

  function VictimKey(cfg: Config, e: Entry): Key { Key(if IsModel(cfg, e) then 1 else 0, Priority(cfg, e)) }

  /** The first unprotected cgroup by (apps before models, priority). */
  function Victim(cfg: Config, sampled: seq<Entry>): Option<Entry> {
    var victims := StableSort(Unprotected(cfg, TopCgroups(cfg, sampled)), (e: Entry) => VictimKey(cfg, e));
    if victims == [] then None else Some(victims[0])
  }

  datatype Act =
    | SoftRelief                          // drop caches, unload an idle model; nothing dies
    | Noop                                // no victim
    | WouldAct(target: Entry)             // dry run
    | Kill(target: Entry)
    | Restart(backend: string, target: Entry)

  function Relieve(cfg: Config, level: Mode, sampled: seq<Entry>): Act {
    if level == Soft && !cfg.dryRun then SoftRelief
    else
      var victim := Victim(cfg, sampled);
      if victim.None? then Noop
      else if cfg.dryRun then WouldAct(victim.value)
      else
        match Classify(cfg.backends, victim.value)
        case Some(backend) => Restart(backend, victim.value)
        case None => Kill(victim.value)
  }

  // ---------- the polling loop ----------

  datatype Poll = Poll(frozen: bool, mem: nat, now: real, sampled: seq<Entry>)

  /** `acts` lists what was done, with the poll it was done at. */
  datatype Done = Done(at: real, to: Mode, act: Option<Act>)

  datatype State = State(mode: Mode, since: real, log: seq<Done>)

  function Transition(cfg: Config, s: State, to: Mode, p: Poll): State {
    var act := if to == Soft || to == Hard then Some(Relieve(cfg, to, p.sampled)) else None;
    State(to, p.now, s.log + [Done(p.now, to, act)])
  }

  function Step(cfg: Config, s: State, p: Poll): State {
    if p.frozen then s
    else if p.mem < cfg.hard && p.now - s.since >= cfg.tHard then Transition(cfg, s, Hard, p)
    else if p.mem < cfg.soft && p.now - s.since >= cfg.tSoft then Transition(cfg, s, Soft, p)
    else if p.mem >= cfg.soft && s.mode != Normal then Transition(cfg, s, Normal, p)
    else s
  }

  function Run(cfg: Config, s: State, polls: seq<Poll>): State {
    if polls == [] then s
    else Step(cfg, Run(cfg, s, polls[..|polls| - 1]), polls[|polls| - 1])
  }

  function Initial(start: real): State { State(Normal, start, []) }

  // ---------- the right target ----------

  lemma {:induction false} UnprotectedIn(cfg: Config, entries: seq<Entry>, e: Entry)
    ensures e in Unprotected(cfg, entries) <==> e in entries && !IsProtected(cfg, e)
  {
    if entries != [] {
      UnprotectedIn(cfg, entries[1..], e);
    }
  }

  /** An unprotected cgroup of the top_n; an app whenever there is one; least priority in
      its class. */
  ghost predicate RightTarget(cfg: Config, sampled: seq<Entry>, target: Entry) {
    var top := TopCgroups(cfg, sampled);
    && target in top && !IsProtected(cfg, target)
    && (IsModel(cfg, target) ==> forall e <- top :: !IsProtected(cfg, e) ==> IsModel(cfg, e))
    && (forall e <- top :: !IsProtected(cfg, e) && IsModel(cfg, e) == IsModel(cfg, target)
          ==> Priority(cfg, target) <= Priority(cfg, e))
  }

  lemma VictimIsRight(cfg: Config, sampled: seq<Entry>)
    ensures match Victim(cfg, sampled)
            case Some(target) => RightTarget(cfg, sampled, target)
            case None => forall e <- TopCgroups(cfg, sampled) :: IsProtected(cfg, e)
  {
    hide IsProtected;
    hide IsModel;
    hide TopCgroups;
    var top := TopCgroups(cfg, sampled);
    var pool := Unprotected(cfg, top);
    var key := (e: Entry) => VictimKey(cfg, e);
    forall e ensures e in pool <==> e in top && !IsProtected(cfg, e) { UnprotectedIn(cfg, top, e); }
    StableSortSorts(pool, key);
    if pool != [] {
      var i := StableSortHead(pool, key);
      var target := pool[i];
      assert target in pool;
      forall e <- top | !IsProtected(cfg, e) ensures Le(VictimKey(cfg, target), VictimKey(cfg, e)) {
        assert e in pool;
        var j :| 0 <= j < |pool| && pool[j] == e;
        assert Le(key(pool[i]), key(pool[j]));
      }
    }
  }

  /** An app of the top_n that may be hit. */
  predicate OpenApp(cfg: Config, sampled: seq<Entry>, e: Entry) {
    e in TopCgroups(cfg, sampled) && !IsProtected(cfg, e) && !IsModel(cfg, e)
  }

  /** Among apps the sort puts the least idle one first, not the most idle: the victim is a most
      idle one exactly when all of them are equally idle. */
  lemma VictimIsLeastIdle(cfg: Config, sampled: seq<Entry>, target: Entry)
    requires Victim(cfg, sampled) == Some(target) && !IsModel(cfg, target)
    ensures OpenApp(cfg, sampled, target)
    ensures forall e | OpenApp(cfg, sampled, e) :: target.idle <= e.idle
    ensures (forall e | OpenApp(cfg, sampled, e) :: e.idle <= target.idle)
            <==> forall e, f | OpenApp(cfg, sampled, e) && OpenApp(cfg, sampled, f) :: e.idle == f.idle
  {
    hide Victim;
    hide IsProtected;
    hide IsModel;
    hide TopCgroups;
    VictimIsRight(cfg, sampled);
    assert forall e | OpenApp(cfg, sampled, e) :: Priority(cfg, target) <= Priority(cfg, e);
  }

  /** The top_n really are the largest: whatever was sampled but left out is no larger. */
  lemma TopIsLargest(cfg: Config, sampled: seq<Entry>, e: Entry, kept: Entry)
    requires e in sampled && e !in TopCgroups(cfg, sampled) && kept in TopCgroups(cfg, sampled)
    ensures e.mb <= kept.mb && kept in sampled && |TopCgroups(cfg, sampled)| == cfg.topN
  {
    var key := (e: Entry) => Key(0, -(e.mb as real));
    StableSortSorts(sampled, key);
    var byRss := StableSort(sampled, key);
    InMultiset(byRss, sampled, e);
    InMultiset(byRss, sampled, kept);
    var top := TopCgroups(cfg, sampled);
    var i :| 0 <= i < |top| && top[i] == kept;
    var j :| 0 <= j < |byRss| && byRss[j] == e;
    assert byRss[i] == kept;
    forall k | 0 <= k < |top| ensures byRss[k] != e {
      assert top[k] in top && top[k] == byRss[k];
    }
    assert Le(key(byRss[i]), key(byRss[j]));
  }

  // ---------- when it acts ----------

  predicate Forceful(act: Option<Act>) { act.Some? && (act.value.Kill? || act.value.Restart?) }

  /** Everything a kill or restart at poll `p` is conditioned on. */
  ghost predicate Justified(cfg: Config, s: State, p: Poll, act: Act) {
    && !cfg.dryRun && !p.frozen && p.mem < cfg.hard && p.now - s.since >= cfg.tHard
    && (act.Kill? || act.Restart?) && RightTarget(cfg, p.sampled, act.target)
    && (act.Restart? ==> Classify(cfg.backends, act.target) == Some(act.backend))
    && (act.Kill? ==> !IsModel(cfg, act.target))
  }

  lemma ForceIsJustified(cfg: Config, s: State, p: Poll)
    requires var s' := Step(cfg, s, p); s'.log != s.log && Forceful(s'.log[|s'.log| - 1].act)
    ensures Justified(cfg, s, p, Step(cfg, s, p).log[|s.log|].act.value)
  {
    hide RightTarget;
    hide Victim;
    VictimIsRight(cfg, p.sampled);
  }

  ghost predicate TimeFlows(s: State, polls: seq<Poll>) {
    && (forall i :: 0 <= i < |polls| ==> s.since <= polls[i].now)
    && (forall i, j :: 0 <= i < j < |polls| ==> polls[i].now <= polls[j].now)
  }

  /** When the transition before the i-th one happened. */
  ghost function Before(start: real, log: seq<Done>, i: nat): real
    requires i <= |log|
  {
    if i == 0 then start else log[i - 1].at
  }

  /** `since` is the time of the last transition, and the log is in time order with forceful
      acts at least t_hard after whatever transition came before. */
  ghost predicate LogOk(cfg: Config, start: real, s: State) {
    && s.since == Before(start, s.log, |s.log|)
    && (forall i, j :: 0 <= i < j < |s.log| ==> s.log[i].at <= s.log[j].at)
    && (forall i :: 0 <= i < |s.log| && Forceful(s.log[i].act) ==>
          s.log[i].at - Before(start, s.log, i) >= cfg.tHard)
  }

  lemma LogSnoc(cfg: Config, start: real, s: State, to: Mode, d: Done)
    requires LogOk(cfg, start, s) && s.since <= d.at && (Forceful(d.act) ==> d.at - s.since >= cfg.tHard)
    ensures LogOk(cfg, start, State(to, d.at, s.log + [d]))
  {
    hide Forceful;
    var log, n := s.log + [d], |s.log|;
    forall i | 0 <= i < |log| ensures Before(start, log, i) == Before(start, s.log, i) {
    }
    forall i, j | 0 <= i < j < |log| ensures log[i].at <= log[j].at {
      if j == n { assert i == n - 1 || s.log[i].at <= s.log[n - 1].at; }
    }
  }

  lemma StepKeepsLog(cfg: Config, start: real, s: State, p: Poll)
    requires LogOk(cfg, start, s) && s.since <= p.now
    ensures LogOk(cfg, start, Step(cfg, s, p)) && Step(cfg, s, p).since <= p.now
  {
    hide Victim;
    hide LogOk;
    var s' := Step(cfg, s, p);
    if s'.log != s.log {
      LogSnoc(cfg, start, s, s'.mode, s'.log[|s.log|]);
    } else {
      assert s' == s;
    }
  }

  lemma {:induction false} AlwaysLogOk(cfg: Config, start: real, polls: seq<Poll>)
    requires TimeFlows(Initial(start), polls)
    ensures LogOk(cfg, start, Run(cfg, Initial(start), polls))
    ensures var s := Run(cfg, Initial(start), polls); polls != [] ==> s.since <= polls[|polls| - 1].now
    decreases |polls|
  {
    hide Relieve;
    if polls != [] {
      var n := |polls| - 1;
      AlwaysLogOk(cfg, start, polls[..n]);
      StepKeepsLog(cfg, start, Run(cfg, Initial(start), polls[..n]), polls[n]);
    }
  }

  /** Over a whole run, two forceful acts are at least t_hard apart, and each comes at least
      t_hard after the transition before it. */
  lemma ForceIsSpaced(cfg: Config, start: real, polls: seq<Poll>, i: nat, j: nat)
    requires TimeFlows(Initial(start), polls)
    requires var log := Run(cfg, Initial(start), polls).log;
             i < j < |log| && Forceful(log[i].act) && Forceful(log[j].act)
    ensures var log := Run(cfg, Initial(start), polls).log;
            log[j].at - log[i].at >= cfg.tHard && log[j].at - log[j - 1].at >= cfg.tHard
  {
    AlwaysLogOk(cfg, start, polls);
  }

  // ---------- sustained pressure ----------

  /** Below the hard bar all along; only the last poll is active with t_hard elapsed. */
  ghost predicate Pressed(cfg: Config, s: State, polls: seq<Poll>) {
    && polls != []
    && (forall i :: 0 <= i < |polls| ==> polls[i].mem < cfg.hard && s.since <= polls[i].now)
    && (forall i :: 0 <= i < |polls| - 1 ==> polls[i].frozen || polls[i].now - s.since < cfg.tHard)
    && !polls[|polls| - 1].frozen && polls[|polls| - 1].now - s.since >= cfg.tHard
  }

  /** ... and then the guard goes HARD at exactly that poll, its first transition. */
  ghost predicate HardAtLast(cfg: Config, s: State, polls: seq<Poll>)
    requires polls != []
  {
    var last := polls[|polls| - 1];
    Run(cfg, s, polls) == Transition(cfg, s, Hard, last)
  }

  /** Bars and timers are ordered, or HARD needs no waiting, or nothing is below its bar. */
  predicate Ordered(cfg: Config) {
    cfg.hard <= 0 || cfg.tHard <= 0.0 || (cfg.hard <= cfg.soft && cfg.tHard <= cfg.tSoft)
  }

  lemma {:induction false} NothingBefore(cfg: Config, s: State, polls: seq<Poll>)
    requires Ordered(cfg)
    requires forall i :: 0 <= i < |polls| ==> polls[i].mem < cfg.hard && s.since <= polls[i].now
    requires forall i :: 0 <= i < |polls| ==> polls[i].frozen || polls[i].now - s.since < cfg.tHard
    ensures Run(cfg, s, polls) == s
    decreases |polls|
  {
    if polls != [] {
      NothingBefore(cfg, s, polls[..|polls| - 1]);
    }
  }

  /** With ordered bars and timers, sustained pressure below the hard bar yields HARD at the
      first active poll with t_hard elapsed. */
  lemma PressureGoesHard(cfg: Config, s: State, polls: seq<Poll>)
    requires Ordered(cfg) && Pressed(cfg, s, polls)
    ensures HardAtLast(cfg, s, polls)
  {
    NothingBefore(cfg, s, polls[..|polls| - 1]);
  }

  lemma OnePoll(cfg: Config, s: State, a: Poll)
    ensures Run(cfg, s, [a]) == Step(cfg, s, a)
  {
    assert [a][..0] == [];
  }

  lemma TwoPolls(cfg: Config, s: State, a: Poll, b: Poll)
    ensures Run(cfg, s, [a, b]) == Step(cfg, Step(cfg, s, a), b)
  {
    OnePoll(cfg, s, a);
    assert [a, b][..1] == [a];
  }

  /** A run of the guard under pressure: what came before, then polls below the hard bar. */
  ghost predicate PressedRun(cfg: Config, start: real, before: seq<Poll>, polls: seq<Poll>) {
    TimeFlows(Initial(start), before + polls) && Pressed(cfg, Run(cfg, Initial(start), before), polls)
  }

  /** With a slow HARD timer, the SOFT transition of a guard that just started restarts the clock. */
  lemma SoftRestartsClock(cfg: Config) returns (polls: seq<Poll>)
    requires cfg.tHard > 0.0 && 0 < cfg.hard <= cfg.soft && cfg.tHard > cfg.tSoft
    ensures PressedRun(cfg, 0.0, [], polls) && !HardAtLast(cfg, Initial(0.0), polls)
  {
    hide Relieve;
    var s, half := Initial(0.0), cfg.tHard / 2.0;
    var early := if cfg.tSoft < half then half else cfg.tSoft;
    var a, b := Poll(false, cfg.hard - 1, early, []), Poll(false, cfg.hard - 1, cfg.tHard, []);
    polls := [a, b];
    assert [] + polls == polls;
    TwoPolls(cfg, s, a, b);
    assert Step(cfg, s, a) == Transition(cfg, s, Soft, a);
    assert Run(cfg, s, polls).log[0].at == early;
  }

  /** With the soft bar below the hard one, a guard that went HARD falls back to NORMAL while
      memory is still below the hard bar, and that restarts the clock. */
  lemma NormalRestartsClock(cfg: Config) returns (before: seq<Poll>, polls: seq<Poll>)
    requires cfg.tHard > 0.0 && cfg.hard > 0 && cfg.hard > cfg.soft
    ensures PressedRun(cfg, 0.0, before, polls) && !HardAtLast(cfg, Run(cfg, Initial(0.0), before), polls)
  {
    hide Relieve;
    var t, half := cfg.tHard, cfg.tHard / 2.0;
    var mem := if cfg.soft < 0 then 0 else cfg.soft;
    var first := Poll(false, cfg.hard - 1, t, []);
    var a, b := Poll(false, mem, t + half, []), Poll(false, mem, t + t, []);
    before, polls := [first], [a, b];
    OnePoll(cfg, Initial(0.0), first);
    var s := Run(cfg, Initial(0.0), before);
    assert s == Transition(cfg, Initial(0.0), Hard, first);
    assert before + polls == [first, a, b];
    TwoPolls(cfg, s, a, b);
    assert Step(cfg, s, a) == Transition(cfg, s, Normal, a);
    assert Run(cfg, s, polls).log[1].at == t + half;
  }

  /** Otherwise an earlier transition restarts the clock: a run of the guard from its start that
      is under pressure and misses its deadline. */
  lemma PressureCanStarve(cfg: Config) returns (before: seq<Poll>, polls: seq<Poll>)
    requires !Ordered(cfg)
    ensures PressedRun(cfg, 0.0, before, polls) && !HardAtLast(cfg, Run(cfg, Initial(0.0), before), polls)
  {
    before := [];
    if cfg.hard <= cfg.soft {
      polls := SoftRestartsClock(cfg);
    } else {
      before, polls := NormalRestartsClock(cfg);
    }
  }

  /** Exactly when the promise holds of all runs of the guard. */
  lemma PressureIff(cfg: Config)
    ensures (forall start, before, polls :: PressedRun(cfg, start, before, polls) ==>
               HardAtLast(cfg, Run(cfg, Initial(start), before), polls))
            <==> Ordered(cfg)
  {
    if Ordered(cfg) {
      forall start, before, polls | PressedRun(cfg, start, before, polls)
        ensures HardAtLast(cfg, Run(cfg, Initial(start), before), polls)
      {
        PressureGoesHard(cfg, Run(cfg, Initial(start), before), polls);
      }
    } else {
      var before, polls := PressureCanStarve(cfg);
    }
  }

  lemma NoneUnprotected(cfg: Config)
    ensures Unprotected(cfg, []) == []
  {
  }

  lemma {:induction false} UnprotectedSnoc(cfg: Config, entries: seq<Entry>, e: Entry)
    ensures Unprotected(cfg, entries + [e]) == Unprotected(cfg, entries) + if IsProtected(cfg, e) then [] else [e]
  {
    if entries == [] {
      assert [e][1..] == [];
    } else {
      UnprotectedSnoc(cfg, entries[1..], e);
      assert (entries + [e])[1..] == entries[1..] + [e];
    }
  }

  // ---------- the guard itself ----------

  class Guard {
    const cfg: Config
    var mode: Mode
    var since: real
    ghost var log: seq<Done>

    ghost function View(): State
      reads this
    {
      State(mode, since, log)
    }

    constructor (cfg: Config, now: real)
      ensures this.cfg == cfg && View() == Initial(now)
    {
      this.cfg := cfg;
      mode, since, log := Normal, now, [];
    }

    /** `relieve`: pick the victim and decide what is done to it. */
    method Act(level: Mode, sampled: seq<Entry>) returns (act: Act)
      requires level == Soft || level == Hard
      ensures act == Relieve(cfg, level, sampled)
    {
      hide IsProtected;
      hide VictimKey;
      hide TopCgroups;
      hide Unprotected;
      if level == Soft && !cfg.dryRun {
        return SoftRelief;
      }
      var top := TopCgroups(cfg, sampled);
      var victims := [];
      NoneUnprotected(cfg);
      assert top[..0] == [];
      for i := 0 to |top|
        invariant victims == Unprotected(cfg, top[..i])
      {
        UnprotectedSnoc(cfg, top[..i], top[i]);
        assert top[..i + 1] == top[..i] + [top[i]];
        if !IsProtected(cfg, top[i]) {
          victims := victims + [top[i]];
        }
      }
      assert top[..|top|] == top;
      StableSortSorts(victims, (e: Entry) => VictimKey(cfg, e));
      if victims == [] {
        return Noop;
      }
      victims := StableSort(victims, (e: Entry) => VictimKey(cfg, e));
      var target := victims[0];
      if cfg.dryRun {
        return WouldAct(target);
      }
      var backend := Classify(cfg.backends, target);
      if backend.Some? {
        return Restart(backend.value, target);
      }
      return Kill(target);
    }

    /** `_transition`: state and clock first, then relief. */
    method TransitionTo(to: Mode, p: Poll) returns (act: Option<Act>)
      modifies this
      ensures View() == Transition(cfg, old(View()), to, p)
      ensures act == log[|old(log)|].act
    {
      mode := to;
      since := p.now;
      act := None;
      if to == Soft || to == Hard {
        var done := Act(to, p.sampled);
        act := Some(done);
      }
      log := log + [Done(p.now, to, act)];
    }

    method PollOnce(p: Poll) returns (act: Option<Act>)
      modifies this
      ensures View() == Step(cfg, old(View()), p)
      ensures Forceful(act) ==> Justified(cfg, old(View()), p, act.value)
    {
      ghost var before := View();
      act := None;
      if p.frozen {
        return;
      }
      var elapsed := p.now - since;
      if p.mem < cfg.hard && elapsed >= cfg.tHard {
        act := TransitionTo(Hard, p);
      } else if p.mem < cfg.soft && elapsed >= cfg.tSoft {
        act := TransitionTo(Soft, p);
      } else if p.mem >= cfg.soft && mode != Normal {
        act := TransitionTo(Normal, p);
      }
      if Forceful(act) {
        ForceIsJustified(cfg, before, p);
      }
    }
  }
}
