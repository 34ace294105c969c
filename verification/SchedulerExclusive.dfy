/** Isolation of exclusive models over whole runs (scheduler_hook.py, lines 273 to 288 and 353
    to 492). The scheduler checks it when an exclusive model is admitted; a model that arrives
    later is not kept from joining it. Here is exactly when that can happen. */
module SchedulerExclusive {
  import opened Options
  import opened SchedulerPolicy
  import opened SchedulerRuns

  /** A loaded exclusive model is the only one. */
  predicate Alone(loaded: seq<Entry>) {
    forall m <- loaded :: m.spec.tier == EXCLUSIVE ==> forall o <- loaded :: o.spec.id == m.spec.id
  }

  /** An exclusive manifest model and an allowed alias of another one that fits beside it. */
  predicate Joinable(cfg: Config, x: Spec, alias: string) {
    && x.id in cfg.specs && cfg.specs[x.id] == x && x.tier == EXCLUSIVE
    && Target(cfg, alias).Some? && Allowed(cfg, alias)
    && var y := Target(cfg, alias).value;
       && y.tier != EXCLUSIVE && cfg.maxGpu >= 2 && x.size + y.size <= cfg.budget
       && !(x.size >= cfg.large && y.size >= cfg.large)
  }

  ghost predicate NobodyJoins(cfg: Config) {
    forall x, alias :: !Joinable(cfg, x, alias)
  }

  /** Every run from a pool within the limits that isolates its exclusive models isolates them. */
  ghost predicate StaysAlone(cfg: Config) {
    forall pool, events :: PoolOk(cfg, GpuLoaded(cfg, pool)) && Alone(GpuLoaded(cfg, pool)) ==>
      Alone(L(cfg, Run(cfg, pool, events)))
  }

  // ---------- nobody joins ----------

  lemma ShrinkKeepsAlone(cfg: Config, p: seq<Entry>, q: seq<Entry>)
    requires Known(cfg, p) && Known(cfg, q) && Within(p, q) && Alone(q)
    ensures Alone(p)
  {
    forall m <- p, o <- p | m.spec.tier == EXCLUSIVE ensures o.spec.id == m.spec.id {
      assert Has(q, m.spec.id) && Has(q, o.spec.id);
      var m' :| m' in q && m'.spec.id == m.spec.id;
      var o' :| o' in q && o'.spec.id == o.spec.id;
      assert m'.spec == m.spec;
    }
  }

  lemma {:induction false} OneWeighsLess(cfg: Config, loaded: seq<Entry>, m: Entry)
    requires ValidConfig(cfg) && Known(cfg, loaded) && m in loaded
    ensures m.spec.size <= Ledger(loaded)
  {
    LedgerNonNegative(cfg, loaded[1..]);
    assert loaded[0] in loaded;
    if m != loaded[0] { OneWeighsLess(cfg, loaded[1..], m); }
  }

  lemma {:induction false} FilterLength<T>(xs: seq<T>, p: T -> bool, x: T)
    requires x in xs && p(x)
    ensures |Filter(xs, p)| >= 1
  {
    FilterIn(xs, p, x);
  }

  /** What fits beside an exclusive model could join it. */
  lemma FittingJoins(cfg: Config, seen: seq<Entry>, x: Entry, alias: string, probe: Probe)
    requires ValidConfig(cfg) && Known(cfg, seen) && x in seen && x.spec.tier == EXCLUSIVE
    requires Target(cfg, alias).Some? && Allowed(cfg, alias)
    requires var y := Target(cfg, alias).value; y.tier != EXCLUSIVE && Fits(cfg, seen, y, probe)
    ensures Joinable(cfg, x.spec, alias)
  {
    var y := Target(cfg, alias).value;
    var others := OthersLoaded(seen, y.id);
    OneWeighsLess(cfg, seen, x);
    FilterIn(seen, (m: Entry) => m.spec.id != y.id, x);
    assert x in others;
    if y.size >= cfg.large && x.spec.size >= cfg.large {
      FilterLength(others, (m: Entry) => IsLarge(cfg, m), x);
    }
  }

  lemma LoadKeepsAlone(cfg: Config, w: World, t: nat, row: Row)
    requires ValidConfig(cfg) && Inv(cfg, w) && Alone(L(cfg, w)) && NobodyJoins(cfg)
    requires t < |w.tasks| && w.tasks[t].pc.Loading? && row.loaded && row.name == w.tasks[t].target.id
    ensures Alone(GpuLoaded(cfg, w.pool + [row]))
  {
    hide Fits;
    hide Joinable;
    assert TaskOk(cfg, w, t);
    var task := w.tasks[t];
    var seen, target := task.pc.seen, task.target;
    GpuLoadedKnown(cfg, w.pool);
    GpuLoadedConcat(cfg, w.pool, [row]);
    assert [row][1..] == [];
    var e := GpuLoaded(cfg, [row])[0];
    assert GpuLoaded(cfg, [row]) == [e] && e.spec == target;
    if target.tier == EXCLUSIVE {
      LoadKeepsPool(cfg, L(cfg, w), seen, e, task.pc.probe);
    } else {
      forall m <- L(cfg, w) ensures m.spec.tier != EXCLUSIVE {
        assert Has(seen, m.spec.id);
        var x :| x in seen && x.spec.id == m.spec.id;
        assert x.spec == m.spec;
        if x.spec.tier == EXCLUSIVE { FittingJoins(cfg, seen, x, task.alias, task.pc.probe); }
      }
    }
  }

  lemma StepKeepsAlone(cfg: Config, w: World, e: Event)
    requires ValidConfig(cfg) && Inv(cfg, w) && Alone(L(cfg, w)) && NobodyJoins(cfg)
    ensures Alone(L(cfg, Step(cfg, w, e)))
  {
    hide Decide;
    hide Inv;
    hide Alone;
    hide GpuLoaded;
    var w' := Step(cfg, w, e);
    if e.PostLoad? && w'.pool != w.pool {
      LoadKeepsAlone(cfg, w, e.t, e.row);
    } else if w'.pool != w.pool {
      GpuLoadedKnown(cfg, w.pool);
      GpuLoadedKnown(cfg, w'.pool);
      ShrinkKeepsAlone(cfg, L(cfg, w'), L(cfg, w));
    }
  }

  lemma {:induction false} RunKeepsAlone(cfg: Config, pool: seq<Row>, events: seq<Event>)
    requires ValidConfig(cfg) && NobodyJoins(cfg)
    requires PoolOk(cfg, GpuLoaded(cfg, pool)) && Alone(GpuLoaded(cfg, pool))
    ensures Alone(L(cfg, Run(cfg, pool, events)))
    decreases |events|
  {
    hide Inv;
    hide Alone;
    hide NobodyJoins;
    hide Step;
    if events != [] {
      var n := |events| - 1;
      RunKeepsAlone(cfg, pool, events[..n]);
      RunKeepsInv(cfg, pool, events[..n]);
      StepKeepsAlone(cfg, Run(cfg, pool, events[..n]), events[n]);
    }
  }

  // ---------- somebody joins ----------

  const UNREADABLE := Probe(None, None)

  function IdleRow(id: string): Row { Row(id, true, "idle", "idle", 0.0) }

  lemma RunSnoc(cfg: Config, pool: seq<Row>, events: seq<Event>, e: Event)
    ensures Run(cfg, pool, events + [e]) == Step(cfg, Run(cfg, pool, events), e)
  {
    assert (events + [e])[..|events|] == events;
  }

  lemma {:induction false} OneRow(cfg: Config, id: string)
    requires ValidConfig(cfg) && id in cfg.specs
    ensures GpuLoaded(cfg, [IdleRow(id)]) == [Entry(cfg.specs[id], false, 0.0, true)]
  {
    assert [IdleRow(id)][1..] == [];
  }

  /** Beside one idle exclusive model a joining target is loaded at once. */
  lemma JoinerLoads(cfg: Config, x: Spec, alias: string)
    requires ValidConfig(cfg) && Joinable(cfg, x, alias)
    ensures var y, loaded := Target(cfg, alias).value, [Entry(x, false, 0.0, true)];
            && PoolOk(cfg, loaded) && Alone(loaded) && !ServedFast(loaded, y)
            && Decide(cfg, Book(map[], None, 0), loaded, alias, y, UNREADABLE, 0) == Load
  {
    hide PickVictim;
    var y, m := Target(cfg, alias).value, Entry(x, false, 0.0, true);
    var loaded := [m];
    assert loaded[1..] == [] && Ledger(loaded) == x.size;
    WhoMayJoinExclusive(cfg, m, y);
    assert !Has(loaded, y.id);
    assert Fits(cfg, loaded, y, UNREADABLE);
  }

  /** One caller of an allowed alias, up to the head of the hold loop. */
  lemma HeldRun(cfg: Config, pool: seq<Row>, alias: string)
    requires Target(cfg, alias).Some? && Allowed(cfg, alias)
    requires !ServedFast(GpuLoaded(cfg, pool), Target(cfg, alias).value)
    ensures Run(cfg, pool, [Arrive(alias), Fast(0, true), Acquire(0)])
            == Initial(pool).(tasks := [Task(alias, Target(cfg, alias).value, Holding)], lock := Some(0))
  {
    hide ServedFast;
    hide GpuLoaded;
    var e0, e1, e2 := Arrive(alias), Fast(0, true), Acquire(0);
    RunSnoc(cfg, pool, [], e0);
    RunSnoc(cfg, pool, [e0], e1);
    RunSnoc(cfg, pool, [e0, e1], e2);
    assert [] + [e0] == [e0] && [e0] + [e1] == [e0, e1] && [e0, e1] + [e2] == [e0, e1, e2];
  }

  /** ... and, where it fits, on to the load. */
  lemma LoadedRun(cfg: Config, pool: seq<Row>, alias: string, row: Row) returns (events: seq<Event>)
    requires Target(cfg, alias).Some? && Allowed(cfg, alias)
    requires var y := Target(cfg, alias).value;
             && !ServedFast(GpuLoaded(cfg, pool), y) && row.loaded && row.name == y.id
             && Decide(cfg, Book(map[], None, 0), GpuLoaded(cfg, pool), alias, y, UNREADABLE, 0) == Load
    ensures Run(cfg, pool, events).pool == pool + [row]
  {
    hide Decide;
    hide ServedFast;
    hide GpuLoaded;
    hide Run;
    var before := [Arrive(alias), Fast(0, true), Acquire(0)];
    var e3, e4 := Round(0, true, UNREADABLE, 0), PostLoad(0, true, row);
    HeldRun(cfg, pool, alias);
    RunSnoc(cfg, pool, before, e3);
    RunSnoc(cfg, pool, before + [e3], e4);
    events := before + [e3] + [e4];
  }

  /** Nobody else is needed: the run ends with both models loaded. */
  lemma JoiningRun(cfg: Config, x: Spec, alias: string) returns (pool: seq<Row>, events: seq<Event>)
    requires ValidConfig(cfg) && Joinable(cfg, x, alias)
    ensures PoolOk(cfg, GpuLoaded(cfg, pool)) && Alone(GpuLoaded(cfg, pool))
    ensures !Alone(L(cfg, Run(cfg, pool, events)))
  {
    hide PoolOk;
    hide Decide;
    hide ServedFast;
    hide GpuLoaded;
    hide Run;
    var y := Target(cfg, alias).value;
    pool := [IdleRow(x.id)];
    OneRow(cfg, x.id);
    OneRow(cfg, y.id);
    JoinerLoads(cfg, x, alias);
    events := LoadedRun(cfg, pool, alias, IdleRow(y.id));
    GpuLoadedConcat(cfg, pool, [IdleRow(y.id)]);
    var both := L(cfg, Run(cfg, pool, events));
    assert both == [Entry(x, false, 0.0, true)] + [Entry(y, false, 0.0, true)];
    assert both[0] in both && both[1] in both && both[0].spec.id == x.id && both[1].spec.id == y.id;
  }

  /** A manifest where it happens: 20 GiB exclusive, 10 GiB beside it, budget 100, two slots. */
  lemma JoinExample() returns (cfg: Config, x: Spec, alias: string)
    ensures ValidConfig(cfg) && Joinable(cfg, x, alias)
  {
    x, alias := Spec("big", 20.0, EXCLUSIVE), "small";
    cfg := Config(map["big" := x, "little" := Spec("little", 10.0, FLOATING)], map["small" := "little"],
                  100.0, 0, 2, 64.0, 0.0, 0.0, 100.0, 1, 600, 300, 1, 0, {}, {});
  }

  /** Exclusive models stay alone in every run exactly when no manifest entry can join one. */
  lemma ExclusiveStaysAloneIff(cfg: Config)
    requires ValidConfig(cfg)
    ensures StaysAlone(cfg) <==> NobodyJoins(cfg)
  {
    hide Run;
    hide Alone;
    hide PoolOk;
    hide Joinable;
    if NobodyJoins(cfg) {
      forall pool, events | PoolOk(cfg, GpuLoaded(cfg, pool)) && Alone(GpuLoaded(cfg, pool))
        ensures Alone(L(cfg, Run(cfg, pool, events)))
      {
        RunKeepsAlone(cfg, pool, events);
      }
    } else {
      var x, alias :| Joinable(cfg, x, alias);
      var pool, events := JoiningRun(cfg, x, alias);
      assert !Alone(L(cfg, Run(cfg, pool, events)));
    }
  }
}
