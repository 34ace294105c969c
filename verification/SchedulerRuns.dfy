/** Single-memory-owner admission under concurrency (scheduler_hook.py, lines 353 to 492):
    any number of admit calls, one lock, and an outside world that may unload models and
    change their status between any two awaits. One event is one stretch of code between
    awaits; an event that is not enabled changes nothing. */
module SchedulerRuns {
  import opened Options
  import opened SchedulerGates
  import opened SchedulerPolicy

  datatype Outcome = Admitted | Bypassed | Forbidden | TimedOut

  /** Where an admit call is suspended. */
  datatype Pc =
    | Start                                     // before the first health request
    | Waiting                                   // queued on the lock
    | Holding                                   // at the head of the hold loop
    | Loading(seen: seq<Entry>, probe: Probe)   // about to post the load it decided on
    | LoadWait                                  // waiting for the target to become ready
    | Unloading(victim: string)                 // about to post the unload it decided on
    | UnloadWait(victim: string)                // waiting for the victim to leave
    | Finished(outcome: Outcome)

  datatype Task = Task(alias: string, target: Spec, pc: Pc)

  /** Requests sent to Lemonade, with the snapshot and probes they were decided on. */
  datatype Call =
    | LoadCall(target: Spec, seen: seq<Entry>, probe: Probe)
    | UnloadCall(victim: string, target: Spec, seen: seq<Entry>)

  /** A served request and the pool at that moment. */
  datatype Admission = Admission(target: Spec, pool: seq<Entry>)

  datatype World = World(
    pool: seq<Row>, lock: Option<nat>, tasks: seq<Task>, book: Book,
    calls: seq<Call>, admissions: seq<Admission>)

  datatype Event =
    | Arrive(alias: string)
    | Fast(t: nat, answers: bool)
    | Acquire(t: nat)
    | Round(t: nat, answers: bool, probe: Probe, now: int)
    | PostLoad(t: nat, accepted: bool, row: Row)
    | LoadPoll(t: nat, answers: bool, now: int)
    | PostUnload(t: nat, rows: seq<Row>)
    | UnloadPoll(t: nat, answers: bool)
    | UnloadExpires(t: nat)
    | GiveUp(t: nat)                            // a deadline, or the caller going away
    | Outside(rows: seq<Row>)                   // anyone unloads, uses or stops using models

  predicate Locked(pc: Pc) { !pc.Start? && !pc.Waiting? && !pc.Finished? }

  function L(cfg: Config, w: World): seq<Entry> { GpuLoaded(cfg, w.pool) }

  /** Lemonade loads nothing by itself: outside changes only shrink the pool. */
  predicate Shrinks(cfg: Config, before: seq<Row>, after: seq<Row>) {
    Unique(GpuLoaded(cfg, after)) && Within(GpuLoaded(cfg, after), GpuLoaded(cfg, before))
  }

  function Goto(w: World, t: nat, pc: Pc): World
    requires t < |w.tasks|
  {
    w.(tasks := w.tasks[t := w.tasks[t].(pc := pc)])
  }

  /** Leaving the locked section. */
  function Leave(w: World, t: nat, outcome: Outcome): World
    requires t < |w.tasks|
  {
    Goto(w, t, Finished(outcome)).(lock := None)
  }

  /** Leaving it with an admission (lines 489 to 492). */
  function Admit(cfg: Config, w: World, t: nat, now: int): World
    requires t < |w.tasks|
  {
    var task := w.tasks[t];
    Leave(w, t, Admitted).(
      book := Booked(w.book, task.alias, task.target, now),
      admissions := w.admissions + [Admission(task.target, L(cfg, w))])
  }

  function StepRound(cfg: Config, w: World, t: nat, probe: Probe, now: int): World
    requires t < |w.tasks|
  {
    var task, loaded := w.tasks[t], L(cfg, w);
    match Decide(cfg, w.book, loaded, task.alias, task.target, probe, now)
    case Serve => Admit(cfg, w, t, now)
    case RateLimit => Leave(w, t, TimedOut)
    case Load => Goto(w, t, Loading(loaded, probe)).(calls := w.calls + [LoadCall(task.target, loaded, probe)])
    case Unload(victim, _) =>
      Goto(w, t, Unloading(victim)).(calls := w.calls + [UnloadCall(victim, task.target, loaded)])
    case Starve => w
  }

  function StepTask(cfg: Config, w: World, e: Event): World
    requires !e.Arrive? && !e.Outside? && e.t < |w.tasks|
  {
    var task, t := w.tasks[e.t], e.t;
    var loaded := L(cfg, w);
    match (e, task.pc)
    case (Fast(_, answers), Start) =>
      if !answers then Goto(w, t, Finished(Bypassed))
      else if ServedFast(loaded, task.target) then
        Goto(w, t, Finished(Admitted)).(admissions := w.admissions + [Admission(task.target, loaded)])
      else Goto(w, t, Waiting)
    case (Acquire(_), Waiting) => if w.lock.None? then Goto(w, t, Holding).(lock := Some(t)) else w
    case (Round(_, answers, probe, now), Holding) =>
      if !answers then Leave(w, t, Bypassed) else StepRound(cfg, w, t, probe, now)
    case (PostLoad(_, accepted, row), Loading(_, _)) =>
      var w' := Goto(w, t, LoadWait);
      if accepted && row.loaded && row.name == task.target.id then w'.(pool := w.pool + [row]) else w'
    case (LoadPoll(_, answers, now), LoadWait) =>
      if !answers then Leave(w, t, TimedOut)
      else if GpuReady(loaded, task.target.id) then Admit(cfg, w, t, now)
      else w
    case (PostUnload(_, rows), Unloading(victim)) =>
      Goto(w, t, UnloadWait(victim)).(pool := if Shrinks(cfg, w.pool, rows) then rows else w.pool)
    case (UnloadPoll(_, answers), UnloadWait(victim)) =>
      if !answers || !Has(loaded, victim) then Goto(w, t, Holding) else w
    case (UnloadExpires(_), UnloadWait(_)) => Goto(w, t, Holding)
    case (GiveUp(_), _) => if Locked(task.pc) then Leave(w, t, TimedOut) else w
    case _ => w
  }

  function Step(cfg: Config, w: World, e: Event): World {
    match e
    case Arrive(alias) =>
      if Target(cfg, alias).None? then w   // not a Lemonade GPU model: returned to the caller at once
      else
        var pc := if Allowed(cfg, alias) then Start else Finished(Forbidden);
        w.(tasks := w.tasks + [Task(alias, Target(cfg, alias).value, pc)])
    case Outside(rows) => if Shrinks(cfg, w.pool, rows) then w.(pool := rows) else w
    case _ =>
      if e.t >= |w.tasks| then w else StepTask(cfg, w, e)
  }

  /** The scheduler starts on some pool, with nobody waiting. */
  function Initial(pool: seq<Row>): World {
    World(pool, None, [], Book(map[], None, 0), [], [])
  }

  function Run(cfg: Config, pool: seq<Row>, events: seq<Event>): World {
    if events == [] then Initial(pool)
    else Step(cfg, Run(cfg, pool, events[..|events| - 1]), events[|events| - 1])
  }

  // ---------- invariants ----------

  ghost predicate CallOk(cfg: Config, c: Call) {
    match c
    case LoadCall(target, seen, probe) => Absent(seen, target.id) && RoomFor(cfg, seen, target, probe)
    case UnloadCall(victim, target, seen) => JustifiedUnload(cfg, seen, target, victim)
  }

  /** Served while ready; an exclusive model only while alone. */
  ghost predicate AdmissionOk(a: Admission) {
    && GpuReady(a.pool, a.target.id)
    && (a.target.tier == EXCLUSIVE ==> forall m <- a.pool :: m.spec.id == a.target.id)
  }

  /** What a suspended call may rely on although others keep running. */
  ghost predicate TaskOk(cfg: Config, w: World, t: nat)
    requires t < |w.tasks|
  {
    var task := w.tasks[t];
    && Target(cfg, task.alias) == Some(task.target)
    && task.target.id in cfg.specs && cfg.specs[task.target.id] == task.target
    && (!task.pc.Finished? ==> Allowed(cfg, task.alias))
    && (Locked(task.pc) ==> w.lock == Some(t))
    && (task.pc.Loading? ==>
          && Known(cfg, task.pc.seen) && Within(L(cfg, w), task.pc.seen)
          && !Has(task.pc.seen, task.target.id) && Fits(cfg, task.pc.seen, task.target, task.pc.probe))
    && (task.pc.LoadWait? && task.target.tier == EXCLUSIVE ==>
          forall m <- L(cfg, w) :: m.spec.id == task.target.id)
  }

  ghost predicate Inv(cfg: Config, w: World) {
    && PoolOk(cfg, L(cfg, w))
    && (forall t | 0 <= t < |w.tasks| :: TaskOk(cfg, w, t))
    && (w.lock.Some? ==> w.lock.value < |w.tasks| && Locked(w.tasks[w.lock.value].pc))
    && (forall c <- w.calls :: CallOk(cfg, c))
    && (forall a <- w.admissions :: AdmissionOk(a))
  }

  lemma WithinTrans(p: seq<Entry>, q: seq<Entry>, r: seq<Entry>)
    requires Within(p, q) && Within(q, r)
    ensures Within(p, r)
  {
    forall m <- p ensures Has(r, m.spec.id) {
      assert Has(q, m.spec.id);
    }
  }

  lemma {:induction false} GpuLoadedConcat(cfg: Config, p: seq<Row>, q: seq<Row>)
    ensures GpuLoaded(cfg, p + q) == GpuLoaded(cfg, p) + GpuLoaded(cfg, q)
  {
    if p == [] {
      assert p + q == q;
    } else {
      GpuLoadedConcat(cfg, p[1..], q);
      assert (p + q)[1..] == p[1..] + q;
    }
  }

  /** Rely: a shrinking pool disturbs nobody. */
  lemma ShrinkKeepsTasks(cfg: Config, w: World, rows: seq<Row>)
    requires ValidConfig(cfg) && Inv(cfg, w) && Shrinks(cfg, w.pool, rows)
    ensures Inv(cfg, w.(pool := rows))
  {
    var w' := w.(pool := rows);
    var p, q := L(cfg, w'), L(cfg, w);
    GpuLoadedKnown(cfg, rows);
    GpuLoadedKnown(cfg, w.pool);
    ShrinkKeepsPool(cfg, p, q);
    forall t | 0 <= t < |w'.tasks| ensures TaskOk(cfg, w', t) {
      assert TaskOk(cfg, w, t);
      var pc := w.tasks[t].pc;
      if pc.Loading? { WithinTrans(p, q, pc.seen); }
      if pc.LoadWait? && w.tasks[t].target.tier == EXCLUSIVE {
        forall m <- p ensures m.spec.id == w.tasks[t].target.id {
          assert Has(q, m.spec.id);
        }
      }
    }
  }

  /** A call that moves on leaves the other calls' facts alone, as long as the pool stays
      and the lock is either kept or was its own. */
  lemma MoveKeepsInv(cfg: Config, w: World, t: nat, w': World)
    requires Inv(cfg, w) && t < |w.tasks| && |w'.tasks| == |w.tasks| && w'.pool == w.pool
    requires w'.tasks == w.tasks[t := w'.tasks[t]] && TaskOk(cfg, w', t)
    requires Locked(w'.tasks[t].pc) ==> w'.lock == Some(t)
    requires Locked(w.tasks[t].pc) && !Locked(w'.tasks[t].pc) ==> w'.lock == None
    requires !Locked(w.tasks[t].pc) && Locked(w'.tasks[t].pc) ==> w.lock == None
    requires Locked(w.tasks[t].pc) == Locked(w'.tasks[t].pc) ==> w'.lock == w.lock
    requires forall c <- w'.calls :: CallOk(cfg, c)
    requires forall a <- w'.admissions :: AdmissionOk(a)
    ensures Inv(cfg, w')
  {
    assert TaskOk(cfg, w, t);
    forall u | 0 <= u < |w'.tasks| ensures TaskOk(cfg, w', u) {
      assert TaskOk(cfg, w, u);
    }
  }

  /** Line 418: the load itself. */
  lemma PostLoadKeepsInv(cfg: Config, w: World, t: nat, row: Row)
    requires ValidConfig(cfg) && Inv(cfg, w) && t < |w.tasks| && w.tasks[t].pc.Loading?
    requires row.loaded && row.name == w.tasks[t].target.id
    ensures Inv(cfg, Goto(w, t, LoadWait).(pool := w.pool + [row]))
  {
    var task := w.tasks[t];
    var w' := Goto(w, t, LoadWait).(pool := w.pool + [row]);
    assert TaskOk(cfg, w, t);
    GpuLoadedKnown(cfg, w.pool);
    GpuLoadedConcat(cfg, w.pool, [row]);
    var added := GpuLoaded(cfg, [row]);
    assert [row][1..] == [];
    assert added == [added[0]];
    LoadKeepsPool(cfg, L(cfg, w), task.pc.seen, added[0], task.pc.probe);
    forall u | 0 <= u < |w'.tasks| ensures TaskOk(cfg, w', u) {
      assert TaskOk(cfg, w, u);
    }
  }

  lemma WithinSelf(p: seq<Entry>)
    ensures Within(p, p)
  {
  }

  lemma ServedAlone(cfg: Config, loaded: seq<Entry>, target: Spec)
    requires GpuReady(loaded, target.id)
    requires target.tier == EXCLUSIVE ==> OthersLoaded(loaded, target.id) == []
    ensures AdmissionOk(Admission(target, loaded))
  {
    if target.tier == EXCLUSIVE {
      forall m <- loaded ensures m.spec.id == target.id {
        FilterIn(loaded, (m: Entry) => m.spec.id != target.id, m);
      }
    }
  }

  /** One round of the hold loop. */
  lemma RoundKeepsInv(cfg: Config, w: World, t: nat, probe: Probe, now: int)
    requires ValidConfig(cfg) && Inv(cfg, w) && t < |w.tasks| && w.tasks[t].pc.Holding?
    ensures Inv(cfg, StepRound(cfg, w, t, probe, now))
  {
    hide PoolOk;
    hide Fits;
    hide RoomFor;
    hide PickVictim;
    assert TaskOk(cfg, w, t);
    var task, loaded := w.tasks[t], L(cfg, w);
    GpuLoadedKnown(cfg, w.pool);
    UnloadsAreJustified(cfg, w.book, loaded, task.alias, task.target, probe, now);
    LoadsExactlyWhen(cfg, w.book, loaded, task.alias, task.target, probe, now);
    var action := Decide(cfg, w.book, loaded, task.alias, task.target, probe, now);
    var w' := StepRound(cfg, w, t, probe, now);
    if action.Serve? {
      ServedAlone(cfg, loaded, task.target);
      MoveKeepsInv(cfg, w, t, w');
    } else if !action.Starve? {
      if action.Load? { WithinSelf(loaded); }
      MoveKeepsInv(cfg, w, t, w');
    }
  }

  /** The polls, the waits that end and the calls that give up. */
  lemma PollKeepsInv(cfg: Config, w: World, e: Event)
    requires ValidConfig(cfg) && Inv(cfg, w)
    requires (e.Acquire? || e.LoadPoll? || e.UnloadPoll? || e.UnloadExpires? || e.GiveUp?) && e.t < |w.tasks|
    ensures Inv(cfg, StepTask(cfg, w, e))
  {
    hide PoolOk;
    hide Fits;
    hide Has;
    hide L;
    var w' := StepTask(cfg, w, e);
    assert TaskOk(cfg, w, e.t);
    if w' != w {
      MoveKeepsInv(cfg, w, e.t, w');
    }
  }

  /** A load request that got lost: nothing but the target could be loaded. */
  lemma NotAccepted(cfg: Config, w: World, t: nat)
    requires ValidConfig(cfg) && Inv(cfg, w) && t < |w.tasks| && w.tasks[t].pc.Loading?
    ensures w.tasks[t].target.tier == EXCLUSIVE ==> L(cfg, w) == []
  {
    assert TaskOk(cfg, w, t);
    var task := w.tasks[t];
    GpuLoadedKnown(cfg, w.pool);
    LoadKeepsPool(cfg, L(cfg, w), task.pc.seen, Entry(task.target, false, 0.0, false), task.pc.probe);
  }

  lemma TaskKeepsInv(cfg: Config, w: World, e: Event)
    requires ValidConfig(cfg) && Inv(cfg, w) && !e.Arrive? && !e.Outside? && e.t < |w.tasks|
    ensures Inv(cfg, StepTask(cfg, w, e))
  {
    hide PoolOk;
    hide Fits;
    hide Decide;
    var t, w' := e.t, StepTask(cfg, w, e);
    assert TaskOk(cfg, w, t);
    match (e, w.tasks[t].pc) {
      case (Fast(_, answers), Start) =>
        if answers && ServedFast(L(cfg, w), w.tasks[t].target) {
          ServedAlone(cfg, L(cfg, w), w.tasks[t].target);
        }
        MoveKeepsInv(cfg, w, t, w');
      case (Round(_, answers, probe, now), Holding) =>
        if answers { RoundKeepsInv(cfg, w, t, probe, now); } else { MoveKeepsInv(cfg, w, t, w'); }
      case (PostLoad(_, accepted, row), Loading(_, _)) =>
        if accepted && row.loaded && row.name == w.tasks[t].target.id {
          PostLoadKeepsInv(cfg, w, t, row);
        } else {
          NotAccepted(cfg, w, t);
          MoveKeepsInv(cfg, w, t, w');
        }
      case (PostUnload(_, rows), Unloading(victim)) =>
        var mid := Goto(w, t, UnloadWait(victim));
        MoveKeepsInv(cfg, w, t, mid);
        if Shrinks(cfg, w.pool, rows) { ShrinkKeepsTasks(cfg, mid, rows); }
      case _ =>
        if w' != w { PollKeepsInv(cfg, w, e); }
    }
  }

  lemma StepKeepsInv(cfg: Config, w: World, e: Event)
    requires ValidConfig(cfg) && Inv(cfg, w)
    ensures Inv(cfg, Step(cfg, w, e))
  {
    hide PoolOk;
    hide StepTask;
    var w' := Step(cfg, w, e);
    match e {
      case Arrive(alias) =>
        forall u | 0 <= u < |w'.tasks| ensures TaskOk(cfg, w', u) {
          if u < |w.tasks| { assert TaskOk(cfg, w, u); }
        }
      case Outside(rows) =>
        if Shrinks(cfg, w.pool, rows) { ShrinkKeepsTasks(cfg, w, rows); }
      case _ =>
        if e.t < |w.tasks| { TaskKeepsInv(cfg, w, e); }
    }
  }

  lemma {:induction false} RunKeepsInv(cfg: Config, pool: seq<Row>, events: seq<Event>)
    requires ValidConfig(cfg) && PoolOk(cfg, GpuLoaded(cfg, pool))
    ensures Inv(cfg, Run(cfg, pool, events))
    decreases |events|
  {
    if events != [] {
      RunKeepsInv(cfg, pool, events[..|events| - 1]);
      StepKeepsInv(cfg, Run(cfg, pool, events[..|events| - 1]), events[|events| - 1]);
    }
  }

  // ---------- what holds of every run ----------

  /** However admits and unloads interleave, the loaded and still loading models stay within
      the count, the single large slot and the weight budget. */
  lemma PoolAlwaysOk(cfg: Config, pool: seq<Row>, events: seq<Event>)
    requires ValidConfig(cfg) && PoolOk(cfg, GpuLoaded(cfg, pool))
    ensures PoolOk(cfg, L(cfg, Run(cfg, pool, events)))
  {
    RunKeepsInv(cfg, pool, events);
  }

  /** Every unload the scheduler ever posts is justified by what it saw: an exclusive model
      only for an exclusive target, a model in use only for a large-for-large switch, a
      smaller resident only for an exclusive target. */
  lemma EveryUnloadJustified(cfg: Config, pool: seq<Row>, events: seq<Event>, c: Call)
    requires ValidConfig(cfg) && PoolOk(cfg, GpuLoaded(cfg, pool))
    requires c in Run(cfg, pool, events).calls && c.UnloadCall?
    ensures JustifiedUnload(cfg, c.seen, c.target, c.victim)
  {
    RunKeepsInv(cfg, pool, events);
    assert CallOk(cfg, c);
  }

  /** Every load the scheduler ever posts was decided on with room: the target not loaded, the
      weights within the budget, a free slot (none taken at all for an exclusive target, no other
      large model for a large one), and every readable probe satisfied. */
  lemma EveryLoadFits(cfg: Config, pool: seq<Row>, events: seq<Event>, c: Call)
    requires ValidConfig(cfg) && PoolOk(cfg, GpuLoaded(cfg, pool))
    requires c in Run(cfg, pool, events).calls && c.LoadCall?
    ensures forall m <- c.seen :: m.spec.id != c.target.id
    ensures Ledger(c.seen) + c.target.size <= cfg.budget
    ensures c.target.tier == "exclusive" ==> c.seen == []
    ensures c.target.tier != "exclusive" ==> |c.seen| < cfg.maxGpu
    ensures c.target.tier != "exclusive" && c.target.size >= cfg.large ==> forall m <- c.seen :: m.spec.size < cfg.large
    ensures c.probe.avail.Some? ==>
              c.probe.avail.value >= cfg.ramFloor && c.probe.avail.value >= c.target.size + cfg.headroom
    ensures c.probe.gtt.Some? && c.seen == [] ==> c.probe.gtt.value <= cfg.gttBudget
  {
    RunKeepsInv(cfg, pool, events);
    assert CallOk(cfg, c);
  }

  // ---------- what single steps do ----------

  /** A call arrives when its alias is in the manifest, and is refused exactly when there is an
      allowlist without it. */
  lemma ArrivalIsRefused(cfg: Config, w: World, alias: string)
    requires ValidConfig(cfg)
    ensures var w', n := Step(cfg, w, Arrive(alias)), |w.tasks|;
            if alias !in cfg.aliases then w' == w
            else w'.tasks == w.tasks + [Task(alias, cfg.specs[cfg.aliases[alias]], w'.tasks[n].pc)]
                 && w'.tasks[n].pc == if cfg.allow != {} && alias !in cfg.allow then Finished(Forbidden) else Start
  {
  }

  /** Without the lock a call is served exactly when its model is ready and, if exclusive, alone;
      it joins the queue for the lock otherwise, and is passed on if health does not answer. */
  lemma FastPathServes(cfg: Config, w: World, t: nat, answers: bool)
    requires t < |w.tasks| && w.tasks[t].pc.Start?
    ensures var target, loaded, pc := w.tasks[t].target, L(cfg, w), Step(cfg, w, Fast(t, answers)).tasks[t].pc;
            var served := (exists m <- loaded :: m.spec.id == target.id && m.ready)
                          && (target.tier == "exclusive" ==> forall m <- loaded :: m.spec.id == target.id);
            pc == if !answers then Finished(Bypassed) else if served then Finished(Admitted) else Waiting
  {
    NobodyElse(L(cfg, w), w.tasks[t].target.id);
  }

  predicate Takes(w: World, e: Event) { !e.Arrive? && !e.Outside? && e.t < |w.tasks| }

  /** A step moves only the call it is about; nobody's alias or target ever changes. */
  lemma OthersStay(cfg: Config, w: World, e: Event, u: nat)
    requires u < |w.tasks|
    ensures var w' := Step(cfg, w, e);
            var arrives := e.Arrive? && e.alias in cfg.aliases && cfg.aliases[e.alias] in cfg.specs;
            && |w'.tasks| == |w.tasks| + (if arrives then 1 else 0)
            && w'.tasks[u].alias == w.tasks[u].alias && w'.tasks[u].target == w.tasks[u].target
            && (!(Takes(w, e) && e.t == u) ==> w'.tasks[u] == w.tasks[u])
  {
    hide Decide;
    hide GpuLoaded;
    hide GpuReady;
    hide Shrinks;
    hide ServedFast;
    hide Has;
    hide Booked;
  }

  /** Every request to Lemonade is in the log, with the snapshot and the probes it was decided on,
      and nothing else is: a call that goes on to load posts a load, one that goes on to unload a
      victim posts that unload. */
  lemma RequestsAreLogged(cfg: Config, w: World, e: Event)
    ensures var w' := Step(cfg, w, e);
            if Takes(w, e) && w.tasks[e.t].pc.Holding? && w'.tasks[e.t].pc.Loading? then
              && e.Round? && w'.tasks[e.t].pc == Loading(L(cfg, w), e.probe)
              && w'.calls == w.calls + [LoadCall(w.tasks[e.t].target, L(cfg, w), e.probe)]
            else if Takes(w, e) && w.tasks[e.t].pc.Holding? && w'.tasks[e.t].pc.Unloading? then
              w'.calls == w.calls + [UnloadCall(w'.tasks[e.t].pc.victim, w.tasks[e.t].target, L(cfg, w))]
            else w'.calls == w.calls
  {
    hide Decide;
  }

  /** ... as is every admission, with the pool at that moment. */
  lemma AdmissionsAreLogged(cfg: Config, w: World, e: Event)
    ensures var w' := Step(cfg, w, e);
            w'.admissions ==
              if Takes(w, e) && !w.tasks[e.t].pc.Finished? && w'.tasks[e.t].pc == Finished(Admitted)
              then w.admissions + [Admission(w.tasks[e.t].target, L(cfg, w))]
              else w.admissions
  {
    hide Decide;
  }

  /** The pool changes only by a load that was requested, by unloads, and from outside. */
  lemma PoolChanges(cfg: Config, w: World, e: Event)
    ensures Step(cfg, w, e).pool ==
              if (e.Outside? || (e.PostUnload? && e.t < |w.tasks| && w.tasks[e.t].pc.Unloading?))
                 && Shrinks(cfg, w.pool, e.rows) then e.rows
              else if e.PostLoad? && e.t < |w.tasks| && w.tasks[e.t].pc.Loading?
                      && e.accepted && e.row.loaded && e.row.name == w.tasks[e.t].target.id
              then w.pool + [e.row]
              else w.pool
  {
    hide Decide;
  }

  /** How a call waits: for the lock until it is free; for a load until its model is ready, giving up
      when health does not answer; for a victim until health shows it gone or does not answer. */
  lemma WaitingEnds(cfg: Config, w: World, t: nat, answers: bool, now: int)
    requires t < |w.tasks|
    ensures var pc, loaded, target := w.tasks[t].pc, L(cfg, w), w.tasks[t].target;
            && (pc.Waiting? ==>
                  var w' := Step(cfg, w, Acquire(t));
                  if w.lock == None then w'.tasks[t].pc == Holding && w'.lock == Some(t) else w' == w)
            && (pc.LoadWait? ==>
                  Step(cfg, w, LoadPoll(t, answers, now)).tasks[t].pc ==
                    if !answers then Finished(TimedOut)
                    else if exists m <- loaded :: m.spec.id == target.id && m.ready then Finished(Admitted)
                    else LoadWait)
            && (pc.UnloadWait? ==>
                  Step(cfg, w, UnloadPoll(t, answers)).tasks[t].pc ==
                    if answers && exists m <- loaded :: m.spec.id == pc.victim then pc else Holding)
            && (pc.UnloadWait? ==> Step(cfg, w, UnloadExpires(t)).tasks[t].pc == Holding)
  {
  }

  /** Whoever is past the lock can always give up; leaving frees the lock for the next. */
  lemma LeavingUnlocks(cfg: Config, w: World, e: Event)
    requires !e.Arrive? && !e.Outside? && e.t < |w.tasks| && Locked(w.tasks[e.t].pc)
    ensures var w' := Step(cfg, w, e);
            && w'.lock == (if w'.tasks[e.t].pc.Finished? then None else w.lock)
            && (e.GiveUp? ==> w'.tasks[e.t].pc == Finished(TimedOut))
            && (e.Round? && w.tasks[e.t].pc.Holding? && !e.answers ==> w'.tasks[e.t].pc == Finished(Bypassed))
  {
    hide Decide;
  }

  /** The scheduler's memory changes exactly when a call is admitted under the lock: that moment
      for the admitted model, and the alias for the rate limit. */
  lemma AdmissionIsBooked(cfg: Config, w: World, e: Event)
    ensures var w' := Step(cfg, w, e);
            if !e.Arrive? && !e.Outside? && e.t < |w.tasks| && Locked(w.tasks[e.t].pc)
               && w'.tasks[e.t].pc == Finished(Admitted)
            then
              && (e.Round? || e.LoadPoll?)
              && w'.book.lastAlias == Some(w.tasks[e.t].alias) && w'.book.lastAdmitAt == e.now
              && w'.book.admittedAt == w.book.admittedAt[w.tasks[e.t].target.id := e.now]
            else w'.book == w.book
  {
    hide Decide;
  }

  /** At most one call is ever past the lock. */
  lemma LockIsExclusive(cfg: Config, pool: seq<Row>, events: seq<Event>, t: nat, u: nat)
    requires ValidConfig(cfg) && PoolOk(cfg, GpuLoaded(cfg, pool))
    requires var w := Run(cfg, pool, events);
             t < |w.tasks| && u < |w.tasks| && Locked(w.tasks[t].pc) && Locked(w.tasks[u].pc)
    ensures t == u
  {
    RunKeepsInv(cfg, pool, events);
    var w := Run(cfg, pool, events);
    assert TaskOk(cfg, w, t) && TaskOk(cfg, w, u);
  }

  /** Whenever a request is served, its model is loaded and ready; an exclusive one is alone then. */
  lemma EveryAdmissionSound(cfg: Config, pool: seq<Row>, events: seq<Event>, a: Admission)
    requires ValidConfig(cfg) && PoolOk(cfg, GpuLoaded(cfg, pool))
    requires a in Run(cfg, pool, events).admissions
    ensures exists m <- a.pool :: m.spec.id == a.target.id && m.ready
    ensures a.target.tier == EXCLUSIVE ==> forall m <- a.pool :: m.spec.id == a.target.id
  {
    RunKeepsInv(cfg, pool, events);
    assert AdmissionOk(a);
  }
}
