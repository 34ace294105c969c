/** Single-memory-owner admission as the loops that run under the lock (scheduler_hook.py,
    lines 379 to 492): it terminates, keeps the pool invariant at every await, and an
    exclusive request takes the machine over by unloading every other model exactly once. */
module SchedulerCore {
  import opened Options
  import opened SchedulerGates
  import opened SchedulerPolicy
  import opened SchedulerRuns
  import Seqs

  /** What happens while the scheduler awaits: an arbitrary script for the outside world. */
  datatype Move = Move(
    drift: seq<Row> -> seq<Row>,   // unloads, uses and releases by others
    elapsed: nat,                  // time the await itself took
    answers: bool,                 // does a health request get an answer
    obeys: bool,                   // does Lemonade act on a load or unload request
    arrival: Row,                    // how a newly loaded model first appears
    probe: Probe, comfy: bool)     // memory probes; does an idle ComfyUI give memory back

  /** The outside world may only shrink the pool: Lemonade loads only on request. */
  function Adopt(cfg: Config, pool: seq<Row>, m: Move): (after: seq<Row>)
    ensures after == pool || Shrinks(cfg, pool, after)
    ensures Shrinks(cfg, pool, m.drift(pool)) ==> after == m.drift(pool)
  {
    if Shrinks(cfg, pool, m.drift(pool)) then m.drift(pool) else pool
  }

  function Ids(loaded: seq<Entry>): seq<string> {
    if loaded == [] then [] else [loaded[0].spec.id] + Ids(loaded[1..])
  }

  /** Victims of the unloads, and targets of the loads, in order. */
  function Victims(calls: seq<Call>): seq<string> {
    if calls == [] then []
    else (if calls[0].UnloadCall? then [calls[0].victim] else []) + Victims(calls[1..])
  }

  function Loads(calls: seq<Call>): seq<string> {
    if calls == [] then []
    else (if calls[0].LoadCall? then [calls[0].target.id] else []) + Loads(calls[1..])
  }

  lemma {:induction false} VictimsConcat(a: seq<Call>, b: seq<Call>)
    ensures Victims(a + b) == Victims(a) + Victims(b)
  {
    if a == [] {
      assert a + b == b;
    } else {
      Seqs.TailConcat(a, b);
      VictimsConcat(a[1..], b);
      Seqs.Assoc(if a[0].UnloadCall? then [a[0].victim] else [], Victims(a[1..]), Victims(b));
    }
  }

  lemma {:induction false} LoadsConcat(a: seq<Call>, b: seq<Call>)
    ensures Loads(a + b) == Loads(a) + Loads(b)
  {
    if a == [] {
      assert a + b == b;
    } else {
      Seqs.TailConcat(a, b);
      LoadsConcat(a[1..], b);
      Seqs.Assoc(if a[0].LoadCall? then [a[0].target.id] else [], Loads(a[1..]), Loads(b));
    }
  }

  lemma CallsAppend(calls: seq<Call>, c: Call)
    ensures Victims(calls + [c]) == Victims(calls) + if c.UnloadCall? then [c.victim] else []
    ensures Loads(calls + [c]) == Loads(calls) + if c.LoadCall? then [c.target.id] else []
  {
    VictimsConcat(calls, [c]);
    LoadsConcat(calls, [c]);
    assert [c][1..] == [];
  }

  /** The rows left after one model went away. */
  function Without(rows: seq<Row>, id: string): seq<Row> {
    if rows == [] then []
    else (if rows[0].name == id then [] else [rows[0]]) + Without(rows[1..], id)
  }

  lemma OthersCons(m: Entry, rest: seq<Entry>, id: string)
    ensures OthersLoaded([m] + rest, id) == (if m.spec.id != id then [m] else []) + OthersLoaded(rest, id)
  {
    assert ([m] + rest)[1..] == rest;
  }

  lemma NoOthers(id: string)
    ensures OthersLoaded([], id) == []
  {
  }

  lemma {:induction false} WithoutLoaded(cfg: Config, rows: seq<Row>, id: string)
    requires ValidConfig(cfg)
    ensures GpuLoaded(cfg, Without(rows, id)) == OthersLoaded(GpuLoaded(cfg, rows), id)
  {
    hide OthersLoaded;
    if rows == [] {
      NoOthers(id);
    } else {
      WithoutLoaded(cfg, rows[1..], id);
      var head, rest := [rows[0]], GpuLoaded(cfg, rows[1..]);
      assert rows == head + rows[1..];
      GpuLoadedConcat(cfg, head, rows[1..]);
      GpuLoadedConcat(cfg, head, Without(rows[1..], id));
      assert head[1..] == [];
      if rows[0].loaded && rows[0].name in cfg.specs {
        var m := GpuLoaded(cfg, head)[0];
        assert GpuLoaded(cfg, head) == [m] && m.spec.id == rows[0].name;
        OthersCons(m, rest, id);
      } else {
        assert GpuLoaded(cfg, head) == [];
      }
      if rows[0].name == id {
        assert Without(rows, id) == Without(rows[1..], id);
      }
    }
  }

  /** Removing one model from a pool of distinct models. */
  lemma {:induction false} OthersShrink(loaded: seq<Entry>, id: string)
    requires Unique(loaded)
    ensures var others := OthersLoaded(loaded, id);
            Unique(others) && Within(others, loaded) && !Has(others, id)
  {
    forall m: Entry ensures m in OthersLoaded(loaded, id) <==> m in loaded && m.spec.id != id {
      FilterIn(loaded, (m: Entry) => m.spec.id != id, m);
    }
    if loaded != [] {
      var rest := loaded[1..];
      assert forall m <- rest :: m in loaded;
      OthersShrink(rest, id);
      assert loaded == [loaded[0]] + rest;
      OthersCons(loaded[0], rest, id);
      forall m <- OthersLoaded(rest, id) ensures m.spec.id != loaded[0].spec.id {
        FilterIn(rest, (m: Entry) => m.spec.id != id, m);
      }
    }
  }

  lemma IdsCons(m: Entry, rest: seq<Entry>)
    ensures multiset(Ids([m] + rest)) == multiset{m.spec.id} + multiset(Ids(rest))
  {
    assert ([m] + rest)[1..] == rest;
  }

  lemma NoneTaken(loaded: seq<Entry>, id: string)
    requires forall m <- loaded :: m.spec.id != id
    ensures OthersLoaded(loaded, id) == loaded
  {
    FilterAll(loaded, (m: Entry) => m.spec.id != id);
  }

  /** ... which takes exactly its own id away. */
  lemma {:induction false} OthersIds(loaded: seq<Entry>, id: string)
    requires Unique(loaded) && Has(loaded, id)
    ensures multiset(Ids(loaded)) == multiset(Ids(OthersLoaded(loaded, id))) + multiset{id}
  {
    hide Ids;
    hide OthersLoaded;
    var rest := loaded[1..];
    assert loaded == [loaded[0]] + rest;
    OthersCons(loaded[0], rest, id);
    IdsCons(loaded[0], rest);
    if loaded[0].spec.id == id {
      NoneTaken(rest, id);
      assert [] + rest == rest;
    } else {
      var m :| m in loaded && m.spec.id == id;
      assert m in rest;
      OthersIds(rest, id);
      IdsCons(loaded[0], OthersLoaded(rest, id));
    }
  }

  lemma {:induction false} IdsAt(p: seq<Entry>, i: nat)
    requires i < |p|
    ensures |Ids(p)| == |p| && Ids(p)[i] == p[i].spec.id
  {
    if |p| > 1 { IdsAt(p[1..], if i > 0 then i - 1 else 0); }
  }

  /** The same models in the same order, none newly in use, none less ready. */
  predicate SameModels(p: seq<Entry>, q: seq<Entry>) {
    && |p| == |q|
    && forall i :: 0 <= i < |p| ==>
         p[i].spec == q[i].spec && (q[i].inUse ==> p[i].inUse) && (p[i].ready ==> q[i].ready)
  }

  lemma {:induction false} SameModelsIds(p: seq<Entry>, q: seq<Entry>)
    requires SameModels(p, q)
    ensures Ids(p) == Ids(q)
    ensures forall id :: Has(p, id) ==> Has(q, id)
  {
    if p != [] {
      SameModelsIds(p[1..], q[1..]);
    }
    forall id | Has(p, id) ensures Has(q, id) {
      var i :| 0 <= i < |p| && p[i].spec.id == id;
      assert q[i] in q;
    }
  }

  predicate Idle(loaded: seq<Entry>) { forall m <- loaded :: !m.inUse }

  /** What stays as it was when nothing but the outside world's clock moves. */
  lemma SameModelsKeep(p: seq<Entry>, q: seq<Entry>, id: string)
    requires SameModels(p, q)
    ensures Ids(p) == Ids(q) && (Idle(p) ==> Idle(q))
    ensures Has(p, id) <==> Has(q, id)
    ensures GpuReady(p, id) ==> GpuReady(q, id)
    ensures p == [] <==> q == []
  {
    SameModelsIds(p, q);
    if Idle(p) {
      forall m <- q ensures !m.inUse {
        var i :| 0 <= i < |q| && q[i] == m;
        assert p[i] in p;
      }
    }
    if Has(q, id) {
      var i :| 0 <= i < |q| && q[i].spec.id == id;
      assert p[i] in p;
    }
    if GpuReady(p, id) {
      var i :| 0 <= i < |p| && p[i].spec.id == id && p[i].ready;
      assert q[i] in q;
    }
  }

  /** Nobody interferes: peers stay idle and present, Lemonade answers and obeys. */
  ghost predicate Calm(cfg: Config, moves: nat -> Move) {
    && (forall k :: moves(k).answers && moves(k).obeys)
    && (forall k, p :: SameModels(GpuLoaded(cfg, p), GpuLoaded(cfg, moves(k).drift(p))))
  }

  /** Moreover memory suffices, and a loaded model is ready by the next look at health. */
  ghost predicate Prompt(cfg: Config, moves: nat -> Move, target: Spec) {
    && Calm(cfg, moves)
    && (forall k :: RoomFor(cfg, [], target, moves(k).probe) && ServeReady(moves(k).arrival))
  }

  /** Time taken by `n` awaits from a tick on. */
  function Spent(moves: nat -> Move, tick: nat, n: nat): nat {
    if n == 0 then 0 else Spent(moves, tick, n - 1) + moves(tick + n - 1).elapsed
  }

  lemma {:induction false} SpentSplit(moves: nat -> Move, tick: nat, a: nat, b: nat)
    ensures Spent(moves, tick, a + b) == Spent(moves, tick, a) + Spent(moves, tick + a, b)
  {
    if b > 0 { SpentSplit(moves, tick, a, b - 1); }
  }

  lemma SpentFew(moves: nat -> Move, tick: nat)
    ensures Spent(moves, tick, 1) == moves(tick).elapsed
    ensures Spent(moves, tick, 2) == moves(tick).elapsed + moves(tick + 1).elapsed
    ensures Spent(moves, tick, 3) == moves(tick).elapsed + Spent(moves, tick + 1, 2)
  {
    SpentSplit(moves, tick, 1, 2);
    SpentSplit(moves, tick, 1, 1);
    SpentSplit(moves, tick, 0, 1);
  }

  /** A takeover needs three awaits for each model to unload and three for the load: look, ask,
      look again. They fit the time a caller is held. */
  predicate InTime(cfg: Config, moves: nat -> Move, tick: nat, models: nat) {
    Spent(moves, tick, 3 * (models + 1)) <= cfg.holdTimeout
  }

  /** What a load request does to the pool `seen`: others may leave, the target may appear. */
  ghost predicate PostedAs(cfg: Config, moves: nat -> Move, target: Spec, seen: seq<Entry>, posted: seq<Entry>,
                           mid: seq<Entry>, e: Entry)
  {
    && e.spec == target && Unique(mid) && Within(mid, seen)
    && (posted == mid || posted == mid + [e])
    && (Calm(cfg, moves) ==> SameModels(seen, mid) && posted == mid + [e])
    && (Prompt(cfg, moves, target) ==> e.ready)
  }

  ghost predicate Posted(cfg: Config, moves: nat -> Move, target: Spec, seen: seq<Entry>, posted: seq<Entry>) {
    exists mid, e :: PostedAs(cfg, moves, target, seen, posted, mid, e)
  }

  class Lemonade {
    const cfg: Config
    const moves: nat -> Move
    var tick: nat
    var clock: int
    var pool: seq<Row>
    ghost var calls: seq<Call>
    ghost var reclaims: nat

    constructor (cfg: Config, moves: nat -> Move, pool: seq<Row>, clock: int)
      ensures this.cfg == cfg && this.moves == moves && this.pool == pool && this.clock == clock
      ensures calls == [] && reclaims == 0 && tick == 0
    {
      this.cfg, this.moves, this.pool, this.clock := cfg, moves, pool, clock;
      calls, reclaims, tick := [], 0, 0;
    }

    function Loaded(): seq<Entry> reads this { GpuLoaded(cfg, pool) }

    /** Distinct models, as Lemonade lists them. */
    ghost predicate Valid() reads this { ValidConfig(cfg) && Unique(Loaded()) }

    /** The pool only lost models, time did not run backwards. */
    twostate predicate Rely() reads this {
      Unique(Loaded()) && Within(Loaded(), old(Loaded())) && clock >= old(clock)
    }

    method Pass()
      requires Valid()
      modifies this`tick, this`clock, this`pool
      ensures Valid() && Rely() && tick == old(tick) + 1
      ensures clock == old(clock) + moves(old(tick)).elapsed
      ensures Calm(cfg, moves) ==> SameModels(old(Loaded()), Loaded())
    {
      var m := moves(tick);
      tick := tick + 1;
      clock := clock + m.elapsed;
      pool := Adopt(cfg, pool, m);
    }

    /** None is a failed request, which takes time. */
    method FetchHealth() returns (health: Option<seq<Entry>>)
      requires Valid()
      modifies this`tick, this`clock, this`pool
      ensures Valid() && Rely()
      ensures health.Some? ==> health.value == Loaded()
      ensures health.None? ==> clock > old(clock)
      ensures Calm(cfg, moves) ==> health.Some? && SameModels(old(Loaded()), Loaded())
      ensures tick == old(tick) + 1 && (health.Some? ==> clock == old(clock) + moves(old(tick)).elapsed)
    {
      var answers := moves(tick).answers;
      Pass();
      if answers {
        return Some(Loaded());
      }
      clock := clock + 1;
      return None;
    }

    method PostUnload(id: string, target: Spec, ghost seen: seq<Entry>)
      requires Valid()
      modifies this`tick, this`clock, this`pool, this`calls
      ensures Valid() && Rely() && calls == old(calls) + [UnloadCall(id, target, seen)]
      ensures Calm(cfg, moves) ==>
        exists mid :: SameModels(old(Loaded()), mid) && Unique(mid) && Loaded() == OthersLoaded(mid, id)
      ensures tick == old(tick) + 1 && clock == old(clock) + moves(old(tick)).elapsed
    {
      var obeys := moves(tick).obeys;
      ghost var before := Loaded();
      Pass();
      ghost var mid := Loaded();
      if obeys {
        WithoutLoaded(cfg, pool, id);
        OthersShrink(Loaded(), id);
        pool := Without(pool, id);
        WithinTrans(Loaded(), mid, before);
      }
      calls := calls + [UnloadCall(id, target, seen)];
    }

    method PostLoad(target: Spec, ghost seen: seq<Entry>, ghost probe: Probe)
      requires Valid() && target.id in cfg.specs && cfg.specs[target.id] == target
      modifies this`tick, this`clock, this`pool, this`calls
      ensures calls == old(calls) + [LoadCall(target, seen, probe)] && clock >= old(clock)
      ensures Posted(cfg, moves, target, old(Loaded()), Loaded())
      ensures tick == old(tick) + 1 && clock == old(clock) + moves(old(tick)).elapsed
    {
      var m := moves(tick);
      Pass();
      ghost var mid := Loaded();
      var row := m.arrival.(name := target.id, loaded := true);
      ghost var e := Entry(target, row.status == "in_use", row.lastUse, ServeReady(row));
      if m.obeys {
        GpuLoadedConcat(cfg, pool, [row]);
        assert [row][1..] == [];
        assert GpuLoaded(cfg, [row]) == [e];
        pool := pool + [row];
      }
      assert PostedAs(cfg, moves, target, old(Loaded()), Loaded(), mid, e);
      calls := calls + [LoadCall(target, seen, probe)];
    }

    method Sleep(d: nat)
      requires Valid()
      modifies this`tick, this`clock, this`pool
      ensures Valid() && Rely() && clock >= old(clock) + d
      ensures Calm(cfg, moves) ==> SameModels(old(Loaded()), Loaded())
    {
      Pass();
      clock := clock + d;
    }

    method TryComfyReclaim() returns (freed: bool)
      requires Valid()
      modifies this`tick, this`clock, this`pool, this`reclaims
      ensures Valid() && Rely() && reclaims == old(reclaims) + if freed then 1 else 0
      ensures Calm(cfg, moves) ==> SameModels(old(Loaded()), Loaded())
    {
      freed := moves(tick).comfy;
      Pass();
      if freed {
        reclaims := reclaims + 1;
      }
    }
  }

  /** Losing a model makes the pool strictly smaller. */
  lemma LostOne(cfg: Config, p: seq<Entry>, q: seq<Entry>, id: string)
    requires ValidConfig(cfg) && Known(cfg, p) && Known(cfg, q) && Unique(p) && Within(p, q)
    requires Has(q, id) && !Has(p, id)
    ensures |p| < |q|
  {
    var m :| m in q && m.spec.id == id;
    FewerWeighLess(cfg, p + [m], q);
  }

  /** With idle peers and an exclusive target that is not loaded, a round either evicts one
      of them or, once alone, loads. */
  lemma CalmRound(cfg: Config, book: Book, loaded: seq<Entry>, alias: string, target: Spec, probe: Probe, now: int)
    requires target.tier == EXCLUSIVE && Idle(loaded) && !Has(loaded, target.id)
    ensures var a := Decide(cfg, book, loaded, alias, target, probe, now);
            && (loaded != [] ==> a.Unload? && Has(loaded, a.victim))
            && (loaded == [] ==> (a.Load? || a.Starve?) && (Fits(cfg, [], target, probe) ==> a.Load?))
            && !a.Serve? && !a.RateLimit?
  {
    hide PickVictim;
    PickVictimIsLeast(loaded, target, book.admittedAt, now, cfg.cooldown);
    FilterAll(loaded, (m: Entry) => m.spec.id != target.id);
    assert OthersLoaded(loaded, target.id) == loaded;
    if loaded != [] {
      assert loaded[0] in loaded && Eligible(loaded[0], target, book.admittedAt, now, cfg.cooldown);
    }
  }

  /** An obeyed unload in a calm world takes away exactly the victim. */
  lemma AfterCalmUnload(before: seq<Entry>, mid: seq<Entry>, after: seq<Entry>, victim: string)
    requires SameModels(before, mid) && Unique(mid) && after == OthersLoaded(mid, victim) && Has(before, victim)
    ensures multiset(Ids(before)) == multiset(Ids(after)) + multiset{victim}
    ensures !Has(after, victim) && (Idle(before) ==> Idle(after))
  {
    SameModelsKeep(before, mid, victim);
    OthersShrink(mid, victim);
    OthersIds(mid, victim);
    if Idle(before) {
      forall m <- after ensures !m.inUse {
        FilterIn(mid, (m: Entry) => m.spec.id != victim, m);
      }
    }
  }

  lemma {:induction false} IdsLength(p: seq<Entry>)
    ensures |Ids(p)| == |p|
  {
    if p != [] { IdsLength(p[1..]); }
  }

  lemma OneIdLess(before: seq<Entry>, after: seq<Entry>, victim: string)
    requires multiset(Ids(before)) == multiset(Ids(after)) + multiset{victim}
    ensures |before| == |after| + 1
  {
    IdsLength(before);
    IdsLength(after);
    assert |multiset(Ids(before))| == |multiset(Ids(after))| + 1;
  }

  lemma PromptIsCalm(cfg: Config, moves: nat -> Move, target: Spec)
    requires Prompt(cfg, moves, target)
    ensures Calm(cfg, moves)
  {
  }

  /** After a load was posted on a snapshot that fits. */
  lemma PostedSafely(cfg: Config, moves: nat -> Move, target: Spec, seen: seq<Entry>, posted: seq<Entry>, probe: Probe)
    requires ValidConfig(cfg) && Known(cfg, seen) && Known(cfg, posted) && PoolOk(cfg, seen)
    requires Posted(cfg, moves, target, seen, posted)
    requires !Has(seen, target.id) && Fits(cfg, seen, target, probe)
    ensures PoolOk(cfg, posted)
    ensures target.tier == EXCLUSIVE ==> forall m <- posted :: m.spec.id == target.id
    ensures Calm(cfg, moves) && target.tier == EXCLUSIVE ==> Ids(posted) == [target.id]
    ensures Prompt(cfg, moves, target) ==> GpuReady(posted, target.id)
  {
    hide Fits;
    hide Calm;
    var mid, e :| PostedAs(cfg, moves, target, seen, posted, mid, e);
    forall m <- mid ensures m in posted {
    }
    ShrinkKeepsPool(cfg, mid, seen);
    LoadKeepsPool(cfg, mid, seen, e, probe);
    if target.tier == EXCLUSIVE && posted == mid + [e] {
      assert posted == [e] && [e][1..] == [];
      assert Ids(posted) == [e.spec.id] + Ids([]);
    }
    if Prompt(cfg, moves, target) {
      PromptIsCalm(cfg, moves, target);
      assert e in posted;
    }
  }

  /** A takeover under way: peers are idle, and each of the initial ones is either still
      loaded or was unloaded, once. */
  ghost predicate Draining(loaded: seq<Entry>, calls: seq<Call>, initial: seq<Entry>, id: string) {
    && Idle(loaded) && !Has(loaded, id)
    && multiset(Ids(loaded)) + multiset(Victims(calls)) == multiset(Ids(initial)) && Loads(calls) == []
  }

  lemma DrainingIsIdle(loaded: seq<Entry>, calls: seq<Call>, initial: seq<Entry>, id: string)
    requires Draining(loaded, calls, initial, id)
    ensures Idle(loaded) && !Has(loaded, id)
  {
  }

  lemma DrainStart(initial: seq<Entry>, id: string)
    requires Idle(initial) && !Has(initial, id)
    ensures Draining(initial, [], initial, id)
  {
    assert Victims([]) == [];
  }

  lemma DrainSame(p: seq<Entry>, q: seq<Entry>, calls: seq<Call>, initial: seq<Entry>, id: string)
    requires Draining(p, calls, initial, id) && SameModels(p, q)
    ensures Draining(q, calls, initial, id)
  {
    SameModelsKeep(p, q, id);
  }

  lemma DrainEvict(p: seq<Entry>, q: seq<Entry>, calls: seq<Call>, c: Call, initial: seq<Entry>, id: string)
    requires Draining(p, calls, initial, id) && c.UnloadCall? && Within(q, p) && Idle(q)
    requires multiset(Ids(p)) == multiset(Ids(q)) + multiset{c.victim}
    ensures Draining(q, calls + [c], initial, id)
  {
    CallsAppend(calls, c);
  }

  /** The takeover is complete: every initial model was unloaded exactly once, the target
      was loaded exactly once, and it is alone. */
  ghost predicate TookOver(loaded: seq<Entry>, calls: seq<Call>, initial: seq<Entry>, id: string) {
    && multiset(Victims(calls)) == multiset(Ids(initial)) && Loads(calls) == [id] && Ids(loaded) == [id]
  }

  lemma DrainDone(calls: seq<Call>, c: Call, initial: seq<Entry>, loaded: seq<Entry>)
    requires Draining([], calls, initial, c.target.id) && c.LoadCall? && Ids(loaded) == [c.target.id]
    ensures TookOver(loaded, calls + [c], initial, c.target.id)
  {
    CallsAppend(calls, c);
    assert Ids([]) == [];
  }

  /** What the three acting decisions rest on. */
  lemma DecisionFacts(cfg: Config, book: Book, loaded: seq<Entry>, alias: string, target: Spec, probe: Probe, now: int)
    ensures match Decide(cfg, book, loaded, alias, target, probe, now)
            case Serve => AdmissionOk(Admission(target, loaded))
            case Load =>
              && !Has(loaded, target.id) && Fits(cfg, loaded, target, probe)
              && Absent(loaded, target.id) && RoomFor(cfg, loaded, target, probe)
            case Unload(victim, _) => Has(loaded, victim) && JustifiedUnload(cfg, loaded, target, victim)
            case _ => true
  {
    hide Fits;
    hide RoomFor;
    hide PickVictim;
    LoadsExactlyWhen(cfg, book, loaded, alias, target, probe, now);
    UnloadsAreJustified(cfg, book, loaded, alias, target, probe, now);
    if Decide(cfg, book, loaded, alias, target, probe, now).Serve? {
      ServedAlone(cfg, loaded, target);
    }
  }

  lemma PromptFits(cfg: Config, moves: nat -> Move, target: Spec, k: nat)
    requires Prompt(cfg, moves, target)
    ensures target.tier == EXCLUSIVE ==> Fits(cfg, [], target, moves(k).probe)
  {
    assert RoomFor(cfg, [], target, moves(k).probe);
    FitsIsRoom(cfg, [], target, moves(k).probe);
  }

  /** The victim left, or time passed. */
  lemma Progress(cfg: Config, after: seq<Entry>, seen: seq<Entry>, victim: string, waited: bool)
    requires ValidConfig(cfg) && Known(cfg, after) && Known(cfg, seen) && Unique(after) && Within(after, seen)
    requires Has(seen, victim) && (waited || !Has(after, victim))
    ensures waited || |after| < |seen|
  {
    if !waited {
      LostOne(cfg, after, seen, victim);
    }
  }

  const UNLOAD_GRACE_S := 30

  lemma ReadyIsLoaded(loaded: seq<Entry>, id: string)
    requires GpuReady(loaded, id)
    ensures Has(loaded, id)
  {
  }

  lemma PoolIsUnique(cfg: Config, loaded: seq<Entry>)
    requires PoolOk(cfg, loaded)
    ensures Unique(loaded)
  {
  }

  class Scheduler {
    const cfg: Config
    const backend: Lemonade
    var book: Book
    var comfyReclaimed: bool

    constructor (backend: Lemonade)
      ensures this.backend == backend && cfg == backend.cfg && book == Book(map[], None, 0)
    {
      this.backend, this.cfg := backend, backend.cfg;
      book, comfyReclaimed := Book(map[], None, 0), false;
    }

    ghost predicate Valid()
      reads this, backend
    {
      backend.cfg == cfg && backend.Valid() && PoolOk(cfg, backend.Loaded()) && cfg.poll >= 1
    }

    /** Lines 456 to 468: wait (boundedly) until the victim left health. Either time passed or
        the victim is gone; if it is gone and nobody interferes, one look is enough. No look starts
        later than thirty seconds or the load timeout from now, and undisturbed the wait lasts
        that long for a victim that stays. */
    method AwaitGone(victim: string) returns (ghost looked: int)
      requires Valid()
      modifies backend`tick, backend`clock, backend`pool
      ensures Valid() && backend.Rely()
      ensures backend.clock > old(backend.clock) || !Has(backend.Loaded(), victim)
      ensures Calm(cfg, backend.moves) && !Has(old(backend.Loaded()), victim) ==>
        && Ids(old(backend.Loaded())) == Ids(backend.Loaded())
        && (Idle(old(backend.Loaded())) ==> Idle(backend.Loaded()))
        && backend.tick == old(backend.tick) + 1
        && backend.clock == old(backend.clock) + backend.moves(old(backend.tick)).elapsed
      ensures old(backend.clock) <= looked <= old(backend.clock) + 30 * cfg.second
      ensures looked <= old(backend.clock) + cfg.loadTimeout
      ensures Calm(cfg, backend.moves) && Has(old(backend.Loaded()), victim) ==>
        || backend.clock > old(backend.clock) + 30 * cfg.second
        || backend.clock > old(backend.clock) + cfg.loadTimeout
    {
      hide PoolOk;
      hide Idle;
      ghost var before, t0, tick0 := backend.Loaded(), backend.clock, backend.tick;
      ghost var calm := Calm(cfg, backend.moves) && !Has(before, victim);
      ghost var stays := Calm(cfg, backend.moves) && Has(before, victim);
      looked := t0;
      hide Calm;
      GpuLoadedKnown(cfg, backend.pool);
      var grace := UNLOAD_GRACE_S * cfg.second;
      var deadline := backend.clock + if grace < cfg.loadTimeout then grace else cfg.loadTimeout;
      while backend.clock <= deadline
        invariant backend.Valid() && Unique(backend.Loaded()) && Within(backend.Loaded(), before)
        invariant t0 <= backend.clock && (backend.clock > t0 || backend.clock <= deadline)
        invariant calm ==> backend.clock == t0 <= deadline && backend.tick == tick0 && backend.Loaded() == before
        invariant stays ==> Has(backend.Loaded(), victim)
        invariant t0 <= looked <= deadline
        decreases deadline - backend.clock
      {
        looked := backend.clock;
        ghost var head := backend.Loaded();
        var health := backend.FetchHealth();
        WithinTrans(backend.Loaded(), head, before);
        if calm || stays {
          SameModelsKeep(head, backend.Loaded(), victim);
        }
        if health.None? || !Has(health.value, victim) {
          break;
        }
        ghost var mid := backend.Loaded();
        backend.Sleep(cfg.poll);
        WithinTrans(backend.Loaded(), mid, before);
        if stays {
          SameModelsKeep(mid, backend.Loaded(), victim);
        }
      }
      GpuLoadedKnown(cfg, backend.pool);
      ShrinkKeepsPool(cfg, backend.Loaded(), before);
    }

    /** Lines 454 to 468: unload, then wait. */
    method EvictAndWait(victim: string, target: Spec, ghost seen: seq<Entry>)
      requires Valid()
      modifies backend`tick, backend`clock, backend`pool, backend`calls
      ensures Valid() && backend.Rely()
      ensures backend.calls == old(backend.calls) + [UnloadCall(victim, target, seen)]
      ensures backend.clock > old(backend.clock) || !Has(backend.Loaded(), victim)
      ensures Calm(cfg, backend.moves) && Has(old(backend.Loaded()), victim) ==>
        && multiset(Ids(old(backend.Loaded()))) == multiset(Ids(backend.Loaded())) + multiset{victim}
        && (Idle(old(backend.Loaded())) ==> Idle(backend.Loaded()))
        && backend.tick == old(backend.tick) + 2
        && backend.clock == old(backend.clock) + Spent(backend.moves, old(backend.tick), 2)
    {
      hide PoolOk;
      hide Idle;
      hide Calm;
      ghost var before := backend.Loaded();
      GpuLoadedKnown(cfg, backend.pool);
      SpentFew(backend.moves, backend.tick);
      hide Spent;
      backend.PostUnload(victim, target, seen);
      ghost var after := backend.Loaded();
      GpuLoadedKnown(cfg, backend.pool);
      ShrinkKeepsPool(cfg, after, before);
      if Calm(cfg, backend.moves) && Has(before, victim) {
        var mid :| SameModels(before, mid) && Unique(mid) && after == OthersLoaded(mid, victim);
        AfterCalmUnload(before, mid, after, victim);
      }
      ghost var _ := AwaitGone(victim);
      WithinTrans(backend.Loaded(), after, before);
    }

    /** Lines 419 to 436: poll until the target is ready or the load deadline passes. No look but
        the first starts after either deadline, and undisturbed the polling only gives up then. */
    method PollReady(target: Spec, deadline: int) returns (ready: bool, ghost looked: int)
      requires Valid()
      modifies backend`tick, backend`clock, backend`pool
      ensures Valid() && backend.Rely()
      ensures ready ==> GpuReady(backend.Loaded(), target.id)
      ensures Calm(cfg, backend.moves) ==> Ids(old(backend.Loaded())) == Ids(backend.Loaded())
      ensures Prompt(cfg, backend.moves, target)
              && old(GpuReady(backend.Loaded(), target.id) && backend.clock <= deadline)
              ==> ready
      ensures looked > old(backend.clock) ==> looked <= deadline && looked <= old(backend.clock) + cfg.loadTimeout
      ensures Calm(cfg, backend.moves) && !ready ==>
        backend.clock > deadline || backend.clock > old(backend.clock) + cfg.loadTimeout
    {
      hide Fits;
      hide PoolOk;
      ghost var posted := backend.Loaded();
      ghost var calm := Calm(cfg, backend.moves);
      ghost var prompt :=
        Prompt(cfg, backend.moves, target) && GpuReady(posted, target.id) && backend.clock <= deadline;
      GpuLoadedKnown(cfg, backend.pool);
      ghost var t0 := backend.clock;
      var latest := backend.clock + cfg.loadTimeout;
      var loadDeadline := if deadline < latest then deadline else latest;
      ready, looked := false, t0;
      while backend.clock <= loadDeadline
        invariant backend.Valid() && Unique(backend.Loaded()) && Within(backend.Loaded(), posted)
        invariant backend.clock >= t0 && (looked > t0 ==> looked <= loadDeadline)
        invariant calm ==> Ids(posted) == Ids(backend.Loaded())
        invariant prompt ==> backend.clock <= loadDeadline && GpuReady(backend.Loaded(), target.id)
        decreases loadDeadline - backend.clock
      {
        looked := backend.clock;
        ghost var head := backend.Loaded();
        var health := backend.FetchHealth();
        WithinTrans(backend.Loaded(), head, posted);
        if calm {
          SameModelsKeep(head, backend.Loaded(), target.id);
        }
        if health.None? {
          break;
        }
        if GpuReady(health.value, target.id) {
          ready := true;
          break;
        }
        ghost var polled := backend.Loaded();
        backend.Sleep(cfg.poll);
        WithinTrans(backend.Loaded(), polled, posted);
        if calm {
          SameModelsKeep(polled, backend.Loaded(), target.id);
        }
      }
      GpuLoadedKnown(cfg, backend.pool);
      ShrinkKeepsPool(cfg, backend.Loaded(), posted);
    }

    /** Lines 418 to 437: post the load, then poll. */
    method LoadAndWait(target: Spec, deadline: int, ghost seen: seq<Entry>, ghost probe: Probe) returns (ready: bool)
      requires Valid() && target.id in cfg.specs && cfg.specs[target.id] == target
      requires seen == backend.Loaded()
      requires !Has(seen, target.id) && Fits(cfg, seen, target, probe)
      modifies backend`tick, backend`clock, backend`pool, backend`calls
      ensures Valid() && backend.clock >= old(backend.clock)
      ensures backend.calls == old(backend.calls) + [LoadCall(target, seen, probe)]
      ensures ready ==> GpuReady(backend.Loaded(), target.id)
      ensures target.tier == EXCLUSIVE ==> forall m <- backend.Loaded() :: m.spec.id == target.id
      ensures Calm(cfg, backend.moves) && target.tier == EXCLUSIVE ==> Ids(backend.Loaded()) == [target.id]
      ensures Prompt(cfg, backend.moves, target) ==>
        (old(backend.clock) + backend.moves(old(backend.tick)).elapsed <= deadline ==> ready)
    {
      hide Fits;
      hide PoolOk;
      hide Posted;
      hide Calm;
      GpuLoadedKnown(cfg, backend.pool);
      backend.PostLoad(target, seen, probe);
      ghost var posted := backend.Loaded();
      GpuLoadedKnown(cfg, backend.pool);
      PostedSafely(cfg, backend.moves, target, seen, posted, probe);
      PoolIsUnique(cfg, posted);
      ghost var looked;
      ready, looked := PollReady(target, deadline);
      if target.tier == EXCLUSIVE {
        forall m <- backend.Loaded() ensures m.spec.id == target.id {
          assert Has(posted, m.spec.id);
        }
      }
    }

    /** Line 383, with what a calm world guarantees about the answer. */
    method Fetch(ghost calm: bool, target: Spec, ghost calls: seq<Call>, ghost initial: seq<Entry>)
      returns (health: Option<seq<Entry>>)
      requires Valid()
      requires calm ==> Calm(cfg, backend.moves) && Draining(backend.Loaded(), calls, initial, target.id)
      modifies backend`tick, backend`clock, backend`pool
      ensures Valid() && backend.Rely() && |backend.Loaded()| <= |old(backend.Loaded())|
      ensures health.Some? ==> health.value == backend.Loaded()
      ensures calm ==> health.Some? && Draining(backend.Loaded(), calls, initial, target.id)
      ensures calm ==> |backend.Loaded()| == |old(backend.Loaded())|
      ensures calm ==> backend.tick == old(backend.tick) + 1
                       && backend.clock == old(backend.clock) + backend.moves(old(backend.tick)).elapsed
    {
      hide PoolOk;
      hide Draining;
      ghost var head := backend.Loaded();
      GpuLoadedKnown(cfg, backend.pool);
      health := backend.FetchHealth();
      GpuLoadedKnown(cfg, backend.pool);
      FewerWeighLess(cfg, backend.Loaded(), head);
      ShrinkKeepsPool(cfg, backend.Loaded(), head);
      if calm {
        DrainSame(head, backend.Loaded(), calls, initial, target.id);
      }
    }

    /** Lines 469 to 480: one attempt at ComfyUI's memory, then wait a poll. */
    method Starved(ghost calm: bool, target: Spec, ghost calls: seq<Call>, ghost initial: seq<Entry>)
      requires Valid()
      requires calm ==> Calm(cfg, backend.moves) && Draining(backend.Loaded(), calls, initial, target.id)
      modifies this`comfyReclaimed, backend`tick, backend`clock, backend`pool, backend`reclaims
      ensures Valid() && backend.clock > old(backend.clock)
      ensures old(comfyReclaimed) ==> comfyReclaimed
      ensures backend.reclaims == old(backend.reclaims) + if comfyReclaimed && !old(comfyReclaimed) then 1 else 0
      ensures calm ==> Draining(backend.Loaded(), calls, initial, target.id)
    {
      hide PoolOk;
      hide Draining;
      ghost var head := backend.Loaded();
      GpuLoadedKnown(cfg, backend.pool);
      if !comfyReclaimed {
        comfyReclaimed := backend.TryComfyReclaim();
        if calm {
          DrainSame(head, backend.Loaded(), calls, initial, target.id);
        }
      }
      ghost var mid := backend.Loaded();
      backend.Sleep(cfg.poll);
      if calm {
        DrainSame(mid, backend.Loaded(), calls, initial, target.id);
      }
      WithinTrans(backend.Loaded(), mid, head);
      GpuLoadedKnown(cfg, backend.pool);
      ShrinkKeepsPool(cfg, backend.Loaded(), head);
    }

    /** Lines 453 to 468 for a takeover: the pool shrinks or time passes. */
    method Evict(victim: string, target: Spec, ghost calm: bool, ghost calls: seq<Call>, ghost initial: seq<Entry>)
      requires Valid() && Has(backend.Loaded(), victim)
      requires calm ==> Calm(cfg, backend.moves) && Draining(backend.Loaded(), calls, initial, target.id)
      modifies backend`tick, backend`clock, backend`pool, backend`calls
      ensures Valid() && backend.clock >= old(backend.clock)
      ensures backend.clock > old(backend.clock) || |backend.Loaded()| < |old(backend.Loaded())|
      ensures backend.calls == old(backend.calls) + [UnloadCall(victim, target, old(backend.Loaded()))]
      ensures calm ==>
        Draining(backend.Loaded(), calls + [UnloadCall(victim, target, old(backend.Loaded()))], initial, target.id)
      ensures calm ==>
        && |backend.Loaded()| + 1 == |old(backend.Loaded())| && backend.tick == old(backend.tick) + 2
        && backend.clock == old(backend.clock) + Spent(backend.moves, old(backend.tick), 2)
    {
      hide PoolOk;
      hide Calm;
      hide Spent;
      ghost var seen, t1 := backend.Loaded(), backend.clock;
      GpuLoadedKnown(cfg, backend.pool);
      EvictAndWait(victim, target, seen);
      GpuLoadedKnown(cfg, backend.pool);
      Progress(cfg, backend.Loaded(), seen, victim, backend.clock > t1);
      if calm {
        DrainEvict(seen, backend.Loaded(), calls, UnloadCall(victim, target, seen), initial, target.id);
        OneIdLess(seen, backend.Loaded(), victim);
      }
    }

    /** Lines 408 to 437 for a takeover. */
    method LoadFor(target: Spec, deadline: int, ghost probe: Probe, ghost calm: bool, ghost prompt: bool,
                   ghost calls: seq<Call>, ghost initial: seq<Entry>)
      returns (ready: bool)
      requires Valid() && target.id in cfg.specs && cfg.specs[target.id] == target
      requires !Has(backend.Loaded(), target.id) && Fits(cfg, backend.Loaded(), target, probe)
      requires calm ==> target.tier == EXCLUSIVE && backend.Loaded() == []
      requires calm ==> Calm(cfg, backend.moves) && Draining([], calls, initial, target.id)
      requires prompt ==> calm && Prompt(cfg, backend.moves, target)
      modifies backend`tick, backend`clock, backend`pool, backend`calls
      ensures Valid()
      ensures backend.calls == old(backend.calls) + [LoadCall(target, old(backend.Loaded()), probe)]
      ensures ready ==> AdmissionOk(Admission(target, backend.Loaded()))
      ensures calm ==>
        TookOver(backend.Loaded(), calls + [LoadCall(target, old(backend.Loaded()), probe)], initial, target.id)
      ensures prompt ==> (old(backend.clock) + backend.moves(old(backend.tick)).elapsed <= deadline ==> ready)
    {
      hide PoolOk;
      hide Fits;
      hide Calm;
      hide Prompt;
      ghost var seen := backend.Loaded();
      ready := LoadAndWait(target, deadline, seen, probe);
      if calm {
        DrainDone(calls, LoadCall(target, seen, probe), initial, backend.Loaded());
      }
    }

    /** New requests are all justified. */
    ghost predicate Appended(before: seq<Call>, after: seq<Call>) {
      && |before| <= |after| && after[..|before|] == before
      && forall c <- after[|before|..] :: CallOk(cfg, c)
    }

    /** One round of the hold loop (lines 383 to 488). None means another round: then the
        deadline has not passed, and either time went by or the pool became smaller. */
    method Round(alias: string, target: Spec, deadline: int, ghost calm: bool, ghost prompt: bool, ghost start: nat,
                 ghost initial: seq<Entry>)
      returns (verdict: Option<Outcome>)
      requires Valid() && target.id in cfg.specs && cfg.specs[target.id] == target
      requires backend.clock <= deadline && start <= |backend.calls|
      requires calm ==> target.tier == EXCLUSIVE && Calm(cfg, backend.moves)
      requires calm ==> Draining(backend.Loaded(), backend.calls[start..], initial, target.id)
      requires prompt ==> calm && Prompt(cfg, backend.moves, target)
      modifies this`comfyReclaimed
      modifies backend`tick, backend`clock, backend`pool, backend`calls, backend`reclaims
      ensures Valid() && verdict in {None, Some(Admitted), Some(Bypassed), Some(TimedOut)}
      ensures Appended(old(backend.calls), backend.calls)
      ensures old(comfyReclaimed) ==> comfyReclaimed
      ensures backend.reclaims == old(backend.reclaims) + if comfyReclaimed && !old(comfyReclaimed) then 1 else 0
      ensures verdict.None? ==>
        && old(backend.clock) <= backend.clock <= deadline
        && (backend.clock > old(backend.clock) || |backend.Loaded()| < |old(backend.Loaded())|)
        && (calm ==> Draining(backend.Loaded(), backend.calls[start..], initial, target.id))
        && (prompt ==>
              && |backend.Loaded()| + 1 == |old(backend.Loaded())| && backend.tick == old(backend.tick) + 3
              && backend.clock == old(backend.clock) + Spent(backend.moves, old(backend.tick), 3))
      ensures verdict == Some(Admitted) ==>
        && AdmissionOk(Admission(target, backend.Loaded()))
        && (calm ==> TookOver(backend.Loaded(), backend.calls[start..], initial, target.id))
      ensures calm ==> verdict != Some(Bypassed)
      ensures prompt && old(backend.clock) + Spent(backend.moves, old(backend.tick), 3) <= deadline ==>
        verdict in {None, Some(Admitted)}
    {
      hide Fits;
      hide PoolOk;
      hide Decide;
      hide Calm;
      hide Prompt;
      hide TookOver;
      hide Draining;
      hide JustifiedUnload;
      hide AdmissionOk;
      hide GpuLoaded;
      hide Idle;
      hide Spent;
      hide SameModels;
      ghost var was := backend.calls;
      ghost var calls := was[start..];
      verdict := None;
      SpentFew(backend.moves, backend.tick);
      SpentFew(backend.moves, backend.tick + 1);
      var health := Fetch(calm, target, calls, initial);
      if health.None? {
        return Some(Bypassed);
      }
      var loaded, probe := health.value, backend.moves(backend.tick).probe;
      DecisionFacts(cfg, book, loaded, alias, target, probe, backend.clock);
      if calm {
        DrainingIsIdle(loaded, calls, initial, target.id);
        CalmRound(cfg, book, loaded, alias, target, probe, backend.clock);
      }
      if prompt {
        PromptFits(cfg, backend.moves, target, backend.tick);
      }
      match Decide(cfg, book, loaded, alias, target, probe, backend.clock) {
        case Serve =>
          return Some(Admitted);
        case RateLimit =>
          return Some(TimedOut);
        case Load =>
          var ready := LoadFor(target, deadline, probe, calm, prompt, calls, initial);
          Seqs.DropConcat(was, [LoadCall(target, loaded, probe)], start);
          return Some(if ready then Admitted else TimedOut);
        case Unload(victim, _) =>
          Evict(victim, target, calm, calls, initial);
          Seqs.DropConcat(was, [UnloadCall(victim, target, loaded)], start);
        case Starve =>
          Starved(calm, target, calls, initial);
      }
      if backend.clock > deadline {
        return Some(TimedOut);
      }
    }

    /** Who takes over: an exclusive target, not loaded yet, whose peers are idle. */
    static ghost predicate Takeover(loaded: seq<Entry>, target: Spec) {
      target.tier == EXCLUSIVE && Idle(loaded) && !Has(loaded, target.id)
    }

    /** Admission under the lock. It always returns: each round either lets time pass
        towards the deadline or makes the pool smaller. */
    method AdmitLocked(alias: string, target: Spec) returns (outcome: Outcome)
      requires Valid() && target.id in cfg.specs && cfg.specs[target.id] == target
      modifies this`book, this`comfyReclaimed
      modifies backend`tick, backend`clock, backend`pool, backend`calls, backend`reclaims
      ensures Valid() && outcome in {Admitted, Bypassed, TimedOut}
      ensures Appended(old(backend.calls), backend.calls)
      ensures backend.reclaims <= old(backend.reclaims) + 1
      ensures outcome == Admitted ==> AdmissionOk(Admission(target, backend.Loaded()))
      ensures book == if outcome == Admitted then Booked(old(book), alias, target, backend.clock) else old(book)
      ensures Takeover(old(backend.Loaded()), target) && Calm(cfg, backend.moves) && outcome == Admitted ==>
        TookOver(backend.Loaded(), backend.calls[|old(backend.calls)|..], old(backend.Loaded()), target.id)
      ensures Takeover(old(backend.Loaded()), target) && Calm(cfg, backend.moves) ==> outcome in {Admitted, TimedOut}
      ensures Takeover(old(backend.Loaded()), target) && Prompt(cfg, backend.moves, target)
              && InTime(cfg, backend.moves, old(backend.tick), |old(backend.Loaded())|)
              ==> outcome == Admitted
    {
      hide PoolOk;
      hide Calm;
      hide Prompt;
      hide TookOver;
      hide Draining;
      hide CallOk;
      hide AdmissionOk;
      hide GpuLoaded;
      hide Spent;
      ghost var initial, start := backend.Loaded(), |backend.calls|;
      ghost var t0, tick0, moves := backend.clock, backend.tick, backend.moves;
      ghost var calm := Takeover(initial, target) && Calm(cfg, backend.moves);
      ghost var prompt := Takeover(initial, target) && Prompt(cfg, backend.moves, target);
      if prompt {
        PromptIsCalm(cfg, backend.moves, target);
      }
      comfyReclaimed := false;
      var deadline := backend.clock + cfg.holdTimeout;
      assert backend.calls[start..] == [];
      if calm {
        DrainStart(initial, target.id);
      }
      while true
        invariant Valid() && backend.clock <= deadline && book == old(book)
        invariant Appended(old(backend.calls), backend.calls)
        invariant backend.reclaims == old(backend.reclaims) + if comfyReclaimed then 1 else 0
        invariant calm ==> Draining(backend.Loaded(), backend.calls[start..], initial, target.id)
        invariant prompt ==> backend.clock - t0 + Spent(moves, backend.tick, 3 * (|backend.Loaded()| + 1))
                             == Spent(moves, tick0, 3 * (|initial| + 1))
        decreases deadline - backend.clock, |backend.Loaded()|
      {
        SpentSplit(moves, backend.tick, 3, 3 * |backend.Loaded()|);
        var verdict := Round(alias, target, deadline, calm, prompt, start, initial);
        if verdict.Some? {
          outcome := verdict.value;
          break;
        }
      }
      if outcome == Admitted {
        book := Booked(book, alias, target, backend.clock);
      }
    }

    /** The whole call: manifest, allowlist, fast path without the lock, then admission under it.
        `fast` tells whether the fast path served it. */
    method Admit(alias: string) returns (outcome: Outcome, ghost fast: bool)
      requires Valid()
      modifies this`book, this`comfyReclaimed
      modifies backend`tick, backend`clock, backend`pool, backend`calls, backend`reclaims
      ensures Valid() && Appended(old(backend.calls), backend.calls)
      ensures outcome == Forbidden <==> alias in cfg.aliases && cfg.allow != {} && alias !in cfg.allow
      ensures alias !in cfg.aliases ==> outcome == Bypassed
      ensures Target(cfg, alias).None? || outcome == Forbidden ==> unchanged(this) && unchanged(backend)
      ensures outcome == Admitted ==> AdmissionOk(Admission(Target(cfg, alias).value, backend.Loaded()))
      ensures fast ==> outcome == Admitted && backend.calls == old(backend.calls)
      ensures book == if outcome == Admitted && !fast
                      then Booked(old(book), alias, Target(cfg, alias).value, backend.clock) else old(book)
      ensures Target(cfg, alias).Some? && Allowed(cfg, alias)
              && Takeover(old(backend.Loaded()), Target(cfg, alias).value) && Calm(cfg, backend.moves) ==>
        && outcome in {Admitted, TimedOut} && !fast
        && (outcome == Admitted ==>
              TookOver(backend.Loaded(), backend.calls[|old(backend.calls)|..], old(backend.Loaded()),
                       Target(cfg, alias).value.id))
        && (Prompt(cfg, backend.moves, Target(cfg, alias).value)
            && InTime(cfg, backend.moves, old(backend.tick) + 1, |old(backend.Loaded())|)
            ==> outcome == Admitted)
    {
      hide PoolOk;
      hide Calm;
      hide Prompt;
      hide InTime;
      hide Draining;
      hide CallOk;
      hide GpuLoaded;
      fast := false;
      if Target(cfg, alias).None? {
        return Bypassed, false;
      }
      var spec := Target(cfg, alias).value;
      if !Allowed(cfg, alias) {
        return Forbidden, false;
      }
      ghost var initial := backend.Loaded();
      GpuLoadedKnown(cfg, backend.pool);
      var health := backend.FetchHealth();
      GpuLoadedKnown(cfg, backend.pool);
      ShrinkKeepsPool(cfg, backend.Loaded(), initial);
      if Calm(cfg, backend.moves) {
        SameModelsKeep(initial, backend.Loaded(), spec.id);
      }
      if health.None? {
        return Bypassed, false;
      }
      if ServedFast(health.value, spec) {
        ServedAlone(cfg, health.value, spec);
        ReadyIsLoaded(health.value, spec.id);
        return Admitted, true;
      }
      outcome := AdmitLocked(alias, spec);
    }
  }
}
