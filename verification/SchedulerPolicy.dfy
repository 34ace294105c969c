/** Single-memory-owner admission, the pure policy (scheduler_hook.py, lines 138 to 341):
    what a health snapshot says, who may be evicted, what fits, and what one round of
    the hold loop decides. Sizes are GiB, times are clock ticks. */
module SchedulerPolicy {
  import opened Options
  import opened Sorting

  const EXCLUSIVE := "exclusive"
  const RESIDENT := "resident"
  const FLOATING := "floating"

  /** One manifest entry; a model id has exactly one. */
  datatype Spec = Spec(id: string, size: real, tier: string)

  /** One row of Lemonade's health payload. */
  datatype Row = Row(name: string, loaded: bool, status: string, backend: string, lastUse: real)

  /** What `gpu_loaded` keeps of a row. */
  datatype Entry = Entry(spec: Spec, inUse: bool, lastUse: real, ready: bool)

  datatype Config = Config(
    specs: map<string, Spec>, aliases: map<string, string>,   // the manifest, alias to model id
    budget: real, cooldown: int, maxGpu: int, large: real,
    headroom: real, ramFloor: real, gttBudget: real,
    second: nat, holdTimeout: nat, loadTimeout: nat, poll: nat,
    minSwitch: int, workhorse: set<string>, allow: set<string>)

  /** The manifest is keyed by model id, weights are not negative, and one model may load. */
  predicate ValidConfig(cfg: Config) {
    && cfg.maxGpu >= 1
    && (forall id <- cfg.specs :: cfg.specs[id].id == id && cfg.specs[id].size >= 0.0)
    && (forall alias <- cfg.aliases :: cfg.aliases[alias] in cfg.specs)
  }

  /** `manifest.get(alias)`. */
  function Target(cfg: Config, alias: string): Option<Spec> {
    if alias in cfg.aliases && cfg.aliases[alias] in cfg.specs then Some(cfg.specs[cfg.aliases[alias]]) else None
  }

  predicate Allowed(cfg: Config, alias: string) { cfg.allow == {} || alias in cfg.allow }

  predicate ServeReady(row: Row) {
    row.status in {"ready", "in_use", "idle", ""} && row.backend in {"ready", "busy", "idle", ""}
  }

  /** Loaded models the manifest knows, in health order. */
  function GpuLoaded(cfg: Config, rows: seq<Row>): seq<Entry> {
    if rows == [] then []
    else
      var rest := GpuLoaded(cfg, rows[1..]);
      var row := rows[0];
      if row.loaded && row.name in cfg.specs then
        [Entry(cfg.specs[row.name], row.status == "in_use", row.lastUse, ServeReady(row))] + rest
      else rest
  }

  predicate Has(loaded: seq<Entry>, id: string) {
    exists m <- loaded :: m.spec.id == id
  }

  predicate GpuReady(loaded: seq<Entry>, id: string) {
    exists m <- loaded :: m.spec.id == id && m.ready
  }

  function Ledger(loaded: seq<Entry>): real {
    if loaded == [] then 0.0 else loaded[0].spec.size + Ledger(loaded[1..])
  }

  function FreeGb(cfg: Config, loaded: seq<Entry>): real { cfg.budget - Ledger(loaded) }

  function Filter<T>(xs: seq<T>, p: T -> bool): seq<T> {
    if xs == [] then [] else (if p(xs[0]) then [xs[0]] else []) + Filter(xs[1..], p)
  }

  lemma {:induction false} FilterIn<T>(xs: seq<T>, p: T -> bool, x: T)
    ensures x in Filter(xs, p) <==> x in xs && p(x)
  {
    if xs != [] {
      FilterIn(xs[1..], p, x);
    }
  }

  function OthersLoaded(loaded: seq<Entry>, id: string): seq<Entry> {
    Filter(loaded, (m: Entry) => m.spec.id != id)
  }

  // ---------- eviction ----------

  predicate Eligible(m: Entry, target: Spec, admittedAt: map<string, int>, now: int, cooldown: int) {
    var exclusive := target.tier == EXCLUSIVE;
    && m.spec.id != target.id && !m.inUse
    && if m.spec.tier == EXCLUSIVE then exclusive
       else
         && (m.spec.tier == RESIDENT ==> exclusive)
         && (!exclusive && m.spec.id in admittedAt ==> now - admittedAt[m.spec.id] >= cooldown)
  }

  function TierRank(tier: string): int {
    if tier == RESIDENT then 1 else if tier == EXCLUSIVE then 2 else 0
  }

  function VictimKey(m: Entry): Key { Key(TierRank(m.spec.tier), m.lastUse) }

  function PickVictim(loaded: seq<Entry>, target: Spec, admittedAt: map<string, int>, now: int, cooldown: int)
    : Option<string>
  {
    var candidates := StableSort(
      Filter(loaded, (m: Entry) => Eligible(m, target, admittedAt, now, cooldown)), VictimKey);
    if candidates == [] then None else Some(candidates[0].spec.id)
  }

  /** The victim is an eligible model with the least (tier rank, last use), and there is
      none exactly when nothing is eligible. */
  lemma PickVictimIsLeast(loaded: seq<Entry>, target: Spec, admittedAt: map<string, int>, now: int, cooldown: int)
    ensures var v := PickVictim(loaded, target, admittedAt, now, cooldown);
            && (v.None? <==> forall m <- loaded :: !Eligible(m, target, admittedAt, now, cooldown))
            && (v.Some? ==> exists m <- loaded ::
                  && m.spec.id == v.value && Eligible(m, target, admittedAt, now, cooldown)
                  && forall o <- loaded ::
                       Eligible(o, target, admittedAt, now, cooldown) ==> Le(VictimKey(m), VictimKey(o)))
  {
    var p := (m: Entry) => Eligible(m, target, admittedAt, now, cooldown);
    var pool := Filter(loaded, p);
    forall m ensures m in pool <==> m in loaded && p(m) { FilterIn(loaded, p, m); }
    StableSortSorts(pool, VictimKey);
    if pool == [] {
      forall m <- loaded ensures !p(m) { assert m !in pool; }
    } else {
      var i := StableSortHead(pool, VictimKey);
      var m := pool[i];
      assert m in pool;
      forall o <- loaded | p(o) ensures Le(VictimKey(m), VictimKey(o)) {
        assert o in pool;
      }
    }
  }

  // ---------- admission gates ----------

  predicate IsLarge(cfg: Config, m: Entry) { m.spec.size >= cfg.large }

  predicate SlotOk(cfg: Config, loaded: seq<Entry>, target: Spec) {
    var others := OthersLoaded(loaded, target.id);
    if target.tier == EXCLUSIVE then |others| == 0
    else if |others| >= cfg.maxGpu then false
    else if target.size >= cfg.large then |Filter(others, (m: Entry) => IsLarge(cfg, m))| == 0
    else true
  }

  /** What the host's memory probes answer; None is an unreadable probe. */
  datatype Probe = Probe(avail: Option<real>, gtt: Option<real>)

  predicate MemOk(cfg: Config, target: Spec, probe: Probe) {
    probe.avail.Some? ==>
      probe.avail.value >= cfg.ramFloor && probe.avail.value >= target.size + cfg.headroom
  }

  predicate GttOk(cfg: Config, loaded: seq<Entry>, target: Spec, probe: Probe) {
    probe.gtt.Some? && OthersLoaded(loaded, target.id) == [] ==> probe.gtt.value <= cfg.gttBudget
  }

  predicate Fits(cfg: Config, loaded: seq<Entry>, target: Spec, probe: Probe) {
    && FreeGb(cfg, loaded) >= target.size
    && SlotOk(cfg, loaded, target) && MemOk(cfg, target, probe) && GttOk(cfg, loaded, target, probe)
  }

  // ---------- one round of the hold loop ----------

  /** What the scheduler remembers between admissions. */
  datatype Book = Book(admittedAt: map<string, int>, lastAlias: Option<string>, lastAdmitAt: int)

  /** What an admission under the lock adds (lines 489 to 492). */
  function Booked(book: Book, alias: string, target: Spec, now: int): Book {
    Book(book.admittedAt[target.id := now], Some(alias), now)
  }

  datatype Action = Serve | RateLimit | Load | Unload(victim: string, forced: bool) | Starve

  predicate RateLimited(cfg: Config, book: Book, alias: string, target: Spec, now: int) {
    && target.tier != EXCLUSIVE && alias !in cfg.workhorse && cfg.minSwitch > 0
    && book.lastAlias.Some? && book.lastAlias.value != "" && book.lastAlias.value != alias
    && now - book.lastAdmitAt < cfg.minSwitch
  }

  /** Large peers a large target may force out although they are in use. */
  function ForcePeers(cfg: Config, loaded: seq<Entry>, target: Spec): seq<Entry> {
    Filter(OthersLoaded(loaded, target.id), (m: Entry) => IsLarge(cfg, m) && m.spec.tier != EXCLUSIVE)
  }

  function Decide(cfg: Config, book: Book, loaded: seq<Entry>, alias: string, target: Spec, probe: Probe, now: int)
    : Action
  {
    var already := Has(loaded, target.id);
    if GpuReady(loaded, target.id) && SlotOk(cfg, loaded, target) then Serve
    else if !already && RateLimited(cfg, book, alias, target, now) then RateLimit
    else if !already && Fits(cfg, loaded, target, probe) then Load
    else
      var victim := PickVictim(loaded, target, book.admittedAt, now, cfg.cooldown);
      if victim.Some? then Unload(victim.value, false)
      else
        var peers := ForcePeers(cfg, loaded, target);
        if !already && target.size >= cfg.large && peers != [] then Unload(peers[0].spec.id, true)
        else Starve
  }

  /** Fast path: a ready model is served without the lock, unless it must be alone and is not. */
  predicate ServedFast(loaded: seq<Entry>, target: Spec) {
    && GpuReady(loaded, target.id)
    && !(target.tier == EXCLUSIVE && OthersLoaded(loaded, target.id) != [])
  }

  /** Which unloads the policy may ever ask for, given what it saw. */
  ghost predicate JustifiedUnload(cfg: Config, seen: seq<Entry>, target: Spec, victim: string) {
    exists m <- seen ::
      && m.spec.id == victim && victim != target.id
      && (m.spec.tier == EXCLUSIVE ==> target.tier == EXCLUSIVE)
      && (m.inUse ==> m.spec.tier != EXCLUSIVE && m.spec.size >= cfg.large && target.size >= cfg.large)
      && (m.spec.tier == RESIDENT && m.spec.size < cfg.large ==> target.tier == EXCLUSIVE)
  }

  lemma UnloadsAreJustified(cfg: Config, book: Book, loaded: seq<Entry>, alias: string, target: Spec, probe: Probe,
                            now: int)
    ensures var a := Decide(cfg, book, loaded, alias, target, probe, now);
            a.Unload? ==> JustifiedUnload(cfg, loaded, target, a.victim)
  {
    hide PickVictim;
    PickVictimIsLeast(loaded, target, book.admittedAt, now, cfg.cooldown);
    var a := Decide(cfg, book, loaded, alias, target, probe, now);
    if a.Unload? && a.forced {
      var others := OthersLoaded(loaded, target.id);
      var m := ForcePeers(cfg, loaded, target)[0];
      FilterIn(others, (m: Entry) => IsLarge(cfg, m) && m.spec.tier != EXCLUSIVE, m);
      FilterIn(loaded, (m: Entry) => m.spec.id != target.id, m);
      assert m in loaded && m.spec.id == a.victim;
    }
  }

  lemma {:induction false} FilterAll<T>(xs: seq<T>, p: T -> bool)
    requires forall x <- xs :: p(x)
    ensures Filter(xs, p) == xs
  {
    if xs != [] {
      FilterAll(xs[1..], p);
    }
  }

  /** The exclusive tier is only checked when the exclusive model is the one being admitted:
      a model that arrives later may join it, and this is exactly when. */
  lemma WhoMayJoinExclusive(cfg: Config, resident: Entry, target: Spec)
    requires resident.spec.tier == EXCLUSIVE && target.tier != EXCLUSIVE && target.id != resident.spec.id
    ensures SlotOk(cfg, [resident], target) <==>
            cfg.maxGpu >= 2 && !(target.size >= cfg.large && resident.spec.size >= cfg.large)
  {
    FilterAll([resident], (m: Entry) => m.spec.id != target.id);
    assert OthersLoaded([resident], target.id) == [resident];
    var large := (m: Entry) => IsLarge(cfg, m);
    assert [resident][1..] == [];
    assert Filter([resident], large) == if large(resident) then [resident] + [] else [] + [];
  }

  // ---------- the pool invariant ----------

  predicate Unique(loaded: seq<Entry>) {
    forall i, j :: 0 <= i < j < |loaded| ==> loaded[i].spec.id != loaded[j].spec.id
  }

  /** Every entry is the manifest's entry for its id. */
  predicate Known(cfg: Config, loaded: seq<Entry>) {
    forall m <- loaded :: m.spec.id in cfg.specs && m.spec == cfg.specs[m.spec.id]
  }

  /** Every model of `p` is in `q`. */
  predicate Within(p: seq<Entry>, q: seq<Entry>) {
    forall m <- p :: Has(q, m.spec.id)
  }

  predicate OneLarge(cfg: Config, loaded: seq<Entry>) {
    forall i, j :: 0 <= i < j < |loaded| ==> !(IsLarge(cfg, loaded[i]) && IsLarge(cfg, loaded[j]))
  }

  /** At most `max_gpu` models, at most one of them large, all within the budget. */
  predicate PoolOk(cfg: Config, loaded: seq<Entry>) {
    && Unique(loaded)
    && |loaded| <= cfg.maxGpu && OneLarge(cfg, loaded) && Ledger(loaded) <= cfg.budget
  }

  lemma {:induction false} GpuLoadedKnown(cfg: Config, rows: seq<Row>)
    requires ValidConfig(cfg)
    ensures Known(cfg, GpuLoaded(cfg, rows))
  {
    if rows != [] {
      GpuLoadedKnown(cfg, rows[1..]);
    }
  }

  lemma {:induction false} LedgerConcat(p: seq<Entry>, q: seq<Entry>)
    ensures Ledger(p + q) == Ledger(p) + Ledger(q)
  {
    if p == [] {
      assert p + q == q;
    } else {
      LedgerConcat(p[1..], q);
      assert (p + q)[1..] == p[1..] + q;
    }
  }

  lemma {:induction false} LedgerNonNegative(cfg: Config, q: seq<Entry>)
    requires ValidConfig(cfg) && Known(cfg, q)
    ensures Ledger(q) >= 0.0
  {
    if q != [] {
      assert q[0] in q;
      LedgerNonNegative(cfg, q[1..]);
    }
  }

  /** Fewer models never weigh more. */
  lemma {:induction false} FewerWeighLess(cfg: Config, p: seq<Entry>, q: seq<Entry>)
    requires ValidConfig(cfg) && Known(cfg, p) && Known(cfg, q) && Unique(p) && Within(p, q)
    ensures |p| <= |q| && Ledger(p) <= Ledger(q)
    decreases |p|
  {
    if p == [] {
      LedgerNonNegative(cfg, q);
    } else {
      assert Has(q, p[0].spec.id);
      var k :| 0 <= k < |q| && q[k].spec.id == p[0].spec.id;
      var q' := q[..k] + q[k + 1..];
      forall m <- p[1..] ensures Has(q', m.spec.id) {
        assert Has(q, m.spec.id);
        var j :| 0 <= j < |q| && q[j].spec.id == m.spec.id;
        assert j != k;
        assert q[j] == if j < k then q'[j] else q'[j - 1];
      }
      FewerWeighLess(cfg, p[1..], q');
      assert q == q[..k] + ([q[k]] + q[k + 1..]);
      LedgerConcat(q[..k], [q[k]] + q[k + 1..]);
      LedgerConcat([q[k]], q[k + 1..]);
      LedgerConcat(q[..k], q[k + 1..]);
      assert p[0] in p && q[k] in q;
    }
  }

  /** Unloading, by anyone, keeps the invariant. */
  lemma ShrinkKeepsPool(cfg: Config, p: seq<Entry>, q: seq<Entry>)
    requires ValidConfig(cfg) && Known(cfg, p) && Known(cfg, q) && Unique(p) && Within(p, q)
    requires PoolOk(cfg, q)
    ensures PoolOk(cfg, p)
  {
    FewerWeighLess(cfg, p, q);
    forall i, j | 0 <= i < j < |p| ensures !(IsLarge(cfg, p[i]) && IsLarge(cfg, p[j])) {
      assert p[i] in p && p[j] in p;
      assert Has(q, p[i].spec.id) && Has(q, p[j].spec.id);
      var a :| 0 <= a < |q| && q[a].spec.id == p[i].spec.id;
      var b :| 0 <= b < |q| && q[b].spec.id == p[j].spec.id;
      assert q[a] in q && q[b] in q;
      assert p[i].spec == q[a].spec && p[j].spec == q[b].spec;
      assert a != b;
    }
  }

  /** The admission test looked at a snapshot; models that left since do no harm, so
      loading the target now keeps the invariant. */
  lemma LoadKeepsPool(cfg: Config, pool: seq<Entry>, seen: seq<Entry>, target: Entry, probe: Probe)
    requires ValidConfig(cfg) && Known(cfg, pool) && Known(cfg, seen) && PoolOk(cfg, pool) && Within(pool, seen)
    requires !Has(seen, target.spec.id) && Fits(cfg, seen, target.spec, probe)
    ensures PoolOk(cfg, pool + [target])
    ensures target.spec.tier == EXCLUSIVE ==> pool == []
  {
    var p := (m: Entry) => m.spec.id != target.spec.id;
    FilterAll(seen, p);
    assert OthersLoaded(seen, target.spec.id) == seen;
    FewerWeighLess(cfg, pool, seen);
    LedgerConcat(pool, [target]);
    assert Ledger([target]) == target.spec.size;
    forall m <- pool ensures m.spec.id != target.spec.id && (IsLarge(cfg, target) ==> !IsLarge(cfg, m)) {
      assert Has(seen, m.spec.id);
      var o :| o in seen && o.spec.id == m.spec.id;
      assert m.spec == o.spec;
      if IsLarge(cfg, target) && target.spec.tier != EXCLUSIVE {
        FilterIn(seen, (m: Entry) => IsLarge(cfg, m), o);
      }
    }
    var after := pool + [target];
    forall i, j | 0 <= i < j < |after|
      ensures after[i].spec.id != after[j].spec.id && !(IsLarge(cfg, after[i]) && IsLarge(cfg, after[j]))
    {
      assert after[i] == pool[i] && pool[i] in pool;
      if j < |pool| { assert after[j] == pool[j]; }
    }
  }
}
