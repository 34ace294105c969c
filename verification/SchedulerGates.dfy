/** The scheduler's decisions in terms of what it reads (scheduler_hook.py, lines 136 to 319 and
    383 to 452): sizes, tiers, times and probes, without the gates and keys of the policy. */
module SchedulerGates {
  import opened Options
  import opened Sorting
  import opened SchedulerPolicy

  // ---------- reading health ----------

  /** One row: kept when loaded and in the manifest. With concatenation this is the whole list. */
  lemma OneRowLoaded(cfg: Config, row: Row)
    ensures GpuLoaded(cfg, [row]) ==
              if !row.loaded || row.name !in cfg.specs then []
              else [Entry(cfg.specs[row.name], row.status == "in_use", row.lastUse,
                          && row.status in {"ready", "in_use", "idle", ""}
                          && row.backend in {"ready", "busy", "idle", ""})]
  {
    assert [row][1..] == [];
  }

  lemma LedgerOfOne(m: Entry)
    ensures Ledger([]) == 0.0 && Ledger([m]) == m.spec.size
  {
    assert [m][1..] == [];
  }

  // ---------- whom to evict ----------

  /** For an exclusive target every idle other model may fall; for any other target only an idle
      one that is neither resident nor exclusive, and not within the cooldown of its admission. */
  ghost predicate MayFall(m: Entry, target: Spec, admittedAt: map<string, int>, now: int, cooldown: int) {
    && m.spec.id != target.id && !m.inUse
    && (target.tier != "exclusive" ==>
          && m.spec.tier != "resident" && m.spec.tier != "exclusive"
          && (m.spec.id in admittedAt ==> now - admittedAt[m.spec.id] >= cooldown))
  }

  /** Floating before resident before exclusive; within a tier the least recently used first. */
  ghost predicate FallsBefore(m: Entry, o: Entry) {
    if m.spec.tier == "exclusive" then o.spec.tier == "exclusive" && m.lastUse <= o.lastUse
    else if m.spec.tier == "resident" then
      o.spec.tier == "exclusive" || (o.spec.tier == "resident" && m.lastUse <= o.lastUse)
    else o.spec.tier == "exclusive" || o.spec.tier == "resident" || m.lastUse <= o.lastUse
  }

  lemma VictimIsOldest(loaded: seq<Entry>, target: Spec, admittedAt: map<string, int>, now: int, cooldown: int)
    ensures match PickVictim(loaded, target, admittedAt, now, cooldown)
            case None => forall m <- loaded :: !MayFall(m, target, admittedAt, now, cooldown)
            case Some(v) =>
              exists m <- loaded ::
                && m.spec.id == v && MayFall(m, target, admittedAt, now, cooldown)
                && forall o <- loaded :: MayFall(o, target, admittedAt, now, cooldown) ==> FallsBefore(m, o)
  {
    hide PickVictim;
    PickVictimIsLeast(loaded, target, admittedAt, now, cooldown);
    forall m: Entry
      ensures Eligible(m, target, admittedAt, now, cooldown) == MayFall(m, target, admittedAt, now, cooldown)
    {
    }
    forall m: Entry, o: Entry | Le(VictimKey(m), VictimKey(o)) ensures FallsBefore(m, o) {
    }
  }

  // ---------- room for a target ----------

  lemma NobodyElse(loaded: seq<Entry>, id: string)
    ensures OthersLoaded(loaded, id) == [] <==> forall m <- loaded :: m.spec.id == id
  {
    var others := OthersLoaded(loaded, id);
    forall m ensures m in others <==> m in loaded && m.spec.id != id {
      FilterIn(loaded, (m: Entry) => m.spec.id != id, m);
    }
    if others != [] { assert others[0] in others; }
  }

  lemma NoneLarge(cfg: Config, others: seq<Entry>)
    ensures |Filter(others, (m: Entry) => IsLarge(cfg, m))| == 0 <==> forall m <- others :: m.spec.size < cfg.large
  {
    var p := (m: Entry) => IsLarge(cfg, m);
    var large := Filter(others, p);
    forall m ensures m in large <==> m in others && p(m) { FilterIn(others, p, m); }
    if |large| > 0 { assert large[0] in large; }
  }

  ghost predicate Absent(loaded: seq<Entry>, id: string) { forall m <- loaded :: m.spec.id != id }

  /** A target that is not loaded finds room: weight, slots, host memory and GPU page memory. */
  ghost predicate RoomFor(cfg: Config, loaded: seq<Entry>, target: Spec, probe: Probe) {
    && Ledger(loaded) + target.size <= cfg.budget
    && (if target.tier == "exclusive" then loaded == []
        else |loaded| < cfg.maxGpu && (target.size >= cfg.large ==> forall m <- loaded :: m.spec.size < cfg.large))
    && (probe.avail.Some? ==> probe.avail.value >= cfg.ramFloor)
    && (probe.avail.Some? ==> probe.avail.value >= target.size + cfg.headroom)
    && (probe.gtt.Some? && loaded == [] ==> probe.gtt.value <= cfg.gttBudget)
  }

  lemma FitsIsRoom(cfg: Config, loaded: seq<Entry>, target: Spec, probe: Probe)
    requires Absent(loaded, target.id)
    ensures Fits(cfg, loaded, target, probe) <==> RoomFor(cfg, loaded, target, probe)
  {
    FilterAll(loaded, (m: Entry) => m.spec.id != target.id);
    assert OthersLoaded(loaded, target.id) == loaded;
    NoneLarge(cfg, loaded);
  }

  /** Another model was admitted too recently for this one to replace it. */
  ghost predicate TooSoon(cfg: Config, book: Book, alias: string, target: Spec, now: int) {
    && target.tier != "exclusive" && alias !in cfg.workhorse
    && cfg.minSwitch > 0 && now < book.lastAdmitAt + cfg.minSwitch
    && (match book.lastAlias case None => false case Some(last) => last != "" && last != alias)
  }

  // ---------- one round ----------

  /** A round decides to load exactly when the target is not loaded, no rate limit applies and
      there is room. */
  lemma LoadsExactlyWhen(cfg: Config, book: Book, loaded: seq<Entry>, alias: string, target: Spec, probe: Probe,
                         now: int)
    ensures Decide(cfg, book, loaded, alias, target, probe, now) == Load <==>
              && Absent(loaded, target.id) && !TooSoon(cfg, book, alias, target, now)
              && RoomFor(cfg, loaded, target, probe)
  {
    hide PickVictim;
    hide Fits;
    hide RoomFor;
    if Absent(loaded, target.id) { FitsIsRoom(cfg, loaded, target, probe); }
  }

  /** It gives up on the rate limit exactly when the target is not loaded and came too soon. */
  lemma LimitsExactlyWhen(cfg: Config, book: Book, loaded: seq<Entry>, alias: string, target: Spec, probe: Probe,
                          now: int)
    ensures Decide(cfg, book, loaded, alias, target, probe, now) == RateLimit <==>
              Absent(loaded, target.id) && TooSoon(cfg, book, alias, target, now)
  {
    hide PickVictim;
    hide Fits;
  }

  /** In a pool of distinct models all but one are others. */
  lemma {:induction false} OneOther(loaded: seq<Entry>, id: string)
    requires Unique(loaded) && Has(loaded, id)
    ensures |OthersLoaded(loaded, id)| == |loaded| - 1
  {
    var p := (m: Entry) => m.spec.id != id;
    if loaded[0].spec.id == id {
      FilterAll(loaded[1..], p);
    } else {
      var m :| m in loaded && m.spec.id == id;
      assert m in loaded[1..];
      OneOther(loaded[1..], id);
    }
  }

  /** It serves exactly when the target is ready and its slot rule holds: alone if exclusive, else
      within the count, and without another large model if large. */
  lemma ServesExactlyWhen(cfg: Config, book: Book, loaded: seq<Entry>, alias: string, target: Spec, probe: Probe,
                          now: int)
    requires Unique(loaded)
    ensures Decide(cfg, book, loaded, alias, target, probe, now) == Serve <==>
              && (exists m <- loaded :: m.spec.id == target.id && m.ready)
              && if target.tier == "exclusive" then forall m <- loaded :: m.spec.id == target.id
                 else
                   && |loaded| <= cfg.maxGpu
                   && (target.size >= cfg.large ==>
                         forall m <- loaded :: m.spec.id != target.id ==> m.spec.size < cfg.large)
  {
    hide PickVictim;
    hide Fits;
    NobodyElse(loaded, target.id);
    var others := OthersLoaded(loaded, target.id);
    NoneLarge(cfg, others);
    forall m ensures m in others <==> m in loaded && m.spec.id != target.id {
      FilterIn(loaded, (m: Entry) => m.spec.id != target.id, m);
    }
    if Has(loaded, target.id) { OneOther(loaded, target.id); }
  }

  ghost predicate ForcedPeer(cfg: Config, m: Entry, target: Spec) {
    m.spec.id != target.id && m.spec.size >= cfg.large && m.spec.tier != "exclusive"
  }

  lemma {:induction false} ForcedIsFirst(cfg: Config, loaded: seq<Entry>, target: Spec)
    ensures ForcePeers(cfg, loaded, target) == [] <==> forall m <- loaded :: !ForcedPeer(cfg, m, target)
    ensures var peers := ForcePeers(cfg, loaded, target);
            peers != [] ==> exists i :: 0 <= i < |loaded| && loaded[i] == peers[0] && ForcedPeer(cfg, loaded[i], target)
                              && forall j :: 0 <= j < i ==> !ForcedPeer(cfg, loaded[j], target)
  {
    if loaded != [] {
      var rest := loaded[1..];
      ForcedIsFirst(cfg, rest, target);
      var q := (m: Entry) => IsLarge(cfg, m) && m.spec.tier != EXCLUSIVE;
      var others := OthersLoaded(rest, target.id);
      if loaded[0].spec.id != target.id {
        assert OthersLoaded(loaded, target.id) == [loaded[0]] + others;
        assert ([loaded[0]] + others)[1..] == others;
      } else {
        assert OthersLoaded(loaded, target.id) == [] + others == others;
      }
      assert [] + Filter(others, q) == Filter(others, q);
      if !ForcedPeer(cfg, loaded[0], target) {
        assert ForcePeers(cfg, loaded, target) == ForcePeers(cfg, rest, target);
        if ForcePeers(cfg, rest, target) != [] {
          var i :| 0 <= i < |rest| && rest[i] == ForcePeers(cfg, rest, target)[0] && ForcedPeer(cfg, rest[i], target)
                   && forall j :: 0 <= j < i ==> !ForcedPeer(cfg, rest[j], target);
          assert loaded[i + 1] == rest[i];
          forall j | 0 <= j < i + 1 ensures !ForcedPeer(cfg, loaded[j], target) {
            if j > 0 { assert loaded[j] == rest[j - 1]; }
          }
        }
      }
    }
  }

  /** Otherwise it evicts the oldest model that may fall; if none may, a large target that is not
      loaded forces out the first other large model that is not exclusive; else it waits. */
  lemma EvictsExactlyWhen(cfg: Config, book: Book, loaded: seq<Entry>, alias: string, target: Spec, probe: Probe,
                          now: int)
    requires Decide(cfg, book, loaded, alias, target, probe, now) !in {Serve, RateLimit, Load}
    ensures var candidates := exists m <- loaded :: MayFall(m, target, book.admittedAt, now, cfg.cooldown);
            var peers := exists m <- loaded :: ForcedPeer(cfg, m, target);
            match Decide(cfg, book, loaded, alias, target, probe, now)
            case Unload(v, forced) =>
              if !forced then candidates && PickVictim(loaded, target, book.admittedAt, now, cfg.cooldown) == Some(v)
              else
                && !candidates && target.size >= cfg.large && Absent(loaded, target.id)
                && exists i :: 0 <= i < |loaded| && loaded[i].spec.id == v && ForcedPeer(cfg, loaded[i], target)
                     && forall j :: 0 <= j < i ==> !ForcedPeer(cfg, loaded[j], target)
            case Starve => !candidates && !(target.size >= cfg.large && Absent(loaded, target.id) && peers)
            case _ => false
  {
    hide PickVictim;
    hide Fits;
    hide SlotOk;
    hide RateLimited;
    VictimIsOldest(loaded, target, book.admittedAt, now, cfg.cooldown);
    ForcedIsFirst(cfg, loaded, target);
  }
}
