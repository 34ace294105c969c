/** The out-of-memory guard in terms of names and readings (oom_guard.py, lines 50 to 142 and 294
    to 313): which cgroups are shielded, who is hit, and when each state is entered. */
module OomTargets {
  import opened Options
  import opened Sorting
  import opened OomGuard

  // ---------- names ----------

  predicate Digits(d: string) { forall c <- d :: '0' <= c <= '9' }

  ghost predicate SessionSplit(name: string, x: string, d: string) {
    d != "" && Digits(d) && name == x + "user@" + d + ".service"
  }

  /** The name ends in `user@`, at least one digit, `.service`. */
  ghost predicate SessionName(name: string) {
    exists x: string, d: string :: SessionSplit(name, x, d)
  }

  ghost predicate OccursAt(part: string, name: string, i: int) {
    0 <= i <= i + |part| <= |name| && name[i..i + |part|] == part
  }

  /** The pattern occurs in the name. */
  ghost predicate Occurs(part: string, name: string) {
    exists i :: OccursAt(part, name, i)
  }

  lemma OccursLater(part: string, name: string, i: int)
    requires name != ""
    ensures OccursAt(part, name[1..], i) <==> 0 <= i && OccursAt(part, name, i + 1)
  {
    if 0 <= i <= i + |part| <= |name| - 1 {
      assert name[1..][i..i + |part|] == name[i + 1..i + 1 + |part|];
    }
  }

  lemma OccursFirst(part: string, name: string)
    ensures OccursAt(part, name, 0) <==> part <= name
  {
  }

  lemma OccursInside(part: string, name: string, i: int)
    requires OccursAt(part, name, i)
    ensures 0 <= i <= |name|
  {
  }

  lemma {:induction false} ContainsIff(name: string, part: string)
    ensures Contains(name, part) <==> Occurs(part, name)
  {
    hide OccursAt;
    OccursFirst(part, name);
    if name != "" {
      ContainsIff(name[1..], part);
      if Occurs(part, name[1..]) {
        var i :| OccursAt(part, name[1..], i);
        OccursLater(part, name, i);
      }
      if Occurs(part, name) {
        var i :| OccursAt(part, name, i);
        OccursLater(part, name, i - 1);
        OccursInside(part, name, i);
      }
    } else if Occurs(part, name) {
      var i :| OccursAt(part, name, i);
      OccursInside(part, name, i);
    }
  }

  lemma {:induction false} BasenameIsSuffix(name: string) returns (dir: string)
    ensures name == dir + Basename(name)
  {
    if name == "" || name[|name| - 1] == '/' {
      dir := name;
    } else {
      var n := |name| - 1;
      dir := BasenameIsSuffix(name[..n]);
      assert name == name[..n] + [name[n]];
    }
  }

  lemma {:induction false} BasenameKeeps(x: string, t: string)
    requires '/' !in t
    ensures Basename(x + t) == Basename(x) + t
    decreases |t|
  {
    if t == "" {
      assert x + t == x;
    } else {
      var n := |t| - 1;
      var name := x + t;
      assert name[|name| - 1] == t[n] && name[..|name| - 1] == x + t[..n];
      BasenameKeeps(x, t[..n]);
      assert t == t[..n] + [t[n]];
    }
  }

  lemma {:induction false} DropDigitsSplits(s: string) returns (d: string)
    ensures s == DropDigits(s) + d && Digits(d)
    ensures DropDigits(s) == "" || !('0' <= DropDigits(s)[|DropDigits(s)| - 1] <= '9')
  {
    d := "";
    if s != "" && '0' <= s[|s| - 1] <= '9' {
      var n := |s| - 1;
      d := DropDigitsSplits(s[..n]);
      assert s == s[..n] + [s[n]];
      d := d + [s[n]];
    }
  }

  lemma {:induction false} DropDigitsOf(s: string, d: string)
    requires Digits(d) && s != "" && !('0' <= s[|s| - 1] <= '9')
    ensures DropDigits(s + d) == s
    decreases |d|
  {
    if d == "" {
      assert s + d == s;
    } else {
      var n := |d| - 1;
      assert (s + d)[..|s + d| - 1] == s + d[..n] && (s + d)[|s + d| - 1] == d[n];
      assert d[n] in d && forall c <- d[..n] :: c in d;
      DropDigitsOf(s, d[..n]);
    }
  }

  lemma SessionEnds(x: string, d: string)
    requires d != "" && Digits(d)
    ensures EndsAsSession(Basename(x + "user@" + d + ".service"))
  {
    hide Basename;
    hide DropDigits;
    var t := "user@" + d + ".service";
    assert forall c <- d :: c != '/';
    BasenameKeeps(x, t);
    assert x + t == x + "user@" + d + ".service";
    var base, s := Basename(x) + t, Basename(x) + "user@";
    assert base[|base| - 8..] == ".service" && base[..|base| - 8] == s + d;
    DropDigitsOf(s, d);
    assert s[|s| - 5..] == "user@";
  }

  lemma SessionIff(name: string)
    ensures EndsAsSession(Basename(name)) <==> SessionName(name)
  {
    hide Basename;
    hide DropDigits;
    var base := Basename(name);
    if EndsAsSession(base) {
      var dir := BasenameIsSuffix(name);
      var stem := base[..|base| - 8];
      var d := DropDigitsSplits(stem);
      var kept := DropDigits(stem);
      var x := kept[..|kept| - 5];
      assert kept == x + "user@";
      assert base == stem + ".service";
      assert name == (dir + x) + "user@" + d + ".service";
      assert SessionSplit(name, dir + x, d);
    }
    if SessionName(name) {
      var x, d :| SessionSplit(name, x, d);
      SessionEnds(x, d);
    }
  }

  // ---------- who is shielded, who is a model ----------

  /** Never hit: the guard itself, a user's whole session, and whatever the patterns name. */
  ghost predicate Shielded(cfg: Config, e: Entry) {
    || e.cgroup == cfg.selfCgroup || e.cgroup == "system.slice/oom-guard.service"
    || SessionName(e.cgroup) || exists p <- cfg.patterns :: Occurs(p, e.cgroup)
  }

  lemma ShieldedIsProtected(cfg: Config, e: Entry)
    ensures IsProtected(cfg, e) <==> Shielded(cfg, e)
  {
    hide Basename;
    hide EndsAsSession;
    hide SessionName;
    hide Occurs;
    hide Contains;
    SessionIff(e.cgroup);
    forall p <- cfg.patterns ensures Contains(e.cgroup, p) <==> Occurs(p, e.cgroup) {
      ContainsIff(e.cgroup, p);
    }
  }

  /** Some configured backend has exactly this cgroup. */
  ghost predicate Owned(cfg: Config, e: Entry) {
    exists b <- cfg.backends :: b.cgroup == e.cgroup
  }

  /** A cgroup belongs to the first backend configured with it, and to none exactly when there is
      no such backend. */
  lemma {:induction false} ClassifyIsFirst(backends: seq<Backend>, e: Entry)
    ensures match Classify(backends, e)
            case None => forall b <- backends :: b.cgroup != e.cgroup
            case Some(name) =>
              exists i :: 0 <= i < |backends| && backends[i].cgroup == e.cgroup && backends[i].name == name
                && forall j :: 0 <= j < i ==> backends[j].cgroup != e.cgroup
  {
    if backends != [] && e.cgroup != backends[0].cgroup {
      ClassifyIsFirst(backends[1..], e);
      if Classify(backends[1..], e).Some? {
        var name := Classify(backends[1..], e).value;
        var i :| 0 <= i < |backends[1..]| && backends[1..][i].cgroup == e.cgroup && backends[1..][i].name == name
                 && forall j :: 0 <= j < i ==> backends[1..][j].cgroup != e.cgroup;
        assert backends[i + 1] == backends[1..][i];
        forall j | 0 <= j < i + 1 ensures backends[j].cgroup != e.cgroup {
          if j > 0 { assert backends[j] == backends[1..][j - 1]; }
        }
      }
    }
  }

  lemma OwnedIsModel(cfg: Config, e: Entry)
    ensures IsModel(cfg, e) <==> Owned(cfg, e)
  {
    ClassifyIsFirst(cfg.backends, e);
  }

  // ---------- who is hit ----------

  /** The candidates are as many of the largest sampled cgroups as the limit allows. */
  lemma TopSize(cfg: Config, sampled: seq<Entry>)
    ensures |TopCgroups(cfg, sampled)| == if cfg.topN < |sampled| then cfg.topN else |sampled|
    ensures multiset(TopCgroups(cfg, sampled)) <= multiset(sampled)
  {
    var key := (e: Entry) => Key(0, -(e.mb as real));
    StableSortSorts(sampled, key);
    var byRss, top := StableSort(sampled, key), TopCgroups(cfg, sampled);
    assert byRss == top + byRss[|top|..];
  }

  /** The victim is a candidate that is not shielded; an app unless all such candidates are models;
      and of its class the least idle. There is none exactly when all candidates are shielded. */
  lemma VictimMeans(cfg: Config, sampled: seq<Entry>)
    ensures var top := TopCgroups(cfg, sampled);
            match Victim(cfg, sampled)
            case None => forall e <- top :: Shielded(cfg, e)
            case Some(target) =>
              && target in top && !Shielded(cfg, target)
              && (forall e <- top | !Shielded(cfg, e) && Owned(cfg, target) :: Owned(cfg, e))
              && (forall e <- top | !Shielded(cfg, e) && Owned(cfg, e) == Owned(cfg, target) :: target.idle <= e.idle)
  {
    hide Victim;
    hide TopCgroups;
    hide IsProtected;
    hide IsModel;
    hide Shielded;
    hide Owned;
    VictimIsRight(cfg, sampled);
    forall e: Entry ensures (IsProtected(cfg, e) <==> Shielded(cfg, e)) && (IsModel(cfg, e) <==> Owned(cfg, e)) {
      ShieldedIsProtected(cfg, e);
      OwnedIsModel(cfg, e);
    }
  }

  lemma {:induction false} UnprotectedAlike(cfg: Config, bias: real, entries: seq<Entry>)
    ensures Unprotected(cfg.(bias := bias), entries) == Unprotected(cfg, entries)
  {
    if entries != [] {
      UnprotectedAlike(cfg, bias, entries[1..]);
      assert IsProtected(cfg.(bias := bias), entries[0]) == IsProtected(cfg, entries[0]);
    }
  }

  /** Priorities are idle times, the bias added for models. As apps go before models anyway, the
      bias only ever compares models with each other: no value of it changes any victim. */
  lemma BiasNeverMatters(cfg: Config, bias: real, sampled: seq<Entry>)
    ensures Victim(cfg.(bias := bias), sampled) == Victim(cfg, sampled)
    ensures forall e: Entry :: Priority(cfg, e) == if Owned(cfg, e) then e.idle + cfg.bias else e.idle
  {
    hide IsProtected;
    hide StableSort;
    var cfg' := cfg.(bias := bias);
    var entries := Unprotected(cfg, TopCgroups(cfg, sampled));
    UnprotectedAlike(cfg, bias, TopCgroups(cfg, sampled));
    forall e: Entry ensures IsModel(cfg, e) <==> Owned(cfg, e) {
      OwnedIsModel(cfg, e);
    }
    StableSortAlike(entries, (e: Entry) => VictimKey(cfg, e), (e: Entry) => VictimKey(cfg', e));
  }

  /** What relief does: nothing dies at SOFT; at HARD, outside a dry run, the victim does if there
      is one, a model by a restart of its backend and an app by a kill. */
  lemma ReliefMeans(cfg: Config, level: Mode, sampled: seq<Entry>)
    ensures var act, victim := Relieve(cfg, level, sampled), Victim(cfg, sampled);
            if level == Soft && !cfg.dryRun then act == SoftRelief
            else match victim
              case None => act == Noop
              case Some(target) =>
                if cfg.dryRun then act == WouldAct(target)
                else if Owned(cfg, target) then
                  act.Restart? && act.target == target
                  && exists b <- cfg.backends :: b.cgroup == target.cgroup && b.name == act.backend
                else act == Kill(target)
  {
    hide Victim;
    var victim := Victim(cfg, sampled);
    if victim.Some? { ClassifyIsFirst(cfg.backends, victim.value); }
  }

  // ---------- when ----------

  /** An active poll enters HARD below the hard bar with t_hard elapsed; else SOFT below the soft bar
      with t_soft elapsed; else NORMAL at or above the soft bar; every entry restarts the clock and
      is logged. Anything else changes nothing. */
  lemma EntersExactlyWhen(cfg: Config, s: State, p: Poll, to: Mode)
    ensures var s', elapsed := Step(cfg, s, p), p.now - s.since;
            var hard, soft := p.mem < cfg.hard && elapsed >= cfg.tHard, p.mem < cfg.soft && elapsed >= cfg.tSoft;
            && (|s'.log| == |s.log| + 1 && s'.log[|s.log|].to == to <==>
                  && !p.frozen
                  && match to
                     case Hard => hard
                     case Soft => soft && !hard
                     case Normal => p.mem >= cfg.soft && !hard && s.mode != Normal)
            && (s'.log == s.log ==> s' == s)
            && (s'.log != s.log ==>
                  && s'.log[..|s.log|] == s.log && |s'.log| == |s.log| + 1
                  && s'.mode == s'.log[|s.log|].to && s'.since == p.now == s'.log[|s.log|].at
                  && s'.log[|s.log|].act == if s'.mode == Normal then None else Some(Relieve(cfg, s'.mode, p.sampled)))
  {
    hide Relieve;
  }
}
