/** Ducking other applications' streams while the user speaks (voice_audio.py, duck_start,
    duck_stop, on_voice_state). Volume writes succeed; nobody else changes a volume; a
    stream index is never reused. */
module Ducking {
  import opened Fading
  import opened Floats
  import opened Sets

  /** A sink input; `tts` is the name test of `_is_tts_stream`. */
  datatype Stream = Stream(tts: bool, volume: int)

  datatype Config = Config(enabled: bool, factor: real, floor: int, fadeMs: nat)

  /** PulseAudio's streams and the module's two globals. */
  datatype Audio = Audio(streams: map<int, Stream>, saved: map<int, int>, active: bool)

  const DUCK_STATES := {"wake", "recording", "thinking", "working"}
  const UNDUCK_STATES := {
    "speaking", "listening", "done", "muted", "miss", "no_speech", "error", "detecting", "followup"
  }

  /** `int(volume or 100)`: a silent stream is read as full. */
  function ReadVolume(v: int): int { if v == 0 then 100 else v }

  function Clamp(pct: int): int { if pct < 0 then 0 else if pct > 150 then 150 else pct }

  lemma ClampIs(pct: int)
    ensures 0 <= Clamp(pct) <= 150 && (0 <= pct <= 150 ==> Clamp(pct) == pct)
    ensures (pct < 0 ==> Clamp(pct) == 0) && (pct > 150 ==> Clamp(pct) == 150)
  {
  }

  function Target(cfg: Config, orig: int): int {
    var t := Trunc(orig as real * cfg.factor);
    if t < cfg.floor then cfg.floor else t
  }

  /** The volumes a fade ends with. */
  function SetAll(streams: map<int, Stream>, ends: map<int, int>): map<int, Stream> {
    map i | i in streams :: if i in ends then streams[i].(volume := Clamp(ends[i])) else streams[i]
  }

  /** Originals known after looking at every stream: old ones win. */
  function Originals(a: Audio): map<int, int> {
    map i | i in a.saved.Keys + a.streams.Keys && (i in a.saved || !a.streams[i].tts) ::
      if i in a.saved then a.saved[i] else ReadVolume(a.streams[i].volume)
  }

  /** The streams duck_start lowers, and to what. */
  function Targets(cfg: Config, a: Audio): map<int, int> {
    var saved := Originals(a);
    map i | i in a.streams && !a.streams[i].tts && Target(cfg, saved[i]) < saved[i] :: Target(cfg, saved[i])
  }

  function DuckStart(cfg: Config, a: Audio): Audio {
    if !cfg.enabled then a else Audio(SetAll(a.streams, Targets(cfg, a)), Originals(a), true)
  }

  function DuckStop(a: Audio): Audio {
    if a.saved == map[] && !a.active then a else Audio(SetAll(a.streams, a.saved), map[], false)
  }

  function OnVoiceState(cfg: Config, a: Audio, state: string): Audio {
    if state in DUCK_STATES then DuckStart(cfg, a)
    else if state in UNDUCK_STATES then DuckStop(a)
    else a
  }

  // ---------- every sequence of voice states ----------

  datatype Event =
    | Voice(state: string)
    | Appear(index: int, stream: Stream)
    | Vanish(index: int)

  /** `orig` remembers every stream that ever appeared with the volume it had then. */
  datatype World = World(audio: Audio, orig: map<int, int>)

  function Step(cfg: Config, w: World, e: Event): World {
    match e
    case Voice(state) => w.(audio := OnVoiceState(cfg, w.audio, state))
    case Appear(i, stream) =>
      if i in w.orig || !(1 <= stream.volume <= 150) then w
      else World(w.audio.(streams := w.audio.streams[i := stream]), w.orig[i := stream.volume])
    case Vanish(i) => w.(audio := w.audio.(streams := w.audio.streams - {i}))
  }

  const SILENCE := World(Audio(map[], map[], false), map[])

  function Run(cfg: Config, events: seq<Event>): World {
    if events == [] then SILENCE
    else Step(cfg, Run(cfg, events[..|events| - 1]), events[|events| - 1])
  }

  predicate Sane(cfg: Config) { cfg.factor >= 0.0 && cfg.floor >= 0 }

  /** max(floor, int(orig * factor)) when that is lower, else the original. */
  function Level(cfg: Config, orig: int): int {
    if Target(cfg, orig) < orig then Target(cfg, orig) else orig
  }

  /** Every stream is at its level if its original is saved, else at its original. */
  ghost predicate Inv(cfg: Config, w: World) {
    && (forall i <- w.orig :: 1 <= w.orig[i] <= 150)
    && (forall i <- w.audio.saved :: i in w.orig && w.audio.saved[i] == w.orig[i])
    && (forall i <- w.audio.streams ::
          && i in w.orig
          && (w.audio.streams[i].tts ==> i !in w.audio.saved)
          && w.audio.streams[i].volume == if i in w.audio.saved then Level(cfg, w.orig[i]) else w.orig[i])
    && (w.audio.saved != map[] ==> w.audio.active)
  }

  lemma LevelInRange(cfg: Config, orig: int)
    requires Sane(cfg) && 1 <= orig <= 150
    ensures 0 <= Level(cfg, orig) <= orig
  {
    assert orig as real * cfg.factor >= 0.0;
  }

  /** The larger of the floor and int(orig * factor), if that is lower than the original. */
  ghost function Lowered(orig: int, floor: int, factor: real): int {
    var share := Trunc(orig as real * factor);
    if share >= orig || floor >= orig then orig else if share < floor then floor else share
  }

  lemma LevelIs(cfg: Config, orig: int)
    ensures Level(cfg, orig) == Lowered(orig, cfg.floor, cfg.factor)
  {
  }

  lemma DuckKeepsInv(cfg: Config, w: World)
    requires Sane(cfg) && Inv(cfg, w)
    ensures Inv(cfg, w.(audio := DuckStart(cfg, w.audio)))
    ensures cfg.enabled ==>
              DuckStart(cfg, w.audio).saved.Keys >= set i | i in w.audio.streams && !w.audio.streams[i].tts
  {
    hide Target;
    var a, a' := w.audio, DuckStart(cfg, w.audio);
    if cfg.enabled {
      var saved := Originals(a);
      forall i <- a.streams | !a.streams[i].tts ensures i in saved && saved[i] == w.orig[i] {
      }
      forall i <- a'.streams
        ensures a'.streams[i].volume == if i in saved then Level(cfg, w.orig[i]) else w.orig[i]
      {
        assert 1 <= w.orig[i] <= 150;
        LevelInRange(cfg, w.orig[i]);
      }
    }
  }

  lemma StopKeepsInv(cfg: Config, w: World)
    requires Inv(cfg, w)
    ensures Inv(cfg, w.(audio := DuckStop(w.audio)))
    ensures DuckStop(w.audio).saved == map[] && !DuckStop(w.audio).active
  {
    hide Level;
    var a := DuckStop(w.audio);
    forall i <- a.streams ensures a.streams[i].volume == w.orig[i] {
      assert 1 <= w.orig[i] <= 150;
    }
  }

  lemma StepKeepsInv(cfg: Config, w: World, e: Event)
    requires Sane(cfg) && Inv(cfg, w)
    ensures Inv(cfg, Step(cfg, w, e))
  {
    hide Level;
    match e
    case Voice(state) =>
      DuckKeepsInv(cfg, w);
      StopKeepsInv(cfg, w);
    case Appear(i, stream) =>
    case Vanish(i) =>
  }

  lemma {:induction false} AlwaysInv(cfg: Config, events: seq<Event>)
    requires Sane(cfg)
    ensures Inv(cfg, Run(cfg, events))
    decreases |events|
  {
    if events != [] {
      AlwaysInv(cfg, events[..|events| - 1]);
      StepKeepsInv(cfg, Run(cfg, events[..|events| - 1]), events[|events| - 1]);
    }
  }

  lemma DuckedLevels(cfg: Config, events: seq<Event>, state: string)
    requires Sane(cfg) && cfg.enabled && state in DUCK_STATES
    ensures var w := Run(cfg, events + [Voice(state)]);
            forall i <- w.audio.streams :: i in w.orig && w.audio.streams[i].volume ==
              if w.audio.streams[i].tts then w.orig[i] else Level(cfg, w.orig[i])
  {
    hide Level;
    var all := events + [Voice(state)];
    assert all[..|all| - 1] == events;
    AlwaysInv(cfg, events);
    AlwaysInv(cfg, all);
    DuckKeepsInv(cfg, Run(cfg, events));
    var w, before := Run(cfg, all), Run(cfg, events);
    assert w.audio == DuckStart(cfg, before.audio);
    forall i <- w.audio.streams ensures !w.audio.streams[i].tts ==> i in w.audio.saved {
      assert w.audio.streams[i].tts == before.audio.streams[i].tts;
    }
  }

  /** However often ducking was re-entered: right after a ducking state every stream that is
      not speech output sits at max(floor, int(orig * factor)) where that is lower than its
      original, else at its original; speech output was never touched. */
  lemma DuckedToLevel(cfg: Config, events: seq<Event>, state: string)
    requires cfg.factor >= 0.0 && cfg.floor >= 0 && cfg.enabled
    requires state in {"wake", "recording", "thinking", "working"}
    ensures var w := Run(cfg, events + [Voice(state)]);
            forall i <- w.audio.streams :: i in w.orig && w.audio.streams[i].volume ==
              if w.audio.streams[i].tts then w.orig[i]
              else Lowered(w.orig[i], cfg.floor, cfg.factor)
  {
    hide Level;
    hide Run;
    hide Lowered;
    DuckedLevels(cfg, events, state);
    var w := Run(cfg, events + [Voice(state)]);
    forall i <- w.orig
      ensures Level(cfg, w.orig[i]) == Lowered(w.orig[i], cfg.floor, cfg.factor)
    {
      LevelIs(cfg, w.orig[i]);
    }
  }

  /** Right after any state that ends ducking, every stream is back at its original volume. */
  lemma RestoredToOriginal(cfg: Config, events: seq<Event>, state: string)
    requires cfg.factor >= 0.0 && cfg.floor >= 0
    requires state in {"speaking", "listening", "done", "muted", "miss", "no_speech", "error", "detecting", "followup"}
    ensures var w := Run(cfg, events + [Voice(state)]);
            forall i <- w.audio.streams :: i in w.orig && w.audio.streams[i].volume == w.orig[i]
  {
    hide Level;
    var all := events + [Voice(state)];
    assert all[..|all| - 1] == events;
    AlwaysInv(cfg, events);
    AlwaysInv(cfg, all);
    StopKeepsInv(cfg, Run(cfg, events));
    assert state !in DUCK_STATES;
  }

  /** Any other state touches nothing, and with ducking disabled nothing is ever touched. */
  lemma OtherwiseUntouched(cfg: Config, events: seq<Event>, state: string)
    requires state !in {"wake", "recording", "thinking", "working", "speaking", "listening", "done", "muted", "miss",
                        "no_speech", "error", "detecting", "followup"}
    ensures Run(cfg, events + [Voice(state)]) == Run(cfg, events)
  {
    assert (events + [Voice(state)])[..|events|] == events;
  }

  lemma {:induction false} DisabledTouchesNothing(cfg: Config, events: seq<Event>)
    requires !cfg.enabled
    ensures var w := Run(cfg, events);
            && w.audio.saved == map[] && !w.audio.active
            && forall i <- w.audio.streams :: i in w.orig && w.audio.streams[i].volume == w.orig[i]
    decreases |events|
  {
    if events != [] {
      DisabledTouchesNothing(cfg, events[..|events| - 1]);
    }
  }

  /** Every stream that appears with an original volume of 1 to 150 is there until it vanishes. */
  lemma StreamsComeAndGo(cfg: Config, events: seq<Event>, e: Event)
    ensures var w, w' := Run(cfg, events), Run(cfg, events + [e]);
            if e.Voice? then w'.audio.streams.Keys == w.audio.streams.Keys && w'.orig == w.orig
            else if e.Vanish? then w'.audio.streams == w.audio.streams - {e.index} && w'.orig == w.orig
            else if e.index in w.orig || e.stream.volume < 1 || e.stream.volume > 150 then w' == w
            else
              && w'.audio.streams == w.audio.streams[e.index := e.stream]
              && w'.orig == w.orig[e.index := e.stream.volume]
  {
    hide Targets;
    hide Originals;
    assert (events + [e])[..|events|] == events;
  }

  /** At every moment a stream is at its original volume or at its ducked level; a stream of
      speech output is always at its original. */
  lemma NeverElsewhere(cfg: Config, events: seq<Event>, i: int)
    requires Sane(cfg) && i in Run(cfg, events).audio.streams
    ensures var w := Run(cfg, events); var s := w.audio.streams[i];
            i in w.orig && s.volume in {w.orig[i], Level(cfg, w.orig[i])} && (s.tts ==> s.volume == w.orig[i])
  {
    hide Level;
    AlwaysInv(cfg, events);
  }

  // ---------- reading a silent stream as full ----------

  lemma HalfOrLess(steps: nat)
    requires steps >= 2
    ensures 1.0 / steps as real <= 0.5
  {
    var n := steps as real;
    assert n * (1.0 / n) == 1.0;
  }

  lemma EaseAtHalf()
    ensures Ease(0.5) == 0.5
  {
  }

  lemma PartAtMostHalf(d: nat, e: real)
    requires 0.0 <= e <= 0.5
    ensures Part(-(d as real), e) >= -(d as real) / 2.0
  {
    var x := d as real;
    MulMono(e, 0.5, x);
    MulUnits(e, x);
  }

  /** Half-way to the next integer or more, ties going to even, rounds above. */
  lemma RoundAbove(x: real, end: int)
    requires 0 <= end < 100 && x >= 100.0 - (100 - end) as real / 2.0
    ensures Round(x) > end
  {
    var y := 100.0 - (100 - end) as real / 2.0;
    RoundMono(y, x);
    if end == 99 {
      assert y == 99.5 && y.Floor == 99;
      assert Round(y) == 100;
    } else {
      assert y >= (end + 1) as real;
      RoundMono((end + 1) as real, y);
      RoundInt(end + 1);
    }
  }

  /** From 100 downwards the first of at least two steps is still above the end. */
  lemma FirstStepIsHigh(end: int, steps: nat)
    requires 0 <= end < 100 && steps >= 2
    ensures FadeVolume(100, end, 1, steps) > end
  {
    var t := 1.0 / steps as real;
    DivMono(1.0, 1.0, steps as real);
    RatioMono(1, 1, steps);
    HalfOrLess(steps);
    EaseMonotone(t, 0.5);
    EaseAtHalf();
    var e := Ease(t);
    PartAtMostHalf(100 - end, e);
    assert (end - 100) as real == -((100 - end) as real);
    var x := Blend(100, end, e);
    assert x >= 100.0 - (100 - end) as real / 2.0;
    RoundAbove(x, end);
  }

  /** A fade starts from the volume as read. It stays between the actual volume and its end
      exactly when the stream was not silent or is going to at least 100. */
  lemma FadeStartsInside(actual: int, end: int, steps: nat)
    requires 0 <= actual <= 150 && 0 <= end <= 150 && steps >= 2
    ensures (forall v <- Trail(ReadVolume(actual), end, steps, steps) ::
               (if actual <= end then actual else end) <= v <= (if actual <= end then end else actual))
            <==> actual != 0 || end >= 100
  {
    var trail := Trail(ReadVolume(actual), end, steps, steps);
    TrailIsMonotone(ReadVolume(actual), end, steps, 0, 0);
    if actual != 0 || end >= 100 {
      forall v <- trail
        ensures (if actual <= end then actual else end) <= v <= (if actual <= end then end else actual)
      {
        var i :| 0 <= i < |trail| && trail[i] == v;
        TrailIsMonotone(ReadVolume(actual), end, steps, i, i);
      }
    } else {
      TrailAt(100, end, steps, steps, 0);
      FirstStepIsHigh(end, steps);
      assert trail[0] in trail && trail[0] > end;
    }
  }

  // ---------- what a stream hears ----------

  function Steps(durationMs: nat): nat {
    var n := Round(durationMs as real / 35.0);
    if n < 2 then 2 else n
  }

  lemma TwoStepsAtLeast(durationMs: nat)
    ensures Steps(durationMs) >= 2
  {
  }

  /** The first `n` volumes a fade writes, as pactl is given them. */
  function Clamped(start: int, end: int, n: nat, steps: nat): (r: seq<int>)
    requires n <= steps && steps > 0
  {
    if n == 0 then [] else Clamped(start, end, n - 1, steps) + [Clamp(FadeVolume(start, end, n, steps))]
  }

  /** Everything written to one stream by one call of the fade. */
  function Written(start: int, end: int, durationMs: nat): seq<int> {
    if durationMs == 0 then [Clamp(end)]
    else Clamped(start, end, Steps(durationMs), Steps(durationMs)) + [Clamp(end)]
  }

  lemma {:induction false} ClampedIsTrail(start: int, end: int, n: nat, steps: nat)
    requires 0 <= start <= 150 && 0 <= end <= 150 && n <= steps && steps > 0
    ensures Clamped(start, end, n, steps) == Trail(start, end, n, steps)
  {
    hide FadeVolume;
    if n > 0 {
      ClampedIsTrail(start, end, n - 1, steps);
      FadeIsMonotone(start, end, n, n, steps);
    }
  }

  /** What a stream hears of a fade moves one way, stays between start and end, ends at the end. */
  lemma WrittenIsMonotone(start: int, end: int, durationMs: nat, i: nat, j: nat)
    requires 0 <= start <= 150 && 0 <= end <= 150
    requires i <= j < |Written(start, end, durationMs)|
    ensures var w := Written(start, end, durationMs);
            && w[|w| - 1] == end
            && (if start <= end then start <= w[i] <= w[j] <= end else end <= w[j] <= w[i] <= start)
  {
    var steps := Steps(durationMs);
    if durationMs > 0 {
      hide Trail;
      hide Clamped;
      ClampedIsTrail(start, end, steps, steps);
      var t := Trail(start, end, steps, steps);
      TrailIsMonotone(start, end, steps, 0, 0);
      assert |Written(start, end, durationMs)| == steps + 1;
      TrailIsMonotone(start, end, steps, if i < steps then i else 0, if i < steps then i else 0);
      if j < steps { TrailIsMonotone(start, end, steps, i, j); }
    }
  }

  lemma {:induction false} ClampedLength(start: int, end: int, n: nat, steps: nat)
    requires n <= steps && steps > 0
    ensures |Clamped(start, end, n, steps)| == n
  {
    if n > 0 { ClampedLength(start, end, n - 1, steps); }
  }

  /** A fade writes a volume every 35 ms, rounded to a whole number of steps but at least two, and
      then the target once more; without a duration it writes the target alone. */
  lemma WrittenCount(start: int, end: int, durationMs: nat)
    ensures |Written(start, end, durationMs)| ==
              if durationMs == 0 then 1
              else 1 + if durationMs < 88 then 2 else Round(durationMs as real / 35.0)
  {
    var x := durationMs as real / 35.0;
    if durationMs < 88 { RoundMono(x, 2.5); } else { RoundMono(2.5 + 0.01, x); }
    ClampedLength(start, end, Steps(durationMs), Steps(durationMs));
  }

  // ---------- the module's globals and its calls ----------

  function FadeStep(start: map<int, int>, targets: map<int, int>, s: nat, steps: nat): map<int, int>
    requires start.Keys == targets.Keys && steps > 0
  {
    map i | i in targets :: FadeVolume(start[i], targets[i], s, steps)
  }

  /** A later write to the same streams hides an earlier one. */
  lemma LastWriteWins(streams: map<int, Stream>, first: map<int, int>, last: map<int, int>)
    requires first.Keys == last.Keys
    ensures SetAll(SetAll(streams, first), last) == SetAll(streams, last)
    ensures SetAll(streams, first).Keys == streams.Keys
  {
  }

  /** A log of writes per stream. */
  type Log = map<int, seq<int>>

  function At(log: Log, k: int): (writes: seq<int>)
    ensures k in log ==> writes == log[k]
    ensures k !in log ==> writes == []
  {
    if k in log then log[k] else []
  }

  /** `after` is `before` with `more` written behind it. */
  ghost predicate Extends(before: Log, after: Log, more: Log) {
    forall k :: At(after, k) == At(before, k) + At(more, k)
  }

  function PassLog(streams: map<int, Stream>, values: map<int, int>): Log {
    map k | k in values && k in streams :: [Clamp(values[k])]
  }

  lemma NothingWritten(streams: map<int, Stream>, log: Log)
    ensures SetAll(streams, map[]) == streams && Extends(log, log, PassLog(streams, map[]))
  {
  }

  lemma OneMoreWritten(was: map<int, Stream>, now: map<int, Stream>, done: map<int, int>, i: int, pct: int)
    requires now == SetAll(was, done) && i !in done
    ensures SetAll(now, map[i := pct]) == SetAll(was, done[i := pct])
    ensures Extends(PassLog(was, done), PassLog(was, done[i := pct]), PassLog(now, map[i := pct]))
  {
    hide Clamp;
  }

  function PartLog(streams: map<int, Stream>, start: map<int, int>, targets: map<int, int>, n: nat, steps: nat): Log
    requires start.Keys == targets.Keys && n <= steps && steps > 0
  {
    map k | k in targets && k in streams :: Clamped(start[k], targets[k], n, steps)
  }

  lemma NothingOfFade(log: Log, streams: map<int, Stream>, start: map<int, int>, targets: map<int, int>, steps: nat)
    requires start.Keys == targets.Keys && steps > 0
    ensures Extends(log, log, PartLog(streams, start, targets, 0, steps))
  {
  }

  function FadeLog(streams: map<int, Stream>, targets: map<int, int>, durationMs: nat): Log {
    map k | k in targets && k in streams :: Written(ReadVolume(streams[k].volume), targets[k], durationMs)
  }

  lemma LogAppends(a: Log, b: Log, c: Log, x: Log, y: Log, xy: Log)
    requires Extends(a, b, x) && Extends(b, c, y) && Extends(x, xy, y)
    ensures Extends(a, c, xy)
  {
    hide At;
    forall k ensures At(c, k) == At(a, k) + At(xy, k) {
      assert At(a, k) + At(x, k) + At(y, k) == At(a, k) + (At(x, k) + At(y, k));
    }
  }

  /** One more pass of a fade, seen in the log. */
  lemma PassContinues(streams: map<int, Stream>, now: map<int, Stream>, start: map<int, int>, targets: map<int, int>,
                      n: nat, steps: nat)
    requires start.Keys == targets.Keys && now.Keys == streams.Keys && n < steps
    ensures Extends(PartLog(streams, start, targets, n, steps), PartLog(streams, start, targets, n + 1, steps),
                    PassLog(now, FadeStep(start, targets, n + 1, steps)))
  {
    hide FadeVolume;
    hide Clamp;
  }

  /** The starting volumes of a fade: a stream that is gone starts where it should end. */
  function Starts(streams: map<int, Stream>, targets: map<int, int>): map<int, int> {
    map i | i in targets :: if i in streams then ReadVolume(streams[i].volume) else targets[i]
  }

  /** All passes and the final snap make up the fade. */
  lemma SnapCompletes(streams: map<int, Stream>, now: map<int, Stream>, targets: map<int, int>, durationMs: nat)
    requires now.Keys == streams.Keys && durationMs > 0
    ensures var n := Steps(durationMs);
            Extends(PartLog(streams, Starts(streams, targets), targets, n, n), FadeLog(streams, targets, durationMs),
                    PassLog(now, targets))
  {
    hide Clamped;
    hide Clamp;
    hide Steps;
    TwoStepsAtLeast(durationMs);
  }

  /** Without a duration a fade is one pass. */
  lemma JumpLog(streams: map<int, Stream>, targets: map<int, int>)
    ensures FadeLog(streams, targets, 0) == PassLog(streams, targets)
  {
    hide Clamp;
    var fade, pass := FadeLog(streams, targets, 0), PassLog(streams, targets);
    forall k <- pass ensures fade[k] == pass[k] {
    }
  }

  /** The original volume of one stream: the saved one, else the one it has. */
  function OrigOf(a: Audio, i: int): int
    requires i in a.streams
  {
    if i in a.saved then a.saved[i] else ReadVolume(a.streams[i].volume)
  }

  lemma OrigIs(a: Audio, i: int)
    requires i in a.streams
    ensures OrigOf(a, i) == if i in a.saved then a.saved[i] else ReadVolume(a.streams[i].volume)
  {
  }

  /** What the loop of duck_start knows after looking at some of the streams. */
  function Fresh(a: Audio, seen: set<int>): map<int, int> {
    map i | i in a.streams && i in seen && !a.streams[i].tts :: OrigOf(a, i)
  }

  function LoweredOf(cfg: Config, a: Audio, seen: set<int>): map<int, int> {
    map i | i in a.streams && i in seen && !a.streams[i].tts && Target(cfg, OrigOf(a, i)) < OrigOf(a, i) ::
      Target(cfg, OrigOf(a, i))
  }

  lemma GatherStep(cfg: Config, a: Audio, seen: set<int>, i: int)
    requires i in a.streams
    ensures Fresh(a, seen + {i}) == if a.streams[i].tts then Fresh(a, seen) else Fresh(a, seen)[i := OrigOf(a, i)]
    ensures LoweredOf(cfg, a, seen + {i}) ==
            if a.streams[i].tts || Target(cfg, OrigOf(a, i)) >= OrigOf(a, i) then LoweredOf(cfg, a, seen)
            else LoweredOf(cfg, a, seen)[i := Target(cfg, OrigOf(a, i))]
  {
    hide Target;
    hide OrigOf;
  }

  lemma GatherNone(cfg: Config, a: Audio)
    ensures Fresh(a, {}) == map[] && LoweredOf(cfg, a, {}) == map[]
  {
  }

  lemma GatherAll(cfg: Config, a: Audio)
    ensures a.saved + Fresh(a, a.streams.Keys) == Originals(a)
    ensures LoweredOf(cfg, a, a.streams.Keys) == Targets(cfg, a)
  {
    hide Target;
  }

  class VoiceAudio {
    var streams: map<int, Stream>
    var saved: map<int, int>
    var active: bool
    /** Every volume ever written to a stream. */
    ghost var heard: Log

    function View(): Audio
      reads this
    {
      Audio(streams, saved, active)
    }

    constructor ()
      ensures View() == SILENCE.audio && heard == map[]
    {
      streams, saved, active := map[], map[], false;
      heard := map[];
    }

    method SetInputVolume(i: int, pct: int) returns (ok: bool)
      modifies this`streams, this`heard
      ensures ok == (i in old(streams))
      ensures streams == SetAll(old(streams), map[i := pct])
      ensures Extends(old(heard), heard, PassLog(old(streams), map[i := pct]))
    {
      hide Clamp;
      ok := i in streams;
      if ok {
        heard := heard[i := At(heard, i) + [Clamp(pct)]];
        streams := streams[i := streams[i].(volume := Clamp(pct))];
      }
    }

    /** One pass over the targets. */
    method WriteAll(values: map<int, int>)
      modifies this`streams, this`heard
      ensures streams == SetAll(old(streams), values)
      ensures Extends(old(heard), heard, PassLog(old(streams), values))
    {
      hide *;
      ghost var was := streams;
      var todo := values.Keys;
      NothingWritten(was, heard);
      assert values - todo == map[];
      while todo != {}
        invariant todo <= values.Keys
        invariant streams == SetAll(was, values - todo)
        invariant Extends(old(heard), heard, PassLog(was, values - todo))
        decreases |todo|
      {
        NonEmpty(todo);
        var i :| i in todo;
        ghost var before, now, done := heard, streams, values - todo;
        var _ := SetInputVolume(i, values[i]);
        todo := todo - {i};
        assert values - todo == done[i := values[i]];
        OneMoreWritten(was, now, done, i, values[i]);
        LogAppends(old(heard), before, heard, PassLog(was, done), PassLog(now, map[i := values[i]]),
                   PassLog(was, values - todo));
      }
      assert values - todo == values;
    }

    method FadeInputs(targets: map<int, int>, durationMs: nat)
      modifies this`streams, this`heard
      ensures streams == SetAll(old(streams), targets)
      ensures Extends(old(heard), heard, FadeLog(old(streams), targets, durationMs))
    {
      hide FadeVolume;
      hide Clamp;
      hide Steps;
      hide SetAll;
      hide Extends;
      hide PassLog;
      hide PartLog;
      hide FadeLog;
      ghost var was := streams;
      var current := Starts(streams, targets);
      if durationMs == 0 {
        WriteAll(targets);
        JumpLog(was, targets);
        return;
      }
      var steps := Steps(durationMs);
      TwoStepsAtLeast(durationMs);
      ghost var last := targets;
      var s := 1;
      NothingOfFade(heard, was, current, targets, steps);
      while s <= steps
        invariant 1 <= s <= steps + 1
        invariant last.Keys == targets.Keys
        invariant streams == if s == 1 then was else SetAll(was, last)
        invariant Extends(old(heard), heard, PartLog(was, current, targets, s - 1, steps))
      {
        var values := FadeStep(current, targets, s, steps);
        LastWriteWins(was, last, values);
        ghost var before, now := heard, streams;
        WriteAll(values);
        PassContinues(was, now, current, targets, s - 1, steps);
        LogAppends(old(heard), before, heard, PartLog(was, current, targets, s - 1, steps), PassLog(now, values),
                   PartLog(was, current, targets, s, steps));
        last := values;
        s := s + 1;
      }
      LastWriteWins(was, last, targets);
      ghost var before, now := heard, streams;
      WriteAll(targets);
      SnapCompletes(was, now, targets, durationMs);
      LogAppends(old(heard), before, heard, PartLog(was, current, targets, steps, steps), PassLog(now, targets),
                 FadeLog(was, targets, durationMs));
    }

    /** The loop over the streams: originals not known yet, and the streams to lower. */
    method Gather(cfg: Config) returns (newly: map<int, int>, targets: map<int, int>)
      ensures saved + newly == Originals(Audio(streams, saved, active))
      ensures targets == Targets(cfg, Audio(streams, saved, active))
    {
      hide *;
      ghost var a := Audio(streams, saved, active);
      newly, targets := map[], map[];
      var todo := streams.Keys;
      GatherNone(cfg, a);
      assert streams.Keys - todo == {};
      while todo != {}
        invariant todo <= streams.Keys
        invariant newly == Fresh(a, streams.Keys - todo)
        invariant targets == LoweredOf(cfg, a, streams.Keys - todo)
        decreases |todo|
      {
        NonEmpty(todo);
        var i :| i in todo;
        GatherStep(cfg, a, streams.Keys - todo, i);
        assert streams.Keys - (todo - {i}) == streams.Keys - todo + {i};
        todo := todo - {i};
        if !streams[i].tts {
          var orig := if i in saved then saved[i] else ReadVolume(streams[i].volume);
          OrigIs(a, i);
          newly := newly[i := orig];
          var target := Target(cfg, orig);
          if target < orig { targets := targets[i := target]; }
        }
      }
      assert streams.Keys - todo == a.streams.Keys;
      GatherAll(cfg, a);
    }

    method DuckStartNow(cfg: Config)
      modifies this
      ensures View() == DuckStart(cfg, old(View()))
      ensures Extends(old(heard), heard,
                if !cfg.enabled then map[]
                else FadeLog(old(streams), Targets(cfg, old(View())), if old(active) then 0 else cfg.fadeMs))
    {
      hide Targets;
      hide Originals;
      hide FadeLog;
      hide SetAll;
      if !cfg.enabled { return; }
      hide Extends;
      var newly, targets := Gather(cfg);
      var already := active;
      saved := saved + newly;
      active := true;
      FadeInputs(targets, if already then 0 else cfg.fadeMs);
    }

    method DuckStopNow(cfg: Config, instant: bool)
      modifies this
      ensures View() == DuckStop(old(View()))
      ensures Extends(old(heard), heard, FadeLog(old(streams), old(saved), if instant then 0 else cfg.fadeMs))
    {
      hide Written;
      if saved == map[] && !active { return; }
      var targets := saved;
      saved, active := map[], false;
      FadeInputs(targets, if instant then 0 else cfg.fadeMs);
    }

    method OnVoice(cfg: Config, state: string)
      modifies this
      ensures View() == OnVoiceState(cfg, old(View()), state)
    {
      if state in DUCK_STATES {
        DuckStartNow(cfg);
      } else if state in UNDUCK_STATES {
        DuckStopNow(cfg, false);
      }
    }
  }
}
