/** Partial transcription while the user is still talking (aipc_voice_capture.py,
    PartialSttWorker). The caller requests and resets under a lock; background workers
    transcribe outside it and publish under it. Every request carries a ghost serial number
    so that texts can be traced back to the audio they came from. */
module PartialStt {
  import opened Options
  import opened Text

  /** Audio handed to `request`, with the serial number of that request. */
  datatype Audio = Audio(serial: nat, pcm: seq<bv8>)

  /** A background thread: the generation it was started in, and what it is transcribing. */
  datatype Worker = Worker(gen: nat, snap: Audio)

  /** A published text and the audio it was transcribed from. */
  datatype Said = Said(text: string, source: Audio)

  datatype State = State(
    said: Option<Said>,              // None is the empty text
    busy: bool, gen: nat, pending: Option<Audio>,
    workers: seq<Worker>,            // threads between taking a snapshot and publishing
    next: nat,                       // serial number of the next accepted request
    fence: nat,                      // serial number at the last reset
    transcribed: seq<nat>,           // current-generation audio finished since the last reset
    published: seq<nat>)             // ... of which these changed the text

  const INITIAL := State(None, false, 0, None, [], 0, 0, [], [])

  datatype Event =
    | Request(pcm: seq<bv8>)
    | Reset
    | Finish(i: nat, heard: string)  // worker i comes back with what it heard; failures hear ""

  /** `request`: too short a snapshot is ignored, a busy worker gets it as the pending one. */
  function StepRequest(minBytes: nat, s: State, pcm: seq<bv8>): State {
    if |pcm| < minBytes then s
    else
      var audio, s' := Audio(s.next, pcm), s.(next := s.next + 1);
      if s.busy then s'.(pending := Some(audio))
      else s'.(busy := true, workers := s.workers + [Worker(s.gen, audio)])
  }

  function StepReset(s: State): State {
    s.(gen := s.gen + 1, said := None, pending := None, busy := false,
       fence := s.next, transcribed := [], published := [])
  }

  /** The publishing section of the worker loop (lines 335 to 361). */
  function StepFinish(s: State, i: nat, heard: string): State
    requires i < |s.workers|
  {
    var w := s.workers[i];
    var others := s.workers[..i] + s.workers[i + 1..];
    if w.gen != s.gen then s.(busy := false, pending := None, workers := others)
    else
      var spoken := !Blank(heard);
      var s' := s.(
        said := if spoken then Some(Said(Strip(heard), w.snap)) else s.said,
        transcribed := s.transcribed + [w.snap.serial],
        published := if spoken then s.published + [w.snap.serial] else s.published,
        pending := None);
      match s.pending
      case None => s'.(busy := false, workers := others)
      case Some(audio) => s'.(workers := s.workers[i := Worker(w.gen, audio)])
  }

  function Step(minBytes: nat, s: State, e: Event): State {
    match e
    case Request(pcm) => StepRequest(minBytes, s, pcm)
    case Reset => StepReset(s)
    case Finish(i, heard) => if i < |s.workers| then StepFinish(s, i, heard) else s
  }

  function Run(minBytes: nat, events: seq<Event>): State {
    if events == [] then INITIAL
    else Step(minBytes, Run(minBytes, events[..|events| - 1]), events[|events| - 1])
  }

  // ---------- freshness: every interleaving ----------

  ghost predicate Current(s: State, a: Audio) { s.fence <= a.serial < s.next }

  /** What belongs to the current generation was requested since the last reset. */
  ghost predicate Fresh(s: State) {
    && s.fence <= s.next
    && (s.said.Some? ==> Current(s, s.said.value.source))
    && (s.pending.Some? ==> Current(s, s.pending.value))
    && (forall w <- s.workers :: w.gen <= s.gen && w.snap.serial < s.next
          && (w.gen == s.gen ==> Current(s, w.snap)))
  }

  lemma StepKeepsFresh(minBytes: nat, s: State, e: Event)
    requires Fresh(s)
    ensures Fresh(Step(minBytes, s, e))
  {
    match e
    case Request(pcm) =>
    case Reset =>
    case Finish(i, heard) =>
      if i < |s.workers| {
        var s' := StepFinish(s, i, heard);
        assert s.workers[i] in s.workers;
        forall w <- s'.workers
          ensures w.gen <= s'.gen && w.snap.serial < s'.next && (w.gen == s'.gen ==> Current(s', w.snap))
        {
          assert w in s.workers || (s.pending.Some? && w == Worker(s.workers[i].gen, s.pending.value));
        }
      }
  }

  lemma {:induction false} AlwaysFresh(minBytes: nat, events: seq<Event>)
    ensures Fresh(Run(minBytes, events))
    decreases |events|
  {
    if events != [] {
      AlwaysFresh(minBytes, events[..|events| - 1]);
      StepKeepsFresh(minBytes, Run(minBytes, events[..|events| - 1]), events[|events| - 1]);
    }
  }

  /** The serial number of the next request when the last reset of a run happened. */
  function LastReset(minBytes: nat, events: seq<Event>): nat {
    if events == [] then 0
    else
      var before := events[..|events| - 1];
      if events[|events| - 1].Reset? then Run(minBytes, before).next else LastReset(minBytes, before)
  }

  lemma {:induction false} FenceIsLastReset(minBytes: nat, events: seq<Event>)
    ensures Run(minBytes, events).fence == LastReset(minBytes, events)
    decreases |events|
  {
    if events != [] {
      FenceIsLastReset(minBytes, events[..|events| - 1]);
    }
  }

  /** Whatever stale workers do, the text is empty or was transcribed from audio requested
      since the last reset, and so is the audio kept pending. */
  lemma TextIsFresh(minBytes: nat, events: seq<Event>)
    ensures var s := Run(minBytes, events);
            && (s.said.Some? ==> LastReset(minBytes, events) <= s.said.value.source.serial < s.next)
            && (s.pending.Some? ==> LastReset(minBytes, events) <= s.pending.value.serial < s.next)
  {
    AlwaysFresh(minBytes, events);
    FenceIsLastReset(minBytes, events);
  }

  // ---------- what the text says ----------

  /** The audio of all requests long enough, in order. */
  function Accepted(minBytes: nat, events: seq<Event>): seq<seq<bv8>> {
    if events == [] then []
    else
      var n := |events| - 1;
      Accepted(minBytes, events[..n])
      + if events[n].Request? && |events[n].pcm| >= minBytes then [events[n].pcm] else []
  }

  ghost predicate Requested(accepted: seq<seq<bv8>>, a: Audio) {
    a.serial < |accepted| && a.pcm == accepted[a.serial]
  }

  ghost predicate AllRequested(accepted: seq<seq<bv8>>, s: State) {
    && s.next == |accepted|
    && (s.pending.Some? ==> Requested(accepted, s.pending.value))
    && (forall w <- s.workers :: Requested(accepted, w.snap))
    && (s.said.Some? ==> Requested(accepted, s.said.value.source))
  }

  lemma FinishKeepsRequested(accepted: seq<seq<bv8>>, s: State, i: nat, heard: string)
    requires AllRequested(accepted, s) && i < |s.workers|
    ensures AllRequested(accepted, StepFinish(s, i, heard))
  {
    hide Requested;
    hide Strip;
    var s' := StepFinish(s, i, heard);
    assert s.workers[i] in s.workers;
    forall w <- s'.workers ensures Requested(accepted, w.snap) {
      assert w in s.workers || (s.pending.Some? && w.snap == s.pending.value);
    }
  }

  lemma RequestKeepsRequested(minBytes: nat, accepted: seq<seq<bv8>>, s: State, pcm: seq<bv8>)
    requires AllRequested(accepted, s) && |pcm| >= minBytes
    ensures AllRequested(accepted + [pcm], StepRequest(minBytes, s, pcm))
  {
    var s' := StepRequest(minBytes, s, pcm);
    forall w <- s'.workers ensures Requested(accepted + [pcm], w.snap) {
      assert w in s.workers || w.snap == Audio(s.next, pcm);
    }
  }

  lemma NothingRequested()
    ensures AllRequested([], INITIAL)
  {
  }

  lemma ShortIsIgnored(minBytes: nat, s: State, pcm: seq<bv8>)
    requires |pcm| < minBytes
    ensures StepRequest(minBytes, s, pcm) == s
  {
  }

  lemma ResetKeepsRequested(accepted: seq<seq<bv8>>, s: State)
    requires AllRequested(accepted, s)
    ensures AllRequested(accepted, StepReset(s))
  {
  }

  /** Whatever is pending, being transcribed or was published is the audio of the request with
      its serial number. */
  lemma {:induction false} AudioIsRequested(minBytes: nat, events: seq<Event>)
    ensures AllRequested(Accepted(minBytes, events), Run(minBytes, events))
    decreases |events|
  {
    hide StepFinish;
    hide StepRequest;
    hide AllRequested;
    if events == [] {
      NothingRequested();
    } else {
      var n := |events| - 1;
      AudioIsRequested(minBytes, events[..n]);
      var s, accepted := Run(minBytes, events[..n]), Accepted(minBytes, events[..n]);
      assert accepted + [] == accepted;
      match events[n] {
        case Request(pcm) =>
          if |pcm| < minBytes {
            ShortIsIgnored(minBytes, s, pcm);
          } else {
            RequestKeepsRequested(minBytes, accepted, s, pcm);
          }
        case Reset => ResetKeepsRequested(accepted, s);
        case Finish(i, heard) => if i < |s.workers| { FinishKeepsRequested(accepted, s, i, heard); }
      }
    }
  }

  /** At step `k` a worker of the then current generation heard something. */
  ghost predicate Heard(minBytes: nat, events: seq<Event>, k: nat) {
    && k < |events| && events[k].Finish?
    && var s := Run(minBytes, events[..k]);
       && events[k].i < |s.workers| && s.workers[events[k].i].gen == s.gen
       && exists c <- events[k].heard :: !IsSpace(c)
  }

  /** ... and no reset came after it. */
  ghost predicate StillValid(minBytes: nat, events: seq<Event>, k: nat) {
    Heard(minBytes, events, k) && forall j :: k < j < |events| ==> !events[j].Reset?
  }

  /** What was heard at step `k`, and from which audio. */
  ghost function HeardAt(minBytes: nat, events: seq<Event>, k: nat): Said
    requires Heard(minBytes, events, k)
  {
    Said(Strip(events[k].heard), Run(minBytes, events[..k]).workers[events[k].i].snap)
  }

  lemma HeardPrefix(minBytes: nat, events: seq<Event>, k: nat)
    requires k < |events| - 1
    ensures Heard(minBytes, events, k) <==> Heard(minBytes, events[..|events| - 1], k)
    ensures Heard(minBytes, events, k) ==>
              HeardAt(minBytes, events, k) == HeardAt(minBytes, events[..|events| - 1], k)
  {
    assert events[..|events| - 1][..k] == events[..k];
  }

  /** The last step publishes exactly when it heard something; a reset empties the text; anything
      else leaves it alone. */
  lemma LastStep(minBytes: nat, events: seq<Event>)
    requires events != []
    ensures var n := |events| - 1;
            var s, s' := Run(minBytes, events[..n]), Run(minBytes, events);
            s'.said == if Heard(minBytes, events, n) then Some(HeardAt(minBytes, events, n))
                       else if events[n].Reset? then None else s.said
  {
    var n := |events| - 1;
    if events[n].Finish? {
      var heard := events[n].heard;
      assert Blank(heard) <==> forall c <- heard :: IsSpace(c);
    }
  }

  /** The generation counts the resets. */
  lemma {:induction false} GenerationCountsResets(minBytes: nat, events: seq<Event>)
    ensures Run(minBytes, events).gen == multiset(events)[Reset]
    decreases |events|
  {
    if events != [] {
      var n := |events| - 1;
      GenerationCountsResets(minBytes, events[..n]);
      assert events == events[..n] + [events[n]];
    }
  }

  /** A worker of an older generation leaves no text: it only lets go of the pending audio and
      declares the worker idle. */
  lemma StaleLeavesNoText(minBytes: nat, s: State, i: nat, heard: string)
    requires i < |s.workers| && s.workers[i].gen != s.gen
    ensures var s' := Step(minBytes, s, Finish(i, heard));
            && s'.said == s.said && !s'.busy && s'.pending == None && s'.gen == s.gen && s'.next == s.next
            && s'.transcribed == s.transcribed && s'.published == s.published && |s'.workers| == |s.workers| - 1
            && (forall k :: 0 <= k < |s'.workers| ==> s'.workers[k] == s.workers[if k < i then k else k + 1])
  {
  }

  /** A worker of the current generation goes on with the pending audio, or leaves when there is
      none; the others are not disturbed. */
  lemma WorkerGoesOn(minBytes: nat, s: State, i: nat, heard: string)
    requires i < |s.workers| && s.workers[i].gen == s.gen
    ensures var s' := Step(minBytes, s, Finish(i, heard));
            && s'.pending == None && s'.gen == s.gen && s'.next == s.next
            && match s.pending
               case None =>
                 && !s'.busy && |s'.workers| == |s.workers| - 1
                 && forall k :: 0 <= k < |s'.workers| ==> s'.workers[k] == s.workers[if k < i then k else k + 1]
               case Some(audio) => s'.busy == s.busy && s'.workers == s.workers[i := Worker(s.gen, audio)]
  {
  }

  /** The last step since the last reset at which something was heard. */
  ghost function LastHeard(minBytes: nat, events: seq<Event>): (k: Option<nat>)
    ensures k.Some? ==> k.value < |events| && Heard(minBytes, events, k.value)
    decreases |events|
  {
    if events == [] then None
    else
      var n := |events| - 1;
      if Heard(minBytes, events, n) then Some(n)
      else if events[n].Reset? then None
      else
        var k := LastHeard(minBytes, events[..n]);
        if k.Some? then HeardPrefix(minBytes, events, k.value); k else k
  }

  lemma HeardBefore(minBytes: nat, events: seq<Event>, k: nat)
    requires Heard(minBytes, events, k)
    ensures k < |events|
  {
  }

  lemma ValidPrefix(minBytes: nat, events: seq<Event>, k: nat)
    requires events != []
    ensures var n := |events| - 1;
            StillValid(minBytes, events, k) <==>
              if k == n then Heard(minBytes, events, n)
              else k < n && StillValid(minBytes, events[..n], k) && !events[n].Reset?
  {
    hide Heard;
    var n := |events| - 1;
    if Heard(minBytes, events, k) { HeardBefore(minBytes, events, k); }
    if k < n {
      HeardPrefix(minBytes, events, k);
      assert forall j :: k < j < n ==> events[..n][j] == events[j];
    }
  }

  lemma {:induction false} LastHeardIsLast(minBytes: nat, events: seq<Event>)
    ensures match LastHeard(minBytes, events)
            case None => forall k: nat :: !StillValid(minBytes, events, k)
            case Some(k) => StillValid(minBytes, events, k) && forall j: nat :: k < j ==> !Heard(minBytes, events, j)
    decreases |events|
  {
    hide Heard;
    if events == [] {
      forall k: nat ensures !StillValid(minBytes, events, k) {
        if Heard(minBytes, events, k) { HeardBefore(minBytes, events, k); }
      }
    } else {
      var n := |events| - 1;
      hide StillValid;
      LastHeardIsLast(minBytes, events[..n]);
      forall k: nat ensures StillValid(minBytes, events, k) <==>
          if k == n then Heard(minBytes, events, n)
          else k < n && StillValid(minBytes, events[..n], k) && !events[n].Reset?
      {
        ValidPrefix(minBytes, events, k);
      }
      forall j: nat | Heard(minBytes, events, j) ensures j == n || (j < n && Heard(minBytes, events[..n], j)) {
        HeardBefore(minBytes, events, j);
        if j < n { HeardPrefix(minBytes, events, j); }
      }
    }
  }

  /** The text is what the last worker that heard something since the last reset heard, stripped,
      from the audio that worker held; it is empty exactly when there was none. */
  lemma {:induction false} TextIsHeard(minBytes: nat, events: seq<Event>)
    ensures Run(minBytes, events).said ==
              match LastHeard(minBytes, events)
              case None => None
              case Some(k) => Some(HeardAt(minBytes, events, k))
    decreases |events|
  {
    hide Heard;
    hide HeardAt;
    hide Step;
    if events != [] {
      var n := |events| - 1;
      TextIsHeard(minBytes, events[..n]);
      LastStep(minBytes, events);
      var k := LastHeard(minBytes, events[..n]);
      if k.Some? { HeardPrefix(minBytes, events, k.value); }
    }
  }

  // ---------- one worker, in order, nothing lost: runs without racing resets ----------

  /** No reset of the run happens while a worker is in flight. */
  ghost predicate QuietResets(minBytes: nat, events: seq<Event>) {
    forall k :: 0 <= k < |events| && events[k].Reset? ==> Run(minBytes, events[..k]).workers == []
  }

  ghost predicate Ascending(xs: seq<nat>) {
    forall i, j :: 0 <= i < j < |xs| ==> xs[i] < xs[j]
  }

  /** The newest accepted request since the last reset is where it can still be heard. */
  ghost predicate NewestKept(s: State) {
    s.fence < s.next ==>
      || (s.pending.Some? && s.pending.value.serial == s.next - 1)
      || (s.pending.None? && |s.workers| == 1 && s.workers[0].snap.serial == s.next - 1)
      || (s.workers == [] && s.transcribed != [] && s.transcribed[|s.transcribed| - 1] == s.next - 1)
  }

  /** One worker, busy exactly then, of this generation, transcribing older audio than is pending. */
  ghost predicate OneWorker(s: State) {
    && |s.workers| <= 1 && (s.busy <==> |s.workers| == 1) && (s.pending.Some? ==> s.busy)
    && (forall w <- s.workers :: w.gen == s.gen)
    && (s.workers != [] && s.pending.Some? ==> s.workers[0].snap.serial < s.pending.value.serial)
  }

  /** Audio is finished in the order it was requested, and the text is the last one published. */
  ghost predicate InOrder(s: State) {
    && Ascending(s.transcribed) && Ascending(s.published)
    && (forall x <- s.transcribed :: s.fence <= x < s.next && (s.workers != [] ==> x < s.workers[0].snap.serial))
    && (forall x <- s.published :: x in s.transcribed)
    && (s.said.Some? <==> s.published != [])
    && (s.said.Some? ==> s.said.value.source.serial == s.published[|s.published| - 1])
  }

  ghost predicate Orderly(s: State) { Fresh(s) && OneWorker(s) && InOrder(s) && NewestKept(s) }

  lemma AscendingSnoc(xs: seq<nat>, x: nat)
    requires Ascending(xs) && forall y <- xs :: y < x
    ensures Ascending(xs + [x])
  {
    var ys := xs + [x];
    forall i, j | 0 <= i < j < |ys| ensures ys[i] < ys[j] {
      assert ys[i] == xs[i] && xs[i] in xs;
    }
  }

  lemma FreshParts(s: State)
    requires Fresh(s)
    ensures s.fence <= s.next && (s.pending.Some? ==> s.pending.value.serial < s.next)
    ensures forall w <- s.workers :: w.gen == s.gen ==> s.fence <= w.snap.serial < s.next
  {
  }

  lemma FinishKeepsNewest(s: State, heard: string)
    requires NewestKept(s) && |s.workers| == 1 && s.workers[0].gen == s.gen
    ensures NewestKept(StepFinish(s, 0, heard))
  {
  }

  lemma FinishKeepsInOrder(s: State, heard: string)
    requires Fresh(s) && OneWorker(s) && InOrder(s) && |s.workers| == 1
    ensures InOrder(StepFinish(s, 0, heard))
  {
    hide Fresh;
    hide Ascending;
    hide Strip;
    var w := s.workers[0];
    assert w in s.workers;
    FreshParts(s);
    AscendingSnoc(s.transcribed, w.snap.serial);
    AscendingSnoc(s.published, w.snap.serial);
  }

  lemma FinishKeepsOneWorker(s: State, heard: string)
    requires OneWorker(s) && |s.workers| == 1
    ensures OneWorker(StepFinish(s, 0, heard))
  {
    assert s.workers[0] in s.workers;
  }

  lemma FinishKeepsOrderly(s: State, heard: string)
    requires Orderly(s) && |s.workers| == 1
    ensures Orderly(StepFinish(s, 0, heard))
  {
    hide Fresh;
    hide NewestKept;
    hide InOrder;
    hide StepFinish;
    StepKeepsFresh(0, s, Finish(0, heard));
    assert s.workers[0] in s.workers;
    FinishKeepsOneWorker(s, heard);
    FinishKeepsInOrder(s, heard);
    FinishKeepsNewest(s, heard);
  }

  lemma RequestKeepsOrderly(minBytes: nat, s: State, pcm: seq<bv8>)
    requires Orderly(s)
    ensures Orderly(StepRequest(minBytes, s, pcm))
  {
    StepKeepsFresh(minBytes, s, Request(pcm));
  }

  lemma {:induction false} AlwaysOrderly(minBytes: nat, events: seq<Event>)
    requires QuietResets(minBytes, events)
    ensures Orderly(Run(minBytes, events))
    decreases |events|
  {
    if events != [] {
      var n := |events| - 1;
      var before := events[..n];
      assert QuietResets(minBytes, before) by {
        forall k | 0 <= k < n && before[k].Reset? ensures Run(minBytes, before[..k]).workers == [] {
          assert before[..k] == events[..k] && before[k] == events[k];
        }
      }
      AlwaysOrderly(minBytes, before);
      var s := Run(minBytes, before);
      match events[n]
      case Request(pcm) => RequestKeepsOrderly(minBytes, s, pcm);
      case Reset => StepKeepsFresh(minBytes, s, Reset);
      case Finish(i, heard) => if i < |s.workers| { FinishKeepsOrderly(s, heard); }
    }
  }

  lemma OrderlyWhenIdle(s: State)
    requires Orderly(s)
    ensures |s.workers| <= 1 && Ascending(s.published)
    ensures !s.busy && s.fence < s.next ==> s.next - 1 in s.transcribed
  {
  }

  /** With quiet resets: one worker at most; texts appear in the order their audio was
      requested; and when the worker is idle the newest accepted request since the last
      reset has been transcribed. */
  lemma NothingNewestLost(minBytes: nat, events: seq<Event>)
    requires QuietResets(minBytes, events)
    ensures var s := Run(minBytes, events);
            && |s.workers| <= 1 && Ascending(s.published)
            && (!s.busy && LastReset(minBytes, events) < s.next ==> s.next - 1 in s.transcribed)
  {
    hide Run;
    hide LastReset;
    hide Orderly;
    AlwaysOrderly(minBytes, events);
    FenceIsLastReset(minBytes, events);
    OrderlyWhenIdle(Run(minBytes, events));
  }

  /** The condition is exact: from any orderly state, resetting and then requesting keeps a
      single worker if and only if no worker was in flight. */
  lemma RacingResetDoublesWorkers(minBytes: nat, s: State, pcm: seq<bv8>)
    requires Orderly(s) && |pcm| >= minBytes
    ensures |StepRequest(minBytes, StepReset(s), pcm).workers| <= 1 <==> s.workers == []
  {
  }

  /** The newest accepted request is nowhere: not pending, not being transcribed, not done. */
  ghost predicate NewestNowhere(s: State) {
    && s.pending.None? && s.next - 1 !in s.transcribed
    && forall w <- s.workers :: w.snap.serial != s.next - 1
  }

  lemma OrderlyParts(s: State)
    requires Orderly(s)
    ensures |s.workers| <= 1 && forall w <- s.workers :: w.gen == s.gen && w.snap.serial < s.next
  {
  }

  /** A reset, two requests, and the oldest worker finishing: the stale worker's exit drops the
      pending request, so the newest request is lost, if and only if a worker was in flight at
      the reset. */
  lemma RacingResetLosesNewest(minBytes: nat, s: State, a: seq<bv8>, b: seq<bv8>, heard: string)
    requires Orderly(s) && |a| >= minBytes && |b| >= minBytes
    ensures var waiting := StepRequest(minBytes, StepRequest(minBytes, StepReset(s), a), b);
            && waiting.pending.Some? && waiting.pending.value.serial == waiting.next - 1
            && (NewestNowhere(StepFinish(waiting, 0, heard)) <==> s.workers != [])
  {
    hide Orderly;
    OrderlyParts(s);
    var waiting := StepRequest(minBytes, StepRequest(minBytes, StepReset(s), a), b);
    var after := StepFinish(waiting, 0, heard);
    if s.workers == [] {
      assert waiting.workers[0] in waiting.workers && after.workers[0] in after.workers;
    }
  }

  // ---------- the object itself ----------

  class PartialSttWorker {
    const minBytes: nat
    var text: string
    var busy: bool
    var gen: nat
    var pending: Option<seq<bv8>>
    ghost var trace: State

    /** The ghost trace is the object's state with provenance added. */
    ghost predicate Valid()
      reads this
    {
      && text == (if trace.said.None? then "" else trace.said.value.text)
      && busy == trace.busy && gen == trace.gen
      && pending == (if trace.pending.None? then None else Some(trace.pending.value.pcm))
    }

    constructor (minBytes: nat)
      ensures Valid() && trace == INITIAL && this.minBytes == minBytes
    {
      this.minBytes := minBytes;
      text, busy, gen, pending := "", false, 0, None;
      trace := INITIAL;
    }

    method Reset()
      requires Valid()
      modifies this
      ensures Valid() && trace == StepReset(old(trace))
      ensures gen == old(gen) + 1 && text == "" && pending == None && !busy
    {
      gen := gen + 1;
      text := "";
      pending := None;
      busy := false;
      trace := StepReset(trace);
    }

    method GetText() returns (current: string)
      requires Valid()
      ensures current == text == if trace.said.None? then "" else trace.said.value.text
    {
      current := text;
    }

    /** Returns the generation and snapshot of the thread to start, if one is started. */
    method Request(pcm: seq<bv8>) returns (start: Option<(nat, seq<bv8>)>)
      requires Valid()
      modifies this
      ensures Valid() && trace == StepRequest(minBytes, old(trace), pcm)
      ensures start == if |pcm| >= minBytes && !old(busy) then Some((gen, pcm)) else None
      ensures pending == if |pcm| >= minBytes && old(busy) then Some(pcm) else old(pending)
      ensures busy == (old(busy) || |pcm| >= minBytes) && text == old(text) && gen == old(gen)
    {
      start := None;
      if |pcm| < minBytes {
        return;
      }
      trace := StepRequest(minBytes, trace, pcm);
      if busy {
        pending := Some(pcm);
        return;
      }
      busy := true;
      start := Some((gen, pcm));
    }

    /** One thread publishing: returns the snapshot it goes on with, or None when it exits. */
    method Publish(ghost i: nat, myGen: nat, heard: string) returns (again: Option<seq<bv8>>)
      requires Valid() && i < |trace.workers| && myGen == trace.workers[i].gen
      modifies this
      ensures Valid() && trace == StepFinish(old(trace), i, heard)
      ensures again.Some? <==> |trace.workers| == |old(trace).workers|
      ensures again.Some? ==> again.value == trace.workers[i].snap.pcm
      ensures again == if myGen == old(gen) then old(pending) else None
      ensures pending == None && busy == (again.Some? && old(busy)) && gen == old(gen)
      ensures text == if myGen == old(gen) && !Blank(heard) then Strip(heard) else old(text)
    {
      trace := StepFinish(trace, i, heard);
      if myGen != gen {
        busy := false;
        pending := None;
        return None;
      }
      ghost var _, _ := StripSplits(heard);
      if Strip(heard) != "" {
        text := Strip(heard);
      }
      again := pending;
      pending := None;
      if again.None? {
        busy := false;
      }
    }
  }
}
