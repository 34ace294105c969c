/** Streaming speech, part two: the cancellable playback queue (aipc_voice_stream.py,
    TtsChunkQueue) after one `start`. Any number of producers and cancellers run beside the
    worker thread; one event is one atomic operation on the queue or the cancel flag. */
module TtsQueue {
  import opened Text

  datatype Item = Chunk(text: string) | Sentinel

  datatype Worker =
    | Top                      // about to test the cancel flag at the loop head
    | Getting                  // blocked in queue.get
    | Holding(text: string)    // has a chunk, about to test the cancel flag again
    | Ready(text: string)      // test passed; on_chunk, then speak
    | Speaking(text: string)
    | Spoken                   // counted; about to test the cancel flag once more
    | Finished(closed: bool)   // left the loop; `closed` when a sentinel ended it

  datatype State = State(
    queue: seq<Item>, cancelled: bool, worker: Worker, played: nat, errors: nat,
    cleared: multiset<string>,   // producers past the cancel test, about to put
    drainers: nat,               // cancellers that set the flag and are draining
    puts: seq<Item>,             // everything ever put, in order
    taken: seq<Item>,            // what the worker took out
    begun: seq<string>,          // texts passed to speak
    completed: nat,              // speak calls that returned or raised
    late: nat)                   // speak calls begun after cancel was set

  const STARTED := State([], false, Top, 0, 0, multiset{}, 0, [], [], [], 0, 0)

  datatype Event =
    | EnqueueTest(text: string) | EnqueuePut(text: string) | Close
    | CancelSet | Drain | DrainEnd
    | LoopHead | Get | GetTimeout | Recheck | Begin | SpeakReturns(ok: bool) | AfterSpeak

  function Put(s: State, item: Item): State {
    s.(queue := s.queue + [item], puts := s.puts + [item])
  }

  function StepWorker(s: State, e: Event): State {
    match (e, s.worker)
    case (LoopHead, Top) => s.(worker := if s.cancelled then Finished(false) else Getting)
    case (Get, Getting) =>
      if s.queue == [] then s
      else
        var item := s.queue[0];
        s.(queue := s.queue[1..], taken := s.taken + [item],
           worker := if item.Sentinel? then Finished(true) else Holding(item.text))
    case (GetTimeout, Getting) => s.(worker := Top)
    case (Recheck, Holding(text)) => s.(worker := if s.cancelled then Finished(false) else Ready(text))
    case (Begin, Ready(text)) =>
      s.(worker := Speaking(text), begun := s.begun + [text], late := s.late + if s.cancelled then 1 else 0)
    case (SpeakReturns(ok), Speaking(_)) =>
      s.(worker := Spoken, completed := s.completed + 1,
         played := s.played + if ok then 1 else 0, errors := s.errors + if ok then 0 else 1)
    case (AfterSpeak, Spoken) => s.(worker := if s.cancelled then Finished(false) else Top)
    case _ => s
  }

  function Step(s: State, e: Event): State {
    match e
    case EnqueueTest(text) =>
      if s.cancelled || Strip(text) == "" then s else s.(cleared := s.cleared + multiset{Strip(text)})
    case EnqueuePut(text) =>
      if text in s.cleared then Put(s.(cleared := s.cleared - multiset{text}), Chunk(text)) else s
    case Close => Put(s, Sentinel)
    case CancelSet => s.(cancelled := true, drainers := s.drainers + 1)
    case Drain => if s.drainers > 0 && s.queue != [] then s.(queue := s.queue[1..]) else s
    case DrainEnd => if s.drainers > 0 && s.queue == [] then Put(s.(drainers := s.drainers - 1), Sentinel) else s
    case _ => StepWorker(s, e)
  }

  function Run(events: seq<Event>): State {
    if events == [] then STARTED
    else Step(Run(events[..|events| - 1]), events[|events| - 1])
  }

  /** The chunks among queue items, and those before the first sentinel. */
  function Texts(items: seq<Item>): seq<string> {
    if items == [] then []
    else (if items[0].Chunk? then [items[0].text] else []) + Texts(items[1..])
  }

  function BeforeClose(items: seq<Item>): seq<Item> {
    if items == [] || items[0].Sentinel? then [] else [items[0]] + BeforeClose(items[1..])
  }

  lemma {:induction false} TextsConcat(a: seq<Item>, b: seq<Item>)
    ensures Texts(a + b) == Texts(a) + Texts(b)
  {
    if a == [] {
      assert a + b == b;
    } else {
      TextsConcat(a[1..], b);
      assert (a + b)[1..] == a[1..] + b;
    }
  }

  lemma {:induction false} BeforeCloseOf(open: seq<Item>, rest: seq<Item>)
    requires Sentinel !in open
    ensures BeforeClose(open + [Sentinel] + rest) == open
  {
    var all := open + [Sentinel] + rest;
    if open != [] {
      BeforeCloseOf(open[1..], rest);
      assert all[1..] == open[1..] + [Sentinel] + rest;
    }
  }

  function InHand(w: Worker): seq<string> {
    match w
    case Holding(text) => [text]
    case Ready(text) => [text]
    case _ => []
  }

  /** While nobody cancelled: everything put is either taken or still queued, in order, and
      everything taken was spoken or is in the worker's hand. */
  ghost predicate Uncancelled(s: State) {
    && s.drainers == 0 && s.late == 0 && s.puts == s.taken + s.queue
    && Texts(s.taken) == s.begun + InHand(s.worker)
    && match s.worker
       case Finished(closed) =>
         closed && s.taken != [] && s.taken[|s.taken| - 1] == Sentinel && Sentinel !in s.taken[..|s.taken| - 1]
       case _ => Sentinel !in s.taken
  }

  /** The worker past the point where a later cancel can still stop this chunk. */
  ghost predicate Inv(s: State) {
    && s.played + s.errors == s.completed
    && |s.begun| == s.completed + (if s.worker.Speaking? then 1 else 0)
    && s.begun + (if s.worker.Ready? then [s.worker.text] else []) <= Texts(s.puts)
    && (!s.cancelled ==> Uncancelled(s))
    && s.late <= 1
    && (s.late == 1 ==> s.worker.Speaking? || s.worker.Spoken? || s.worker.Finished?)
  }

  lemma PutKeepsInv(s: State, item: Item)
    requires Inv(s)
    ensures Inv(Put(s, item))
  {
    TextsConcat(s.puts, [item]);
    assert s.taken + (s.queue + [item]) == (s.taken + s.queue) + [item];
  }

  lemma GetKeepsInv(s: State)
    requires Inv(s) && s.worker.Getting? && s.queue != []
    ensures Inv(StepWorker(s, Get))
  {
    var item := s.queue[0];
    assert s.queue == [item] + s.queue[1..];
    TextsConcat(s.taken, [item]);
    assert Texts([item]) == if item.Chunk? then [item.text] else [];
    assert s.taken + s.queue == s.taken + [item] + s.queue[1..];
    assert (s.taken + [item])[..|s.taken|] == s.taken;
  }

  lemma RecheckKeepsInv(s: State)
    requires Inv(s) && s.worker.Holding?
    ensures Inv(StepWorker(s, Recheck))
  {
    if !s.cancelled {
      TextsConcat(s.taken, s.queue);
    }
  }

  lemma StepKeepsInv(s: State, e: Event)
    requires Inv(s)
    ensures Inv(Step(s, e))
  {
    hide Texts;
    match e {
      case EnqueuePut(text) =>
        if text in s.cleared { PutKeepsInv(s.(cleared := s.cleared - multiset{text}), Chunk(text)); }
      case Close => PutKeepsInv(s, Sentinel);
      case DrainEnd =>
        if s.drainers > 0 && s.queue == [] { PutKeepsInv(s.(drainers := s.drainers - 1), Sentinel); }
      case Get => if s.worker.Getting? && s.queue != [] { GetKeepsInv(s); }
      case Recheck => if s.worker.Holding? { RecheckKeepsInv(s); }
      case _ =>
    }
  }

  lemma {:induction false} AlwaysInv(events: seq<Event>)
    ensures Inv(Run(events))
    decreases |events|
  {
    if events == [] {
      assert Texts([]) == [];
    } else {
      AlwaysInv(events[..|events| - 1]);
      StepKeepsInv(Run(events[..|events| - 1]), events[|events| - 1]);
    }
  }

  /** The spoken texts are a prefix of the enqueued texts, in order; the counters add up;
      and at most one `speak` begins after a cancel. */
  lemma SpokenInOrder(events: seq<Event>)
    ensures var s := Run(events);
            s.begun <= Texts(s.puts) && s.played + s.errors == s.completed && s.late <= 1
  {
    AlwaysInv(events);
  }

  /** Closed and never cancelled: a finished worker has spoken everything put before the close. */
  lemma ClosedSpeaksAll(events: seq<Event>)
    requires var s := Run(events); !s.cancelled && s.worker.Finished?
    ensures var s := Run(events);
            Sentinel in s.puts && s.begun == Texts(BeforeClose(s.puts)) && s.completed == |s.begun|
  {
    hide Run;
    AlwaysInv(events);
    var s := Run(events);
    var n := |s.taken| - 1;
    assert s.taken == s.taken[..n] + [Sentinel];
    assert s.puts == s.taken[..n] + [Sentinel] + s.queue;
    TextsConcat(s.taken[..n], [Sentinel]);
    assert [Sentinel][1..] == [];
    assert Texts(s.taken) == Texts(s.taken[..n]) && s.begun + [] == s.begun;
    BeforeCloseOf(s.taken[..n], s.queue);
    assert s.puts[n] == Sentinel;
  }

  lemma CancelledStep(s: State, e: Event)
    requires s.cancelled
    ensures var s' := Step(s, e);
            s'.cancelled && s'.late >= s.late && |s'.begun| - |s.begun| == s'.late - s.late
  {
  }

  /** Once cancelled the flag stays, so a cancelled queue speaks at most one more text. */
  lemma {:induction false} CancelSilences(before: seq<Event>, after: seq<Event>)
    requires Run(before).cancelled
    ensures var s := Run(before + after);
            s.cancelled && |Run(before).begun| <= |s.begun| <= |Run(before).begun| + 1
            && |s.begun| - |Run(before).begun| == s.late - Run(before).late >= 0
    decreases |after|
  {
    hide Step;
    hide Inv;
    SpokenInOrder(before + after);
    if after == [] {
      assert before + after == before;
    } else {
      var n := |after| - 1;
      CancelSilences(before, after[..n]);
      assert (before + after)[..|before + after| - 1] == before + after[..n];
      CancelledStep(Run(before + after[..n]), after[n]);
    }
  }

  lemma OnlyCancelSets(s: State, e: Event)
    ensures Step(s, e).cancelled <==> s.cancelled || e.CancelSet?
  {
  }

  /** The flag is set by a cancel and by nothing else. */
  lemma {:induction false} CancelledIff(events: seq<Event>)
    ensures Run(events).cancelled <==> CancelSet in events
    decreases |events|
  {
    hide Step;
    if events != [] {
      var n := |events| - 1;
      CancelledIff(events[..n]);
      OnlyCancelSets(Run(events[..n]), events[n]);
      assert events == events[..n] + [events[n]];
    }
  }

  /** A cancel drains until it finds the queue empty and then puts a sentinel. */
  lemma CancelDrains(s: State, e: Event)
    ensures Step(s, e).drainers - s.drainers ==
              if e.CancelSet? then 1 else if e.DrainEnd? && s.drainers > 0 && s.queue == [] then -1 else 0
    ensures s.drainers > 0 && s.queue != [] ==> Step(s, Drain) == s.(queue := s.queue[1..])
    ensures s.drainers > 0 && s.queue == [] ==> Step(s, DrainEnd).queue == [Sentinel]
  {
  }

  /** The worker leaves its loop exactly when it takes a sentinel, or finds the flag set at one of
      its three tests. */
  lemma LeavesExactlyWhen(s: State, e: Event)
    requires !s.worker.Finished?
    ensures Step(s, e).worker == Finished(true) <==>
              e.Get? && s.worker.Getting? && s.queue != [] && s.queue[0].Sentinel?
    ensures Step(s, e).worker == Finished(false) <==>
              && s.cancelled
              && ((e.LoopHead? && s.worker.Top?) || (e.Recheck? && s.worker.Holding?)
                  || (e.AfterSpeak? && s.worker.Spoken?))
  {
  }

  // ---------- what gets in, and that it comes out ----------

  /** An `enqueue` nobody interrupts puts the stripped text at the end, exactly when the queue is
      not cancelled and the text is not blank; otherwise it changes nothing. */
  lemma EnqueueAppends(s: State, text: string)
    ensures var s' := Step(Step(s, EnqueueTest(text)), EnqueuePut(Strip(text)));
            if !s.cancelled && exists c <- text :: !IsSpace(c) then
              s' == s.(queue := s.queue + [Chunk(Strip(text))], puts := s.puts + [Chunk(Strip(text))])
            else Step(s, EnqueueTest(text)) == s
  {
    hide Strip;
    var _, _ := StripSplits(text);
    assert Blank(text) <==> forall c <- text :: IsSpace(c);
    assert s.cleared + multiset{Strip(text)} - multiset{Strip(text)} == s.cleared;
  }

  function RunFrom(s: State, events: seq<Event>): State {
    if events == [] then s
    else Step(RunFrom(s, events[..|events| - 1]), events[|events| - 1])
  }

  lemma {:induction false} RunFromConcat(s: State, a: seq<Event>, b: seq<Event>)
    ensures RunFrom(s, a + b) == RunFrom(RunFrom(s, a), b)
    decreases |b|
  {
    hide Step;
    if b == [] {
      assert a + b == a;
    } else {
      var n := |b| - 1;
      RunFromConcat(s, a, b[..n]);
      assert (a + b)[..|a + b| - 1] == a + b[..n] && (a + b)[|a + b| - 1] == b[n];
    }
  }

  lemma OneStep(s: State, e: Event)
    ensures RunFrom(s, [e]) == Step(s, e)
  {
    hide Step;
    assert [e][..0] == [];
  }

  lemma TwoSteps(s: State, e: Event, f: Event)
    ensures RunFrom(s, [e, f]) == Step(Step(s, e), f)
  {
    hide Step;
    assert [e, f][..1] == [e] && [e][..0] == [];
    assert RunFrom(s, [e]) == Step(RunFrom(s, [e][..0]), e);
  }

  /** What one step of its own does to a cancelled worker. */
  lemma CancelledMoves(s: State)
    requires s.cancelled
    ensures s.worker.Top? ==> Step(s, LoopHead) == s.(worker := Finished(false))
    ensures s.worker.Getting? ==> Step(s, GetTimeout) == s.(worker := Top)
    ensures s.worker.Holding? ==> Step(s, Recheck) == s.(worker := Finished(false))
    ensures s.worker.Ready? ==>
              Step(s, Begin) ==
                s.(worker := Speaking(s.worker.text), begun := s.begun + [s.worker.text], late := s.late + 1)
    ensures s.worker.Speaking? ==>
              Step(s, SpeakReturns(true)) == s.(worker := Spoken, completed := s.completed + 1, played := s.played + 1)
    ensures s.worker.Spoken? ==> Step(s, AfterSpeak) == s.(worker := Finished(false))
  {
  }

  /** A cancelled worker left alone ends within three steps, whatever it was doing: even blocked on
      an empty queue, where its timeout makes it look at the flag again. */
  lemma CancelledWorkerEnds(s: State) returns (events: seq<Event>)
    requires s.cancelled && !s.worker.Finished?
    ensures |events| <= if s.worker.Ready? then 3 else if s.worker.Getting? || s.worker.Speaking? then 2 else 1
    ensures RunFrom(s, events).worker == Finished(false)
    ensures |RunFrom(s, events).begun| == |s.begun| + if s.worker.Ready? then 1 else 0
    decreases if s.worker.Ready? then 3 else if s.worker.Getting? || s.worker.Speaking? then 2 else 1
  {
    hide Step;
    var first := match s.worker
      case Top => LoopHead
      case Getting => GetTimeout
      case Holding(_) => Recheck
      case Ready(_) => Begin
      case Speaking(_) => SpeakReturns(true)
      case _ => AfterSpeak;
    CancelledMoves(s);
    events := [first];
    OneStep(s, first);
    if !Step(s, first).worker.Finished? {
      var rest := CancelledWorkerEnds(Step(s, first));
      events := [first] + rest;
      RunFromConcat(s, [first], rest);
    }
  }

  lemma TakesChunk(s: State)
    requires !s.cancelled && s.worker.Top? && s.queue != [] && s.queue[0].Chunk?
    ensures Step(Step(s, LoopHead), Get) ==
              s.(queue := s.queue[1..], taken := s.taken + [s.queue[0]], worker := Holding(s.queue[0].text))
  {
  }

  lemma BeginsChunk(s: State)
    requires !s.cancelled && s.worker.Holding?
    ensures Step(Step(s, Recheck), Begin) == s.(begun := s.begun + [s.worker.text], worker := Speaking(s.worker.text))
  {
  }

  lemma CountsChunk(s: State, ok: bool)
    requires !s.cancelled && s.worker.Speaking?
    ensures Step(Step(s, SpeakReturns(ok)), AfterSpeak) ==
              s.(worker := Top, completed := s.completed + 1, played := s.played + if ok then 1 else 0,
                 errors := s.errors + if ok then 0 else 1)
  {
  }

  /** One turn of the worker: it takes the first chunk, speaks it, counts it and is back at the top. */
  lemma OneTurn(s: State, ok: bool) returns (events: seq<Event>)
    requires !s.cancelled && s.worker.Top? && s.queue != [] && s.queue[0].Chunk?
    ensures RunFrom(s, events) ==
              s.(queue := s.queue[1..], taken := s.taken + [s.queue[0]], begun := s.begun + [s.queue[0].text],
                 completed := s.completed + 1, played := s.played + if ok then 1 else 0,
                 errors := s.errors + if ok then 0 else 1)
  {
    hide Step;
    hide RunFrom;
    var a, b, c := [LoopHead, Get], [Recheck, Begin], [SpeakReturns(ok), AfterSpeak];
    events := a + b + c;
    RunFromConcat(s, a + b, c);
    RunFromConcat(s, a, b);
    TwoSteps(s, LoopHead, Get);
    TakesChunk(s);
    TwoSteps(RunFrom(s, a), Recheck, Begin);
    BeginsChunk(RunFrom(s, a));
    TwoSteps(RunFrom(s, a + b), SpeakReturns(ok), AfterSpeak);
    CountsChunk(RunFrom(s, a + b), ok);
  }

  lemma ClosingTurn(s: State)
    requires !s.cancelled && s.worker.Top? && s.queue != [] && s.queue[0] == Sentinel
    ensures var s' := Step(Step(s, LoopHead), Get); s'.worker == Finished(true) && s'.begun == s.begun
  {
  }

  /** Left alone, the worker speaks everything queued before a sentinel, in order, and finishes. */
  lemma {:induction false} SpeaksToTheEnd(s: State, open: seq<Item>) returns (events: seq<Event>)
    requires !s.cancelled && s.worker.Top? && open + [Sentinel] <= s.queue && Sentinel !in open
    ensures RunFrom(s, events).worker == Finished(true) && RunFrom(s, events).begun == s.begun + Texts(open)
    decreases |open|
  {
    hide Step;
    if open == [] {
      assert s.queue[0] == Sentinel;
      events := [LoopHead, Get];
      TwoSteps(s, LoopHead, Get);
      ClosingTurn(s);
      assert s.begun + [] == s.begun;
    } else {
      assert open[0] in open && s.queue[0] == open[0];
      var first := OneTurn(s, true);
      var mid := RunFrom(s, first);
      assert open[1..] + [Sentinel] == (open + [Sentinel])[1..];
      var rest := SpeaksToTheEnd(mid, open[1..]);
      events := first + rest;
      RunFromConcat(s, first, rest);
      assert s.begun + [open[0].text] + Texts(open[1..]) == s.begun + ([open[0].text] + Texts(open[1..]));
    }
  }

  // ---------- the object itself ----------

  class TtsChunkQueue {
    var q: seq<Item>
    var cancelFlag: bool
    var played: nat
    var errors: nat
    ghost var trace: State

    ghost predicate Valid()
      reads this
    {
      q == trace.queue && cancelFlag == trace.cancelled && played == trace.played && errors == trace.errors
    }

    /** `start`: the worker thread is about to enter its loop. */
    constructor ()
      ensures Valid() && trace == STARTED
    {
      q, cancelFlag, played, errors := [], false, 0, 0;
      trace := STARTED;
    }

    /** First half of `enqueue`: returns the text to put, if any. */
    method EnqueueTest(text: string) returns (put: string)
      requires Valid()
      modifies this
      ensures Valid() && trace == Step(old(trace), Event.EnqueueTest(text))
      ensures put != "" ==> put in trace.cleared
      ensures put == if cancelFlag || Blank(text) then "" else Strip(text)
      ensures q == old(q) && cancelFlag == old(cancelFlag)
    {
      ghost var _, _ := StripSplits(text);
      put := if cancelFlag then "" else Strip(text);
      trace := Step(trace, Event.EnqueueTest(text));
    }

    method EnqueuePut(put: string)
      requires Valid() && put in trace.cleared
      modifies this
      ensures Valid() && trace == Step(old(trace), Event.EnqueuePut(put)) && q == old(q) + [Chunk(put)]
    {
      q := q + [Chunk(put)];
      trace := Step(trace, Event.EnqueuePut(put));
    }

    method Close()
      requires Valid()
      modifies this
      ensures Valid() && trace == Step(old(trace), Event.Close) && q == old(q) + [Sentinel]
    {
      q := q + [Sentinel];
      trace := Step(trace, Event.Close);
    }

    method CancelSet()
      requires Valid()
      modifies this
      ensures Valid() && trace == Step(old(trace), Event.CancelSet) && cancelFlag && q == old(q)
    {
      cancelFlag := true;
      trace := Step(trace, Event.CancelSet);
    }

    /** One turn of the drain loop; done once the queue was found empty. */
    method DrainTurn() returns (done: bool)
      requires Valid() && trace.drainers > 0
      modifies this
      ensures Valid() && done == (old(q) == [])
      ensures trace == Step(old(trace), if done then DrainEnd else Drain)
    {
      done := q == [];
      trace := Step(trace, if done then DrainEnd else Drain);
      q := if done then q + [Sentinel] else q[1..];
    }

    /** `cancel` with nothing running in between: the queue ends up holding one sentinel. */
    method Cancel()
      requires Valid()
      modifies this
      ensures Valid() && cancelFlag && q == [Sentinel] && trace.begun == old(trace).begun
    {
      CancelSet();
      var done := false;
      while !done
        invariant Valid() && cancelFlag && trace.begun == old(trace).begun
        invariant if done then q == [Sentinel] else trace.drainers > 0
        decreases !done, |q|
      {
        done := DrainTurn();
      }
    }

    /** The worker's `get`: None is a timeout on an empty queue. */
    method WorkerGet() returns (item: seq<Item>)
      requires Valid() && trace.worker.Getting?
      modifies this
      ensures Valid() && |item| <= 1 && (item == [] <==> old(q) == [])
      ensures trace == Step(old(trace), if item == [] then GetTimeout else Get)
      ensures item != [] ==> item[0] == old(q)[0] && q == old(q)[1..]
    {
      item := if q == [] then [] else [q[0]];
      trace := Step(trace, if item == [] then GetTimeout else Get);
      q := if q == [] then q else q[1..];
    }

    /** The three tests of the cancel flag: at the loop head, after a get, after a speak. */
    method WorkerTest() returns (go: bool)
      requires Valid() && (trace.worker.Top? || trace.worker.Holding? || trace.worker.Spoken?)
      modifies this
      ensures Valid() && go == !cancelFlag && q == old(q)
      ensures trace == Step(old(trace), if old(trace).worker.Top? then LoopHead
                                        else if old(trace).worker.Holding? then Recheck else AfterSpeak)
      ensures !go ==> trace.worker == Finished(false)
    {
      go := !cancelFlag;
      trace := Step(trace, if trace.worker.Top? then LoopHead
                           else if trace.worker.Holding? then Recheck else AfterSpeak);
    }

    /** Counting a finished `speak`. */
    method Count(ok: bool)
      requires Valid() && trace.worker.Speaking?
      modifies this
      ensures Valid() && trace == Step(old(trace), SpeakReturns(ok))
      ensures played == old(played) + (if ok then 1 else 0) && errors == old(errors) + if ok then 0 else 1
    {
      if ok {
        played := played + 1;
      } else {
        errors := errors + 1;
      }
      trace := Step(trace, SpeakReturns(ok));
    }
  }
}
