/** The portal's JSON poller (poll.js, createJsonPoller): a chain of timers whose callbacks
    overlap with fetches, visibility changes, `refresh` and `stop`. One event is one
    synchronous stretch of JavaScript; an event that cannot happen changes nothing. */
module JsonPoller {

  /** Who awaits a tick: the timer callback, which will schedule again, or nobody. */
  datatype Owner = TimerCallback | Nobody

  /** A tick suspended at `await fetch` or at `await res.json()`. */
  datatype Request = Request(owner: Owner, force: bool, etagSent: string, reading: bool)

  datatype State = State(
    alive: bool,
    timer: nat,              // the closure's `timer`; 0 before the first arming
    inFlight: bool, etag: string, visible: bool, listening: bool,
    lastId: nat,             // last id handed out by setTimeout
    armed: set<nat>,         // timers that are pending
    open: seq<Request>,      // suspended ticks
    resuming: nat,           // timer callbacks whose tick is done and that have yet to schedule
    fetches: nat, armings: nat, deliveries: nat)   // how often each happened

  datatype Event =
    | TimerFires(id: nat)
    | NotModified(i: nat)                      // 304
    | Failed(i: nat)                           // network error, bad status, bad body
    | Headers(i: nat, next: string)            // 200; "" when there is no ETag
    | Body(i: nat)                             // parsed: onData runs
    | Resume                                   // a timer callback continues after its tick
    | Visibility(visible: bool)
    | Refresh
    | Stop

  /** A tick returning to whoever awaits it. */
  function Return(s: State, owner: Owner): State {
    if owner.TimerCallback? then s.(resuming := s.resuming + 1) else s
  }

  /** `tick` up to its first await. */
  function Tick(s: State, force: bool, owner: Owner): State {
    if !s.alive || s.inFlight || (!force && !s.visible) then Return(s, owner)
    else
      s.(inFlight := true, fetches := s.fetches + 1,
         open := s.open + [Request(owner, force, if force then "" else s.etag, false)])
  }

  function Schedule(s: State): State {
    if !s.alive then s
    else
      var id := s.lastId + 1;
      s.(armed := s.armed - {s.timer} + {id}, timer := id, lastId := id, armings := s.armings + 1)
  }

  /** The tail of a tick: `finally`, then return. */
  function Settle(s: State, i: nat): State
    requires i < |s.open|
  {
    Return(s.(inFlight := false, open := s.open[..i] + s.open[i + 1..]), s.open[i].owner)
  }

  function StepRequest(s: State, e: Event): State
    requires (e.NotModified? || e.Failed? || e.Headers? || e.Body?) && e.i < |s.open|
  {
    var request := s.open[e.i];
    match e
    case NotModified(i) => if request.reading then s else Settle(s, i)
    case Failed(i) => Settle(s, i)
    case Headers(i, next) =>
      if request.reading then s
      else s.(etag := if next != "" then next else s.etag, open := s.open[i := request.(reading := true)])
    case Body(i) =>
      if request.reading then Settle(s.(deliveries := s.deliveries + 1), i) else s
  }

  function Step(s: State, e: Event): State {
    match e
    case TimerFires(id) =>
      if id in s.armed then Tick(s.(armed := s.armed - {id}), false, TimerCallback) else s
    case Resume => if s.resuming > 0 then Schedule(s.(resuming := s.resuming - 1)) else s
    case Visibility(visible) =>
      var s' := s.(visible := visible);
      if s.listening && s.alive && visible then Schedule(Tick(s', false, Nobody)) else s'
    case Refresh => Tick(s.(etag := ""), true, Nobody)
    case Stop => s.(alive := false, armed := s.armed - {s.timer}, listening := false)
    case _ => if e.i < |s.open| then StepRequest(s, e) else s
  }

  /** Creation: listen, tick with force, schedule. */
  function Created(visible: bool): State {
    Schedule(Tick(State(true, 0, false, "", visible, true, 0, {}, [], 0, 0, 0, 0), true, Nobody))
  }

  function Run(visible: bool, events: seq<Event>): State {
    if events == [] then Created(visible)
    else Step(Run(visible, events[..|events| - 1]), events[|events| - 1])
  }

  /** Single-flight, single timer, and a chain that never breaks while alive. */
  ghost predicate Inv(s: State) {
    && |s.open| == (if s.inFlight then 1 else 0)
    && (s.armed == {} || s.armed == {s.timer}) && s.timer == s.lastId
    && (s.alive ==> s.listening && (s.armed != {} || s.resuming > 0 || exists r <- s.open :: r.owner.TimerCallback?))
    && (!s.alive ==> s.armed == {} && !s.listening)
  }

  lemma TickKeeps(s: State, force: bool, owner: Owner)
    requires |s.open| == (if s.inFlight then 1 else 0)
    requires s.armed == {} || s.armed == {s.timer}
    ensures var s' := Tick(s, force, owner);
            && |s'.open| == (if s'.inFlight then 1 else 0) && s'.armed == s.armed && s'.timer == s.timer
            && (owner.TimerCallback? ==> s'.resuming > 0 || exists r <- s'.open :: r.owner.TimerCallback?)
            && (forall r <- s.open :: r in s'.open)
  {
    var s' := Tick(s, force, owner);
    if s'.open != s.open {
      var r := Request(owner, force, if force then "" else s.etag, false);
      assert r in s'.open;
    }
  }

  lemma SettleKeeps(s: State, i: nat)
    requires Inv(s) && i < |s.open|
    ensures Inv(Settle(s, i))
  {
    assert s.open == [s.open[0]];
  }

  lemma StepKeepsInv(s: State, e: Event)
    requires Inv(s)
    ensures Inv(Step(s, e))
  {
    match e
    case TimerFires(id) =>
      if id in s.armed { TickKeeps(s.(armed := s.armed - {id}), false, TimerCallback); }
    case Visibility(visible) => TickKeeps(s.(visible := visible), false, Nobody);
    case Refresh => TickKeeps(s.(etag := ""), true, Nobody);
    case Resume =>
    case Stop =>
    case NotModified(i) => if i < |s.open| { SettleKeeps(s, i); }
    case Failed(i) => if i < |s.open| { SettleKeeps(s, i); }
    case Body(i) => if i < |s.open| { SettleKeeps(s.(deliveries := s.deliveries + 1), i); }
    case Headers(i, next) =>
      if i < |s.open| {
        assert s.open == [s.open[0]];
        var s' := StepRequest(s, e);
        assert s'.open[0] in s'.open;
      }
  }

  lemma {:induction false} AlwaysInv(visible: bool, events: seq<Event>)
    ensures Inv(Run(visible, events))
    decreases |events|
  {
    if events != [] {
      AlwaysInv(visible, events[..|events| - 1]);
      StepKeepsInv(Run(visible, events[..|events| - 1]), events[|events| - 1]);
    }
  }

  lemma RunExtends(visible: bool, events: seq<Event>, e: Event)
    ensures Run(visible, events + [e]) == Step(Run(visible, events), e)
  {
    assert (events + [e])[..|events|] == events;
  }

  /** At most one fetch is in flight and at most one timer pending; while alive a timer is
      pending, or a timer callback is suspended in its tick or about to schedule. */
  lemma OneFetchOneTimer(visible: bool, events: seq<Event>)
    ensures var s := Run(visible, events);
            && |s.open| <= 1 && (s.open != [] <==> s.inFlight) && |s.armed| <= 1
            && (s.alive ==> s.armed != {} || s.resuming > 0 || exists r <- s.open :: r.owner.TimerCallback?)
  {
    AlwaysInv(visible, events);
  }

  /** The suspended callback does re-arm: when its request settles it becomes a resuming one,
      and resuming one leaves a fresh timer pending. */
  lemma ChainContinues(visible: bool, events: seq<Event>, e: Event)
    requires var s := Run(visible, events); s.alive && s.armed == {} && Step(s, e) != s
    ensures var s, s' := Run(visible, events), Run(visible, events + [e]);
            && (e.Resume? ==> s'.armed == {s.lastId + 1})
            && ((e.NotModified? || e.Failed? || e.Body?) ==>
                  s'.resuming == s.resuming + (if s.open[0].owner.TimerCallback? then 1 else 0)
                  && !s'.inFlight && s'.resuming > 0)
  {
    hide Run;
    RunExtends(visible, events, e);
    AlwaysInv(visible, events);
    var s := Run(visible, events);
    if e.NotModified? || e.Failed? || e.Body? {
      assert s.open == [s.open[0]];
    }
  }

  lemma StoppedStep(s: State, e: Event)
    requires Inv(s) && !s.alive
    ensures var s' := Step(s, e);
            && !s'.alive && s'.fetches == s.fetches && s'.armings == s.armings
            && s'.deliveries + |s'.open| <= s.deliveries + |s.open|
            && |s'.open| <= |s.open| && s'.deliveries >= s.deliveries
  {
  }

  /** After `stop` no fetch starts and no timer is armed, whatever else happens. At most the
      one response already under way is still delivered. */
  lemma {:induction false} StopIsFinal(visible: bool, before: seq<Event>, after: seq<Event>)
    requires !Run(visible, before).alive
    ensures var s, s' := Run(visible, before), Run(visible, before + after);
            && !s'.alive && s'.fetches == s.fetches && s'.armings == s.armings && s'.armed == {}
            && s'.deliveries + |s'.open| <= s.deliveries + |s.open| <= s.deliveries + 1
    decreases |after|
  {
    hide Step;
    AlwaysInv(visible, before + after);
    AlwaysInv(visible, before);
    if after == [] {
      assert before + after == before;
    } else {
      var n := |after| - 1;
      StopIsFinal(visible, before, after[..n]);
      AlwaysInv(visible, before + after[..n]);
      assert (before + after)[..|before + after| - 1] == before + after[..n];
      StoppedStep(Run(visible, before + after[..n]), after[n]);
    }
  }

  /** A refresh takes effect at once exactly when the poller is alive and nothing is in
      flight; otherwise it only forgets the ETag. */
  lemma RefreshFetches(visible: bool, events: seq<Event>)
    ensures var s, s' := Run(visible, events), Run(visible, events + [Refresh]);
            && (s'.fetches == s.fetches + 1 <==> s.alive && s.open == [])
            && (s'.fetches == s.fetches <==> s' == s.(etag := ""))
  {
    hide Run;
    RunExtends(visible, events, Refresh);
    AlwaysInv(visible, events);
  }

  // ---------- exactly when ----------

  /** What sets off a tick: a timer that is pending and a tab becoming visible, both only while it
      is visible, and a refresh even when it is hidden. */
  predicate Triggers(s: State, e: Event) {
    match e
    case TimerFires(id) => id in s.armed && s.visible
    case Visibility(visible) => visible
    case Refresh => true
    case _ => false
  }

  /** A fetch starts exactly when one of these happens while the poller is alive with nothing in
      flight. It sends the ETag remembered, but none on a refresh. */
  lemma FetchesExactlyWhen(visible: bool, events: seq<Event>, e: Event)
    ensures var s, s' := Run(visible, events), Run(visible, events + [e]);
            if s.alive && s.open == [] && Triggers(s, e) then
              && s'.fetches == s.fetches + 1 && s'.inFlight
              && s'.open == [Request(if e.TimerFires? then TimerCallback else Nobody, e.Refresh?,
                                     if e.Refresh? then "" else s.etag, false)]
            else s'.fetches == s.fetches && |s'.open| <= |s.open|
  {
    hide Run;
    RunExtends(visible, events, e);
    AlwaysInv(visible, events);
  }

  lemma TickKeepsTimers(s: State)
    ensures var s' := Tick(s, false, Nobody);
            && s'.armed == s.armed && s'.armings == s.armings && s'.timer == s.timer && s'.lastId == s.lastId
            && s'.alive == s.alive
  {
  }

  /** A timer is armed exactly when the poller is alive and a timer callback has finished its tick
      or the tab becomes visible; it replaces the pending one. */
  lemma ArmsExactlyWhen(visible: bool, events: seq<Event>, e: Event)
    ensures var s, s' := Run(visible, events), Run(visible, events + [e]);
            if s.alive && (e == Visibility(true) || (e.Resume? && s.resuming > 0)) then
              s'.armings == s.armings + 1 && s'.armed == {s.lastId + 1}
            else s'.armings == s.armings && s'.armed <= s.armed
  {
    hide Run;
    RunExtends(visible, events, e);
    AlwaysInv(visible, events);
    var s := Run(visible, events);
    match e
    case Visibility(_) => TickKeepsTimers(s.(visible := e.visible));
    case _ =>
  }

  /** The ETag remembered is that of the last 200 answer that had one, forgotten on a refresh. */
  lemma EtagChanges(s: State, e: Event)
    ensures Step(s, e).etag ==
              if e.Refresh? then ""
              else if e.Headers? && e.i < |s.open| && !s.open[e.i].reading && e.next != "" then e.next
              else s.etag
  {
  }

  /** A timer callback's tick is done when it starts none, or when its request ends; each resumption
      uses up one. */
  lemma CallbacksReturn(visible: bool, events: seq<Event>, e: Event)
    ensures var s, s' := Run(visible, events), Run(visible, events + [e]);
            s'.resuming - s.resuming ==
              if e.TimerFires? && e.id in s.armed && !(s.alive && s.open == [] && s.visible) then 1
              else if |s'.open| < |s.open| && s.open[0].owner.TimerCallback? then 1
              else if e.Resume? && s.resuming > 0 then -1
              else 0
  {
    hide Run;
    RunExtends(visible, events, e);
    AlwaysInv(visible, events);
  }

  /** A request ends exactly by a 304 or a body in its turn, or by a failure at any time. */
  lemma EndsExactlyWhen(visible: bool, events: seq<Event>, e: Event)
    ensures var s, s' := Run(visible, events), Run(visible, events + [e]);
            |s'.open| < |s.open| <==>
              && s.open != []
              && (e == Failed(0) || (e == NotModified(0) && !s.open[0].reading) || (e == Body(0) && s.open[0].reading))
  {
    hide Run;
    RunExtends(visible, events, e);
    AlwaysInv(visible, events);
  }

  /** Data is delivered exactly when the body of a 200 answer has been read. */
  lemma DeliversExactlyWhen(s: State, e: Event)
    ensures Step(s, e).deliveries ==
              s.deliveries + if e.Body? && e.i < |s.open| && s.open[e.i].reading then 1 else 0
  {
  }

  /** A poller starts with one forced fetch, even in a hidden tab, and one timer. */
  lemma StartsWithFetch(visible: bool)
    ensures var s := Run(visible, []);
            && s.alive && s.listening && s.visible == visible && s.fetches == 1 && s.armings == 1 && s.armed == {1}
            && s.open == [Request(Nobody, true, "", false)] && s.etag == "" && s.resuming == 0 && s.deliveries == 0
  {
  }

  // ---------- the closures ----------

  class Poller {
    var alive: bool
    var timer: nat
    var etag: string
    var inFlight: bool
    ghost var trace: State

    /** The closure's variables are those of the trace. */
    ghost predicate Tied()
      reads this
    {
      alive == trace.alive && timer == trace.timer && etag == trace.etag && inFlight == trace.inFlight
    }

    ghost predicate Valid()
      reads this
    {
      Tied() && Inv(trace)
    }

    constructor (visible: bool)
      ensures Valid() && trace == Created(visible)
    {
      alive, timer, etag, inFlight := true, 1, "", true;
      trace := Created(visible);
      new;
      AlwaysInv(visible, []);
    }

    /** `tick` up to its first await: the ETag to send, if a fetch starts. */
    method TickStart(force: bool, visible: bool, ghost owner: Owner) returns (start: bool, ifNoneMatch: string)
      requires Tied() && trace.visible == visible
      modifies this
      ensures Tied() && trace == Tick(old(trace), force, owner)
      ensures start <==> trace.fetches == old(trace).fetches + 1
      ensures start == (alive && !old(inFlight) && (force || visible))
      ensures start ==> ifNoneMatch == trace.open[|trace.open| - 1].etagSent == if force then "" else etag
      ensures alive == old(alive) && timer == old(timer) && etag == old(etag) && inFlight == (old(inFlight) || start)
    {
      start, ifNoneMatch := false, "";
      trace := Tick(trace, force, owner);
      if !alive || inFlight {
        return;
      }
      if !force && !visible {
        return;
      }
      inFlight := true;
      start, ifNoneMatch := true, if force then "" else etag;
    }

    /** `schedule`: clear the remembered timer, arm a new one. `newId` is what setTimeout returns. */
    method ScheduleNext(newId: nat)
      requires Tied() && newId == trace.lastId + 1
      modifies this
      ensures Tied() && trace == Schedule(old(trace))
    {
      trace := Schedule(trace);
      if !alive {
        return;
      }
      timer := newId;
    }

    /** The timer callback up to its first await. */
    method TimerCallbackStarts(ghost id: nat, visible: bool)
      requires Valid() && id in trace.armed && trace.visible == visible
      modifies this
      ensures Valid() && trace == Step(old(trace), TimerFires(id))
    {
      StepKeepsInv(trace, TimerFires(id));
      trace := trace.(armed := trace.armed - {id});
      var _, _ := TickStart(false, visible, TimerCallback);
    }

    /** ... and its last line. */
    method TimerCallbackResumes(newId: nat)
      requires Valid() && trace.resuming > 0 && newId == trace.lastId + 1
      modifies this
      ensures Valid() && trace == Step(old(trace), Resume)
    {
      StepKeepsInv(trace, Resume);
      trace := trace.(resuming := trace.resuming - 1);
      ScheduleNext(newId);
    }

    /** A 200 answer: remember its ETag and go on to read the body. */
    method AnswerArrives(ghost i: nat, next: string)
      requires Valid() && i < |trace.open| && !trace.open[i].reading
      modifies this
      ensures Valid() && trace == Step(old(trace), Headers(i, next))
    {
      StepKeepsInv(trace, Headers(i, next));
      if next != "" {
        etag := next;
      }
      trace := Step(trace, Headers(i, next));
    }

    /** `finally`: a tick ends by a 304, an error, or after handing its data on. */
    method TickEnds(ghost e: Event)
      requires Valid() && (e.NotModified? || e.Failed? || e.Body?) && e.i < |trace.open|
      requires (e.NotModified? ==> !trace.open[e.i].reading) && (e.Body? ==> trace.open[e.i].reading)
      modifies this
      ensures Valid() && trace == Step(old(trace), e) && !inFlight
    {
      StepKeepsInv(trace, e);
      inFlight := false;
      trace := Step(trace, e);
    }

    method OnVisibility(visible: bool, newId: nat)
      requires Valid() && newId == trace.lastId + 1
      modifies this
      ensures Valid() && trace == Step(old(trace), Visibility(visible))
    {
      StepKeepsInv(trace, Visibility(visible));
      ghost var before := trace;
      trace := trace.(visible := visible);
      if !alive || !visible {
        return;
      }
      var _, _ := TickStart(false, visible, Nobody);
      ScheduleNext(newId);
    }

    method RefreshNow(visible: bool)
      requires Valid() && trace.visible == visible
      modifies this
      ensures Valid() && trace == Step(old(trace), Refresh)
    {
      StepKeepsInv(trace, Refresh);
      etag := "";
      trace := trace.(etag := "");
      var _, _ := TickStart(true, visible, Nobody);
    }

    method StopPolling()
      requires Valid()
      modifies this
      ensures Valid() && trace == Step(old(trace), Stop)
    {
      StepKeepsInv(trace, Stop);
      alive := false;
      trace := Step(trace, Stop);
    }
  }
}
