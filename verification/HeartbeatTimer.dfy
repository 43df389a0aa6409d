/**
 The libev side of a connection: one timer that first guards the connection setup and then sends the
 heartbeats of section 4.2.7 of AMQP 0-9-1, and that must not keep the event loop alive. Time is a
 real number of seconds.
 */
module HeartbeatTimer {
  import opened Wrappers

  const CONNECT_TIMEOUT := 60

  /** `deadline` is set while the timer runs; `unrefs` counts ev_unref minus ev_ref on the loop. */
  datatype Timer = Timer(next: real, expire: real, timeout: nat, deadline: Option<real>, unrefs: int)

  /** What a handler does to the connection. */
  datatype Effect = Nothing | Heartbeat | Close

  function Earlier(a: real, b: real): real {
    if a < b then a else b
  }

  /** The time between two heartbeats: half the timeout, in whole seconds, but at least one. */
  function Interval(timeout: nat): real {
    if timeout / 2 > 1 then (timeout / 2) as real else 1.0
  }

  function Patience(timeout: nat): real {
    timeout as real * 1.5
  }

  predicate Timed(t: Timer) {
    t.expire > 0.0 || t.next > 0.0
  }

  // ---------------------------------------------------------------- the steps

  function Construct(now: real, timeout: nat): Timer {
    Timer(0.0, now + timeout as real, 0, Some(now + timeout as real), 1)
  }

  function Destroy(t: Timer): Timer {
    if !Timed(t) then t else t.(deadline := None, unrefs := t.unrefs - 1)
  }

  /** Setting the timer to run out after `min(next, expire) - now` seconds. */
  function Arm(t: Timer, now: real): Timer {
    var delay := Earlier(t.next, t.expire) - now;
    t.(deadline := Some(now + delay))
  }

  function OnExpired(t: Timer, now: real, initialized: bool): (Timer, Effect) {
    var fired := t.(deadline := None, unrefs := t.unrefs - 1);
    if t.timeout == 0 then
      (fired.(next := 0.0, expire := 0.0), if initialized then Nothing else Close)
    else if now >= t.expire then
      (fired.(next := 0.0, expire := 0.0, timeout := 0), Close)
    else
      var beat := now >= t.next;
      var set1 := if beat then fired.(next := now + Interval(t.timeout)) else fired;
      var armed := Arm(set1, now);
      (armed.(unrefs := armed.unrefs + 1), if beat then Heartbeat else Nothing)
  }

  function OnActive(t: Timer, now: real, readable: bool): Timer {
    if t.timeout != 0 && readable then t.(expire := now + Patience(t.timeout)) else t
  }

  function Start(t: Timer, now: real, timeout: nat): Timer {
    var known := t.(timeout := timeout);
    if timeout == 0 then known
    else Arm(known.(next := now + Interval(timeout), expire := now + Patience(timeout)), now)
  }

  // ---------------------------------------------------------------- runs

  datatype Event =
    | Expired(now: real, initialized: bool)
    | Active(now: real, readable: bool)
    | Negotiated(now: real, timeout: nat)

  /** A timer with what happened so far: the time of the last event, of the last read or negotiation, of
      the negotiation itself, what it came to, and the heartbeats since then. */
  datatype History = History(timer: Timer, clock: real, activity: real, since: real, negotiated: nat,
                             beats: seq<real>)

  function Begin(now: real): History {
    History(Construct(now, CONNECT_TIMEOUT), now, now, now, 0, [])
  }

  function EffectOf(h: History, e: Event): Effect {
    if e.Expired? then OnExpired(h.timer, e.now, e.initialized).1 else Nothing
  }

  function Step(h: History, e: Event): History {
    match e
    case Expired(now, initialized) =>
      var (timer, effect) := OnExpired(h.timer, now, initialized);
      h.(timer := timer, clock := now, beats := if effect == Heartbeat then h.beats + [now] else h.beats)
    case Active(now, readable) =>
      h.(timer := OnActive(h.timer, now, readable), clock := now, activity := if readable then now else h.activity)
    case Negotiated(now, timeout) =>
      History(Start(h.timer, now, timeout), now, now, now, timeout, [])
  }

  /** Time does not run backwards, and the loop calls back only when the timer runs and its deadline has
      passed. Heartbeats are negotiated
      while the timer is running: the code assumes that it need not touch the reference count. */
  predicate Legal(h: History, e: Event) {
    && e.now >= h.clock
    && (e.Expired? ==> h.timer.deadline.Some? && e.now >= h.timer.deadline.value)
    && (e.Negotiated? && e.timeout != 0 ==> Timed(h.timer))
  }

  ghost predicate LegalRun(h: History, events: seq<Event>)
    decreases |events|
  {
    events == [] || (Legal(h, events[0]) && LegalRun(Step(h, events[0]), events[1..]))
  }

  function Run(h: History, events: seq<Event>): History
    decreases |events|
  {
    if events == [] then h else Run(Step(h, events[0]), events[1..])
  }

  // ---------------------------------------------------------------- reference counting

  /** The loop is unreferenced once exactly while the timer runs, and the timer runs exactly while the
      wrapper calls itself timed. */
  predicate Balanced(t: Timer) {
    t.unrefs == (if Timed(t) then 1 else 0) && (t.deadline.Some? <==> Timed(t))
  }

  ghost predicate Running(h: History) {
    h.clock >= 0.0 && Balanced(h.timer) && (h.timer.timeout != 0 ==> Timed(h.timer))
  }

  lemma {:induction false} RunKeepsBalance(h: History, events: seq<Event>)
    requires Running(h) && LegalRun(h, events)
    ensures Running(Run(h, events))
    decreases |events|
  {
    if events != [] {
      assert Running(Step(h, events[0]));
      RunKeepsBalance(Step(h, events[0]), events[1..]);
    }
  }

  /** In every interleaving the references balance, so that a destroyed wrapper leaves the loop as it
      found it. */
  lemma LoopStaysBalanced(now: real, events: seq<Event>)
    requires now >= 0.0 && LegalRun(Begin(now), events)
    ensures var t := Run(Begin(now), events).timer;
            && Balanced(t)
            && Destroy(t).unrefs == 0 && Destroy(t).deadline == None
  {
    RunKeepsBalance(Begin(now), events);
  }

  /** The assumption is needed: negotiating keeps the balance exactly when the timer is still running or
      heartbeats are refused. */
  lemma NegotiatingNeedsARunningTimer(t: Timer, now: real, timeout: nat)
    requires Balanced(t) && now >= 0.0
    ensures Balanced(Start(t, now, timeout)) <==> Timed(t) || timeout == 0
  {
  }

  // ---------------------------------------------------------------- safety

  /** The last heartbeat, or the negotiation. */
  function LastBeat(h: History): real {
    if h.beats == [] then h.since else h.beats[|h.beats| - 1]
  }

  ghost predicate Sane(h: History) {
    var t := h.timer;
    && Running(h) && h.activity <= h.clock
    && (t.deadline.Some? ==> t.timeout == h.negotiated)
    && (t.timeout != 0 ==> t.expire == h.activity + Patience(t.timeout) && t.next > 0.0)
    && (t.deadline.Some? && t.next > 0.0 ==> t.deadline.value <= Earlier(t.next, t.expire))
    && (t.deadline.Some? && t.next <= 0.0 ==> t.deadline.value == t.expire)
    && (t.timeout != 0 ==>
          && (h.beats != [] ==> h.beats[0] >= h.since + Interval(t.timeout))
          && t.next == LastBeat(h) + Interval(t.timeout)
          && forall i :: 0 <= i < |h.beats| - 1 ==> h.beats[i + 1] >= h.beats[i] + Interval(t.timeout))
  }

  lemma StepKeepsSane(h: History, e: Event)
    requires Sane(h) && Legal(h, e)
    ensures Sane(Step(h, e))
  {
    var after := Step(h, e);
    if e.Expired? && after.beats != h.beats {
      forall i | 0 <= i < |after.beats| - 1
        ensures after.beats[i + 1] >= after.beats[i] + Interval(h.timer.timeout)
      {
        if i == |h.beats| - 1 {
          assert e.now >= h.timer.next;
        }
      }
    }
  }

  lemma {:induction false} RunKeepsSane(h: History, events: seq<Event>)
    requires Sane(h) && LegalRun(h, events)
    ensures Sane(Run(h, events))
    decreases |events|
  {
    if events != [] {
      StepKeepsSane(h, events[0]);
      RunKeepsSane(Step(h, events[0]), events[1..]);
    }
  }

  /** Once heartbeats are negotiated, the connection is closed only if nothing was read for one and a half
      timeouts; without them, not before the deadline of the setup. */
  lemma NoEarlyClose(now: real, events: seq<Event>, e: Event)
    requires now >= 0.0 && LegalRun(Begin(now), events)
    requires var h := Run(Begin(now), events); Legal(h, e) && EffectOf(h, e) == Close
    ensures var h := Run(Begin(now), events);
            && (h.timer.timeout != 0 ==> e.now - h.activity >= Patience(h.timer.timeout))
            && (h.timer.timeout == 0 ==> !e.initialized)
            && (h.timer.next == 0.0 ==> e.now >= h.timer.expire)
  {
    RunKeepsSane(Begin(now), events);
  }

  /** What an expiration does, over every run: without heartbeats it closes a connection that was never set up, and
      leaves any other alone; with them it closes if nothing was read for one and a half timeouts, and otherwise sends
      a heartbeat if the last one is long enough ago. */
  lemma ExpirationDecides(now: real, events: seq<Event>, e: Event)
    requires now >= 0.0 && LegalRun(Begin(now), events)
    requires Legal(Run(Begin(now), events), e) && e.Expired?
    ensures var h := Run(Begin(now), events);
            EffectOf(h, e) ==
              if h.negotiated == 0 then (if e.initialized then Nothing else Close)
              else if e.now >= h.activity + 1.5 * h.negotiated as real then Close
              else if e.now >= LastBeat(h) + Interval(h.negotiated) then Heartbeat
              else Nothing
  {
    RunKeepsSane(Begin(now), events);
  }

  /** Half the timeout, in whole seconds and rounded down, but at least one. */
  lemma IntervalIsHalf(timeout: nat)
    ensures Interval(timeout) == Interval(timeout).Floor as real && Interval(timeout) >= 1.0
    ensures timeout >= 2 ==> timeout as real - 1.0 <= 2.0 * Interval(timeout) <= timeout as real
    ensures timeout < 2 ==> Interval(timeout) == 1.0
  {
    assert timeout == 2 * (timeout / 2) + timeout % 2;
    assert timeout as real == 2.0 * (timeout / 2) as real + (timeout % 2) as real;
  }

  /** Whenever the handlers set the timer, they set it to a point strictly in the future, and never later
      than the next heartbeat or the expiry. */
  lemma ArmedInTheFuture(now: real, events: seq<Event>, e: Event)
    requires now >= 0.0 && LegalRun(Begin(now), events)
    requires Legal(Run(Begin(now), events), e)
    ensures var h := Run(Begin(now), events);
            var t := Step(h, e).timer;
            && ((e.Expired? || (e.Negotiated? && e.timeout != 0)) && t.deadline.Some? ==>
                  t.deadline == Some(Earlier(t.next, t.expire)) && t.deadline.value > e.now)
            && (t.timeout != 0 ==> t.deadline.Some? && t.deadline.value <= Earlier(t.next, t.expire))
  {
    RunKeepsSane(Begin(now), events);
    StepKeepsSane(Run(Begin(now), events), e);
  }

  /** Two heartbeats of one negotiation are never closer than the interval, however late the loop runs. */
  lemma HeartbeatsKeepTheirDistance(now: real, events: seq<Event>)
    requires now >= 0.0 && LegalRun(Begin(now), events)
    ensures var h := Run(Begin(now), events);
            && (h.timer.timeout != 0 && h.beats != [] ==> h.beats[0] >= h.since + Interval(h.timer.timeout))
            && (h.timer.timeout != 0 ==>
                  forall i :: 0 <= i < |h.beats| - 1 ==> h.beats[i + 1] - h.beats[i] >= Interval(h.timer.timeout))
  {
    RunKeepsSane(Begin(now), events);
  }

  // ---------------------------------------------------------------- progress

  /** A loop that is never late: no event passes the deadline, and the timer fires when it is reached. */
  predicate Punctual(h: History, e: Event) {
    && (h.timer.deadline.Some? ==> e.now <= h.timer.deadline.value)
    && (e.Expired? && h.timer.deadline.Some? ==> e.now == h.timer.deadline.value)
  }

  ghost predicate PunctualRun(h: History, events: seq<Event>)
    decreases |events|
  {
    events == [] || (Legal(h, events[0]) && Punctual(h, events[0]) && PunctualRun(Step(h, events[0]), events[1..]))
  }

  /** The end of the i-th interval after the negotiation. */
  function Beat(h: History, i: nat): real {
    if i == 0 then h.since else Beat(h, i - 1) + Interval(h.timer.timeout)
  }

  lemma {:induction false} BeatDependsOn(a: History, b: History, i: nat)
    requires a.since == b.since && a.timer.timeout == b.timer.timeout
    ensures Beat(a, i) == Beat(b, i)
  {
    if i > 0 { BeatDependsOn(a, b, i - 1); }
  }

  ghost predicate OnSchedule(h: History) {
    && Sane(h)
    && (h.timer.timeout != 0 ==>
          && h.timer.next == Beat(h, |h.beats| + 1)
          && h.clock <= h.timer.next
          && forall i :: 0 <= i < |h.beats| ==> h.beats[i] == Beat(h, i + 1))
  }

  lemma StepKeepsSchedule(h: History, e: Event)
    requires OnSchedule(h) && Legal(h, e) && Punctual(h, e)
    ensures OnSchedule(Step(h, e))
  {
    StepKeepsSane(h, e);
    var after := Step(h, e);
    if !e.Negotiated? && after.timer.timeout != 0 {
      forall i: nat ensures Beat(after, i) == Beat(h, i) {
        BeatDependsOn(after, h, i);
      }
    }
  }

  lemma {:induction false} RunKeepsSchedule(h: History, events: seq<Event>)
    requires OnSchedule(h) && PunctualRun(h, events)
    ensures OnSchedule(Run(h, events))
    decreases |events|
  {
    if events != [] {
      StepKeepsSchedule(h, events[0]);
      RunKeepsSchedule(Step(h, events[0]), events[1..]);
    }
  }

  /** With a punctual loop, and however much traffic there is, the heartbeats go out exactly every interval
      after the negotiation, and none is overdue. */
  lemma HeartbeatsOnSchedule(now: real, events: seq<Event>)
    requires now >= 0.0 && PunctualRun(Begin(now), events)
    ensures var h := Run(Begin(now), events);
            h.timer.timeout != 0 ==>
              && (forall i :: 0 <= i < |h.beats| ==> h.beats[i] == Beat(h, i + 1))
              && h.clock <= Beat(h, |h.beats| + 1)
  {
    RunKeepsSchedule(Begin(now), events);
  }

  /** With a punctual loop, a connection is closed at the moment when one and a half timeouts have passed since
      the last read, and not later. */
  lemma TimelyClose(now: real, events: seq<Event>)
    requires now >= 0.0 && PunctualRun(Begin(now), events)
    ensures var h := Run(Begin(now), events);
            h.timer.timeout != 0 ==>
              && h.clock <= h.activity + Patience(h.timer.timeout)
              && forall e :: Legal(h, e) && Punctual(h, e) && EffectOf(h, e) == Close ==>
                   e.now == h.activity + Patience(h.timer.timeout)
  {
    RunKeepsTimely(Begin(now), events);
  }

  /** With a punctual loop, a connection that negotiates no heartbeats is closed, unless it is initialized, exactly
      sixty seconds after its wrapper was made, whatever is read until then. */
  lemma SetupTimesOut(now: real, events: seq<Event>, e: Event)
    requires now >= 0.0 && PunctualRun(Begin(now), events)
    requires forall i :: 0 <= i < |events| ==> NoHeartbeats(events[i])
    requires var h := Run(Begin(now), events); Legal(h, e) && Punctual(h, e)
    ensures var h := Run(Begin(now), events);
            && h.timer.deadline == Some(now + 60.0)
            && e.now <= now + 60.0
            && (e.Expired? ==> e.now == now + 60.0 && EffectOf(h, e) == if e.initialized then Nothing else Close)
  {
    OnlyReading(Begin(now), events);
  }

  predicate NoHeartbeats(e: Event) {
    e.Active? || (e.Negotiated? && e.timeout == 0)
  }

  lemma {:induction false} OnlyReading(h: History, events: seq<Event>)
    requires h.timer.timeout == 0 && forall i :: 0 <= i < |events| ==> NoHeartbeats(events[i])
    ensures Run(h, events).timer == h.timer
    decreases |events|
  {
    if events != [] {
      OnlyReading(Step(h, events[0]), events[1..]);
    }
  }

  ghost predicate Timely(h: History) {
    Sane(h) && (h.timer.timeout != 0 ==> h.clock <= h.activity + Patience(h.timer.timeout))
  }

  lemma {:induction false} RunKeepsTimely(h: History, events: seq<Event>)
    requires Timely(h) && PunctualRun(h, events)
    ensures Timely(Run(h, events))
    decreases |events|
  {
    if events != [] {
      StepKeepsSane(h, events[0]);
      RunKeepsTimely(Step(h, events[0]), events[1..]);
    }
  }

  /** A silent peer and a punctual loop: nothing happens but the next `n` expirations. */
  function Waiting(h: History, n: nat): seq<Event>
    decreases n
  {
    if n == 0 || h.timer.deadline.None? then []
    else [NextExpiry(h)] + Waiting(Step(h, NextExpiry(h)), n - 1)
  }

  function NextExpiry(h: History): Event
    requires h.timer.deadline.Some?
  {
    Expired(h.timer.deadline.value, true)
  }

  function Wait(h: History, n: nat): History {
    Run(h, Waiting(h, n))
  }

  lemma WaitOnce(h: History, n: nat)
    requires n >= 1 && h.timer.deadline.Some?
    ensures Wait(h, n) == Wait(Step(h, NextExpiry(h)), n - 1)
  {
    assert Waiting(h, n)[1..] == Waiting(Step(h, NextExpiry(h)), n - 1);
  }

  /** How many heartbeats a silent peer gets: those that fit before the close. The intention is two, with the
      close at the time of the third; the whole-second interval makes it more or fewer for odd timeouts. */
  function BeatsBeforeClose(timeout: nat): nat
    requires timeout >= 1
  {
    if timeout % 2 == 0 then 2 else if timeout == 1 then 1 else if timeout == 3 then 4 else 3
  }

  lemma BeatsThatFit(timeout: nat)
    requires timeout >= 1
    ensures var n, i := BeatsBeforeClose(timeout), Interval(timeout);
            n as real * i < Patience(timeout) <= (n + 1) as real * i
  {
    var half := timeout / 2;
    assert timeout == 2 * half + timeout % 2;
    assert timeout as real == 2.0 * half as real + (timeout % 2) as real;
  }

  /** In the i-th interval after the negotiation, with nothing read. */
  ghost predicate Unanswered(h: History, since: real, timeout: nat, i: nat) {
    && h.timer.timeout == timeout && |h.beats| == i
    && h.timer.next == since + (i + 1) as real * Interval(timeout)
    && h.timer.expire == since + Patience(timeout)
    && h.timer.deadline == Some(Earlier(h.timer.next, h.timer.expire))
    && h.clock <= h.timer.deadline.value
  }

  lemma WaitOneInterval(h: History, since: real, timeout: nat, i: nat)
    requires timeout >= 1 && Unanswered(h, since, timeout, i) && h.timer.next < h.timer.expire
    ensures EffectOf(h, NextExpiry(h)) == Heartbeat && Unanswered(Step(h, NextExpiry(h)), since, timeout, i + 1)
  {
    assert (i + 2) as real * Interval(timeout) == (i + 1) as real * Interval(timeout) + Interval(timeout);
  }

  lemma {:induction false} WaitForIntervals(h: History, since: real, timeout: nat, i: nat, n: nat)
    requires timeout >= 1 && Unanswered(h, since, timeout, i) && i + n <= BeatsBeforeClose(timeout)
    ensures Unanswered(Wait(h, n), since, timeout, i + n) && PunctualRun(h, Waiting(h, n))
    decreases n
  {
    if n > 0 {
      BeatsThatFit(timeout);
      Fewer(i + 1, BeatsBeforeClose(timeout), Interval(timeout));
      hide Interval, Patience, BeatsBeforeClose;
      WaitOnce(h, n);
      WaitOneInterval(h, since, timeout, i);
      var next := NextExpiry(h);
      assert Legal(h, next) && Punctual(h, next);
      assert Waiting(h, n)[1..] == Waiting(Step(h, next), n - 1);
      hide Step, Unanswered, Wait;
      WaitForIntervals(Step(h, next), since, timeout, i + 1, n - 1);
    }
  }

  lemma Fewer(a: nat, b: nat, interval: real)
    requires a <= b && interval >= 0.0
    ensures a as real * interval <= b as real * interval
  {
    assert b as real * interval - a as real * interval == (b as real - a as real) * interval;
  }

  /** Whatever was before: a peer that is silent from the negotiation on gets that many heartbeats, and with the
      next expiration, one and a half timeouts after the negotiation, the connection is closed. */
  lemma SilentPeer(h: History, now: real, timeout: nat)
    requires timeout >= 1
    ensures var s, n := Step(h, Negotiated(now, timeout)), BeatsBeforeClose(timeout);
            var last := Wait(s, n);
            && PunctualRun(s, Waiting(s, n))
            && |last.beats| == n
            && last.timer.deadline == Some(now + Patience(timeout))
            && EffectOf(last, NextExpiry(last)) == Close
  {
    var s, n := Step(h, Negotiated(now, timeout)), BeatsBeforeClose(timeout);
    assert Unanswered(s, now, timeout, 0);
    WaitForIntervals(s, now, timeout, 0, n);
    BeatsThatFit(timeout);
  }

  lemma {:induction false} WaitFurther(h: History, n: nat, m: nat)
    ensures Wait(h, n + m) == Wait(Wait(h, n), m)
    decreases n
  {
    if n > 0 {
      if h.timer.deadline.Some? {
        WaitOnce(h, n);
        WaitOnce(h, n + m);
        WaitFurther(Step(h, NextExpiry(h)), n - 1, m);
      } else {
        assert Waiting(h, n) == Waiting(h, m) == Waiting(h, n + m) == [];
      }
    }
  }

  /** So a silent peer is closed on after two heartbeats, with the third, exactly if the timeout is even. */
  lemma TwoHeartbeatsIffEven(h: History, now: real, timeout: nat, n: nat)
    requires timeout >= 1
    requires var last := Wait(Step(h, Negotiated(now, timeout)), n);
             last.timer.deadline.Some? && EffectOf(last, NextExpiry(last)) == Close
    ensures |Wait(Step(h, Negotiated(now, timeout)), n).beats| == 2 <==> timeout % 2 == 0
  {
    var s, total := Step(h, Negotiated(now, timeout)), BeatsBeforeClose(timeout);
    assert Unanswered(s, now, timeout, 0);
    if n < total {
      BeatGoesOut(s, now, timeout, n);
    } else {
      SilentPeer(h, now, timeout);
      WaitFurther(s, total, n - total);
      WaitAfterClose(Wait(s, total), n - total);
    }
    hide Wait, EffectOf, Unanswered;
  }

  lemma BeatGoesOut(s: History, since: real, timeout: nat, n: nat)
    requires timeout >= 1 && Unanswered(s, since, timeout, 0) && n < BeatsBeforeClose(timeout)
    ensures var last := Wait(s, n); last.timer.deadline.Some? && EffectOf(last, NextExpiry(last)) == Heartbeat
  {
    WaitForIntervals(s, since, timeout, 0, n);
    BeatsThatFit(timeout);
    Fewer(n + 1, BeatsBeforeClose(timeout), Interval(timeout));
    WaitOneInterval(Wait(s, n), since, timeout, n);
  }

  lemma WaitAfterClose(h: History, n: nat)
    requires h.timer.deadline.Some? && EffectOf(h, NextExpiry(h)) == Close
    ensures if n == 0 then Wait(h, n) == h else Wait(h, n).timer.deadline.None?
  {
    if n > 0 {
      WaitOnce(h, n);
    }
  }

  // ---------------------------------------------------------------- the wrapper object

  /** The event loop: its clock, and its reference count relative to where it started. */
  class EvLoop {
    var now: real
    var refs: int

    constructor (now: real)
      ensures this.now == now && refs == 0
    {
      this.now, refs := now, 0;
    }

    method Ref()
      modifies this`refs
      ensures refs == old(refs) + 1
    {
      refs := refs + 1;
    }

    method Unref()
      modifies this`refs
      ensures refs == old(refs) - 1
    {
      refs := refs - 1;
    }
  }

  /** The wrapper of one connection. `unrefs` is its own share of the reference count of the loop. */
  class Wrapper {
    const loop: EvLoop
    var next: real
    var expire: real
    var timeout: nat
    var deadline: Option<real>
    ghost var unrefs: int

    ghost function View(): Timer
      reads this
    {
      Timer(next, expire, timeout, deadline, unrefs)
    }

    constructor (loop: EvLoop, connectTimeout: nat)
      modifies loop`refs
      ensures this.loop == loop && View() == Construct(loop.now, connectTimeout)
      ensures loop.refs == old(loop.refs) - View().unrefs
    {
      this.loop := loop;
      next, timeout := 0.0, 0;
      expire := loop.now + connectTimeout as real;
      deadline := Some(loop.now + connectTimeout as real);
      unrefs := 1;
      new;
      loop.Unref();
    }

    method SetTimer(delay: real)
      modifies this`deadline
      ensures View() == old(View()).(deadline := Some(loop.now + delay))
    {
      deadline := Some(loop.now + delay);
    }

    method Expire(initialized: bool) returns (effect: Effect)
      modifies this, loop`refs
      ensures (View(), effect) == OnExpired(old(View()), loop.now, initialized)
      ensures loop.refs + unrefs == old(loop.refs) + old(unrefs)
    {
      var now := loop.now;
      effect := Nothing;
      deadline := None;
      loop.Ref();
      unrefs := unrefs - 1;
      if timeout == 0 {
        next, expire := 0.0, 0.0;
        if initialized { return; }
        return Close;
      } else if now >= expire {
        next, expire := 0.0, 0.0;
        timeout := 0;
        return Close;
      } else if now >= next {
        effect := Heartbeat;
        next := now + Interval(timeout);
      }
      SetTimer(Earlier(next, expire) - now);
      loop.Unref();
      unrefs := unrefs + 1;
    }

    method Activate(readable: bool)
      modifies this`expire
      ensures View() == OnActive(old(View()), loop.now, readable)
    {
      if timeout != 0 && readable {
        expire := loop.now + Patience(timeout);
      }
    }

    method StartHeartbeats(proposed: nat) returns (accepted: nat)
      modifies this
      ensures View() == Start(old(View()), loop.now, proposed) && accepted == proposed
    {
      timeout := proposed;
      if timeout == 0 { return 0; }
      var now := loop.now;
      next := now + Interval(timeout);
      expire := now + Patience(timeout);
      deadline := None;
      SetTimer(Earlier(next, expire) - now);
      return timeout;
    }

    method Stop()
      modifies this, loop`refs
      ensures View() == Destroy(old(View()))
      ensures loop.refs + unrefs == old(loop.refs) + old(unrefs)
    {
      if !(expire > 0.0 || next > 0.0) { return; }
      deadline := None;
      loop.Ref();
      unrefs := unrefs - 1;
    }
  }

  // ---------------------------------------------------------------- the handler and its wrappers

  /** One watched connection: its timer and the file descriptors that are monitored for it. */
  datatype Entry = Entry(connection: nat, timer: Timer, watchers: seq<(int, int)>)

  /** The handler; `residue` is what destroyed wrappers have left on the loop. */
  datatype Handler = Handler(entries: seq<Entry>, residue: int)

  datatype Request =
    | MonitorFd(connection: nat, now: real, fd: int, flags: int)
    | Negotiate(connection: nat, now: real, timeout: nat)
    | TimerExpired(connection: nat, now: real, initialized: bool)
    | FdActive(connection: nat, now: real, readable: bool)
    | Detached(connection: nat)

  function Position(entries: seq<Entry>, connection: nat): (i: nat)
    ensures i <= |entries|
    ensures i < |entries| ==> entries[i].connection == connection
    ensures forall k :: 0 <= k < i ==> entries[k].connection != connection
  {
    if entries == [] || entries[0].connection == connection then 0 else Position(entries[1..], connection) + 1
  }

  /** Looking up a connection: an unknown one gets a wrapper of its own. */
  function Lookup(h: Handler, connection: nat, now: real): Handler {
    if Position(h.entries, connection) < |h.entries| then h
    else h.(entries := h.entries + [Entry(connection, Construct(now, CONNECT_TIMEOUT), [])])
  }

  function WatchFd(watchers: seq<(int, int)>, fd: int, flags: int): seq<(int, int)> {
    if flags == 0 then Unwatch(watchers, fd)
    else if watchers == [] then [(fd, flags)]
    else if watchers[0].0 == fd then [(fd, flags)] + watchers[1..]
    else [watchers[0]] + WatchFd(watchers[1..], fd, flags)
  }

  function Unwatch(watchers: seq<(int, int)>, fd: int): seq<(int, int)> {
    if watchers == [] then []
    else (if watchers[0].0 == fd then [] else [watchers[0]]) + Unwatch(watchers[1..], fd)
  }

  function Detach(h: Handler, connection: nat): Handler
    decreases |h.entries|
  {
    if h.entries == [] then h
    else
      var first, rest := h.entries[0], Detach(h.(entries := h.entries[1..]), connection);
      if first.connection == connection then rest.(residue := rest.residue + Destroy(first.timer).unrefs)
      else rest.(entries := [first] + rest.entries)
  }

  function Update(h: Handler, i: nat, e: Entry): Handler
    requires i < |h.entries|
  {
    h.(entries := h.entries[i := e])
  }

  /** One request. The loop calls only wrappers that exist. */
  function Serve(h: Handler, r: Request): Handler {
    match r
    case MonitorFd(connection, now, fd, flags) =>
      var found := Lookup(h, connection, now);
      LookupFinds(h, connection, now);
      var i := Position(found.entries, connection);
      var e := found.entries[i];
      Update(found, i, e.(watchers := WatchFd(e.watchers, fd, flags)))
    case Negotiate(connection, now, timeout) =>
      var found := Lookup(h, connection, now);
      LookupFinds(h, connection, now);
      var i := Position(found.entries, connection);
      var e := found.entries[i];
      Update(found, i, e.(timer := Start(e.timer, now, timeout)))
    case TimerExpired(connection, now, initialized) =>
      var i := Position(h.entries, connection);
      if i == |h.entries| then h
      else Update(h, i, h.entries[i].(timer := OnExpired(h.entries[i].timer, now, initialized).0))
    case FdActive(connection, now, readable) =>
      var i := Position(h.entries, connection);
      if i == |h.entries| then h
      else Update(h, i, h.entries[i].(timer := OnActive(h.entries[i].timer, now, readable)))
    case Detached(connection) => Detach(h, connection)
  }

  lemma LookupFinds(h: Handler, connection: nat, now: real)
    ensures Position(Lookup(h, connection, now).entries, connection) < |Lookup(h, connection, now).entries|
  {
    var entries := Lookup(h, connection, now).entries;
    if Position(h.entries, connection) == |h.entries| {
      assert entries[|h.entries|].connection == connection;
    }
  }

  /** The requests that can happen: a running timer expires, and heartbeats are negotiated while the timer of
      the connection is running, which it is for a connection that is new. */
  predicate Possible(h: Handler, r: Request) {
    match r
    case MonitorFd(_, now, _, _) => now >= 0.0
    case Negotiate(connection, now, timeout) =>
      var i := Position(h.entries, connection);
      now >= 0.0 && (timeout == 0 || i == |h.entries| || Timed(h.entries[i].timer))
    case TimerExpired(connection, now, _) =>
      var i := Position(h.entries, connection);
      now >= 0.0 && i < |h.entries| && h.entries[i].timer.deadline.Some?
    case FdActive(_, now, _) => now >= 0.0
    case Detached(_) => true
  }

  ghost predicate PossibleRun(h: Handler, requests: seq<Request>)
    decreases |requests|
  {
    requests == [] || (Possible(h, requests[0]) && PossibleRun(Serve(h, requests[0]), requests[1..]))
  }

  function ServeAll(h: Handler, requests: seq<Request>): Handler
    decreases |requests|
  {
    if requests == [] then h else ServeAll(Serve(h, requests[0]), requests[1..])
  }

  predicate Distinct(watchers: seq<(int, int)>) {
    forall i, j :: 0 <= i < j < |watchers| ==> watchers[i].0 != watchers[j].0
  }

  ghost predicate Healthy(e: Entry) {
    Balanced(e.timer) && (e.timer.timeout != 0 ==> Timed(e.timer)) && Distinct(e.watchers)
  }

  /** One wrapper for each connection, each of them in balance, and nothing left by the destroyed ones. */
  ghost predicate Tidy(h: Handler) {
    && h.residue == 0
    && (forall i :: 0 <= i < |h.entries| ==> Healthy(h.entries[i]))
    && forall i, j :: 0 <= i < j < |h.entries| ==> h.entries[i].connection != h.entries[j].connection
  }

  lemma {:induction false} UnwatchRemoves(watchers: seq<(int, int)>, fd: int)
    ensures forall w :: w in Unwatch(watchers, fd) <==> w in watchers && w.0 != fd
    ensures Distinct(watchers) ==> Distinct(Unwatch(watchers, fd))
  {
    if watchers != [] {
      var rest := watchers[1..];
      UnwatchRemoves(rest, fd);
      assert watchers == [watchers[0]] + rest;
      if Distinct(watchers) {
        assert Distinct(rest);
        assert forall w :: w in rest ==> w.0 != watchers[0].0;
        DistinctCons(watchers[0], Unwatch(rest, fd));
      }
    }
  }

  lemma DistinctCons(w: (int, int), rest: seq<(int, int)>)
    requires Distinct(rest) && forall v :: v in rest ==> v.0 != w.0
    ensures Distinct([w] + rest)
  {
  }

  /** Monitoring is a map from descriptors to flags, in which flags zero mean absence. */
  lemma {:induction false} WatchingIsAMap(watchers: seq<(int, int)>, fd: int, flags: int)
    requires Distinct(watchers)
    ensures Distinct(WatchFd(watchers, fd, flags))
    ensures forall w :: w in WatchFd(watchers, fd, flags) <==>
              (w == (fd, flags) && flags != 0) || (w in watchers && w.0 != fd)
  {
    if flags == 0 {
      UnwatchRemoves(watchers, fd);
    } else if watchers != [] {
      var rest := watchers[1..];
      assert watchers == [watchers[0]] + rest;
      assert Distinct(rest);
      assert forall w :: w in rest ==> w.0 != watchers[0].0;
      if watchers[0].0 == fd {
        DistinctCons((fd, flags), rest);
      } else {
        WatchingIsAMap(rest, fd, flags);
        DistinctCons(watchers[0], WatchFd(rest, fd, flags));
      }
    }
  }

  lemma {:induction false} DetachRemoves(h: Handler, connection: nat)
    requires Tidy(h)
    ensures var after := Detach(h, connection);
            && Tidy(after)
            && forall e :: e in after.entries <==> e in h.entries && e.connection != connection
    decreases |h.entries|
  {
    if h.entries != [] {
      var first := h.entries[0];
      var tail := h.(entries := h.entries[1..]);
      assert Healthy(first);
      assert h.entries == [first] + tail.entries;
      DetachRemoves(tail, connection);
      var rest := Detach(tail, connection);
      forall e | e in rest.entries ensures e.connection != first.connection {
        assert e in tail.entries;
      }
    }
  }

  lemma LookupKeepsTidy(h: Handler, connection: nat, now: real)
    requires Tidy(h) && now >= 0.0
    ensures Tidy(Lookup(h, connection, now))
  {
    assert Healthy(Entry(connection, Construct(now, CONNECT_TIMEOUT), []));
  }

  lemma UpdateKeepsTidy(h: Handler, i: nat, e: Entry)
    requires Tidy(h) && i < |h.entries| && Healthy(e) && e.connection == h.entries[i].connection
    ensures Tidy(Update(h, i, e))
  {
  }

  lemma ServeKeepsTidy(h: Handler, r: Request)
    requires Tidy(h) && Possible(h, r)
    ensures Tidy(Serve(h, r))
  {
    match r
    case MonitorFd(connection, now, fd, flags) =>
      var found := Lookup(h, connection, now);
      LookupFinds(h, connection, now);
      LookupKeepsTidy(h, connection, now);
      var i := Position(found.entries, connection);
      var e := found.entries[i];
      assert Healthy(e);
      WatchingIsAMap(e.watchers, fd, flags);
      UpdateKeepsTidy(found, i, e.(watchers := WatchFd(e.watchers, fd, flags)));
    case Negotiate(connection, now, timeout) =>
      var found := Lookup(h, connection, now);
      LookupFinds(h, connection, now);
      LookupKeepsTidy(h, connection, now);
      var i := Position(found.entries, connection);
      var e := found.entries[i];
      assert Healthy(e);
      UpdateKeepsTidy(found, i, e.(timer := Start(e.timer, now, timeout)));
    case TimerExpired(connection, now, initialized) =>
      var i := Position(h.entries, connection);
      var e := h.entries[i];
      assert Healthy(e);
      UpdateKeepsTidy(h, i, e.(timer := OnExpired(e.timer, now, initialized).0));
    case FdActive(connection, now, readable) =>
      var i := Position(h.entries, connection);
      if i < |h.entries| {
        var e := h.entries[i];
        assert Healthy(e);
        UpdateKeepsTidy(h, i, e.(timer := OnActive(e.timer, now, readable)));
      }
    case Detached(connection) => DetachRemoves(h, connection);
  }

  function EntryOf(h: Handler, connection: nat): Option<Entry> {
    var i := Position(h.entries, connection);
    if i < |h.entries| then Some(h.entries[i]) else None
  }

  /** The entry of a connection, or the one that a new connection gets. */
  function EntryOrNew(h: Handler, connection: nat, now: real): Entry {
    match EntryOf(h, connection)
    case Some(e) => e
    case None => Entry(connection, Construct(now, 60), [])
  }

  /** Every request acts on the wrapper of its own connection, as that wrapper's handler does, and on no other. */
  lemma ServeActsOnItsOwn(h: Handler, r: Request, other: nat)
    requires Tidy(h) && Possible(h, r)
    ensures var after := Serve(h, r);
            && (other != r.connection ==> EntryOf(after, other) == EntryOf(h, other))
            && EntryOf(after, r.connection) ==
               match r
               case MonitorFd(connection, now, fd, flags) =>
                 var e := EntryOrNew(h, connection, now);
                 Some(e.(watchers := WatchFd(e.watchers, fd, flags)))
               case Negotiate(connection, now, timeout) =>
                 var e := EntryOrNew(h, connection, now);
                 Some(e.(timer := Start(e.timer, now, timeout)))
               case TimerExpired(connection, now, initialized) =>
                 var e := EntryOrNew(h, connection, now);
                 Some(e.(timer := OnExpired(e.timer, now, initialized).0))
               case FdActive(connection, now, readable) =>
                 (match EntryOf(h, connection)
                  case None => None
                  case Some(e) => Some(e.(timer := OnActive(e.timer, now, readable))))
               case Detached(_) => None
  {
    hide OnExpired, OnActive, Start, WatchFd, Tidy;
    match r
    case MonitorFd(connection, now, fd, flags) =>
      LookupFinds(h, connection, now);
      LookupKeepsOthers(h, connection, now, other);
      var found := Lookup(h, connection, now);
      var e := found.entries[Position(found.entries, connection)];
      UpdateKeepsOthers(found, connection, e.(watchers := WatchFd(e.watchers, fd, flags)), other);
    case Negotiate(connection, now, timeout) =>
      LookupFinds(h, connection, now);
      LookupKeepsOthers(h, connection, now, other);
      var found := Lookup(h, connection, now);
      var e := found.entries[Position(found.entries, connection)];
      UpdateKeepsOthers(found, connection, e.(timer := Start(e.timer, now, timeout)), other);
    case TimerExpired(connection, now, initialized) =>
      var e := h.entries[Position(h.entries, connection)];
      UpdateKeepsOthers(h, connection, e.(timer := OnExpired(e.timer, now, initialized).0), other);
    case FdActive(connection, now, readable) =>
      if Position(h.entries, connection) < |h.entries| {
        var e := h.entries[Position(h.entries, connection)];
        UpdateKeepsOthers(h, connection, e.(timer := OnActive(e.timer, now, readable)), other);
      }
    case Detached(connection) =>
      DetachKeepsOthers(h, connection, other);
  }

  lemma {:induction false} PositionAfter(a: seq<Entry>, b: seq<Entry>, connection: nat)
    ensures Position(a + b, connection)
         == if Position(a, connection) < |a| then Position(a, connection) else |a| + Position(b, connection)
  {
    if a == [] {
      assert a + b == b;
    } else {
      assert (a + b)[1..] == a[1..] + b;
      PositionAfter(a[1..], b, connection);
    }
  }

  lemma LookupKeepsOthers(h: Handler, connection: nat, now: real, other: nat)
    ensures var found := Lookup(h, connection, now);
            && EntryOf(found, connection) == Some(EntryOrNew(h, connection, now))
            && (other != connection ==> EntryOf(found, other) == EntryOf(h, other))
  {
    var more := [Entry(connection, Construct(now, CONNECT_TIMEOUT), [])];
    PositionAfter(h.entries, more, connection);
    PositionAfter(h.entries, more, other);
    assert Position(more, connection) == 0;
    assert other != connection ==> Position(more, other) == 1;
  }

  lemma UpdateKeepsOthers(h: Handler, connection: nat, e: Entry, other: nat)
    requires Position(h.entries, connection) < |h.entries| && e.connection == connection
    ensures var after := Update(h, Position(h.entries, connection), e);
            && EntryOf(after, connection) == Some(e)
            && (other != connection ==> EntryOf(after, other) == EntryOf(h, other))
  {
    SamePositions(h.entries, Position(h.entries, connection), e, connection);
    SamePositions(h.entries, Position(h.entries, connection), e, other);
  }

  lemma {:induction false} SamePositions(entries: seq<Entry>, i: nat, e: Entry, connection: nat)
    requires i < |entries| && e.connection == entries[i].connection
    ensures Position(entries[i := e], connection) == Position(entries, connection)
  {
    if i > 0 {
      assert entries[i := e][1..] == entries[1..][i - 1 := e];
      SamePositions(entries[1..], i - 1, e, connection);
    } else {
      assert entries[0 := e][1..] == entries[1..];
    }
  }

  lemma InFront(first: Entry, h: Handler, connection: nat)
    ensures EntryOf(h.(entries := [first] + h.entries), connection)
         == if first.connection == connection then Some(first) else EntryOf(h, connection)
  {
    assert ([first] + h.entries)[1..] == h.entries;
  }

  lemma {:induction false} DetachKeepsOthers(h: Handler, connection: nat, other: nat)
    ensures EntryOf(Detach(h, connection), connection) == None
    ensures other != connection ==> EntryOf(Detach(h, connection), other) == EntryOf(h, other)
    decreases |h.entries|
  {
    if h.entries != [] {
      var first, tail := h.entries[0], h.(entries := h.entries[1..]);
      assert h.entries == [first] + tail.entries && h == tail.(entries := [first] + tail.entries);
      DetachKeepsOthers(tail, connection, other);
      var rest := Detach(tail, connection);
      InFront(first, tail, other);
      InFront(first, rest, connection);
      InFront(first, rest, other);
      SameEntries(rest, rest.(residue := rest.residue + Destroy(first.timer).unrefs), connection);
      SameEntries(rest, rest.(residue := rest.residue + Destroy(first.timer).unrefs), other);
      hide EntryOf;
    }
  }

  lemma SameEntries(a: Handler, b: Handler, connection: nat)
    requires a.entries == b.entries
    ensures EntryOf(a, connection) == EntryOf(b, connection)
  {
  }

  function LoopUnrefs(entries: seq<Entry>): int {
    if entries == [] then 0 else entries[0].timer.unrefs + LoopUnrefs(entries[1..])
  }

  function RunningTimers(entries: seq<Entry>): nat {
    if entries == [] then 0
    else (if entries[0].timer.deadline.Some? then 1 else 0) + RunningTimers(entries[1..])
  }

  lemma {:induction false} UnrefsCountTimers(entries: seq<Entry>)
    requires forall i :: 0 <= i < |entries| ==> Healthy(entries[i])
    ensures LoopUnrefs(entries) == RunningTimers(entries)
  {
    if entries != [] {
      assert Healthy(entries[0]);
      UnrefsCountTimers(entries[1..]);
    }
  }

  /** Over every run of the handler: each connection has one wrapper, and the loop is unreferenced once for
      each running timer and for nothing else, also after connections have been detached. */
  lemma {:induction false} HandlerKeepsLoopBalanced(h: Handler, requests: seq<Request>)
    requires Tidy(h) && PossibleRun(h, requests)
    ensures var after := ServeAll(h, requests);
            && Tidy(after)
            && LoopUnrefs(after.entries) + after.residue == RunningTimers(after.entries)
    decreases |requests|
  {
    if requests == [] {
      UnrefsCountTimers(h.entries);
    } else {
      ServeKeepsTidy(h, requests[0]);
      HandlerKeepsLoopBalanced(Serve(h, requests[0]), requests[1..]);
    }
  }
}
