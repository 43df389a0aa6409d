/**
 Monitors and the objects they watch. A watchable keeps a vector of the monitors that point to it, so
 that its destructor can tell them; a monitor is valid as long as its target lives.
 */
module Monitors {
  import opened Wrappers

  // ---------------------------------------------------------------- the vector

  /** What std::remove followed by erase leaves. */
  function Without<T(==)>(s: seq<T>, x: T): seq<T> {
    if s == [] then []
    else (if s[0] == x then [] else [s[0]]) + Without(s[1..], x)
  }

  ghost predicate NoRepeats<T>(s: seq<T>) {
    forall i, j :: 0 <= i < j < |s| ==> s[i] != s[j]
  }

  lemma {:induction false} WithoutRemoves<T>(s: seq<T>, x: T)
    ensures forall y :: y in Without(s, x) <==> y in s && y != x
    ensures NoRepeats(s) ==> NoRepeats(Without(s, x))
    ensures x !in s ==> Without(s, x) == s
  {
    if s != [] {
      WithoutRemoves(s[1..], x);
      assert s == [s[0]] + s[1..];
      if NoRepeats(s) {
        assert NoRepeats(s[1..]);
        assert s[0] !in s[1..];
      }
    }
  }

  lemma {:induction false} WithoutMember<T>(s: seq<T>, x: T, y: T)
    ensures y in Without(s, x) <==> y in s && y != x
  {
    if s != [] {
      WithoutMember(s[1..], x, y);
      assert s == [s[0]] + s[1..];
    }
  }

  /** Removing one monitor keeps the order of the others. */
  lemma {:induction false} WithoutKeepsOrder<T>(s: seq<T>, x: T, t: seq<T>)
    ensures Without(s + t, x) == Without(s, x) + Without(t, x)
  {
    if s == [] {
      assert s + t == t;
    } else {
      assert (s + t)[1..] == s[1..] + t;
      WithoutKeepsOrder(s[1..], x, t);
    }
  }

  // ---------------------------------------------------------------- links as values

  /** The live monitors with what they point to, and the live watchables with their vectors. */
  datatype Links<M(==), W(==)> = Links(targets: map<M, Option<W>>, vectors: map<W, seq<M>>)

  datatype Event<M, W> =
    | WatchableMade(w: W)
    | Watched(m: M, w: W)
    | Copied(m: M, that: M)
    | Assigned(m: M, that: M)
    | MonitorGone(m: M)
    | WatchableGone(w: W)

  /** Every vector holds, without repeats, exactly the live monitors that point to its owner, and no monitor
      points to anything that is not alive. */
  ghost predicate Consistent<M, W>(v: Links<M, W>) {
    && (forall w :: w in v.vectors ==> NoRepeats(v.vectors[w]))
    && (forall w, m {:trigger m in v.vectors[w]} ::
          w in v.vectors && m in v.vectors[w] ==> m in v.targets && v.targets[m] == Some(w))
    && (forall m :: m in v.targets && v.targets[m].Some? ==>
          v.targets[m].value in v.vectors && m in v.vectors[v.targets[m].value])
  }

  /** The same, but one monitor is in no vector yet, or in none any more. */
  ghost predicate ConsistentApart<M, W>(v: Links<M, W>, m: M) {
    && (forall w :: w in v.vectors ==> NoRepeats(v.vectors[w]))
    && (forall w, x {:trigger x in v.vectors[w]} ::
          w in v.vectors && x in v.vectors[w] ==> x != m && x in v.targets && v.targets[x] == Some(w))
    && (forall x :: x in v.targets && x != m && v.targets[x].Some? ==>
          v.targets[x].value in v.vectors && x in v.vectors[v.targets[x].value])
  }

  /** New objects are new, and everything else is done to objects that live. */
  ghost predicate Possible<M, W>(v: Links<M, W>, e: Event<M, W>) {
    match e
    case WatchableMade(w) => w !in v.vectors
    case Watched(m, w) => m !in v.targets && w in v.vectors
    case Copied(m, that) => m !in v.targets && that in v.targets
    case Assigned(m, that) => m in v.targets && that in v.targets
    case MonitorGone(m) => m in v.targets
    case WatchableGone(w) => w in v.vectors
  }

  ghost function Unlink<M, W>(v: Links<M, W>, m: M): Links<M, W>
    requires Consistent(v) && m in v.targets
  {
    match v.targets[m]
    case None => v
    case Some(w) => v.(vectors := v.vectors[w := Without(v.vectors[w], m)])
  }

  ghost function Link<M, W>(v: Links<M, W>, m: M, target: Option<W>): Links<M, W>
    requires target.Some? ==> target.value in v.vectors
  {
    match target
    case None => v.(targets := v.targets[m := None])
    case Some(w) => Links(v.targets[m := Some(w)], v.vectors[w := v.vectors[w] + [m]])
  }

  ghost function Step<M, W>(v: Links<M, W>, e: Event<M, W>): Links<M, W>
    requires Consistent(v) && Possible(v, e)
  {
    match e
    case WatchableMade(w) => v.(vectors := v.vectors[w := []])
    case Watched(m, w) => Link(v, m, Some(w))
    case Copied(m, that) => Link(v, m, v.targets[that])
    case Assigned(m, that) => Link(Unlink(v, m), m, v.targets[that])
    case MonitorGone(m) => var u := Unlink(v, m); u.(targets := u.targets - {m})
    case WatchableGone(w) =>
      Links(map m | m in v.targets :: if m in v.vectors[w] then None else v.targets[m], v.vectors - {w})
  }

  lemma UnlinkRemoves<M, W>(v: Links<M, W>, m: M)
    requires Consistent(v) && m in v.targets
    ensures var u := Unlink(v, m);
            ConsistentApart(u, m) && u.targets == v.targets && u.vectors.Keys == v.vectors.Keys
  {
    var u := Unlink(v, m);
    if v.targets[m].Some? {
      WithoutRemoves(v.vectors[v.targets[m].value], m);
    }
    hide Without, NoRepeats;
    forall w, x | w in u.vectors && x in u.vectors[w]
      ensures x != m && x in u.targets && u.targets[x] == Some(w)
    {
      if v.targets[m] == Some(w) {
        WithoutMember(v.vectors[w], m, x);
      }
      assert x in v.vectors[w];
    }
  }

  lemma AppendedOnce<T>(s: seq<T>, x: T)
    requires NoRepeats(s) && x !in s
    ensures NoRepeats(s + [x])
  {
  }

  lemma LinkCompletes<M, W>(v: Links<M, W>, m: M, target: Option<W>)
    requires ConsistentApart(v, m) && (target.Some? ==> target.value in v.vectors)
    ensures Consistent(Link(v, m, target))
  {
    if target.Some? {
      var w := target.value;
      AppendedOnce(v.vectors[w], m);
    }
    hide NoRepeats;
  }

  lemma UnwatchedGoes<M, W>(v: Links<M, W>, m: M)
    requires ConsistentApart(v, m)
    ensures Consistent(v.(targets := v.targets - {m}))
  {
    hide NoRepeats;
  }

  lemma OwnerGoes<M, W>(v: Links<M, W>, w: W)
    requires Consistent(v) && w in v.vectors
    ensures Consistent(Step(v, WatchableGone(w)))
  {
    hide NoRepeats;
  }

  lemma StepKeepsConsistent<M, W>(v: Links<M, W>, e: Event<M, W>)
    requires Consistent(v) && Possible(v, e)
    ensures Consistent(Step(v, e))
  {
    assert NoRepeats<M>([]);
    hide NoRepeats, Unlink, Link;
    match e
    case WatchableMade(_) =>
    case Watched(m, w) => LinkCompletes(v, m, Some(w));
    case Copied(m, that) => LinkCompletes(v, m, v.targets[that]);
    case Assigned(m, that) =>
      UnlinkRemoves(v, m);
      LinkCompletes(Unlink(v, m), m, v.targets[that]);
    case MonitorGone(m) =>
      UnlinkRemoves(v, m);
      UnwatchedGoes(Unlink(v, m), m);
    case WatchableGone(w) => OwnerGoes(v, w);
  }

  // ---------------------------------------------------------------- what a monitor is for

  /** What each monitor was last made to watch, whatever has become of it, and what is alive. */
  datatype History<M(==), W(==)> = History(aims: map<M, Option<W>>, alive: set<W>)

  ghost function Remember<M, W>(h: History<M, W>, e: Event<M, W>): History<M, W> {
    match e
    case WatchableMade(w) => h.(alive := h.alive + {w})
    case Watched(m, w) => h.(aims := h.aims[m := Some(w)])
    case Copied(m, that) => if that in h.aims then h.(aims := h.aims[m := h.aims[that]]) else h
    case Assigned(m, that) => if that in h.aims then h.(aims := h.aims[m := h.aims[that]]) else h
    case MonitorGone(m) => h.(aims := h.aims - {m})
    case WatchableGone(w) => h.(alive := h.alive - {w})
  }

  /** A monitor points to the object that it was last made to watch, for as long as that object is alive. */
  ghost predicate Agree<M, W>(v: Links<M, W>, h: History<M, W>) {
    && v.targets.Keys == h.aims.Keys
    && v.vectors.Keys == h.alive
    && forall m :: m in v.targets ==>
         v.targets[m] == if h.aims[m].Some? && h.aims[m].value in h.alive then h.aims[m] else None
  }

  /** An object that is made is none that a monitor still remembers. */
  ghost predicate New<M, W>(h: History<M, W>, e: Event<M, W>) {
    e.WatchableMade? ==> forall m :: m in h.aims ==> h.aims[m] != Some(e.w)
  }

  lemma StepAgrees<M, W>(v: Links<M, W>, h: History<M, W>, e: Event<M, W>)
    requires Consistent(v) && Possible(v, e) && Agree(v, h) && New(h, e)
    ensures Agree(Step(v, e), Remember(h, e))
  {
    if e.Assigned? || e.MonitorGone? {
      UnlinkRemoves(v, e.m);
    }
  }

  ghost predicate PossibleRun<M, W>(v: Links<M, W>, h: History<M, W>, events: seq<Event<M, W>>)
    requires Consistent(v)
    decreases |events|
  {
    events == [] ||
    (Possible(v, events[0]) && New(h, events[0])
     && (StepKeepsConsistent(v, events[0]);
         PossibleRun(Step(v, events[0]), Remember(h, events[0]), events[1..])))
  }

  ghost function Run<M, W>(v: Links<M, W>, h: History<M, W>, events: seq<Event<M, W>>): Links<M, W>
    requires Consistent(v) && PossibleRun(v, h, events)
    decreases |events|
  {
    if events == [] then v
    else
      StepKeepsConsistent(v, events[0]);
      Run(Step(v, events[0]), Remember(h, events[0]), events[1..])
  }

  ghost function RememberAll<M, W>(h: History<M, W>, events: seq<Event<M, W>>): History<M, W>
    decreases |events|
  {
    if events == [] then h else RememberAll(Remember(h, events[0]), events[1..])
  }

  /** After every history, valid() says exactly whether the object that the monitor was last made to watch
      is alive, and the vectors hold exactly the monitors that must be told when their owner goes. */
  lemma {:induction false} ValidMeansAlive<M, W>(v: Links<M, W>, h: History<M, W>, events: seq<Event<M, W>>)
    requires Consistent(v) && Agree(v, h) && PossibleRun(v, h, events)
    ensures var after, past := Run(v, h, events), RememberAll(h, events);
            && Consistent(after) && Agree(after, past)
            && (forall m :: m in past.aims ==>
                  (after.targets[m].Some? <==> past.aims[m].Some? && past.aims[m].value in past.alive))
            && (forall w, m :: w in past.alive ==>
                  (m in after.vectors[w] <==> m in past.aims && past.aims[m] == Some(w)))
    decreases |events|
  {
    if events != [] {
      StepKeepsConsistent(v, events[0]);
      StepAgrees(v, h, events[0]);
      ValidMeansAlive(Step(v, events[0]), Remember(h, events[0]), events[1..]);
    }
  }

  // ---------------------------------------------------------------- the objects

  /** The links among the live monitors and watchables. */
  ghost function View(ms: set<Monitor>, ws: set<Watchable>): Links<Monitor, Watchable>
    reads ms, ws
  {
    Links(map m: Monitor | m in ms :: m.Target(), map w: Watchable | w in ws :: w.monitors)
  }

  class Watchable {
    var monitors: seq<Monitor>

    constructor ()
      ensures monitors == []
    {
      monitors := [];
    }

    method Add(m: Monitor)
      modifies this
      ensures monitors == old(monitors) + [m]
    {
      monitors := monitors + [m];
    }

    method Remove(m: Monitor)
      modifies this
      ensures monitors == Without(old(monitors), m)
    {
      monitors := Without(monitors, m);
    }

    /** The destructor: it invalidates every monitor in the vector. */
    method Destroy(ghost ms: set<Monitor>, ghost ws: set<Watchable>)
      requires this in ws && Consistent(View(ms, ws))
      modifies this, monitors
      ensures View(ms, ws - {this}) == Step(old(View(ms, ws)), WatchableGone(this))
    {
      for i := 0 to |monitors|
        invariant monitors == old(monitors)
        invariant forall w :: w in ws && w != this ==> w.monitors == old(w.monitors)
        invariant forall m :: m in ms ==>
                    m.watchable == if m in monitors[..i] then null else old(m.watchable)
      {
        monitors[i].Invalidate();
      }
      assert monitors[..|monitors|] == monitors;
      monitors := [];
    }
  }

  class Monitor {
    var watchable: Watchable?

    ghost function Target(): Option<Watchable>
      reads this
    {
      if watchable == null then None else Some(watchable)
    }

    /** Watching a live object. */
    constructor (target: Watchable, ghost ms: set<Monitor>, ghost ws: set<Watchable>)
      requires target in ws && Consistent(View(ms, ws))
      modifies target
      ensures this !in ms && View(ms + {this}, ws) == Step(old(View(ms, ws)), Watched(this, target))
    {
      watchable := target;
      new;
      target.Add(this);
    }

    constructor Copy(that: Monitor, ghost ms: set<Monitor>, ghost ws: set<Watchable>)
      requires that in ms && Consistent(View(ms, ws))
      modifies that.watchable
      ensures this !in ms && View(ms + {this}, ws) == Step(old(View(ms, ws)), Copied(this, that))
    {
      watchable := that.watchable;
      new;
      if watchable != null {
        watchable.Add(this);
      }
    }

    method Invalidate()
      modifies this
      ensures watchable == null
    {
      watchable := null;
    }

    /** Assignment, also to itself. */
    method Assign(that: Monitor, ghost ms: set<Monitor>, ghost ws: set<Watchable>)
      requires this in ms && that in ms && Consistent(View(ms, ws))
      modifies this, this.watchable, that.watchable
      ensures View(ms, ws) == Step(old(View(ms, ws)), Assigned(this, that))
    {
      hide Without, NoRepeats;
      ghost var before := View(ms, ws);
      if watchable != null {
        watchable.Remove(this);
      }
      UnlinkRemoves(before, this);
      assert View(ms, ws).vectors == Unlink(before, this).vectors;
      assert View(ms, ws).targets == before.targets;
      hide Unlink, ConsistentApart, Consistent;
      watchable := that.watchable;
      if watchable != null {
        watchable.Add(this);
      }
    }

    /** The destructor. */
    method Destroy(ghost ms: set<Monitor>, ghost ws: set<Watchable>)
      requires this in ms && Consistent(View(ms, ws))
      modifies watchable
      ensures View(ms - {this}, ws) == Step(old(View(ms, ws)), MonitorGone(this))
    {
      if watchable != null {
        watchable.Remove(this);
      }
    }

    predicate IsValid()
      reads this
      ensures IsValid() <==> Target().Some?
    {
      watchable != null
    }
  }
}
