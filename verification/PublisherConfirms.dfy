/**
 The publisher-confirm bookkeeping of `Reliable<Tagger>`: a map from delivery tags to the
 deferred objects of messages that the broker has not answered yet. Acks, nacks and channel
 errors run user callbacks, and a callback may publish again or destroy the object that is
 in the middle of calling it. The map owns the deferred objects, so a callback may also free
 the very object that reports to it.
 */
module PublisherConfirms {
  import opened Wrappers
  import opened Sequences

  // ---------------------------------------------------------------- data

  /** What a user callback does to the channel that calls it. `sent` says whether the base
      class could send the message; if it could not, its publish returns tag zero. */
  datatype Action = Publish(sent: bool, hooks: Hooks) | Destroy

  /** The callbacks that user space installed on one deferred publish. */
  datatype Hooks = Hooks(ack: Option<seq<Action>>, nack: Option<seq<Action>>, lost: Option<seq<Action>>,
                         error: Option<seq<Action>>)

  /** `id` tells apart the objects that were ever made. */
  datatype Deferred = Deferred(id: nat, failed: bool, hooks: Hooks)

  datatype Verdict = Acked | Nacked | Errored

  datatype Report = Report(tag: nat, verdict: Verdict)

  datatype Callback = AckCallback | NackCallback | LostCallback | ErrorCallback

  datatype Call = Call(tag: nat, callback: Callback)

  /** A channel is `Undefined` once a deferred object was used after it was freed: nothing is promised
      from then on, and the model stops. */
  datatype Fate = Living | Destroyed | Undefined

  /** A snapshot of the object. `made` counts the deferred objects; `given`, `reports` and `calls` are the
      histories of the callbacks that were given with each tag, in the order of the tags, of every report made
      and of every callback invoked so far. */
  datatype Channel = Channel(fate: Fate, current: nat, made: nat, handlers: map<nat, Deferred>,
                             given: seq<Hooks>, reports: seq<Report>, calls: seq<Call>)
  {
    predicate Lives() { fate == Living }
  }

  datatype Op =
    | PublishOp(sent: bool, hooks: Hooks)
    | ConfirmOp(tag: nat, multiple: bool, nack: bool)
    | ErrorOp

  // ---------------------------------------------------------------- ordered maps

  ghost predicate IsLeast(m: nat, s: set<nat>) {
    m in s && forall x :: x in s ==> m <= x
  }

  lemma {:induction false} LeastExists(s: set<nat>)
    requires s != {}
    ensures exists m :: IsLeast(m, s)
  {
    var y :| y in s;
    var rest := s - {y};
    assert forall x :: x in s ==> x == y || x in rest;
    if rest == {} {
      assert IsLeast(y, s);
    } else {
      LeastExists(rest);
      var m :| IsLeast(m, rest);
      assert IsLeast(if m < y then m else y, s);
    }
  }

  /** The key at which an ordered iteration continues once it has passed `after`. */
  function NextKey<V>(m: map<nat, V>, after: int): (k: Option<nat>)
    ensures k.None? ==> forall x :: x in m ==> x <= after
    ensures k.Some? ==> k.value in m && after < k.value && forall x :: x in m && after < x ==> k.value <= x
  {
    var rest := set x | x in m && after < x;
    if rest == {} then
      assert forall x :: x in m ==> x in rest || x <= after;
      None
    else
      LeastExists(rest);
      assert exists k :: k in rest && forall x :: x in rest ==> k <= x by {
        var m :| IsLeast(m, rest);
      }
      var k :| k in rest && forall x :: x in rest ==> k <= x;
      assert forall x :: x in m && after < x ==> x in rest;
      Some(k)
  }

  function DropUpTo<V>(m: map<nat, V>, tag: nat): map<nat, V> {
    map k | k in m && tag < k :: m[k]
  }

  // ---------------------------------------------------------------- the steps

  function PublishStep(c: Channel, sent: bool, hooks: Hooks): Channel {
    var tag := if sent then c.current else 0;
    c.(current := if sent then c.current + 1 else c.current,
       made := c.made + 1,
       given := if sent then c.given + [hooks] else c.given,
       handlers := c.handlers[tag := Deferred(c.made, !sent, hooks)])
  }

  /** The end of the object, and of all deferred objects in its map. */
  function EndStep(c: Channel, fate: Fate): Channel {
    c.(fate := fate, handlers := map[])
  }

  /** What one callback does to the channel. It can do nothing to a channel that is destroyed. */
  function RunHook(c: Channel, actions: seq<Action>): Channel
    decreases |actions|
  {
    if actions == [] || !c.Lives() then c
    else
      var next := match actions[0]
        case Publish(sent, hooks) => PublishStep(c, sent, hooks)
        case Destroy => EndStep(c, Destroyed);
      RunHook(next, actions[1..])
  }

  /** Invoking a callback, if it is set. */
  function Invoke(c: Channel, call: Call, hook: Option<seq<Action>>): Channel {
    if hook.None? then c else RunHook(c.(calls := c.calls + [call]), hook.value)
  }

  /** The map is the only owner of its deferred objects, and never moves one to another tag. */
  predicate Owns(c: Channel, tag: nat, d: Deferred) {
    tag in c.handlers && c.handlers[tag].id == d.id
  }

  /** Reporting a verdict to a deferred object. An ack and a nack are reported to an object of the map; after
      the nack callback, the object is asked for its next callback, even if it was freed. An error
      is reported to an object that was moved out of the map, and that nothing can free meanwhile. */
  function ReportStep(c: Channel, tag: nat, d: Deferred, verdict: Verdict): Channel {
    var logged := c.(reports := c.reports + [Report(tag, verdict)]);
    match verdict
    case Acked => Invoke(logged, Call(tag, AckCallback), d.hooks.ack)
    case Nacked =>
      var after := Invoke(logged, Call(tag, NackCallback), d.hooks.nack);
      if Owns(after, tag, d) then Invoke(after, Call(tag, LostCallback), d.hooks.lost)
      else EndStep(after, Undefined)
    case Errored =>
      Invoke(Invoke(logged, Call(tag, LostCallback), d.hooks.lost), Call(tag, ErrorCallback), d.hooks.error)
  }

  function ConfirmOne(c: Channel, tag: nat, verdict: Verdict): Channel {
    if tag !in c.handlers then c
    else
      var told := ReportStep(c, tag, c.handlers[tag], verdict);
      if told.Lives() then told.(handlers := told.handlers - {tag}) else told
  }

  /** The iteration over the live map: callbacks insert into the map that is being iterated. */
  function Sweep(c: Channel, after: int, tag: nat, verdict: Verdict): Channel
    decreases tag - after
  {
    match NextKey(c.handlers, after)
    case None => c
    case Some(k) =>
      if k > tag then c
      else
        var told := ReportStep(c, k, c.handlers[k], verdict);
        if told.Lives() then Sweep(told, k, tag, verdict) else told
  }

  function ConfirmUpTo(c: Channel, tag: nat, verdict: Verdict): Channel {
    var swept := Sweep(c, -1, tag, verdict);
    if swept.Lives() then swept.(handlers := DropUpTo(swept.handlers, tag)) else swept
  }

  function Confirm(c: Channel, tag: nat, multiple: bool, verdict: Verdict): Channel {
    if multiple then ConfirmUpTo(c, tag, verdict) else ConfirmOne(c, tag, verdict)
  }

  /** A channel error: the handlers were moved out, so callbacks publish into a fresh map. */
  function FailAll(c: Channel, moved: map<nat, Deferred>): Channel
    decreases |moved|
  {
    match NextKey(moved, -1)
    case None => c
    case Some(k) =>
      var told := ReportStep(c, k, moved[k], Errored);
      if told.Lives() then FailAll(told, moved - {k}) else told
  }

  function ErrorStep(c: Channel): Channel {
    FailAll(c.(handlers := map[]), c.handlers)
  }

  function Step(c: Channel, op: Op): Channel {
    if !c.Lives() then c
    else match op
      case PublishOp(sent, hooks) => PublishStep(c, sent, hooks)
      case ConfirmOp(tag, multiple, nack) => Confirm(c, tag, multiple, if nack then Nacked else Acked)
      case ErrorOp => ErrorStep(c)
  }

  const INITIAL := Channel(Living, 1, 0, map[], [], [], [])

  function Run(c: Channel, ops: seq<Op>): Channel
    decreases |ops|
  {
    if ops == [] then c else Run(Step(c, ops[0]), ops[1..])
  }

  /** Tags and identities are below their counters, and a tag has the callbacks that were given with it. */
  ghost predicate Sound(c: Channel) {
    && c.current == |c.given| + 1 && Remembered(c.given, c.handlers)
    && forall t :: t in c.handlers ==> t < c.current && c.handlers[t].id < c.made
  }

  ghost predicate Remembered(given: seq<Hooks>, handlers: map<nat, Deferred>) {
    forall t :: t in handlers && t >= 1 ==> t <= |given| && handlers[t].hooks == given[t - 1]
  }

  lemma RememberedTogether(given: seq<Hooks>, handlers: map<nat, Deferred>, more: seq<Hooks>,
                           added: map<nat, Deferred>)
    requires Remembered(given, handlers) && given <= more && Remembered(more, added)
    ensures Remembered(more, handlers + added)
  {
  }

  lemma RememberedAmong(given: seq<Hooks>, handlers: map<nat, Deferred>, keys: set<nat>)
    requires Remembered(given, handlers)
    ensures Remembered(given, handlers - keys)
  {
  }

  /** What a publish stores, and under which tag; everything else stays. */
  lemma PublishStores(c: Channel, sent: bool, hooks: Hooks)
    requires c.Lives() && Sound(c)
    ensures var after := Step(c, PublishOp(sent, hooks));
            var tag := if sent then c.current else 0;
            && after.Lives() && Sound(after) && after.current == c.current + (if sent then 1 else 0)
            && tag in after.handlers && after.handlers[tag].hooks == hooks && after.handlers[tag].failed == !sent
            && (sent ==> tag !in c.handlers && after.given[tag - 1] == hooks)
            && (forall t :: t in c.handlers && t != tag ==> t in after.handlers && after.handlers[t] == c.handlers[t])
            && (forall t :: t in after.handlers ==> t == tag || t in c.handlers)
            && after.reports == c.reports && after.calls == c.calls
  {
  }

  // ---------------------------------------------------------------- what callbacks can change

  predicate FailsToSend(actions: seq<Action>) {
    exists i :: 0 <= i < |actions| && actions[i].Publish? && !actions[i].sent
  }

  /** The callbacks that are given with the messages that these actions send, up to a destruction. */
  function Sends(actions: seq<Action>): seq<Hooks> {
    if actions == [] || actions[0].Destroy? then []
    else (if actions[0].sent then [actions[0].hooks] else []) + Sends(actions[1..])
  }

  /** What a callback does to an empty map is what it does to any: `c` is what happened to the empty one. */
  function Onto(handlers: map<nat, Deferred>, c: Channel): Channel {
    c.(handlers := if c.Lives() then handlers + c.handlers else map[])
  }

  /** From `before`, on an empty map, to `after`: what was published has the tags and the identities that
      were next, and what could not be sent is under key zero. */
  ghost predicate Adds(before: Channel, after: Channel, actions: seq<Action>) {
    && after.current == before.current + |Sends(actions)| && after.given == before.given + Sends(actions)
    && after.made >= before.made
    && (forall t :: t in after.handlers ==> before.made <= after.handlers[t].id < after.made)
    && (after.Lives() ==> Destroy !in actions && (0 in after.handlers <==> FailsToSend(actions)))
    && (after.Lives() ==> forall t :: t >= 1 ==> (t in after.handlers <==> before.current <= t < after.current))
    && (after.Lives() ==> Remembered(after.given, after.handlers))
  }

  /** A callback reports nothing, and whatever it adds to the map does not depend on what the
      map already holds: only on the next tag. It ends the channel exactly if it destroys it. */
  lemma {:induction false} HookFrame(c: Channel, actions: seq<Action>)
    requires c.Lives() && c.current == |c.given| + 1
    ensures var bare := RunHook(c.(handlers := map[]), actions);
            && RunHook(c, actions) == Onto(c.handlers, bare)
            && bare.fate == (if Destroy in actions then Destroyed else Living)
            && bare.reports == c.reports && bare.calls == c.calls
            && Adds(c, bare, actions)
    decreases |actions|
  {
    if actions != [] {
      var rest := actions[1..];
      assert actions == [actions[0]] + rest;
      match actions[0]
      case Destroy =>
        assert RunHook(EndStep(c, Destroyed), rest) == EndStep(c, Destroyed);
      case Publish(sent, hooks) =>
        var next := PublishStep(c, sent, hooks);
        var first := PublishStep(c.(handlers := map[]), sent, hooks);
        HookFrame(next, rest);
        HookFrame(first, rest);
        PublishAdds(c, sent, hooks);
        hide RunHook, PublishStep, Adds, FailsToSend;
        var last := RunHook(first.(handlers := map[]), rest);
        AddsTwice(c, first, last, [actions[0]], rest);
        MergedTwice(c.handlers, first.handlers, last.handlers);
    }
  }

  lemma PublishAdds(c: Channel, sent: bool, hooks: Hooks)
    requires c.Lives() && c.current == |c.given| + 1
    ensures var next, first := PublishStep(c, sent, hooks), PublishStep(c.(handlers := map[]), sent, hooks);
            && next.Lives() && first.Lives() && next.current >= c.current && next == Onto(c.handlers, first)
            && first.reports == c.reports && first.calls == c.calls
            && Adds(c, first, [Publish(sent, hooks)])
  {
    assert Sends([Publish(sent, hooks)]) == if sent then [hooks] else [];
    var one := [Publish(sent, hooks)];
    assert one[0].Publish? && one[0].sent == sent;
    assert FailsToSend(one) <==> !sent;
  }

  lemma MergedTwice(a: map<nat, Deferred>, b: map<nat, Deferred>, c: map<nat, Deferred>)
    ensures a + b + c == a + (b + c)
  {
  }

  /** Two callbacks in a row. */
  lemma AddsTwice(a: Channel, b: Channel, c: Channel, first: seq<Action>, second: seq<Action>)
    requires Adds(a, b, first) && Adds(b, c, second) && b.Lives()
    ensures Adds(a, Onto(b.handlers, c), first + second)
  {
    FailsInEither(first, second);
    SendsInBoth(first, second);
    Regrouped(a.given, Sends(first), Sends(second));
    if c.Lives() {
      RememberedTogether(b.given, b.handlers, c.given, c.handlers);
    }
    hide FailsToSend, Sends, Remembered;
  }

  lemma {:induction false} SendsInBoth(first: seq<Action>, second: seq<Action>)
    ensures Sends(first + second) == Sends(first) + if Destroy in first then [] else Sends(second)
  {
    if first == [] {
      assert first + second == second;
    } else {
      var rest := first[1..];
      assert (first + second)[1..] == rest + second && (first + second)[0] == first[0];
      assert Destroy in first <==> first[0] == Destroy || Destroy in rest;
      if first[0].Publish? {
        SendsInBoth(rest, second);
        var head := if first[0].sent then [first[0].hooks] else [];
        var tail := if Destroy in first then [] else Sends(second);
        assert Sends(first) == head + Sends(rest);
        assert Sends(first + second) == head + Sends(rest + second);
        hide Sends;
        Regrouped(head, Sends(rest), tail);
      }
    }
  }

  lemma FailsInEither(first: seq<Action>, second: seq<Action>)
    ensures FailsToSend(first + second) <==> FailsToSend(first) || FailsToSend(second)
  {
    var all := first + second;
    if FailsToSend(first) {
      var i :| 0 <= i < |first| && first[i].Publish? && !first[i].sent;
      assert all[i] == first[i];
    }
    if FailsToSend(second) {
      var i :| 0 <= i < |second| && second[i].Publish? && !second[i].sent;
      assert all[|first| + i] == second[i];
    }
  }

  function Actions(hook: Option<seq<Action>>): seq<Action> {
    if hook.None? then [] else hook.value
  }

  function CallIfSet(call: Call, hook: Option<seq<Action>>): seq<Call> {
    if hook.None? then [] else [call]
  }

  /** A nack callback that frees the object it belongs to: it destroys the channel, or it replaces
      the object under key zero by another one. */
  predicate FreesItself(tag: nat, hooks: Hooks, verdict: Verdict) {
    verdict.Nacked? && (Destroy in Actions(hooks.nack) || (tag == 0 && FailsToSend(Actions(hooks.nack))))
  }

  /** What the callbacks of a verdict do, one after the other. */
  function Executed(tag: nat, hooks: Hooks, verdict: Verdict): seq<Action> {
    match verdict
    case Acked => Actions(hooks.ack)
    case Nacked =>
      Actions(hooks.nack) + if FreesItself(tag, hooks, verdict) then [] else Actions(hooks.lost)
    case Errored => Actions(hooks.lost) + Actions(hooks.error)
  }

  function FateOf(tag: nat, hooks: Hooks, verdict: Verdict): Fate {
    if FreesItself(tag, hooks, verdict) then Undefined
    else if Destroy in Executed(tag, hooks, verdict) then Destroyed
    else Living
  }

  function CallsOf(tag: nat, hooks: Hooks, verdict: Verdict): seq<Call> {
    match verdict
    case Acked => CallIfSet(Call(tag, AckCallback), hooks.ack)
    case Nacked =>
      CallIfSet(Call(tag, NackCallback), hooks.nack)
      + if FreesItself(tag, hooks, verdict) then [] else CallIfSet(Call(tag, LostCallback), hooks.lost)
    case Errored =>
      CallIfSet(Call(tag, LostCallback), hooks.lost) + CallIfSet(Call(tag, ErrorCallback), hooks.error)
  }

  lemma InvokeFrame(c: Channel, call: Call, hook: Option<seq<Action>>)
    requires c.Lives() && c.current == |c.given| + 1
    ensures var bare := Invoke(c.(handlers := map[]), call, hook);
            && Invoke(c, call, hook) == Onto(c.handlers, bare)
            && bare.fate == (if Destroy in Actions(hook) then Destroyed else Living)
            && bare.reports == c.reports && bare.calls == c.calls + CallIfSet(call, hook)
            && Adds(c, bare, Actions(hook))
  {
    HookFrame(c.(calls := c.calls + CallIfSet(call, hook)), Actions(hook));
  }

  lemma InvokeAfterTheEnd(c: Channel, call: Call, hook: Option<seq<Action>>)
    requires !c.Lives()
    ensures Invoke(c, call, hook) == c.(calls := c.calls + CallIfSet(call, hook))
  {
  }

  /** What a report does to an empty map. */
  function Bare(c: Channel, tag: nat, hooks: Hooks, verdict: Verdict): Channel {
    var logged := c.(handlers := map[], reports := c.reports + [Report(tag, verdict)]);
    match verdict
    case Acked => Invoke(logged, Call(tag, AckCallback), hooks.ack)
    case Nacked =>
      var after := Invoke(logged, Call(tag, NackCallback), hooks.nack);
      if FreesItself(tag, hooks, verdict) then EndStep(after, Undefined)
      else Invoke(after, Call(tag, LostCallback), hooks.lost)
    case Errored =>
      Invoke(Invoke(logged, Call(tag, LostCallback), hooks.lost), Call(tag, ErrorCallback), hooks.error)
  }

  /** The object that is reported to: an error is reported to one that was moved out of the map. */
  ghost predicate Reportable(c: Channel, tag: nat, d: Deferred, verdict: Verdict) {
    c.Lives() && c.current == |c.given| + 1
    && (!verdict.Errored? ==> Owns(c, tag, d) && tag < c.current && d.id < c.made)
  }

  lemma TwoCallbacks(c: Channel, a: Call, first: Option<seq<Action>>, b: Call, second: Option<seq<Action>>)
    requires c.Lives() && c.current == |c.given| + 1
    ensures var all := Actions(first) + Actions(second);
            var bare := Invoke(Invoke(c.(handlers := map[]), a, first), b, second);
            && Invoke(Invoke(c, a, first), b, second) == Onto(c.handlers, bare)
            && bare.fate == (if Destroy in all then Destroyed else Living)
            && bare.reports == c.reports
            && bare.calls == c.calls + (CallIfSet(a, first) + CallIfSet(b, second))
            && Adds(c, bare, all)
  {
    InvokeFrame(c, a, first);
    var full, bare := Invoke(c, a, first), Invoke(c.(handlers := map[]), a, first);
    Regrouped(c.calls, CallIfSet(a, first), CallIfSet(b, second));
    if bare.Lives() {
      InvokeFrame(full, b, second);
      InvokeFrame(bare, b, second);
      assert bare.(handlers := map[]) == full.(handlers := map[]);
      var last := Invoke(bare.(handlers := map[]), b, second);
      AddsTwice(c, bare, last, Actions(first), Actions(second));
      hide Invoke, Adds, CallIfSet;
      MergedTwice(c.handlers, bare.handlers, last.handlers);
    } else {
      InvokeAfterTheEnd(full, b, second);
      InvokeAfterTheEnd(bare, b, second);
      SendsInBoth(Actions(first), Actions(second));
    }
  }

  /** After its nack callback an object is still owned by the map, unless the callback freed it. */
  lemma NackedIsOwned(c: Channel, tag: nat, d: Deferred)
    requires Reportable(c, tag, d, Nacked)
    ensures Owns(Invoke(c, Call(tag, NackCallback), d.hooks.nack), tag, d) <==> !FreesItself(tag, d.hooks, Nacked)
  {
    InvokeFrame(c, Call(tag, NackCallback), d.hooks.nack);
    hide Invoke, FailsToSend;
  }

  /** A report, to any map, is a report to the empty one; and what it calls, and how the channel ends, can be
      read off the callbacks. */
  lemma ReportFrame(c: Channel, tag: nat, d: Deferred, verdict: Verdict)
    requires Reportable(c, tag, d, verdict)
    ensures var bare := Bare(c, tag, d.hooks, verdict);
            && ReportStep(c, tag, d, verdict) == Onto(c.handlers, bare)
            && bare.fate == FateOf(tag, d.hooks, verdict)
            && bare.reports == c.reports + [Report(tag, verdict)]
            && bare.calls == c.calls + CallsOf(tag, d.hooks, verdict)
            && Adds(c, bare, Executed(tag, d.hooks, verdict))
  {
    var logged, hooks := c.(reports := c.reports + [Report(tag, verdict)]), d.hooks;
    match verdict
    case Acked => InvokeFrame(logged, Call(tag, AckCallback), hooks.ack);
    case Nacked =>
      NackedIsOwned(logged, tag, d);
      if FreesItself(tag, hooks, Nacked) {
        InvokeFrame(logged, Call(tag, NackCallback), hooks.nack);
        assert Executed(tag, hooks, Nacked) == Actions(hooks.nack);
      } else {
        TwoCallbacks(logged, Call(tag, NackCallback), hooks.nack, Call(tag, LostCallback), hooks.lost);
      }
    case Errored => TwoCallbacks(logged, Call(tag, LostCallback), hooks.lost, Call(tag, ErrorCallback), hooks.error);
  }

  /** Which callbacks a verdict invokes, in their order: an ack never loses the message, a nack and an
      error lose it. On the error path the error callback runs even if the lost callback destroyed the channel;
      after a nack callback that freed its own object, nothing more is known to run. */
  lemma VerdictChoosesCallbacks(c: Channel, tag: nat, d: Deferred, verdict: Verdict)
    requires Reportable(c, tag, d, verdict)
    ensures var told := ReportStep(c, tag, d, verdict);
            var hooks := d.hooks;
            && told.calls == c.calls + match verdict
               case Acked => CallIfSet(Call(tag, AckCallback), hooks.ack)
               case Nacked =>
                 CallIfSet(Call(tag, NackCallback), hooks.nack)
                 + if told.fate == Undefined then [] else CallIfSet(Call(tag, LostCallback), hooks.lost)
               case Errored =>
                 CallIfSet(Call(tag, LostCallback), hooks.lost) + CallIfSet(Call(tag, ErrorCallback), hooks.error)
    ensures ReportStep(c, tag, d, verdict).fate == Destroyed
            <==> !FreesItself(tag, d.hooks, verdict) && Destroy in Executed(tag, d.hooks, verdict)
  {
    ReportFrame(c, tag, d, verdict);
  }

  /** A report uses an object that was freed, if and only if it is a nack, and the nack callback destroys the
      channel, or fails to publish while the object is the one under key zero. */
  lemma FreedObjectIsUsed(c: Channel, tag: nat, d: Deferred, verdict: Verdict)
    requires Reportable(c, tag, d, verdict)
    ensures ReportStep(c, tag, d, verdict).fate == Undefined
            <==> && verdict == Nacked && d.hooks.nack.Some?
                 && (Destroy in d.hooks.nack.value || (tag == 0 && FailsToSend(d.hooks.nack.value)))
  {
    ReportFrame(c, tag, d, verdict);
  }

  // ---------------------------------------------------------------- exactly once

  function Times(reports: seq<Report>, tag: nat): nat {
    if reports == [] then 0
    else Times(reports[..|reports| - 1], tag) + (if reports[|reports| - 1].tag == tag then 1 else 0)
  }

  lemma TimesAppend(reports: seq<Report>, r: Report, tag: nat)
    ensures Times(reports + [r], tag) == Times(reports, tag) + (if r.tag == tag then 1 else 0)
  {
    assert (reports + [r])[..|reports|] == reports;
  }

  predicate Allows(verdict: Verdict, callback: Callback) {
    match verdict
    case Acked => callback == AckCallback
    case Nacked => callback == NackCallback || callback == LostCallback
    case Errored => callback == LostCallback || callback == ErrorCallback
  }

  /** How often the reports ask for a call, to an object with these callbacks. */
  function Due(reports: seq<Report>, hooks: Hooks, call: Call): nat {
    if reports == [] then 0
    else
      var r := reports[|reports| - 1];
      Due(reports[..|reports| - 1], hooks, call)
      + if r.tag == call.tag then multiset(CallsOf(r.tag, hooks, r.verdict))[call] else 0
  }

  /** The calls of a message that was sent are exactly those that its reports ask for, of the callbacks that were
      given with it. */
  ghost predicate Explained(given: seq<Hooks>, reports: seq<Report>, calls: seq<Call>) {
    forall call: Call :: call.tag >= 1 ==>
      multiset(calls)[call] == if call.tag <= |given| then Due(reports, given[call.tag - 1], call) else 0
  }

  lemma {:induction false} NotDue(reports: seq<Report>, hooks: Hooks, call: Call)
    requires Times(reports, call.tag) == 0
    ensures Due(reports, hooks, call) == 0
  {
    if reports != [] {
      NotDue(reports[..|reports| - 1], hooks, call);
    }
  }

  lemma DueAppend(reports: seq<Report>, r: Report, hooks: Hooks, call: Call)
    ensures Due(reports + [r], hooks, call) == Due(reports, hooks, call)
         + if r.tag == call.tag then multiset(CallsOf(r.tag, hooks, r.verdict))[call] else 0
  {
    assert (reports + [r])[..|reports|] == reports;
  }

  /** Messages that are sent in the meantime were not reported yet. */
  lemma GivenExplainsCalls(given: seq<Hooks>, more: seq<Hooks>, reports: seq<Report>, calls: seq<Call>)
    requires Explained(given, reports, calls)
    requires forall t: nat :: t > |given| ==> Times(reports, t) == 0
    ensures Explained(given + more, reports, calls)
  {
    forall call: Call | call.tag >= 1
      ensures multiset(calls)[call]
           == if call.tag <= |given + more| then Due(reports, (given + more)[call.tag - 1], call) else 0
    {
      if |given| < call.tag <= |given + more| {
        NotDue(reports, (given + more)[call.tag - 1], call);
      }
    }
  }

  lemma ReportExplainsCalls(given: seq<Hooks>, reports: seq<Report>, calls: seq<Call>, tag: nat, hooks: Hooks,
                            verdict: Verdict)
    requires Explained(given, reports, calls) && tag <= |given| && (tag >= 1 ==> hooks == given[tag - 1])
    ensures Explained(given, reports + [Report(tag, verdict)], calls + CallsOf(tag, hooks, verdict))
  {
    hide CallsOf, Due;
    var more := CallsOf(tag, hooks, verdict);
    forall call: Call | call.tag >= 1
      ensures multiset(calls + more)[call]
           == if call.tag <= |given| then Due(reports + [Report(tag, verdict)], given[call.tag - 1], call) else 0
    {
      assert multiset(calls + more)[call] == multiset(calls)[call] + multiset(more)[call];
      CallsAreAllowed(tag, hooks, verdict, call);
      if call.tag <= |given| {
        DueAppend(reports, Report(tag, verdict), given[call.tag - 1], call);
      }
    }
  }

  lemma CallsAreAllowed(tag: nat, hooks: Hooks, verdict: Verdict, call: Call)
    ensures multiset(CallsOf(tag, hooks, verdict))[call]
         <= if tag == call.tag && Allows(verdict, call.callback) then 1 else 0
  {
    hide FreesItself;
    CalledOnce(Call(tag, AckCallback), hooks.ack, call);
    CalledOnce(Call(tag, NackCallback), hooks.nack, call);
    CalledOnce(Call(tag, LostCallback), hooks.lost, call);
    CalledOnce(Call(tag, ErrorCallback), hooks.error, call);
    hide CallIfSet;
    match verdict
    case Acked =>
    case Nacked =>
      var nack := CallIfSet(Call(tag, NackCallback), hooks.nack);
      var lost := CallIfSet(Call(tag, LostCallback), hooks.lost);
      assert multiset(nack + lost) == multiset(nack) + multiset(lost) && nack + [] == nack;
    case Errored =>
      var lost := CallIfSet(Call(tag, LostCallback), hooks.lost);
      var error := CallIfSet(Call(tag, ErrorCallback), hooks.error);
      assert multiset(lost + error) == multiset(lost) + multiset(error);
  }

  lemma CalledOnce(made: Call, hook: Option<seq<Action>>, call: Call)
    ensures multiset(CallIfSet(made, hook))[call] == if hook.Some? && made == call then 1 else 0
  {
  }

  /** The two callbacks that contradict each other, for one message. */
  lemma {:induction false} AckOrLost(reports: seq<Report>, hooks: Hooks, tag: nat, callback: Callback)
    requires callback != AckCallback
    ensures Due(reports, hooks, Call(tag, AckCallback)) + Due(reports, hooks, Call(tag, callback))
         <= Times(reports, tag)
  {
    if reports != [] {
      var r := reports[|reports| - 1];
      AckOrLost(reports[..|reports| - 1], hooks, tag, callback);
      CallsAreAllowed(r.tag, hooks, r.verdict, Call(tag, AckCallback));
      CallsAreAllowed(r.tag, hooks, r.verdict, Call(tag, callback));
      hide CallsOf;
    }
  }

  /** The state in the middle of a sweep: everything up to `after` was told, but is still in the map. */
  ghost predicate Told(c: Channel, after: int) {
    && Sound(c) && Explained(c.given, c.reports, c.calls)
    && forall t: nat :: t >= 1 ==>
         Times(c.reports, t) == if t >= c.current || (t in c.handlers && t > after) then 0 else 1
  }

  /** Every message that was sent is answered once, or is still outstanding, or went down
      unanswered with the object. */
  ghost predicate Conserved(c: Channel) {
    if c.Lives() then Told(c, 0)
    else
      && c.current == |c.given| + 1 && c.handlers == map[] && Explained(c.given, c.reports, c.calls)
      && forall t: nat :: t >= 1 ==> Times(c.reports, t) <= if t < c.current then 1 else 0
  }

  /** One report: the histories grow by it, and what is published takes the next tags. */
  lemma TurnTells(c: Channel, k: nat, d: Deferred, verdict: Verdict)
    requires Sound(c) && Reportable(c, k, d, verdict)
    ensures var told := ReportStep(c, k, d, verdict);
            && told.current >= c.current && told.made >= c.made
            && told.reports == c.reports + [Report(k, verdict)]
            && told.calls == c.calls + CallsOf(k, d.hooks, verdict)
            && told.fate == FateOf(k, d.hooks, verdict)
            && c.given <= told.given && |told.given| + 1 == told.current
            && (if told.Lives() then Sound(told) else told.handlers == map[])
            && (told.Lives() ==> forall t :: t >= 1 ==>
                  && (t in told.handlers <==> t in c.handlers || c.current <= t < told.current)
                  && (t in c.handlers ==> told.handlers[t] == c.handlers[t]))
  {
    ReportFrame(c, k, d, verdict);
    hide ReportStep, FateOf, CallsOf, Executed, FailsToSend, Sends, Remembered;
    var bare := Bare(c, k, d.hooks, verdict);
    hide Bare;
    if bare.Lives() {
      RememberedTogether(c.given, c.handlers, bare.given, bare.handlers);
    }
  }

  lemma TimesGrow(c: Channel, told: Channel, k: nat, verdict: Verdict)
    requires told.reports == c.reports + [Report(k, verdict)]
    ensures forall t :: Times(told.reports, t) == Times(c.reports, t) + (if k == t then 1 else 0)
  {
    forall t: nat
      ensures Times(told.reports, t) == Times(c.reports, t) + (if k == t then 1 else 0)
    {
      TimesAppend(c.reports, Report(k, verdict), t);
    }
  }

  lemma CallsStayExplained(c: Channel, told: Channel, k: nat, hooks: Hooks, verdict: Verdict)
    requires Explained(c.given, c.reports, c.calls) && k <= |c.given| && (k >= 1 ==> hooks == c.given[k - 1])
    requires forall t: nat :: t > |c.given| ==> Times(c.reports, t) == 0
    requires c.given <= told.given && told.reports == c.reports + [Report(k, verdict)]
    requires told.calls == c.calls + CallsOf(k, hooks, verdict)
    ensures Explained(told.given, told.reports, told.calls)
  {
    ReportExplainsCalls(c.given, c.reports, c.calls, k, hooks, verdict);
    TimesGrow(c, told, k, verdict);
    var more := told.given[|c.given|..];
    assert told.given == c.given + more;
    hide Explained, Times, CallsOf;
    GivenExplainsCalls(c.given, more, told.reports, told.calls);
  }

  lemma ReportKeepsTold(c: Channel, after: int, k: nat, verdict: Verdict)
    requires c.Lives() && Told(c, after) && NextKey(c.handlers, after) == Some(k)
    ensures var told := ReportStep(c, k, c.handlers[k], verdict);
            if told.Lives() then Told(told, k) else Conserved(told)
  {
    hide Times, Explained, ReportStep, CallsOf, FateOf, Remembered;
    var d := c.handlers[k];
    var told := ReportStep(c, k, d, verdict);
    TurnTells(c, k, d, verdict);
    TimesGrow(c, told, k, verdict);
    RememberedAt(c.given, c.handlers, k);
    CallsStayExplained(c, told, k, d.hooks, verdict);
  }

  lemma {:induction false} SweepKeepsTold(c: Channel, after: int, tag: nat, verdict: Verdict)
    requires c.Lives() && Told(c, after)
    ensures var swept := Sweep(c, after, tag, verdict);
            && (if swept.Lives() then Told(swept, tag) || (after > tag && Told(swept, after)) else Conserved(swept))
            && (swept.Lives() && after <= tag ==> Told(swept, tag))
    decreases tag - after
  {
    match NextKey(c.handlers, after)
    case None =>
      assert after <= tag ==> Told(c, tag);
    case Some(k) =>
      if k > tag {
        assert after <= tag ==> Told(c, tag);
      } else {
        ReportKeepsTold(c, after, k, verdict);
        var told := ReportStep(c, k, c.handlers[k], verdict);
        if told.Lives() {
          SweepKeepsTold(told, k, tag, verdict);
        }
      }
  }

  lemma ConfirmUpToConserves(c: Channel, tag: nat, verdict: Verdict)
    requires c.Lives() && Conserved(c)
    ensures Conserved(ConfirmUpTo(c, tag, verdict))
  {
    hide Explained, Times, Sweep, Remembered;
    SweepKeepsTold(c, -1, tag, verdict);
    var swept := Sweep(c, -1, tag, verdict);
    if swept.Lives() {
      RememberedWithout(swept.given, swept.handlers, tag);
    }
  }

  lemma RememberedWithout(given: seq<Hooks>, handlers: map<nat, Deferred>, tag: nat)
    requires Remembered(given, handlers)
    ensures Remembered(given, DropUpTo(handlers, tag))
  {
  }

  lemma ConfirmOneConserves(c: Channel, tag: nat, verdict: Verdict)
    requires c.Lives() && Conserved(c)
    ensures Conserved(ConfirmOne(c, tag, verdict))
  {
    hide Times, Explained, ReportStep, CallsOf, FateOf, Remembered;
    if tag in c.handlers {
      var d := c.handlers[tag];
      RememberedAt(c.given, c.handlers, tag);
      var told := ReportStep(c, tag, d, verdict);
      TurnTells(c, tag, d, verdict);
      TimesGrow(c, told, tag, verdict);
      CallsStayExplained(c, told, tag, d.hooks, verdict);
      if told.Lives() {
        RememberedAmong(told.given, told.handlers, {tag});
      }
    }
  }

  /** While an error is being reported, the handlers that still have to hear of it are outside. */
  ghost predicate Moved(c: Channel, moved: map<nat, Deferred>) {
    && Sound(c) && Explained(c.given, c.reports, c.calls)
    && Remembered(c.given, moved) && (forall t :: t in moved ==> t < c.current && (t >= 1 ==> t !in c.handlers))
    && forall t: nat :: t >= 1 ==>
         Times(c.reports, t) == if t >= c.current || t in c.handlers || t in moved then 0 else 1
  }

  lemma RememberedAt(given: seq<Hooks>, handlers: map<nat, Deferred>, k: nat)
    requires Remembered(given, handlers) && k in handlers
    ensures k <= |given| && (k >= 1 ==> handlers[k].hooks == given[k - 1])
  {
  }

  lemma RememberedLater(given: seq<Hooks>, handlers: map<nat, Deferred>, more: seq<Hooks>, k: nat)
    requires Remembered(given, handlers) && given <= more
    ensures Remembered(more, handlers - {k})
  {
  }

  lemma {:induction false} FailAllConserves(c: Channel, moved: map<nat, Deferred>)
    requires c.Lives() && Moved(c, moved)
    ensures Conserved(FailAll(c, moved))
    decreases |moved|
  {
    hide Times, Explained, ReportStep, CallsOf, FateOf, Remembered;
    match NextKey(moved, -1)
    case None =>
    case Some(k) =>
      var told := ReportStep(c, k, moved[k], Errored);
      TurnTells(c, k, moved[k], Errored);
      TimesGrow(c, told, k, Errored);
      RememberedAt(c.given, moved, k);
      RememberedLater(c.given, moved, told.given, k);
      CallsStayExplained(c, told, k, moved[k].hooks, Errored);
      if told.Lives() {
        FailAllConserves(told, moved - {k});
      }
  }

  lemma StepConserves(c: Channel, op: Op)
    requires Conserved(c)
    ensures Conserved(Step(c, op))
  {
    if c.Lives() {
      match op
      case PublishOp(sent, hooks) =>
        PublishStores(c, sent, hooks);
        GivenExplainsCalls(c.given, if sent then [hooks] else [], c.reports, c.calls);
        hide Explained, Times;
      case ConfirmOp(tag, multiple, nack) =>
        if multiple {
          ConfirmUpToConserves(c, tag, if nack then Nacked else Acked);
        } else {
          ConfirmOneConserves(c, tag, if nack then Nacked else Acked);
        }
      case ErrorOp =>
        FailAllConserves(c.(handlers := map[]), c.handlers);
    }
  }

  lemma {:induction false} RunConserves(c: Channel, ops: seq<Op>)
    requires Conserved(c)
    ensures Conserved(Run(c, ops))
    decreases |ops|
  {
    if ops != [] {
      StepConserves(c, ops[0]);
      RunConserves(Step(c, ops[0]), ops[1..]);
    }
  }

  lemma StartIsConserved()
    ensures Conserved(INITIAL)
  {
  }

  /** Exactly once, over every run: a message that was sent is reported at most once, and as long
      as the object lives it was reported zero times exactly while its tag is outstanding. */
  lemma ConfirmedExactlyOnce(ops: seq<Op>, tag: nat)
    requires tag >= 1
    ensures var c := Run(INITIAL, ops);
            && Times(c.reports, tag) <= 1
            && (Times(c.reports, tag) == 1 ==> tag < c.current)
            && (c.Lives() ==> (tag in c.handlers <==> tag < c.current && Times(c.reports, tag) == 0))
  {
    StartIsConserved();
    RunConserves(INITIAL, ops);
  }

  /** The same for the callbacks: each of them runs at most once, and the ack callback never together with
      another one. */
  lemma CallbacksRunAtMostOnce(ops: seq<Op>, tag: nat, callback: Callback)
    requires tag >= 1 && callback != AckCallback
    ensures var calls := multiset(Run(INITIAL, ops).calls);
            calls[Call(tag, AckCallback)] + calls[Call(tag, callback)] <= 1
  {
    StartIsConserved();
    RunConserves(INITIAL, ops);
    var c := Run(INITIAL, ops);
    var ack, other := Call(tag, AckCallback), Call(tag, callback);
    assert multiset(c.calls)[ack] == if tag <= |c.given| then Due(c.reports, c.given[tag - 1], ack) else 0;
    assert multiset(c.calls)[other] == if tag <= |c.given| then Due(c.reports, c.given[tag - 1], other) else 0;
    if tag <= |c.given| {
      AckOrLost(c.reports, c.given[tag - 1], tag, callback);
      assert Times(c.reports, tag) <= 1;
    }
  }

  /** The callbacks that a verdict runs: those that are set, the ack callback for an ack, the nack and the lost
      callback for a nack, the lost and the error callback for an error. */
  predicate Runs(tag: nat, hooks: Hooks, verdict: Verdict, callback: Callback) {
    match callback
    case AckCallback => verdict == Acked && hooks.ack.Some?
    case NackCallback => verdict == Nacked && hooks.nack.Some?
    case ErrorCallback => verdict == Errored && hooks.error.Some?
    case LostCallback =>
      hooks.lost.Some? && (verdict == Errored || (verdict == Nacked && !FreesItself(tag, hooks, Nacked)))
  }

  /** And a callback that a report asks for, and that was given with the message, does run: over every run, the
      calls of a message that was reported are exactly these. */
  lemma CallbacksAreDelivered(ops: seq<Op>, tag: nat, verdict: Verdict, callback: Callback)
    requires tag >= 1 && Report(tag, verdict) in Run(INITIAL, ops).reports
    ensures var c := Run(INITIAL, ops);
            && tag <= |c.given|
            && multiset(c.calls)[Call(tag, callback)]
               == if Runs(tag, c.given[tag - 1], verdict, callback) then 1 else 0
  {
    StartIsConserved();
    RunConserves(INITIAL, ops);
    var c := Run(INITIAL, ops);
    hide Run, CallsOf, Runs, Due, Sound;
    IsReported(c.reports, Report(tag, verdict));
    assert Times(c.reports, tag) <= 1 && tag <= |c.given|;
    assert Explained(c.given, c.reports, c.calls);
    hide Times, Conserved;
    var hooks, call := c.given[tag - 1], Call(tag, callback);
    DueOnce(c.reports, hooks, tag, verdict, callback);
    CallsAreDue(c.given, c.reports, c.calls, call);
    CallsInDetail(tag, hooks, verdict, callback);
  }

  lemma CallsAreDue(given: seq<Hooks>, reports: seq<Report>, calls: seq<Call>, call: Call)
    requires Explained(given, reports, calls) && call.tag >= 1
    ensures multiset(calls)[call] == if call.tag <= |given| then Due(reports, given[call.tag - 1], call) else 0
  {
  }

  /** A message that was not reported has no calls. */
  lemma UnreportedIsSilent(ops: seq<Op>, tag: nat, callback: Callback)
    requires tag >= 1 && Times(Run(INITIAL, ops).reports, tag) == 0
    ensures Call(tag, callback) !in Run(INITIAL, ops).calls
  {
    StartIsConserved();
    RunConserves(INITIAL, ops);
    var c, call := Run(INITIAL, ops), Call(tag, callback);
    assert multiset(c.calls)[call] == if tag <= |c.given| then Due(c.reports, c.given[tag - 1], call) else 0;
    if tag <= |c.given| {
      NotDue(c.reports, c.given[tag - 1], call);
    }
    assert call !in multiset(c.calls);
  }

  lemma {:induction false} IsReported(reports: seq<Report>, r: Report)
    requires r in reports
    ensures Times(reports, r.tag) >= 1
  {
    var init, last := reports[..|reports| - 1], reports[|reports| - 1];
    assert reports == init + [last];
    if r != last {
      IsReported(init, r);
    }
  }

  lemma {:induction false} DueOnce(reports: seq<Report>, hooks: Hooks, tag: nat, verdict: Verdict,
                                   callback: Callback)
    requires Report(tag, verdict) in reports && Times(reports, tag) <= 1
    ensures Due(reports, hooks, Call(tag, callback))
         == multiset(CallsOf(tag, hooks, verdict))[Call(tag, callback)]
  {
    hide CallsOf;
    var init, last := reports[..|reports| - 1], reports[|reports| - 1];
    assert reports == init + [last];
    if last == Report(tag, verdict) {
      NotDue(init, hooks, Call(tag, callback));
    } else {
      if last.tag == tag {
        IsReported(init, Report(tag, verdict));
        assert false;
      }
      DueOnce(init, hooks, tag, verdict, callback);
    }
  }

  lemma CallsInDetail(tag: nat, hooks: Hooks, verdict: Verdict, callback: Callback)
    ensures multiset(CallsOf(tag, hooks, verdict))[Call(tag, callback)]
         == if Runs(tag, hooks, verdict, callback) then 1 else 0
  {
    hide FreesItself;
    var call := Call(tag, callback);
    CalledOnce(Call(tag, AckCallback), hooks.ack, call);
    CalledOnce(Call(tag, NackCallback), hooks.nack, call);
    CalledOnce(Call(tag, LostCallback), hooks.lost, call);
    CalledOnce(Call(tag, ErrorCallback), hooks.error, call);
    hide CallIfSet;
    match verdict
    case Acked =>
    case Nacked =>
      var nack := CallIfSet(Call(tag, NackCallback), hooks.nack);
      var lost := CallIfSet(Call(tag, LostCallback), hooks.lost);
      assert multiset(nack + lost) == multiset(nack) + multiset(lost) && nack + [] == nack;
    case Errored =>
      var lost := CallIfSet(Call(tag, LostCallback), hooks.lost);
      var error := CallIfSet(Call(tag, ErrorCallback), hooks.error);
      assert multiset(lost + error) == multiset(lost) + multiset(error);
  }

  // ---------------------------------------------------------------- one multiple is many singles

  /** The outstanding tags in (after, tag], in the order in which a sweep meets them. */
  function Outstanding(m: map<nat, Deferred>, after: int, tag: nat): seq<nat>
    decreases tag - after
  {
    match NextKey(m, after)
    case None => []
    case Some(k) => if k > tag then [] else [k] + Outstanding(m, k, tag)
  }

  function Verdicts(tags: seq<nat>, verdict: Verdict): seq<Report> {
    seq(|tags|, i requires 0 <= i < |tags| => Report(tags[i], verdict))
  }

  /** Single confirms for each of the tags, for as long as the object lives. */
  function Singles(c: Channel, tags: seq<nat>, verdict: Verdict): Channel
    decreases |tags|
  {
    if tags == [] || !c.Lives() then c else Singles(ConfirmOne(c, tags[0], verdict), tags[1..], verdict)
  }

  ghost predicate SameHistory(a: Channel, b: Channel) {
    a == b.(handlers := a.handlers)
  }

  /** The two states agree, apart from what `many` has not erased yet, and, once key zero was passed, from what
      is under key zero. */
  ghost predicate InStep(many: Channel, single: Channel, after: int) {
    && SameHistory(many, single) && (if many.Lives() then Sound(many) && Sound(single) else many == single)
    && (many.Lives() ==> forall t :: t >= 1 || after < 0 ==>
          && (t in single.handlers <==> t in many.handlers && t > after)
          && (t in single.handlers ==> single.handlers[t] == many.handlers[t]))
  }

  lemma {:induction false} OutstandingIsAscending(m: map<nat, Deferred>, after: int, tag: nat)
    ensures var ts := Outstanding(m, after, tag);
            && (forall i, j :: 0 <= i < j < |ts| ==> ts[i] < ts[j])
            && forall t: nat :: t in ts <==> t in m && after < t <= tag
    decreases tag - after
  {
    match NextKey(m, after)
    case None =>
    case Some(k) =>
      if k <= tag {
        OutstandingIsAscending(m, k, tag);
        var rest := Outstanding(m, k, tag);
        forall i, j | 0 <= i < j < |rest| + 1 ensures ([k] + rest)[i] < ([k] + rest)[j] {
          assert ([k] + rest)[j] == rest[j - 1] && rest[j - 1] in rest;
        }
      }
  }

  /** A multiple confirm, for a tag that was given out: it tells exactly the outstanding tags up to `tag`,
      in ascending order, just as one single confirm for each of them would, and it ends the channel in the
      same way. What its callbacks publish under a tag is neither told nor erased. */
  lemma MultipleIsManySingles(c: Channel, tag: nat, verdict: Verdict)
    requires c.Lives() && Conserved(c) && tag < c.current
    ensures var tags := Outstanding(c.handlers, -1, tag);
            var many := ConfirmUpTo(c, tag, verdict);
            var singles := Singles(c, tags, verdict);
            && SameHistory(many, singles)
            && many.handlers - {0} == singles.handlers - {0}
            && c.reports <= many.reports <= c.reports + Verdicts(tags, verdict)
            && (many.Lives() ==> many.reports == c.reports + Verdicts(tags, verdict))
            && (many.Lives() ==> forall t :: t >= 1 ==>
                  (t in many.handlers <==> (t in c.handlers && t > tag) || c.current <= t < many.current))
  {
    SweepIsSingles(c.handlers, c, c, -1, tag, verdict);
    SweepTells(c.handlers, c, -1, tag, verdict);
    hide Sweep, Singles, Outstanding, Verdicts, Explained, Times;
    var swept := Sweep(c, -1, tag, verdict);
    var singles := Singles(c, Outstanding(c.handlers, -1, tag), verdict);
    if swept.Lives() {
      DropAgrees(swept.handlers, singles.handlers, tag);
    }
  }

  /** A single confirm tells its own tag and no other, and erases nothing else. */
  lemma SingleTellsItsOwn(c: Channel, tag: nat, verdict: Verdict)
    requires c.Lives() && Conserved(c)
    ensures var one := ConfirmOne(c, tag, verdict);
            && one.reports == c.reports + (if tag in c.handlers then [Report(tag, verdict)] else [])
            && (one.Lives() ==> forall t :: t >= 1 ==>
                  (t in one.handlers <==> (t in c.handlers && t != tag) || c.current <= t < one.current))
  {
    if tag in c.handlers {
      TurnTells(c, tag, c.handlers[tag], verdict);
    }
  }

  /** An error tells every outstanding message, in ascending order, unless a callback destroys the
      object on the way; only messages published from inside the callbacks are left. It never uses an object
      that was freed. */
  lemma ErrorTellsAll(c: Channel)
    requires c.Lives() && Conserved(c)
    ensures var failed := ErrorStep(c);
            && failed.fate != Undefined
            && (failed.Lives() ==> forall t :: t >= 1 ==> (t in failed.handlers <==> c.current <= t < failed.current))
            && (failed.Lives() ==>
                  failed.reports == c.reports + Verdicts(Outstanding(c.handlers, -1, c.current), Errored))
  {
    FailAllTells(c.(handlers := map[]), c.handlers, c.handlers, -1, c.current);
  }

  lemma {:induction false} SweepIsSingles(m: map<nat, Deferred>, many: Channel, single: Channel, after: int,
                                          tag: nat, verdict: Verdict)
    requires many.Lives() && -1 <= after <= tag < many.current && InStep(many, single, after)
    requires forall t :: after < t <= tag ==> (t in m <==> t in many.handlers)
    ensures InStep(Sweep(many, after, tag, verdict), Singles(single, Outstanding(m, after, tag), verdict), tag)
    decreases tag - after
  {
    NextKeyAgrees(m, many.handlers, after, tag);
    var next := NextKey(m, after);
    if next.Some? && next.value <= tag {
      var k := next.value;
      TurnKeepsStep(many, single, after, k, verdict);
      TurnTells(many, k, many.handlers[k], verdict);
      var told := ReportStep(many, k, many.handlers[k], verdict);
      var one := ConfirmOne(single, k, verdict);
      var rest := Outstanding(m, k, tag);
      assert Outstanding(m, after, tag)[1..] == rest;
      assert Singles(single, Outstanding(m, after, tag), verdict) == Singles(one, rest, verdict);
      hide ReportStep, ConfirmOne, FateOf, CallsOf, Remembered;
      if told.Lives() {
        SweepIsSingles(m, told, one, k, tag, verdict);
      } else {
        assert Singles(one, rest, verdict) == one;
      }
    }
  }

  /** What a sweep reports, and what it leaves in the map. */
  lemma {:induction false} SweepTells(m: map<nat, Deferred>, c: Channel, after: int, tag: nat, verdict: Verdict)
    requires c.Lives() && Sound(c) && -1 <= after <= tag < c.current
    requires forall t :: after < t <= tag ==> (t in m <==> t in c.handlers)
    ensures var swept := Sweep(c, after, tag, verdict);
            var tags := Outstanding(m, after, tag);
            && swept.current >= c.current
            && (swept.Lives() ==> swept.reports == c.reports + Verdicts(tags, verdict))
            && (swept.Lives() ==> forall t :: t >= 1 ==>
                  (t in swept.handlers <==> t in c.handlers || c.current <= t < swept.current))
            && c.reports <= swept.reports <= c.reports + Verdicts(tags, verdict)
    decreases tag - after
  {
    NextKeyAgrees(m, c.handlers, after, tag);
    var next := NextKey(m, after);
    if next.Some? && next.value <= tag {
      var k := next.value;
      TurnTells(c, k, c.handlers[k], verdict);
      var told := ReportStep(c, k, c.handlers[k], verdict);
      var rest := Outstanding(m, k, tag);
      VerdictsExtend(c.reports, k, rest, verdict);
      hide ReportStep, FateOf, CallsOf, Verdicts;
      if told.Lives() {
        SweepTells(m, told, k, tag, verdict);
      }
    }
  }

  lemma {:induction false} FailAllTells(c: Channel, moved: map<nat, Deferred>, all: map<nat, Deferred>,
                                        after: int, bound: nat)
    requires c.Lives() && Sound(c) && c.current >= bound >= 1
    requires forall t :: t in moved <==> t in all && t > after
    requires forall t :: t in moved ==> t < bound
    ensures var failed := FailAll(c, moved);
            && failed.current >= c.current && failed.fate != Undefined
            && (failed.Lives() ==> forall t :: t >= 1 ==>
                  (t in failed.handlers <==> t in c.handlers || c.current <= t < failed.current))
            && (failed.Lives() ==> failed.reports == c.reports + Verdicts(Outstanding(all, after, bound), Errored))
    decreases |moved|
  {
    match NextKey(moved, -1)
    case None =>
      assert NextKey(all, after).None?;
      assert c.reports + Verdicts([], Errored) == c.reports;
    case Some(k) =>
      assert NextKey(all, after) == Some(k);
      var told := ReportStep(c, k, moved[k], Errored);
      TurnTells(c, k, moved[k], Errored);
      hide ReportStep, CallsOf, Verdicts;
      if told.Lives() {
        FailAllTells(told, moved - {k}, all, k, bound);
        VerdictsExtend(c.reports, k, Outstanding(all, k, bound), Errored);
      }
  }

  /** One turn of the sweep against one single confirm. */
  lemma TurnKeepsStep(many: Channel, single: Channel, after: int, k: nat, verdict: Verdict)
    requires many.Lives() && InStep(many, single, after)
    requires NextKey(many.handlers, after) == Some(k)
    ensures InStep(ReportStep(many, k, many.handlers[k], verdict), ConfirmOne(single, k, verdict), k)
  {
    hide ReportStep, FateOf, CallsOf, FailsToSend, Sends, Remembered;
    var d := many.handlers[k];
    assert k in single.handlers && single.handlers[k] == d;
    TurnTells(many, k, d, verdict);
    TurnTells(single, k, d, verdict);
    ReportFrame(many, k, d, verdict);
    ReportFrame(single, k, d, verdict);
    hide Executed;
    var bare := Bare(many, k, d.hooks, verdict);
    SameBare(many, single, k, d.hooks, verdict);
    hide Bare, Sound;
    if bare.Lives() {
      MergeKeepsStep(many.handlers, single.handlers, bare.handlers, after, k, many.current);
      SoundWithout(single, bare, k);
    }
  }

  lemma NextKeyAgrees(m: map<nat, Deferred>, n: map<nat, Deferred>, after: int, tag: nat)
    requires forall t :: after < t <= tag ==> (t in m <==> t in n)
    ensures var k := NextKey(m, after); var l := NextKey(n, after);
            if k.Some? && k.value <= tag then l == k else l.Some? ==> l.value > tag
  {
  }

  lemma SameBare(a: Channel, b: Channel, tag: nat, hooks: Hooks, verdict: Verdict)
    requires SameHistory(a, b)
    ensures Bare(a, tag, hooks, verdict) == Bare(b, tag, hooks, verdict)
  {
    assert a.(handlers := map[]) == b.(handlers := map[]);
  }

  lemma SoundWithout(c: Channel, bare: Channel, k: nat)
    requires Sound(Onto(c.handlers, bare)) && bare.Lives()
    ensures Sound(bare.(handlers := (c.handlers + bare.handlers) - {k}))
  {
  }

  lemma MergeKeepsStep(many: map<nat, Deferred>, single: map<nat, Deferred>, extra: map<nat, Deferred>,
                       after: int, k: nat, current: nat)
    requires NextKey(many, after) == Some(k) && k < current
    requires forall t :: t >= 1 && t in extra ==> current <= t
    requires forall t :: t >= 1 || after < 0 ==>
               && (t in single <==> t in many && t > after)
               && (t in single ==> single[t] == many[t])
    ensures forall t :: t >= 1 ==>
              && (t in (single + extra) - {k} <==> t in many + extra && t > k)
              && (t in (single + extra) - {k} ==> ((single + extra) - {k})[t] == (many + extra)[t])
  {
  }

  lemma VerdictsExtend(before: seq<Report>, k: nat, rest: seq<nat>, verdict: Verdict)
    ensures before + [Report(k, verdict)] + Verdicts(rest, verdict) == before + Verdicts([k] + rest, verdict)
  {
    assert [Report(k, verdict)] + Verdicts(rest, verdict) == Verdicts([k] + rest, verdict);
  }

  lemma DropAgrees(many: map<nat, Deferred>, singles: map<nat, Deferred>, tag: nat)
    requires forall t :: t >= 1 ==>
               (t in singles <==> t in many && t > tag) && (t in singles ==> singles[t] == many[t])
    ensures DropUpTo(many, tag) - {0} == singles - {0}
  {
  }

  // ---------------------------------------------------------------- the object

  /** The object itself. Its fate is what its monitor watches, unless it is undefined. */
  class Reliable {
    var fate: Fate
    var current: nat
    var handlers: map<nat, Deferred>
    var made: nat
    ghost var given: seq<Hooks>
    ghost var reports: seq<Report>
    ghost var calls: seq<Call>

    ghost function View(): Channel
      reads this
    {
      Channel(fate, current, made, handlers, given, reports, calls)
    }

    constructor ()
      ensures View() == INITIAL
    {
      fate, current, made, handlers := Living, 1, 0, map[];
      given, reports, calls := [], [], [];
    }

    /** How many messages wait for an answer, with one more for those that could not be sent, if there are any. */
    function Unacknowledged(): (n: nat)
      reads this
      ensures n == |handlers.Keys - {0}| + if 0 in handlers then 1 else 0
    {
      assert 0 in handlers ==> handlers.Keys == (handlers.Keys - {0}) + {0};
      assert 0 !in handlers ==> handlers.Keys == handlers.Keys - {0};
      |handlers|
    }

    /** The publish of the base class: the tag under which the message was sent, or zero. */
    method Send(sent: bool) returns (tag: nat)
      requires fate.Living?
      modifies this`current
      ensures tag == if sent then old(current) else 0
      ensures current == old(current) + if sent then 1 else 0
    {
      if !sent { return 0; }
      tag := current;
      current := current + 1;
    }

    method Publish(sent: bool, hooks: Hooks)
      requires fate.Living? && current >= 1
      modifies this
      ensures View() == PublishStep(old(View()), sent, hooks)
    {
      var tag := Send(sent);
      handlers := handlers[tag := Deferred(made, tag == 0, hooks)];
      made := made + 1;
      if sent {
        given := given + [hooks];
      }
    }

    method End(how: Fate)
      modifies this`fate, this`handlers
      ensures View() == EndStep(old(View()), how)
    {
      fate, handlers := how, map[];
    }

    /** Invoking a user callback, if it is set. */
    method InvokeCallback(call: Call, hook: Option<seq<Action>>)
      requires current >= 1
      modifies this
      ensures View() == Invoke(old(View()), call, hook)
      ensures current >= old(current)
    {
      if hook.None? { return; }
      calls := calls + [call];
      ghost var called := View();
      var actions, i := hook.value, 0;
      while i < |actions| && fate.Living?
        invariant 0 <= i <= |actions| && current >= old(current)
        invariant RunHook(called, actions) == RunHook(View(), actions[i..])
      {
        match actions[i] {
          case Publish(sent, hooks) => Publish(sent, hooks);
          case Destroy => End(Destroyed);
        }
        i := i + 1;
      }
    }

    /** DeferredPublish: the report methods and the callbacks they invoke. */
    method Tell(tag: nat, d: Deferred, verdict: Verdict)
      requires fate.Living? && current >= 1
      modifies this
      ensures View() == ReportStep(old(View()), tag, d, verdict)
      ensures current >= old(current)
    {
      reports := reports + [Report(tag, verdict)];
      match verdict {
        case Acked =>
          InvokeCallback(Call(tag, AckCallback), d.hooks.ack);
        case Nacked =>
          InvokeCallback(Call(tag, NackCallback), d.hooks.nack);
          if tag in handlers && handlers[tag].id == d.id {
            InvokeCallback(Call(tag, LostCallback), d.hooks.lost);
          } else {
            End(Undefined);
          }
        case Errored =>
          InvokeCallback(Call(tag, LostCallback), d.hooks.lost);
          InvokeCallback(Call(tag, ErrorCallback), d.hooks.error);
      }
    }

    method OnConfirm(tag: nat, multiple: bool, verdict: Verdict)
      requires fate.Living? && current >= 1
      modifies this
      ensures View() == Confirm(old(View()), tag, multiple, verdict)
    {
      hide ReportStep;
      if !multiple {
        if tag !in handlers { return; }
        Tell(tag, handlers[tag], verdict);
        if !fate.Living? { return; }
        handlers := handlers - {tag};
      } else {
        var after := -1;
        var iter := NextKey(handlers, after);
        while iter.Some? && iter.value <= tag
          invariant fate.Living? && current >= 1 && iter == NextKey(handlers, after)
          invariant Sweep(old(View()), -1, tag, verdict) == Sweep(View(), after, tag, verdict)
          decreases tag - after
        {
          Tell(iter.value, handlers[iter.value], verdict);
          if !fate.Living? { return; }
          after := iter.value;
          iter := NextKey(handlers, after);
        }
        handlers := DropUpTo(handlers, tag);
      }
    }

    method OnAck(tag: nat, multiple: bool)
      requires fate.Living? && current >= 1
      modifies this
      ensures View() == Step(old(View()), ConfirmOp(tag, multiple, false))
    {
      OnConfirm(tag, multiple, Acked);
    }

    method OnNack(tag: nat, multiple: bool)
      requires fate.Living? && current >= 1
      modifies this
      ensures View() == Step(old(View()), ConfirmOp(tag, multiple, true))
    {
      OnConfirm(tag, multiple, Nacked);
    }

    method ReportError()
      requires fate.Living? && current >= 1
      modifies this
      ensures View() == Step(old(View()), ErrorOp)
    {
      hide ReportStep;
      var moved := handlers;
      handlers := map[];
      var iter := NextKey(moved, -1);
      while iter.Some?
        invariant fate.Living? && current >= 1 && iter == NextKey(moved, -1)
        invariant ErrorStep(old(View())) == FailAll(View(), moved)
        decreases |moved|
      {
        Tell(iter.value, moved[iter.value], Errored);
        if !fate.Living? { return; }
        moved := moved - {iter.value};
        iter := NextKey(moved, -1);
      }
    }
  }
}
