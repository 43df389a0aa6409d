/**
 What the publisher confirms add up to: how many messages are answered, what every operation reports and
 calls, when a deferred object is used that was freed, what becomes of messages that could not be sent,
 and which tags may be confirmed.
 */
module ConfirmLaws {
  import opened Sequences
  import opened Wrappers
  import opened PublisherConfirms

  // ---------------------------------------------------------------- conservation in numbers

  ghost function RealTags(reports: seq<Report>): set<nat> {
    set r | r in reports && r.tag >= 1 :: r.tag
  }

  lemma TimesIsMembership(reports: seq<Report>, tag: nat)
    ensures Times(reports, tag) > 0 <==> exists r :: r in reports && r.tag == tag
  {
    if reports != [] {
      var init, last := reports[..|reports| - 1], reports[|reports| - 1];
      TimesIsMembership(init, tag);
      assert reports == init + [last];
      if Times(init, tag) > 0 {
        var r :| r in init && r.tag == tag;
        assert r in reports;
      }
    }
  }

  lemma {:induction false} DistinctReports(reports: seq<Report>)
    requires forall t: nat :: t >= 1 ==> Times(reports, t) <= 1
    ensures |RealTags(reports)| == |reports| - Times(reports, 0)
  {
    if reports == [] {
      assert RealTags(reports) == {};
    } else {
      var init, last := reports[..|reports| - 1], reports[|reports| - 1];
      assert reports == init + [last];
      forall t: nat | t >= 1 ensures Times(init, t) <= 1 {
        assert Times(reports, t) <= 1;
      }
      DistinctReports(init);
      TimesIsMembership(init, last.tag);
      if last.tag >= 1 {
        assert Times(reports, last.tag) <= 1;
        assert last.tag !in RealTags(init);
        assert RealTags(reports) == RealTags(init) + {last.tag};
      } else {
        assert RealTags(reports) == RealTags(init);
      }
    }
  }

  /** The tags that were given out before `n`. */
  ghost function Given(n: nat): (tags: set<nat>)
    requires n >= 1
    ensures forall t :: t in tags <==> 1 <= t < n
    ensures |tags| == n - 1
  {
    if n == 1 then {} else Given(n - 1) + {n - 1}
  }

  lemma AnsweredOrOutstanding(c: Channel)
    requires c.Lives() && Conserved(c)
    ensures c.handlers.Keys - {0} !! RealTags(c.reports)
    ensures (c.handlers.Keys - {0}) + RealTags(c.reports) == Given(c.current)
  {
    forall t: nat | t >= 1
      ensures t in RealTags(c.reports) <==> Times(c.reports, t) == 1
    {
      TimesIsMembership(c.reports, t);
    }
  }

  /** Over every run that leaves the object alive: sent = outstanding + answered. */
  lemma SentIsOutstandingPlusAnswered(ops: seq<Op>)
    ensures var c := Run(INITIAL, ops);
            c.Lives() ==> c.current - 1 == |c.handlers.Keys - {0}| + (|c.reports| - Times(c.reports, 0))
  {
    var c := Run(INITIAL, ops);
    StartIsConserved();
    RunConserves(INITIAL, ops);
    if c.Lives() {
      DistinctReports(c.reports);
      AnsweredOrOutstanding(c);
      var outstanding, answered := c.handlers.Keys - {0}, RealTags(c.reports);
      assert |outstanding + answered| == |outstanding| + |answered|;
    }
  }

  // ---------------------------------------------------------------- what an operation reports and calls

  /** The end of a sweep over these tags: that of the first report which ends the channel. */
  function FateOfAll(m: map<nat, Deferred>, tags: seq<nat>, verdict: Verdict): Fate
    requires forall t :: t in tags ==> t in m
  {
    if tags == [] then Living
    else
      var fate := FateOf(tags[0], m[tags[0]].hooks, verdict);
      if fate == Living then FateOfAll(m, tags[1..], verdict) else fate
  }

  /** The handlers that a sweep still has to meet are the ones it started with. */
  ghost predicate Unmet(m: map<nat, Deferred>, handlers: map<nat, Deferred>, after: int, tag: nat) {
    forall t :: after < t <= tag ==> (t in m <==> t in handlers) && (t in m ==> m[t] == handlers[t])
  }

  /** The tags that are told: all of them, or up to the one whose report ends the channel. */
  function ToldTags(m: map<nat, Deferred>, tags: seq<nat>, verdict: Verdict): (told: seq<nat>)
    requires forall t :: t in tags ==> t in m
    ensures told <= tags && (FateOfAll(m, tags, verdict) == Living ==> told == tags)
  {
    if tags == [] then []
    else if FateOf(tags[0], m[tags[0]].hooks, verdict) != Living then [tags[0]]
    else [tags[0]] + ToldTags(m, tags[1..], verdict)
  }

  function CallsOfAll(m: map<nat, Deferred>, tags: seq<nat>, verdict: Verdict): seq<Call>
    requires forall t :: t in tags ==> t in m
  {
    if tags == [] then [] else CallsOf(tags[0], m[tags[0]].hooks, verdict) + CallsOfAll(m, tags[1..], verdict)
  }

  /** From `before` to `after`, these messages were told the verdict, as far as the channel lives. */
  ghost predicate Tells(m: map<nat, Deferred>, before: Channel, after: Channel, tags: seq<nat>, verdict: Verdict)
    requires forall t :: t in tags ==> t in m
  {
    var told := ToldTags(m, tags, verdict);
    && after.fate == FateOfAll(m, tags, verdict)
    && after.reports == before.reports + Verdicts(told, verdict)
    && after.calls == before.calls + CallsOfAll(m, told, verdict)
  }

  lemma TellsFirst(m: map<nat, Deferred>, c: Channel, told: Channel, after: Channel, k: nat, rest: seq<nat>,
                   verdict: Verdict)
    requires k in m && (forall t :: t in rest ==> t in m)
    requires told.fate == FateOf(k, m[k].hooks, verdict) && told.reports == c.reports + [Report(k, verdict)]
    requires told.calls == c.calls + CallsOf(k, m[k].hooks, verdict)
    requires if told.fate == Living then Tells(m, told, after, rest, verdict) else after == told
    ensures Tells(m, c, after, [k] + rest, verdict)
  {
    var tags := [k] + rest;
    assert tags[1..] == rest;
    var more := if told.fate == Living then ToldTags(m, rest, verdict) else [];
    assert ToldTags(m, tags, verdict) == [k] + more;
    assert ([k] + more)[1..] == more;
    VerdictsExtend(c.reports, k, more, verdict);
    Regrouped(c.calls, CallsOf(k, m[k].hooks, verdict), CallsOfAll(m, more, verdict));
    hide FateOf, CallsOf, Verdicts;
    assert c.reports + [Report(k, verdict)] + Verdicts([], verdict) == c.reports + [Report(k, verdict)]
      by { NoVerdicts(verdict); }
    assert CallsOfAll(m, [k] + more, verdict) == CallsOf(k, m[k].hooks, verdict) + CallsOfAll(m, more, verdict);
  }

  lemma NoVerdicts(verdict: Verdict)
    ensures Verdicts([], verdict) == []
  {
  }

  lemma TellsNobody(m: map<nat, Deferred>, c: Channel, verdict: Verdict)
    requires c.Lives()
    ensures Tells(m, c, c, [], verdict)
  {
    NoVerdicts(verdict);
  }

  lemma {:induction false} SweepTellsExactly(m: map<nat, Deferred>, c: Channel, after: int, tag: nat,
                                             verdict: Verdict)
    requires c.Lives() && Sound(c) && -1 <= after <= tag < c.current && Unmet(m, c.handlers, after, tag)
    ensures forall t :: t in Outstanding(m, after, tag) ==> t in m
    ensures Tells(m, c, Sweep(c, after, tag, verdict), Outstanding(m, after, tag), verdict)
    decreases tag - after
  {
    hide ReportStep, FateOf, CallsOf, CallsOfAll, Verdicts, Remembered, ToldTags;
    TellsNobody(m, c, verdict);
    OutstandingIsAscending(m, after, tag);
    NextKeyAgrees(m, c.handlers, after, tag);
    var next := NextKey(m, after);
    if next.Some? && next.value <= tag {
      var k := next.value;
      TurnTells(c, k, c.handlers[k], verdict);
      var told := ReportStep(c, k, c.handlers[k], verdict);
      var swept := Sweep(c, after, tag, verdict);
      if told.Lives() {
        SweepTellsExactly(m, told, k, tag, verdict);
      }
      hide Tells;
      TellsFirst(m, c, told, swept, k, Outstanding(m, k, tag), verdict);
    }
  }

  lemma {:induction false} FailAllTellsExactly(m: map<nat, Deferred>, c: Channel, moved: map<nat, Deferred>,
                                               after: int, bound: nat)
    requires c.Lives() && Sound(c) && c.current >= bound >= 1
    requires forall t :: t in moved <==> t in m && t > after
    requires forall t :: t in moved ==> t < bound && moved[t] == m[t]
    ensures forall t :: t in Outstanding(m, after, bound) ==> t in m
    ensures Tells(m, c, FailAll(c, moved), Outstanding(m, after, bound), Errored)
    decreases |moved|
  {
    hide ReportStep, FateOf, CallsOf, CallsOfAll, Verdicts, Remembered, ToldTags;
    TellsNobody(m, c, Errored);
    OutstandingIsAscending(m, after, bound);
    match NextKey(moved, -1)
    case None =>
      assert NextKey(m, after).None?;
    case Some(k) =>
      assert NextKey(m, after) == Some(k);
      assert Outstanding(m, after, bound) == [k] + Outstanding(m, k, bound);
      hide Outstanding;
      TurnTells(c, k, moved[k], Errored);
      var told := ReportStep(c, k, moved[k], Errored);
      if told.Lives() {
        FailAllTellsExactly(m, told, moved - {k}, k, bound);
      }
      hide Tells;
      TellsFirst(m, c, told, FailAll(c, moved), k, Outstanding(m, k, bound), Errored);
  }

  /** The messages that an operation is about. */
  function Named(c: Channel, op: Op): seq<nat> {
    match op
    case PublishOp(_, _) => []
    case ConfirmOp(tag, multiple, _) =>
      if multiple then Outstanding(c.handlers, -1, tag) else if tag in c.handlers then [tag] else []
    case ErrorOp => Outstanding(c.handlers, -1, c.current)
  }

  /** What every operation reports and calls, exactly: an ack acks, a nack nacks and an error fails the messages it
      is about, in ascending order and up to the end of the channel; a publish reports nothing. */
  lemma StepTells(c: Channel, op: Op)
    requires c.Lives() && Conserved(c) && (op.ConfirmOp? && op.multiple ==> op.tag < c.current)
    ensures forall t :: t in Named(c, op) ==> t in c.handlers
    ensures Tells(c.handlers, c, Step(c, op), Named(c, op),
                  match op case PublishOp(_, _) => Acked
                           case ConfirmOp(_, _, nack) => if nack then Nacked else Acked
                           case ErrorOp => Errored)
  {
    match op
    case PublishOp(sent, hooks) =>
      NoVerdicts(Acked);
      PublishStores(c, sent, hooks);
    case ConfirmOp(tag, multiple, nack) =>
      var verdict := if nack then Nacked else Acked;
      if multiple {
        SweepTellsExactly(c.handlers, c, -1, tag, verdict);
        hide Sweep, Outstanding, Conserved, CallsOfAll, ToldTags, FateOfAll, Verdicts;
      } else {
        OneTellsExactly(c, tag, verdict);
      }
    case ErrorOp =>
      FailAllTellsExactly(c.handlers, c.(handlers := map[]), c.handlers, -1, c.current);
      hide Outstanding, Conserved, CallsOfAll, ToldTags, FateOfAll, Verdicts;
  }

  lemma OneTellsExactly(c: Channel, tag: nat, verdict: Verdict)
    requires c.Lives() && Sound(c)
    ensures var tags := if tag in c.handlers then [tag] else [];
            Tells(c.handlers, c, ConfirmOne(c, tag, verdict), tags, verdict)
  {
    hide ReportStep, FateOf, CallsOf, Verdicts;
    NoVerdicts(verdict);
    if tag in c.handlers {
      TurnTells(c, tag, c.handlers[tag], verdict);
      var told := ReportStep(c, tag, c.handlers[tag], verdict);
      TellsFirst(c.handlers, c, told, told, tag, [], verdict);
      assert [tag] + [] == [tag];
    }
  }

  /** Between two states, everything that was reported and called was about these messages, in this voice. */
  ghost predicate Speaks(before: Channel, after: Channel, tags: seq<nat>, verdict: Verdict) {
    && before.reports <= after.reports && before.calls <= after.calls
    && var reports, calls := after.reports[|before.reports|..], after.calls[|before.calls|..];
    && (forall r :: r in reports ==> r.tag in tags && r.verdict == verdict)
    && (forall call :: call in calls ==> call.tag in tags && (call.callback == AckCallback <==> verdict == Acked))
    && (after.Lives() ==> forall t :: t in tags ==> Report(t, verdict) in reports)
  }

  lemma TellingSpeaks(m: map<nat, Deferred>, before: Channel, after: Channel, tags: seq<nat>, verdict: Verdict)
    requires (forall t :: t in tags ==> t in m) && Tells(m, before, after, tags, verdict)
    ensures Speaks(before, after, tags, verdict)
  {
    var told := ToldTags(m, tags, verdict);
    CallsOfAllAreAllowed(m, told, verdict);
    VerdictsAre(told, verdict);
    hide ToldTags, FateOfAll, CallsOfAll, Verdicts;
    NewPart(before.reports, Verdicts(told, verdict));
    NewPart(before.calls, CallsOfAll(m, told, verdict));
  }

  lemma NewPart<T>(before: seq<T>, more: seq<T>)
    ensures before <= before + more && (before + more)[|before|..] == more
  {
  }

  lemma VerdictsAre(tags: seq<nat>, verdict: Verdict)
    ensures forall r :: r in Verdicts(tags, verdict) <==> r.verdict == verdict && r.tag in tags
  {
    forall t | t in tags ensures Report(t, verdict) in Verdicts(tags, verdict) {
      var i :| 0 <= i < |tags| && tags[i] == t;
      assert Verdicts(tags, verdict)[i] == Report(t, verdict);
    }
    forall r: Report | r.verdict == verdict && r.tag in tags ensures r in Verdicts(tags, verdict) {
      assert r == Report(r.tag, verdict);
    }
  }

  /** At every step of every run: an ack reports acks and runs ack callbacks only, a nack reports nacks and an
      error errors, and neither runs an ack callback; each is about the messages it names, and, unless the channel
      ends, about all of them. */
  lemma OperationsKeepTheirVoice(ops: seq<Op>, k: nat)
    requires k < |ops| && Run(INITIAL, ops[..k]).Lives()
    requires ops[k].ConfirmOp? && ops[k].multiple ==> ops[k].tag < Run(INITIAL, ops[..k]).current
    ensures var before, after := Run(INITIAL, ops[..k]), Run(INITIAL, ops[..k + 1]);
            match ops[k]
            case PublishOp(_, _) => after.reports == before.reports && after.calls == before.calls
            case ConfirmOp(_, _, nack) => Speaks(before, after, Named(before, ops[k]), if nack then Nacked else Acked)
            case ErrorOp => Speaks(before, after, Named(before, ops[k]), Errored)
  {
    var op, before := ops[k], Run(INITIAL, ops[..k]);
    var after := Step(before, op);
    RunFurther(INITIAL, ops, k);
    StartIsConserved();
    RunConserves(INITIAL, ops[..k]);
    StepTells(before, op);
    if op.PublishOp? {
      PublishStores(before, op.sent, op.hooks);
    } else {
      var verdict := if op.ErrorOp? then Errored else if op.nack then Nacked else Acked;
      TellingSpeaks(before.handlers, before, after, Named(before, op), verdict);
    }
    hide Step, Run, Named, Conserved, Speaks, Tells;
  }

  lemma {:induction false} CallsOfAllAreAllowed(m: map<nat, Deferred>, tags: seq<nat>, verdict: Verdict)
    requires forall t :: t in tags ==> t in m
    ensures forall call :: call in CallsOfAll(m, tags, verdict) ==>
              call.tag in tags && (call.callback == AckCallback <==> verdict == Acked)
  {
    if tags != [] {
      CallsOfAllAreAllowed(m, tags[1..], verdict);
      assert forall call :: call in CallsOf(tags[0], m[tags[0]].hooks, verdict) ==>
          call.tag == tags[0] && (call.callback == AckCallback <==> verdict == Acked);
      hide CallsOf;
    }
  }

  lemma {:induction false} RunFurther(c: Channel, ops: seq<Op>, k: nat)
    requires k < |ops|
    ensures Run(c, ops[..k + 1]) == Step(Run(c, ops[..k]), ops[k])
    decreases k
  {
    hide Step;
    if k == 0 {
      assert ops[..1][1..] == [] && ops[..0] == [];
    } else {
      assert ops[..k + 1][1..] == ops[1..][..k] && ops[..k][1..] == ops[1..][..k - 1];
      RunFurther(Step(c, ops[0]), ops[1..], k - 1);
    }
  }

  /** A channel that ended takes no further part. */
  lemma EndedStaysEnded(c: Channel, op: Op)
    requires !c.Lives()
    ensures Step(c, op) == c
  {
  }

  // ---------------------------------------------------------------- when a confirm uses what was freed

  lemma {:induction false} FirstEnd(m: map<nat, Deferred>, tags: seq<nat>, verdict: Verdict)
    requires forall t :: t in tags ==> t in m
    ensures FateOfAll(m, tags, verdict) == Undefined
            <==> exists i :: 0 <= i < |tags| && EndsAt(m, tags, verdict, i)
  {
    hide FateOf;
    if tags != [] {
      var rest := tags[1..];
      FirstEnd(m, rest, verdict);
      forall i | 1 <= i < |tags|
        ensures EndsAt(m, tags, verdict, i)
                <==> FateOf(tags[0], m[tags[0]].hooks, verdict) == Living && EndsAt(m, rest, verdict, i - 1)
      {
        EndsLater(m, tags, verdict, i);
      }
      if i :| 0 <= i < |rest| && EndsAt(m, rest, verdict, i) {
        assert EndsAt(m, tags, verdict, i + 1) <==> FateOf(tags[0], m[tags[0]].hooks, verdict) == Living;
      }
      assert EndsAt(m, tags, verdict, 0) <==> FateOf(tags[0], m[tags[0]].hooks, verdict) == Undefined;
      hide EndsAt;
    }
  }

  /** The first report that ends the channel uses a freed object. */
  ghost predicate EndsAt(m: map<nat, Deferred>, tags: seq<nat>, verdict: Verdict, i: nat)
    requires i < |tags| && forall t :: t in tags ==> t in m
  {
    && FateOf(tags[i], m[tags[i]].hooks, verdict) == Undefined
    && forall j :: 0 <= j < i ==> FateOf(tags[j], m[tags[j]].hooks, verdict) == Living
  }

  lemma EndsLater(m: map<nat, Deferred>, tags: seq<nat>, verdict: Verdict, i: nat)
    requires 1 <= i < |tags| && forall t :: t in tags ==> t in m
    ensures EndsAt(m, tags, verdict, i)
            <==> FateOf(tags[0], m[tags[0]].hooks, verdict) == Living && EndsAt(m, tags[1..], verdict, i - 1)
  {
    hide FateOf;
    var rest := tags[1..];
    assert forall j :: 1 <= j < |tags| ==> tags[j] == rest[j - 1];
  }

  /** A report to this key uses a freed object, and no report before ends the channel. */
  ghost predicate FirstFreed(m: map<nat, Deferred>, k: nat, verdict: Verdict)
    requires k in m
  {
    && FreesItself(k, m[k].hooks, verdict)
    && forall j :: j in m && j < k ==> FateOf(j, m[j].hooks, verdict) == Living
  }

  /** A multiple confirm uses an object that was freed, if and only if it is a nack that comes to an object whose
      nack callback frees it, and no callback before destroyed the channel. */
  lemma WhenAConfirmUsesAFreedObject(c: Channel, tag: nat, verdict: Verdict)
    requires c.Lives() && Sound(c) && tag < c.current
    ensures ConfirmUpTo(c, tag, verdict).fate == Undefined
            <==> exists k :: k in c.handlers && k <= tag && FirstFreed(c.handlers, k, verdict)
  {
    var m, tags := c.handlers, Outstanding(c.handlers, -1, tag);
    SweepTellsExactly(m, c, -1, tag, verdict);
    FirstEnd(m, tags, verdict);
    OutstandingIsAscending(m, -1, tag);
    hide Sweep, Outstanding, FateOfAll, Sound, EndsAt, FirstFreed;
    forall i | 0 <= i < |tags|
      ensures tags[i] in m && (EndsAt(m, tags, verdict, i) <==> FirstFreed(m, tags[i], verdict))
    {
      ByKey(m, tags, tag, verdict, i);
    }
    if k :| k in m && k <= tag && FirstFreed(m, k, verdict) {
      assert k in tags;
      var i :| 0 <= i < |tags| && tags[i] == k;
      assert EndsAt(m, tags, verdict, i);
    }
    if i :| 0 <= i < |tags| && EndsAt(m, tags, verdict, i) {
      assert tags[i] in tags && FirstFreed(m, tags[i], verdict);
    }
  }

  /** The first end, by its position and by its key. */
  lemma ByKey(m: map<nat, Deferred>, tags: seq<nat>, tag: nat, verdict: Verdict, i: nat)
    requires forall i, j :: 0 <= i < j < |tags| ==> tags[i] < tags[j]
    requires forall t: nat :: t in tags <==> t in m && t <= tag
    requires i < |tags|
    ensures tags[i] in m && (EndsAt(m, tags, verdict, i) <==> FirstFreed(m, tags[i], verdict))
  {
    var k := tags[i];
    assert k in tags;
    assert FreesItself(k, m[k].hooks, verdict) <==> FateOf(k, m[k].hooks, verdict) == Undefined;
    hide FateOf, FreesItself;
    forall j | j in m && j < k ensures exists at :: 0 <= at < i && tags[at] == j {
      assert j in tags;
      var at :| 0 <= at < |tags| && tags[at] == j;
      assert at < i;
    }
    forall j | 0 <= j < i ensures tags[j] in m && tags[j] < k {
      assert tags[j] in tags;
    }
  }

  /** Nothing but a nack ever does. */
  lemma OnlyNacksUseFreedObjects(c: Channel, op: Op)
    requires c.Lives() && Conserved(c) && Step(c, op).fate == Undefined
    ensures op.ConfirmOp? && op.nack
  {
    match op
    case PublishOp(_, _) =>
    case ErrorOp => ErrorTellsAll(c);
    case ConfirmOp(tag, multiple, nack) =>
      if !nack {
        if multiple {
          AcksUseNothingFreed(c, -1, tag);
        } else if tag in c.handlers {
          TurnTells(c, tag, c.handlers[tag], Acked);
        }
      }
  }

  lemma {:induction false} AcksUseNothingFreed(c: Channel, after: int, tag: nat)
    requires c.Lives() && Sound(c)
    ensures Sweep(c, after, tag, Acked).fate != Undefined
    decreases tag - after
  {
    match NextKey(c.handlers, after)
    case None =>
    case Some(k) =>
      if k <= tag {
        TurnTells(c, k, c.handlers[k], Acked);
        var told := ReportStep(c, k, c.handlers[k], Acked);
        if told.Lives() {
          AcksUseNothingFreed(told, k, tag);
        }
      }
  }

  // ---------------------------------------------------------------- messages that could not be sent

  /** Whether the callbacks of a verdict fail to publish anything. */
  predicate Fails(m: map<nat, Deferred>, tag: nat, verdict: Verdict) {
    tag in m && FailsToSend(Executed(tag, m[tag].hooks, verdict))
  }

  /** Under key zero there is an object that was not there before. */
  predicate NewFailure(c: Channel, made: nat) {
    0 in c.handlers && c.handlers[0].id >= made
  }

  lemma TurnFails(c: Channel, k: nat, verdict: Verdict, made: nat)
    requires c.Lives() && Sound(c) && k in c.handlers && made <= c.made
    ensures var told := ReportStep(c, k, c.handlers[k], verdict);
            told.Lives() ==>
              && (NewFailure(told, made) <==> NewFailure(c, made) || Fails(c.handlers, k, verdict))
              && (0 in told.handlers <==> 0 in c.handlers || Fails(c.handlers, k, verdict))
  {
    ReportFrame(c, k, c.handlers[k], verdict);
    hide ReportStep, Bare, FateOf, CallsOf, Executed, FailsToSend;
  }

  lemma {:induction false} SweepStoresFailures(m: map<nat, Deferred>, c: Channel, after: int, tag: nat,
                                               verdict: Verdict, made: nat)
    requires c.Lives() && Sound(c) && -1 <= after <= tag < c.current && Unmet(m, c.handlers, after, tag)
    requires made <= c.made
    ensures var swept := Sweep(c, after, tag, verdict);
            swept.Lives() ==>
              (NewFailure(swept, made)
               <==> NewFailure(c, made) || exists t :: t in Outstanding(m, after, tag) && Fails(m, t, verdict))
    decreases tag - after
  {
    NextKeyAgrees(m, c.handlers, after, tag);
    var next := NextKey(m, after);
    if next.Some? && next.value <= tag {
      var k := next.value;
      TurnTells(c, k, c.handlers[k], verdict);
      TurnFails(c, k, verdict, made);
      var told := ReportStep(c, k, c.handlers[k], verdict);
      hide ReportStep, FateOf, CallsOf, Executed, FailsToSend, NewFailure;
      if told.Lives() {
        SweepStoresFailures(m, told, k, tag, verdict, made);
        InFront(m, k, Outstanding(m, k, tag), verdict);
        assert Fails(m, k, verdict) == Fails(c.handlers, k, verdict);
      }
    }
  }

  lemma InFront(m: map<nat, Deferred>, k: nat, rest: seq<nat>, verdict: Verdict)
    ensures (exists t :: t in [k] + rest && Fails(m, t, verdict))
            <==> Fails(m, k, verdict) || exists t :: t in rest && Fails(m, t, verdict)
  {
    assert k in [k] + rest;
    assert forall t :: t in [k] + rest <==> t == k || t in rest;
  }

  /** What one single confirm leaves of the other messages. */
  lemma OneLeavesTheOthers(c: Channel, k: nat, verdict: Verdict)
    requires c.Lives() && Sound(c) && k in c.handlers
    ensures var one := ConfirmOne(c, k, verdict);
            one.Lives() ==>
              && Sound(one) && k !in one.handlers
              && (forall t :: t in c.handlers && t >= 1 && t != k ==>
                    t in one.handlers && one.handlers[t] == c.handlers[t])
              && (k >= 1 ==> (0 in one.handlers <==> 0 in c.handlers || Fails(c.handlers, k, verdict)))
  {
    TurnTells(c, k, c.handlers[k], verdict);
    TurnFails(c, k, verdict, c.made);
    var told := ReportStep(c, k, c.handlers[k], verdict);
    hide FateOf, CallsOf, ReportStep, Fails, Remembered;
    if told.Lives() {
      RememberedAmong(told.given, told.handlers, {k});
    }
  }

  lemma {:induction false} SinglesStoreFailures(m: map<nat, Deferred>, c: Channel, tags: seq<nat>, verdict: Verdict)
    requires c.Lives() && Sound(c)
    requires forall i :: 0 <= i < |tags| ==>
               tags[i] >= 1 && tags[i] in c.handlers && tags[i] in m && m[tags[i]] == c.handlers[tags[i]]
    requires forall i, j :: 0 <= i < j < |tags| ==> tags[i] < tags[j]
    ensures var singles := Singles(c, tags, verdict);
            singles.Lives() ==>
              (0 in singles.handlers <==> 0 in c.handlers || exists t :: t in tags && Fails(m, t, verdict))
    decreases |tags|
  {
    if tags != [] {
      var k, rest := tags[0], tags[1..];
      assert tags == [k] + rest;
      OneLeavesTheOthers(c, k, verdict);
      var one := ConfirmOne(c, k, verdict);
      assert Fails(m, k, verdict) == Fails(c.handlers, k, verdict);
      hide Fails, ConfirmOne, Sound;
      if one.Lives() {
        SinglesStoreFailures(m, one, rest, verdict);
        InFront(m, k, rest, verdict);
      }
    }
  }

  /** What becomes of messages that could not be sent, and share key zero. A multiple confirm reports the one
      that is pending before, and none that its own callbacks fail to publish: if there are any, the last of them
      is under key zero after the callbacks, and is erased without a report. Single confirms keep it, unless
      it comes from a callback of key zero itself. */
  lemma FateOfFailedPublishes(c: Channel, tag: nat, verdict: Verdict)
    requires c.Lives() && Conserved(c) && tag < c.current && ConfirmUpTo(c, tag, verdict).Lives()
    ensures var swept, many := Sweep(c, -1, tag, verdict), ConfirmUpTo(c, tag, verdict);
            var tags := Outstanding(c.handlers, -1, tag);
            var singles := Singles(c, tags, verdict);
            && 0 !in many.handlers
            && Times(many.reports, 0) == Times(c.reports, 0) + (if 0 in c.handlers then 1 else 0)
            && (NewFailure(swept, c.made) <==> exists t :: t in tags && Fails(c.handlers, t, verdict))
            && (0 in singles.handlers <==> exists t :: t in tags && t >= 1 && Fails(c.handlers, t, verdict))
  {
    SweepStoresFailures(c.handlers, c, -1, tag, verdict, c.made);
    FailedPublishIsConfirmed(c, tag, verdict);
    SweepIsSingles(c.handlers, c, c, -1, tag, verdict);
    SinglesForgetOwnFailure(c, tag, verdict);
  }

  lemma SinglesForgetOwnFailure(c: Channel, tag: nat, verdict: Verdict)
    requires c.Lives() && Sound(c) && tag < c.current
    ensures var tags := Outstanding(c.handlers, -1, tag);
            var singles := Singles(c, tags, verdict);
            singles.Lives() ==>
              (0 in singles.handlers <==> exists t :: t in tags && t >= 1 && Fails(c.handlers, t, verdict))
  {
    var m, tags := c.handlers, Outstanding(c.handlers, -1, tag);
    OutstandingIsAscending(m, -1, tag);
    hide Outstanding, Fails;
    assert forall i :: 0 <= i < |tags| ==> tags[i] in tags;
    if 0 in m {
      ZeroIsFirst(tags);
      SinglesAfterZero(c, tags, verdict);
    } else {
      SinglesStoreFailures(m, c, tags, verdict);
    }
  }

  lemma ZeroIsFirst(tags: seq<nat>)
    requires 0 in tags && forall i, j :: 0 <= i < j < |tags| ==> tags[i] < tags[j]
    ensures tags[0] == 0
  {
  }

  lemma SinglesAfterZero(c: Channel, tags: seq<nat>, verdict: Verdict)
    requires c.Lives() && Sound(c) && tags != [] && tags[0] == 0
    requires forall i :: 0 <= i < |tags| ==> tags[i] in c.handlers
    requires forall i, j :: 0 <= i < j < |tags| ==> tags[i] < tags[j]
    ensures var singles := Singles(c, tags, verdict);
            singles.Lives() ==>
              (0 in singles.handlers <==> exists t :: t in tags && t >= 1 && Fails(c.handlers, t, verdict))
  {
    var rest, one := tags[1..], ConfirmOne(c, 0, verdict);
    assert tags == [0] + rest;
    OneLeavesTheOthers(c, 0, verdict);
    assert Singles(c, tags, verdict) == Singles(one, rest, verdict);
    hide ConfirmOne, Fails, Sound;
    if one.Lives() {
      assert forall i :: 0 <= i < |rest| ==> rest[i] == tags[i + 1];
      SinglesStoreFailures(c.handlers, one, rest, verdict);
      hide Singles;
      assert forall t :: t in tags && t >= 1 <==> t in rest;
    }
  }

  /** After an error a failed publish is pending if and only if one of the callbacks fails to publish: the one that
      was pending before was told. */
  lemma ErrorKeepsNewFailures(c: Channel)
    requires c.Lives() && Conserved(c) && ErrorStep(c).Lives()
    ensures 0 in ErrorStep(c).handlers <==> exists t :: t in c.handlers && Fails(c.handlers, t, Errored)
  {
    FailAllStoresFailures(c.handlers, c.(handlers := map[]), c.handlers);
  }

  lemma {:induction false} FailAllStoresFailures(m: map<nat, Deferred>, c: Channel, moved: map<nat, Deferred>)
    requires c.Lives() && Sound(c)
    requires forall t :: t in moved ==> t in m && moved[t] == m[t]
    ensures var failed := FailAll(c, moved);
            failed.Lives() ==>
              (0 in failed.handlers <==> 0 in c.handlers || exists t :: t in moved && Fails(m, t, Errored))
    decreases |moved|
  {
    hide ReportStep, FateOf, CallsOf, Bare, FailsToSend, Executed;
    match NextKey(moved, -1)
    case None =>
    case Some(k) =>
      TurnTells(c, k, moved[k], Errored);
      ReportFrame(c, k, moved[k], Errored);
      var told := ReportStep(c, k, moved[k], Errored);
      if told.Lives() {
        assert 0 in told.handlers <==> 0 in c.handlers || Fails(m, k, Errored);
        FailAllStoresFailures(m, told, moved - {k});
        hide Fails;
        assert forall t :: t in moved <==> t == k || t in moved - {k};
      }
  }

  lemma {:induction false} SweepPastZero(c: Channel, after: nat, tag: nat, verdict: Verdict)
    requires c.Lives() && Sound(c)
    ensures Times(Sweep(c, after, tag, verdict).reports, 0) == Times(c.reports, 0)
    decreases tag - after
  {
    var next := NextKey(c.handlers, after);
    if next.Some? && next.value <= tag {
      var k := next.value;
      TurnTells(c, k, c.handlers[k], verdict);
      TimesAppend(c.reports, Report(k, verdict), 0);
      var told := ReportStep(c, k, c.handlers[k], verdict);
      if told.Lives() {
        SweepPastZero(told, k, tag, verdict);
      }
    }
  }

  /** A multiple confirm of any tag reports key zero once more, exactly when a failed publish is pending. */
  lemma FailedPublishIsConfirmed(c: Channel, tag: nat, verdict: Verdict)
    requires c.Lives() && Sound(c)
    ensures Times(ConfirmUpTo(c, tag, verdict).reports, 0)
            == Times(c.reports, 0) + (if 0 in c.handlers then 1 else 0)
  {
    if 0 in c.handlers {
      assert NextKey(c.handlers, -1) == Some(0);
      TurnTells(c, 0, c.handlers[0], verdict);
      TimesAppend(c.reports, Report(0, verdict), 0);
      var told := ReportStep(c, 0, c.handlers[0], verdict);
      if told.Lives() {
        SweepPastZero(told, 0, tag, verdict);
      }
    } else {
      assert NextKey(c.handlers, -1) == NextKey(c.handlers, 0);
      assert Sweep(c, -1, tag, verdict) == Sweep(c, 0, tag, verdict);
      SweepPastZero(c, 0, tag, verdict);
    }
  }

  // ---------------------------------------------------------------- tags that may be confirmed

  /** What callbacks publish is neither told nor erased. */
  ghost predicate LeavesNewAlone(c: Channel, tag: nat, verdict: Verdict) {
    var many := ConfirmUpTo(c, tag, verdict);
    forall t: nat :: c.current <= t ==>
      Times(many.reports, t) == Times(c.reports, t) && (many.Lives() && t < many.current ==> t in many.handlers)
  }

  /** The same state, but with other callbacks on the outstanding messages. */
  ghost predicate SameButCallbacks(d: Channel, c: Channel) {
    && d == c.(handlers := d.handlers, given := d.given) && Sound(d)
    && d.handlers.Keys == c.handlers.Keys
    && (forall t :: t in c.handlers ==> d.handlers[t] == c.handlers[t].(hooks := d.handlers[t].hooks))
    && |d.given| == |c.given|
    && forall t :: 1 <= t <= |c.given| && t !in c.handlers ==> d.given[t - 1] == c.given[t - 1]
  }

  lemma OtherCallbacks(d: Channel, c: Channel)
    requires c.Lives() && Conserved(c) && SameButCallbacks(d, c)
    ensures Conserved(d)
  {
    forall call: Call | call.tag >= 1
      ensures multiset(d.calls)[call]
           == if call.tag <= |d.given| then Due(d.reports, d.given[call.tag - 1], call) else 0
    {
      assert multiset(c.calls)[call]
          == if call.tag <= |c.given| then Due(c.reports, c.given[call.tag - 1], call) else 0;
      if call.tag in c.handlers {
        NotDue(c.reports, c.given[call.tag - 1], call);
        NotDue(c.reports, d.given[call.tag - 1], call);
      }
    }
  }

  const QUIET := Hooks(None, None, None, None)

  /** Callbacks that publish one message, whose own callbacks do nothing. */
  const CHATTY := Hooks(Some([Publish(true, QUIET)]), Some([Publish(true, QUIET)]), None, None)

  ghost predicate Harmless(c: Channel) {
    forall t :: t in c.handlers ==> c.handlers[t].hooks == QUIET || c.handlers[t].hooks == CHATTY
  }

  /** Reporting to harmless callbacks: the channel lives on, and a chatty one publishes the next tag. */
  lemma HarmlessTurn(c: Channel, k: nat, verdict: Verdict)
    requires c.Lives() && Sound(c) && Harmless(c) && k in c.handlers && !verdict.Errored?
    ensures var told := ReportStep(c, k, c.handlers[k], verdict);
            && told.Lives() && Harmless(told)
            && (c.handlers[k].hooks == CHATTY ==> told.current == c.current + 1)
  {
    var hooks := c.handlers[k].hooks;
    if hooks == CHATTY {
      var hook := [Publish(true, QUIET)];
      var called := c.(reports := c.reports + [Report(k, verdict)],
                       calls := c.calls + [Call(k, if verdict.Acked? then AckCallback else NackCallback)]);
      var next := PublishStep(called, true, QUIET);
      assert hook[1..] == [];
      assert RunHook(called, hook) == RunHook(next, []) == next;
    }
  }

  lemma {:induction false} HarmlessSweep(c: Channel, after: int, tag: nat, verdict: Verdict)
    requires c.Lives() && Sound(c) && Harmless(c) && !verdict.Errored?
    ensures var swept := Sweep(c, after, tag, verdict); swept.Lives() && swept.current >= c.current
    decreases tag - after
  {
    match NextKey(c.handlers, after)
    case None =>
    case Some(k) =>
      if k <= tag {
        HarmlessTurn(c, k, verdict);
        TurnTells(c, k, c.handlers[k], verdict);
        HarmlessSweep(ReportStep(c, k, c.handlers[k], verdict), k, tag, verdict);
      }
  }

  /** A tag that was never given out, with chatty callbacks: the next message is confirmed unsent to the broker. */
  lemma TooFarConfirmsNew(c: Channel, tag: nat, verdict: Verdict)
    requires c.Lives() && Conserved(c) && !verdict.Errored? && tag >= c.current && c.handlers != map[]
    requires forall t :: t in c.handlers ==> c.handlers[t].hooks == CHATTY
    ensures Times(ConfirmUpTo(c, tag, verdict).reports, c.current) == 1 && Times(c.reports, c.current) == 0
  {
    var some :| some in c.handlers;
    var k := NextKey(c.handlers, -1).value;
    HarmlessTurn(c, k, verdict);
    TurnTells(c, k, c.handlers[k], verdict);
    HarmlessSweep(ReportStep(c, k, c.handlers[k], verdict), k, tag, verdict);
    SweepKeepsTold(c, -1, tag, verdict);
  }

  /** Which tags a multiple confirm may name: with something outstanding, it leaves alone what its callbacks
      publish, whatever the callbacks are, if and only if the tag was given out. */
  lemma OnlyGivenTagsAreSafe(c: Channel, tag: nat, verdict: Verdict)
    requires c.Lives() && Conserved(c) && c.handlers != map[] && !verdict.Errored?
    ensures (forall d :: SameButCallbacks(d, c) ==> LeavesNewAlone(d, tag, verdict)) <==> tag < c.current
  {
    if tag < c.current {
      forall d | SameButCallbacks(d, c) ensures LeavesNewAlone(d, tag, verdict) {
        OtherCallbacks(d, c);
        GivenTagIsSafe(d, tag, verdict);
      }
    } else {
      var d := Chatty(c);
      assert d.handlers.Keys == c.handlers.Keys && d.handlers != map[];
      OtherCallbacks(d, c);
      TooFarConfirmsNew(d, tag, verdict);
      assert !LeavesNewAlone(d, tag, verdict);
    }
  }

  ghost function Chatty(c: Channel): (d: Channel)
    requires Sound(c)
    ensures SameButCallbacks(d, c)
  {
    c.(handlers := map t | t in c.handlers :: c.handlers[t].(hooks := CHATTY),
       given := seq(|c.given|, i requires 0 <= i < |c.given| => if i + 1 in c.handlers then CHATTY else c.given[i]))
  }

  lemma GivenTagIsSafe(c: Channel, tag: nat, verdict: Verdict)
    requires c.Lives() && Conserved(c) && tag < c.current
    ensures LeavesNewAlone(c, tag, verdict)
  {
    MultipleIsManySingles(c, tag, verdict);
    var tags, many := Outstanding(c.handlers, -1, tag), ConfirmUpTo(c, tag, verdict);
    OutstandingIsAscending(c.handlers, -1, tag);
    assert |c.reports| <= |many.reports|;
    forall t: nat | c.current <= t ensures Times(many.reports, t) == Times(c.reports, t) {
      var n := |many.reports|;
      PrefixTimes(c.reports, many.reports, tags, verdict, t);
    }
  }

  lemma {:induction false} PrefixTimes(before: seq<Report>, after: seq<Report>, tags: seq<nat>, verdict: Verdict,
                                       t: nat)
    requires before <= after <= before + Verdicts(tags, verdict) && t !in tags
    ensures Times(after, t) == Times(before, t)
    decreases |after|
  {
    if |after| == |before| {
      assert after == before;
    } else {
      var n := |after| - 1;
      assert after[n] == (before + Verdicts(tags, verdict))[n] == Verdicts(tags, verdict)[n - |before|];
      assert tags[n - |before|] in tags;
      PrefixTimes(before, after[..n], tags, verdict, t);
    }
  }
}
