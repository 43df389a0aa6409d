/**
 The Liquidsoap command transport: one command line out, one reply in, over a byte stream that
 arrives in arbitrary fragments and that may be dropped and dialled again at any time. The telnet
 and the Unix socket driver differ only in how they dial.
 */
module LiquidsoapTransport {
  import opened Numbers
  import opened Wrappers
  import opened Text

  const MAX_RESPONSE_SIZE := 1024 * 1024
  const RECV_LIMIT := 4095
  const INITIAL_BACKOFF_MS := 100
  const SUN_PATH_SIZE := 108

  // ---------------------------------------------------------------- the outside world

  datatype Errc = InvalidArgument | ConnectionRefused | IoError | MessageSize | ConnectionAborted

  /** One return of recv: some bytes, or zero or an error. */
  datatype RawRecv = Data(bytes: string) | Closed

  type Recv = r: RawRecv | r.Data? ==> 1 <= |r.bytes| <= RECV_LIMIT witness Closed

  /** What socket and connect do for one address. */
  datatype Endpoint = NoSocket | Refused(fd: nat) | Accepted(fd: nat)

  /** What the drivers meet when they dial: `now` and `later` are the two clock readings, in
      milliseconds, of the backoff bookkeeping. */
  datatype Dial =
    | Telnet(now: int, later: int, resolved: bool, endpoints: seq<Endpoint>)
    | UnixSocket(now: int, later: int, pathLength: nat, endpoint: Endpoint)

  datatype Call = Call(command: string, dial: Dial, sent: bool, recvs: seq<Recv>)

  /** `Blocked` is a call that is still waiting for the next recv to return. */
  datatype Outcome = Reply(text: string) | Failed(error: Errc) | Blocked

  /** The system calls that the outside world sees. */
  datatype Event =
    | Opened(fd: int)
    | Connected(fd: int)
    | Sent(fd: int, bytes: string)
    | Received(fd: int, bytes: string)
    | Shut(fd: int)

  // ---------------------------------------------------------------- the steps

  datatype Link = Link(fd: int, backoffMs: int, lastAttempt: int)

  datatype Dialled = Dialled(link: Link, error: Option<Errc>, events: seq<Event>)

  datatype Done = Done(link: Link, outcome: Outcome, events: seq<Event>)

  function BackoffStep(l: Link, d: Dial, cap: int): Link {
    l.(backoffMs := if d.now - l.lastAttempt >= l.backoffMs then Min(l.backoffMs * 2, cap) else l.backoffMs,
       lastAttempt := d.later)
  }

  /** Trying the addresses of a host one after the other. */
  function TryEndpoints(endpoints: seq<Endpoint>): (int, seq<Event>) {
    if endpoints == [] then (-1, [])
    else match endpoints[0]
      case NoSocket => TryEndpoints(endpoints[1..])
      case Accepted(fd) => (fd, [Opened(fd), Connected(fd)])
      case Refused(fd) =>
        var (last, events) := TryEndpoints(endpoints[1..]);
        (last, [Opened(fd), Shut(fd)] + events)
  }

  function ConnectStep(l: Link, d: Dial, cap: int): Dialled {
    if l.fd != -1 then Dialled(l, None, [])
    else
      var b := BackoffStep(l, d, cap);
      match d
      case Telnet(_, _, resolved, endpoints) =>
        if !resolved then Dialled(b, Some(InvalidArgument), [])
        else
          var (fd, events) := TryEndpoints(endpoints);
          if fd == -1 then Dialled(b, Some(ConnectionRefused), events)
          else Dialled(b.(fd := fd, backoffMs := INITIAL_BACKOFF_MS), None, events)
      case UnixSocket(_, _, pathLength, endpoint) =>
        match endpoint
        case NoSocket => Dialled(b, Some(IoError), [])
        case Accepted(fd) =>
          if pathLength >= SUN_PATH_SIZE then Dialled(b, Some(InvalidArgument), [Opened(fd), Shut(fd)])
          else Dialled(b.(fd := fd, backoffMs := INITIAL_BACKOFF_MS), None, [Opened(fd), Connected(fd)])
        case Refused(fd) =>
          Dialled(b, Some(if pathLength >= SUN_PATH_SIZE then InvalidArgument else ConnectionRefused),
                  [Opened(fd), Shut(fd)])
  }

  predicate Terminated(response: string) {
    Contains(response, "END\r\n") || Contains(response, "END\n")
  }

  /** Appending a C string: what follows a NUL byte is lost. */
  function CString(bytes: string): string {
    bytes[..IndexOf(bytes, '\0')]
  }

  /** What the receive loop does: its outcome, the number of receives it made and the bytes they gave. */
  datatype Reception = Reception(outcome: Outcome, receives: nat, heard: seq<string>)

  function Receive(response: string, recvs: seq<Recv>): Reception
    decreases |recvs|
  {
    if |response| > MAX_RESPONSE_SIZE then Reception(Failed(MessageSize), 0, [])
    else if recvs == [] then Reception(Blocked, 0, [])
    else match recvs[0]
      case Closed => Reception(Failed(ConnectionAborted), 1, [])
      case Data(bytes) =>
        var longer := response + CString(bytes);
        if Terminated(longer) then Reception(Reply(longer), 1, [bytes])
        else
          var r := Receive(longer, recvs[1..]);
          r.(receives := r.receives + 1, heard := [bytes] + r.heard)
  }

  function ReceivedEvents(fd: int, heard: seq<string>): seq<Event> {
    if heard == [] then [] else [Received(fd, heard[0])] + ReceivedEvents(fd, heard[1..])
  }

  /** Sending the command line and hearing the answer. */
  function Talk(fd: int, command: string, heard: seq<string>): seq<Event> {
    [Sent(fd, command + "\r\n")] + ReceivedEvents(fd, heard)
  }

  function ExecuteStep(l: Link, c: Call, cap: int): Done {
    var d := ConnectStep(l, c.dial, cap);
    if d.error.Some? then Done(d.link, Failed(d.error.value), d.events)
    else
      var fd := d.link.fd;
      if !c.sent then Done(d.link.(fd := -1), Failed(IoError), d.events + [Shut(fd)])
      else
        var r := Receive("", c.recvs);
        var events := d.events + Talk(fd, c.command, r.heard);
        if r.outcome.Failed? then Done(d.link.(fd := -1), r.outcome, events + [Shut(fd)])
        else Done(d.link, r.outcome, events)
  }

  // ---------------------------------------------------------------- fragmentation and termination

  predicate NulFree(s: string) {
    '\0' !in s
  }

  lemma CStringOfNulFree(s: string)
    requires NulFree(s)
    ensures CString(s) == s
  {
  }

  lemma NothingIsTerminated()
    ensures !Terminated("")
  {
    assert forall i {:trigger ""[i..]} | 0 <= i <= |""| :: ""[i..] == "";
  }

  /** A reply that the receive loop can recognise: it ends in a terminator, and not before its end. */
  ghost predicate WellFormedReply(reply: string) {
    NulFree(reply) && Terminated(reply) && forall n :: 0 <= n < |reply| ==> !Terminated(reply[..n])
  }

  function Bytes(recvs: seq<Recv>): string {
    if recvs == [] then ""
    else (if recvs[0].Data? then recvs[0].bytes else "") + Bytes(recvs[1..])
  }

  ghost predicate Carries(recvs: seq<Recv>, text: string) {
    (forall i :: 0 <= i < |recvs| ==> recvs[i].Data?) && Bytes(recvs) == text
  }

  /** However the rest of a well-formed reply arrives, the loop returns the whole reply. */
  lemma {:induction false} AnySplitReturnsTheReply(reply: string, response: string, recvs: seq<Recv>)
    requires WellFormedReply(reply) && |reply| <= MAX_RESPONSE_SIZE + 1
    requires |response| < |reply| && (forall i :: 0 <= i < |recvs| ==> recvs[i].Data?)
    requires response + Bytes(recvs) == reply
    ensures Receive(response, recvs).outcome == Reply(reply)
    decreases |recvs|
  {
    var bytes := recvs[0].bytes;
    var longer := response + bytes;
    assert reply == longer + Bytes(recvs[1..]);
    assert reply[..|longer|] == longer;
    assert forall i :: 0 <= i < |bytes| ==> bytes[i] == reply[|response| + i];
    CStringOfNulFree(bytes);
    if |longer| < |reply| {
      AnySplitReturnsTheReply(reply, longer, recvs[1..]);
    } else {
      assert longer == reply;
    }
  }

  function Bytewise(s: string): seq<Recv> {
    if s == "" then [] else [Data([s[0]])] + Bytewise(s[1..])
  }

  lemma BytewiseCarries(s: string)
    ensures Carries(Bytewise(s), s)
  {
    if s != "" {
      BytewiseCarries(s[1..]);
      assert Bytewise(s)[1..] == Bytewise(s[1..]);
    }
  }

  /** Fed byte by byte, the loop stops at the first terminator, and at the size limit. */
  lemma {:induction false} BytewiseStopsEarly(response: string, s: string)
    requires NulFree(s)
    ensures var outcome := Receive(response, Bytewise(s)).outcome;
            outcome.Reply? ==>
              && |response| < |outcome.text| <= MAX_RESPONSE_SIZE + 1
              && outcome.text <= response + s
              && Terminated(outcome.text)
              && forall n :: |response| < n < |outcome.text| ==> !Terminated((response + s)[..n])
    decreases |s|
  {
    if s != "" && |response| <= MAX_RESPONSE_SIZE {
      var longer := response + [s[0]];
      CStringOfNulFree([s[0]]);
      assert Bytewise(s)[1..] == Bytewise(s[1..]);
      assert response + s == longer + s[1..];
      if !Terminated(longer) {
        BytewiseStopsEarly(longer, s[1..]);
        assert (response + s)[..|longer|] == longer;
      }
    }
  }

  /** Whatever a peer sends, a text that is returned has no NUL byte. */
  lemma {:induction false} TextsAreNulFree(response: string, recvs: seq<Recv>)
    requires NulFree(response)
    ensures var outcome := Receive(response, recvs).outcome; outcome.Reply? ==> NulFree(outcome.text)
    decreases |recvs|
  {
    if |response| <= MAX_RESPONSE_SIZE && recvs != [] && recvs[0].Data? {
      var longer := response + CString(recvs[0].bytes);
      assert NulFree(longer);
      TextsAreNulFree(longer, recvs[1..]);
    }
  }

  /** Fragmentation independence, exactly: a text comes back whole from every way of cutting it up if and
      only if it has no NUL byte, its terminator is at its end only and it is at most one byte over the limit. */
  lemma FragmentationIndependence(reply: string)
    ensures (forall recvs :: Carries(recvs, reply) ==> Receive("", recvs).outcome == Reply(reply))
            <==> WellFormedReply(reply) && |reply| <= MAX_RESPONSE_SIZE + 1
  {
    NothingIsTerminated();
    if WellFormedReply(reply) && |reply| <= MAX_RESPONSE_SIZE + 1 {
      forall recvs | Carries(recvs, reply)
        ensures Receive("", recvs).outcome == Reply(reply)
      {
        assert "" + Bytes(recvs) == reply;
        AnySplitReturnsTheReply(reply, "", recvs);
      }
    } else {
      BytewiseCarries(reply);
      TextsAreNulFree("", Bytewise(reply));
      if NulFree(reply) {
        BytewiseStopsEarly("", reply);
        assert "" + reply == reply;
        assert reply[..0] == "";
      }
      assert Carries(Bytewise(reply), reply);
    }
  }

  // ---------------------------------------------------------------- progress

  /** How many chunks start with a NUL byte. */
  function LeadingNuls(recvs: seq<Recv>): nat {
    if recvs == [] then 0
    else (if recvs[0].Data? && recvs[0].bytes[0] == '\0' then 1 else 0) + LeadingNuls(recvs[1..])
  }

  /** They are exactly the chunks that do not make the response longer. */
  lemma NoProgress(response: string, r: Recv)
    requires r.Data?
    ensures response + CString(r.bytes) == response <==> r.bytes[0] == '\0'
  {
    assert |response + CString(r.bytes)| == |response| + |CString(r.bytes)|;
  }

  /** The loop is bounded by the size limit and the number of chunks that start with a NUL byte, and no text
      can outgrow the limit by more than one receive. */
  lemma {:induction false} ReceiveIsBounded(response: string, recvs: seq<Recv>)
    ensures var Reception(outcome, n, _) := Receive(response, recvs);
            && (|response| <= MAX_RESPONSE_SIZE + 1 ==> n <= MAX_RESPONSE_SIZE + 1 - |response| + LeadingNuls(recvs))
            && (|response| + |recvs| > MAX_RESPONSE_SIZE + LeadingNuls(recvs) ==> !outcome.Blocked?)
            && (outcome.Reply? ==> |outcome.text| <= MAX_RESPONSE_SIZE + RECV_LIMIT)
    decreases |recvs|
  {
    if |response| <= MAX_RESPONSE_SIZE && recvs != [] && recvs[0].Data? {
      var longer := response + CString(recvs[0].bytes);
      NoProgress(response, recvs[0]);
      if |longer| <= MAX_RESPONSE_SIZE + 1 {
        ReceiveIsBounded(longer, recvs[1..]);
      } else if !Terminated(longer) {
        assert Receive(longer, recvs[1..]) == Reception(Failed(MessageSize), 0, []);
      }
    }
  }

  /** What the chunks add to the response. */
  function Heard(recvs: seq<Recv>): string {
    if recvs == [] then ""
    else (if recvs[0].Data? then CString(recvs[0].bytes) else "") + Heard(recvs[1..])
  }

  /** After these many chunks the loop goes on: it was not closed, and the response is neither terminated nor
      too long. */
  ghost predicate GoesOn(response: string, recvs: seq<Recv>, n: nat)
    requires n <= |recvs|
  {
    && |response + Heard(recvs[..n])| <= MAX_RESPONSE_SIZE
    && (n > 0 ==> recvs[n - 1].Data? && !Terminated(response + Heard(recvs[..n])))
  }

  lemma GoesOnLater(response: string, recvs: seq<Recv>, n: nat)
    requires recvs != [] && recvs[0].Data? && n < |recvs|
    ensures response + Heard(recvs[..n + 1]) == (response + CString(recvs[0].bytes)) + Heard(recvs[1..][..n])
  {
    assert recvs[..n + 1][1..] == recvs[1..][..n];
  }

  /** Exactly when the loop still waits for more. */
  lemma {:induction false} StillWaiting(response: string, recvs: seq<Recv>)
    ensures Receive(response, recvs).outcome == Blocked
            <==> forall n :: 0 <= n <= |recvs| ==> GoesOn(response, recvs, n)
    decreases |recvs|
  {
    assert response + Heard(recvs[..0]) == response;
    if recvs != [] && recvs[0].Data? {
      var longer, rest := response + CString(recvs[0].bytes), recvs[1..];
      StillWaiting(longer, rest);
      forall n | 1 <= n <= |recvs|
        ensures GoesOn(response, recvs, n) <==> GoesOn(longer, rest, n - 1) && (n == 1 ==> !Terminated(longer))
      {
        GoesOnLater(response, recvs, n - 1);
        assert longer + Heard(rest[..0]) == longer;
      }
      OneMoreTurn(response, recvs, longer, rest);
    } else if recvs != [] {
      assert !GoesOn(response, recvs, 1);
    }
    assert GoesOn(response, recvs, 0) <==> |response| <= MAX_RESPONSE_SIZE;
  }

  lemma OneMoreTurn(response: string, recvs: seq<Recv>, longer: string, rest: seq<Recv>)
    requires |recvs| == |rest| + 1
    requires forall n :: 1 <= n <= |recvs| ==>
               (GoesOn(response, recvs, n) <==> GoesOn(longer, rest, n - 1) && (n == 1 ==> !Terminated(longer)))
    ensures (forall n :: 0 <= n <= |recvs| ==> GoesOn(response, recvs, n))
            <==> && GoesOn(response, recvs, 0) && !Terminated(longer)
                 && forall n :: 0 <= n <= |rest| ==> GoesOn(longer, rest, n)
  {
    hide GoesOn, Terminated;
    if forall n :: 0 <= n <= |recvs| ==> GoesOn(response, recvs, n) {
      forall n | 0 <= n <= |rest| ensures GoesOn(longer, rest, n) {
        assert GoesOn(response, recvs, n + 1);
      }
      assert GoesOn(response, recvs, 1);
    }
    if GoesOn(response, recvs, 0) && !Terminated(longer)
       && forall n :: 0 <= n <= |rest| ==> GoesOn(longer, rest, n) {
      forall n | 0 <= n <= |recvs| ensures GoesOn(response, recvs, n) {
        assert n > 0 ==> GoesOn(longer, rest, n - 1);
      }
    }
  }

  /** With the n-th chunk the loop is over, or it waits for the one after it: what it then gives. */
  ghost predicate SettlesAt(response: string, recvs: seq<Recv>, n: nat, outcome: Outcome)
    requires n <= |recvs|
  {
    var text := response + Heard(recvs[..n]);
    && (forall m :: 0 <= m < n ==> GoesOn(response, recvs, m))
    && match outcome
       case Reply(reply) => n > 0 && recvs[n - 1].Data? && Terminated(text) && reply == text
       case Failed(ConnectionAborted) => n > 0 && recvs[n - 1].Closed?
       case Failed(MessageSize) => |text| > MAX_RESPONSE_SIZE && (n > 0 ==> recvs[n - 1].Data? && !Terminated(text))
       case Failed(_) => false
       case Blocked => n == |recvs| && GoesOn(response, recvs, n)
  }

  lemma SettlesLater(response: string, recvs: seq<Recv>, n: nat, outcome: Outcome)
    requires recvs != [] && recvs[0].Data? && n < |recvs| && |response| <= MAX_RESPONSE_SIZE
    requires !Terminated(response + CString(recvs[0].bytes))
    requires SettlesAt(response + CString(recvs[0].bytes), recvs[1..], n, outcome)
    ensures SettlesAt(response, recvs, n + 1, outcome)
  {
    hide Terminated, CString, Heard;
    var longer, rest := response + CString(recvs[0].bytes), recvs[1..];
    NothingHeard(response, recvs);
    NothingHeard(longer, rest);
    GoesOnLater(response, recvs, n);
    forall m | 0 <= m < n + 1 ensures GoesOn(response, recvs, m) {
      if m > 0 {
        GoesOnLater(response, recvs, m - 1);
        assert GoesOn(longer, rest, m - 1);
      }
    }
  }

  lemma NothingHeard(response: string, recvs: seq<Recv>)
    ensures response + Heard(recvs[..0]) == response
  {
  }

  lemma {:induction false} ReceiveSettles(response: string, recvs: seq<Recv>)
    ensures var r := Receive(response, recvs);
            r.receives <= |recvs| && SettlesAt(response, recvs, r.receives, r.outcome)
    decreases |recvs|
  {
    NothingHeard(response, recvs);
    if |response| <= MAX_RESPONSE_SIZE && recvs != [] {
      if recvs[0].Data? {
        var longer := response + CString(recvs[0].bytes);
        GoesOnLater(response, recvs, 0);
        NothingHeard(longer, recvs[1..]);
        if !Terminated(longer) {
          ReceiveSettles(longer, recvs[1..]);
          var r := Receive(longer, recvs[1..]);
          SettlesLater(response, recvs, r.receives, r.outcome);
        }
      }
    }
  }

  lemma SettlesOnce(response: string, recvs: seq<Recv>, n: nat, a: Outcome, m: nat, b: Outcome)
    requires n <= m <= |recvs| && SettlesAt(response, recvs, n, a) && SettlesAt(response, recvs, m, b)
    ensures n == m && a == b
  {
    assert n < m ==> GoesOn(response, recvs, n);
    hide Terminated, Heard;
  }

  /** What the loop gives, exactly, told by the chunks alone: it is the outcome that settles at some chunk. */
  lemma ReceiveGives(response: string, recvs: seq<Recv>, outcome: Outcome)
    ensures Receive(response, recvs).outcome == outcome
            <==> exists n :: 0 <= n <= |recvs| && SettlesAt(response, recvs, n, outcome)
  {
    var r := Receive(response, recvs);
    ReceiveSettles(response, recvs);
    hide SettlesAt;
    if n :| 0 <= n <= |recvs| && SettlesAt(response, recvs, n, outcome) {
      if n <= r.receives {
        SettlesOnce(response, recvs, n, outcome, r.receives, r.outcome);
      } else {
        SettlesOnce(response, recvs, r.receives, r.outcome, n, outcome);
      }
    }
  }

  /** A peer that sends nothing but chunks that start with a NUL byte, whatever follows it, keeps the loop busy
      for ever. */
  lemma {:induction false} LeadingNulsNeverSettle(response: string, recvs: seq<Recv>)
    requires |response| <= MAX_RESPONSE_SIZE && !Terminated(response)
    requires forall i :: 0 <= i < |recvs| ==> recvs[i].Data? && recvs[i].bytes[0] == '\0'
    ensures var r := Receive(response, recvs); r.outcome == Blocked && r.receives == |recvs| == LeadingNuls(recvs)
    decreases |recvs|
  {
    if recvs != [] {
      NoProgress(response, recvs[0]);
      LeadingNulsNeverSettle(response, recvs[1..]);
    }
  }

  // ---------------------------------------------------------------- runs

  /** A run of calls; a call that never returns is the last one. */
  function Run(l: Link, calls: seq<Call>, cap: int): (dones: seq<Done>)
    ensures |dones| <= |calls|
    decreases |calls|
  {
    if calls == [] then []
    else
      var done := ExecuteStep(l, calls[0], cap);
      [done] + (if done.outcome.Blocked? then [] else Run(done.link, calls[1..], cap))
  }

  function LinkAfter(l: Link, dones: seq<Done>): Link {
    if dones == [] then l else dones[|dones| - 1].link
  }

  function Trace(dones: seq<Done>): seq<Event> {
    if dones == [] then [] else dones[0].events + Trace(dones[1..])
  }

  // ---------------------------------------------------------------- descriptors

  function Holding(l: Link): set<int> {
    if l.fd == -1 then {} else {l.fd}
  }

  /** What one system call does to the descriptors in use: None if a descriptor is opened while another
      one is held, is closed twice, or is used without being held. */
  function Hold(held: set<int>, e: Event): Option<set<int>> {
    match e
    case Opened(fd) => if held == {} then Some({fd}) else None
    case Shut(fd) => if fd in held then Some(held - {fd}) else None
    case Connected(fd) => if fd in held then Some(held) else None
    case Sent(fd, _) => if fd in held then Some(held) else None
    case Received(fd, _) => if fd in held then Some(held) else None
  }

  function Ledger(held: set<int>, events: seq<Event>): Option<set<int>>
    decreases |events|
  {
    if events == [] then Some(held)
    else match Hold(held, events[0])
      case None => None
      case Some(next) => Ledger(next, events[1..])
  }

  lemma {:induction false} LedgerConcat(held: set<int>, a: seq<Event>, b: seq<Event>)
    requires Ledger(held, a).Some?
    ensures Ledger(held, a + b) == Ledger(Ledger(held, a).value, b)
    decreases |a|
  {
    if a == [] {
      assert a + b == b;
    } else {
      assert (a + b)[1..] == a[1..] + b;
      LedgerConcat(Hold(held, a[0]).value, a[1..], b);
    }
  }

  lemma LedgerOne(held: set<int>, e: Event)
    ensures Ledger(held, [e]) == Hold(held, e)
  {
    assert forall next: set<int> :: Ledger(next, [e][1..]) == Some(next);
  }

  lemma LedgerTwo(held: set<int>, a: Event, b: Event)
    requires Hold(held, a).Some?
    ensures Ledger(held, [a, b]) == Hold(Hold(held, a).value, b)
  {
    assert [a, b][1..] == [b];
    LedgerOne(Hold(held, a).value, b);
  }

  lemma OpenAndShut(fd: int)
    ensures Ledger({}, [Opened(fd), Shut(fd)]) == Some({})
    ensures Ledger({}, [Opened(fd), Connected(fd)]) == Some({fd})
    ensures Ledger({fd}, [Shut(fd)]) == Some({})
  {
    LedgerTwo({}, Opened(fd), Shut(fd));
    LedgerTwo({}, Opened(fd), Connected(fd));
    LedgerOne({fd}, Shut(fd));
    assert {fd} - {fd} == {};
  }

  lemma {:induction false} DiallingLeaksNothing(endpoints: seq<Endpoint>)
    ensures var (fd, events) := TryEndpoints(endpoints);
            Ledger({}, events) == Some(if fd == -1 then {} else {fd})
  {
    if endpoints != [] {
      DiallingLeaksNothing(endpoints[1..]);
      match endpoints[0]
      case NoSocket =>
      case Accepted(fd) =>
        OpenAndShut(fd);
      case Refused(fd) =>
        OpenAndShut(fd);
        LedgerConcat({}, [Opened(fd), Shut(fd)], TryEndpoints(endpoints[1..]).1);
    }
  }

  predicate Accepts(e: Endpoint) {
    e.Accepted?
  }

  /** Dialling connects to the first address that accepts, and fails exactly if none does. Every address up to it
      that has a socket was tried. */
  lemma {:induction false} FirstThatAccepts(endpoints: seq<Endpoint>)
    ensures var fd := TryEndpoints(endpoints).0;
            && (fd == -1 <==> forall i :: 0 <= i < |endpoints| ==> !Accepts(endpoints[i]))
            && (fd == -1 ==> Tried(endpoints, |endpoints|))
            && (fd != -1 ==> exists i :: 0 <= i < |endpoints| && IsFirst(endpoints, i, fd) && Tried(endpoints, i + 1))
  {
    if endpoints != [] {
      var rest := endpoints[1..];
      FirstThatAccepts(rest);
      var fd := TryEndpoints(rest).0;
      assert forall i :: 1 <= i < |endpoints| ==> endpoints[i] == rest[i - 1];
      if Accepts(endpoints[0]) {
        assert IsFirst(endpoints, 0, endpoints[0].fd) && Tried(endpoints, 1);
      } else if fd == -1 {
        TriedFurther(endpoints, |rest|);
      } else {
        var i :| 0 <= i < |rest| && IsFirst(rest, i, fd) && Tried(rest, i + 1);
        TriedFurther(endpoints, i + 1);
        assert IsFirst(endpoints, i + 1, fd);
      }
    }
  }

  ghost predicate IsFirst(endpoints: seq<Endpoint>, i: nat, fd: int)
    requires i < |endpoints|
  {
    endpoints[i].Accepted? && endpoints[i].fd == fd && forall j :: 0 <= j < i ==> !Accepts(endpoints[j])
  }

  ghost predicate Tried(endpoints: seq<Endpoint>, n: nat)
    requires n <= |endpoints|
  {
    forall i :: 0 <= i < n && !endpoints[i].NoSocket? ==> Opened(endpoints[i].fd) in TryEndpoints(endpoints).1
  }

  lemma TriedFurther(endpoints: seq<Endpoint>, n: nat)
    requires endpoints != [] && !Accepts(endpoints[0]) && n < |endpoints| && Tried(endpoints[1..], n)
    ensures Tried(endpoints, n + 1)
  {
    assert forall i :: 1 <= i < |endpoints| ==> endpoints[i] == endpoints[1..][i - 1];
    assert forall e :: e in TryEndpoints(endpoints[1..]).1 ==> e in TryEndpoints(endpoints).1;
  }

  /** A host that resolves to an address which accepts, or a socket path that fits and accepts. */
  ghost predicate Reachable(d: Dial) {
    match d
    case Telnet(_, _, resolved, endpoints) =>
      resolved && exists i :: 0 <= i < |endpoints| && Accepts(endpoints[i])
    case UnixSocket(_, _, pathLength, endpoint) => pathLength < 108 && Accepts(endpoint)
  }

  /** A connect succeeds if and only if a descriptor is held already, or the server can be reached. */
  lemma ConnectSucceeds(l: Link, d: Dial, cap: int)
    ensures ConnectStep(l, d, cap).error.None? <==> l.fd != -1 || Reachable(d)
    ensures l.fd != -1 ==> ConnectStep(l, d, cap) == Dialled(l, None, [])
    ensures l.fd == -1 && Reachable(d) ==>
              var fd := ConnectStep(l, d, cap).link.fd;
              match d
              case Telnet(_, _, _, endpoints) => exists i :: 0 <= i < |endpoints| && IsFirst(endpoints, i, fd)
              case UnixSocket(_, _, _, endpoint) => endpoint == Accepted(fd)
  {
    if d.Telnet? {
      FirstThatAccepts(d.endpoints);
    }
  }

  /** What is wrong with a server that cannot be reached. */
  function DialError(d: Dial): Errc {
    match d
    case Telnet(_, _, resolved, _) => if resolved then ConnectionRefused else InvalidArgument
    case UnixSocket(_, _, pathLength, endpoint) =>
      if endpoint.NoSocket? then IoError else if pathLength >= 108 then InvalidArgument else ConnectionRefused
  }

  /** The error of every connect that fails; the driver then holds nothing. */
  lemma ConnectFails(l: Link, d: Dial, cap: int)
    requires l.fd == -1 && !Reachable(d)
    ensures var r := ConnectStep(l, d, cap); r.link.fd == -1 && r.error == Some(DialError(d))
  {
    if d.Telnet? {
      FirstThatAccepts(d.endpoints);
    }
  }

  /** Every attempt records its clock. Success starts the backoff over; any other attempt doubles it up to the cap
      if the old one had elapsed. */
  lemma AttemptIsRecorded(l: Link, d: Dial, cap: int)
    requires l.fd == -1
    ensures var r := ConnectStep(l, d, cap).link;
            && r.lastAttempt == d.later
            && r.backoffMs == (if Reachable(d) then 100
                               else if d.now - l.lastAttempt < l.backoffMs then l.backoffMs
                               else if 2 * l.backoffMs <= cap then 2 * l.backoffMs
                               else cap)
  {
    ConnectSucceeds(l, d, cap);
  }

  // ---------------------------------------------------------------- what a call returns

  /** A call that has a connection and could send: it gives exactly what its receive loop settles on, told by the
      chunks, and keeps the descriptor unless it fails. */
  lemma ExecuteGives(l: Link, c: Call, cap: int, outcome: Outcome)
    requires (l.fd != -1 || Reachable(c.dial)) && c.sent
    ensures var done := ExecuteStep(l, c, cap);
            && (done.outcome == outcome <==> exists n :: 0 <= n <= |c.recvs| && SettlesAt("", c.recvs, n, outcome))
            && done.link.fd == if done.outcome.Failed? then -1 else ConnectStep(l, c.dial, cap).link.fd
  {
    ConnectSucceeds(l, c.dial, cap);
    ReceiveGives("", c.recvs, outcome);
    hide SettlesAt, Receive;
  }

  /** A call that has no connection, or cannot send. */
  lemma ExecuteFails(l: Link, c: Call, cap: int)
    requires !(l.fd != -1 || Reachable(c.dial)) || !c.sent
    ensures var done := ExecuteStep(l, c, cap);
            && done.link.fd == -1
            && done.outcome == Failed(if l.fd != -1 || Reachable(c.dial) then IoError else DialError(c.dial))
  {
    ConnectSucceeds(l, c.dial, cap);
    if l.fd == -1 && !Reachable(c.dial) {
      ConnectFails(l, c.dial, cap);
    }
  }

  /** A call that has a connection, could send, and is answered with a well-formed reply within the limit,
      returns that reply, however it is cut, and keeps its connection. */
  lemma ExecuteReturns(l: Link, c: Call, cap: int, reply: string)
    requires (l.fd != -1 || Reachable(c.dial)) && c.sent
    requires Carries(c.recvs, reply) && WellFormedReply(reply) && |reply| <= MAX_RESPONSE_SIZE + 1
    ensures var done := ExecuteStep(l, c, cap);
            && done.outcome == Reply(reply)
            && done.link == ConnectStep(l, c.dial, cap).link && done.link.fd != -1
  {
    ConnectSucceeds(l, c.dial, cap);
    ConnectKeepsLedger(l, c.dial, cap);
    FragmentationIndependence(reply);
  }

  /** The same in every run, for each of its calls: it starts from where the calls before it left the driver; and only
      a call that still waits can keep later ones from being made. */
  lemma {:induction false} CallsReturn(l: Link, calls: seq<Call>, cap: int, k: nat, reply: string)
    requires k < |Run(l, calls, cap)|
    ensures var dones := Run(l, calls, cap);
            var before := LinkAfter(l, dones[..k]);
            && dones[k] == ExecuteStep(before, calls[k], cap)
            && (forall j :: 0 <= j < |dones| - 1 ==> !dones[j].outcome.Blocked?)
            && (|dones| == |calls| || dones[|dones| - 1].outcome.Blocked?)
            && ((before.fd != -1 || Reachable(calls[k].dial)) && calls[k].sent && Carries(calls[k].recvs, reply)
                && WellFormedReply(reply) && |reply| <= MAX_RESPONSE_SIZE + 1
                ==> dones[k].outcome == Reply(reply))
    decreases |calls|
  {
    var dones := Run(l, calls, cap);
    RunIsStepwise(l, calls, cap, k);
    var before := LinkAfter(l, dones[..k]);
    if (before.fd != -1 || Reachable(calls[k].dial)) && calls[k].sent && Carries(calls[k].recvs, reply)
       && WellFormedReply(reply) && |reply| <= MAX_RESPONSE_SIZE + 1 {
      ExecuteReturns(before, calls[k], cap, reply);
    }
  }

  lemma {:induction false} RunIsStepwise(l: Link, calls: seq<Call>, cap: int, k: nat)
    requires k < |Run(l, calls, cap)|
    ensures var dones := Run(l, calls, cap);
            && dones[k] == ExecuteStep(LinkAfter(l, dones[..k]), calls[k], cap)
            && (forall j :: 0 <= j < |dones| - 1 ==> !dones[j].outcome.Blocked?)
            && (|dones| == |calls| || dones[|dones| - 1].outcome.Blocked?)
    decreases |calls|
  {
    hide ExecuteStep;
    var dones := Run(l, calls, cap);
    var done, rest := dones[0], dones[1..];
    if !done.outcome.Blocked? && |calls| > 1 {
      assert rest == Run(done.link, calls[1..], cap);
      RunIsStepwise(done.link, calls[1..], cap, if k == 0 then 0 else k - 1);
      if k > 0 {
        assert dones[..k][1..] == rest[..k - 1];
        assert dones[..k] == [done] + rest[..k - 1];
      }
      assert forall j :: 1 <= j < |dones| ==> dones[j] == rest[j - 1];
    }
  }

  lemma ConnectKeepsLedger(l: Link, d: Dial, cap: int)
    ensures var r := ConnectStep(l, d, cap);
            && Ledger(Holding(l), r.events) == Some(Holding(r.link))
            && (r.error.Some? <==> r.link.fd == -1)
  {
    match d
    case Telnet(_, _, _, endpoints) => DiallingLeaksNothing(endpoints);
    case UnixSocket(_, _, _, endpoint) =>
      if !endpoint.NoSocket? { OpenAndShut(endpoint.fd); }
  }

  lemma {:induction false} ReceivingKeepsLedger(fd: int, heard: seq<string>)
    ensures Ledger({fd}, ReceivedEvents(fd, heard)) == Some({fd})
  {
    if heard != [] {
      ReceivingKeepsLedger(fd, heard[1..]);
    }
  }

  lemma TalkingKeepsLedger(fd: int, command: string, heard: seq<string>)
    ensures Ledger({fd}, Talk(fd, command, heard)) == Some({fd})
  {
    ReceivingKeepsLedger(fd, heard);
    assert Talk(fd, command, heard)[1..] == ReceivedEvents(fd, heard);
  }

  lemma ExecuteKeepsLedger(l: Link, c: Call, cap: int)
    ensures var done := ExecuteStep(l, c, cap);
            && Ledger(Holding(l), done.events) == Some(Holding(done.link))
            && (done.outcome.Failed? <==> done.link.fd == -1)
  {
    var d := ConnectStep(l, c.dial, cap);
    ConnectKeepsLedger(l, c.dial, cap);
    if d.error.None? {
      var fd := d.link.fd;
      OpenAndShut(fd);
      if !c.sent {
        LedgerConcat(Holding(l), d.events, [Shut(fd)]);
      } else {
        var talk := Talk(fd, c.command, Receive("", c.recvs).heard);
        TalkingKeepsLedger(fd, c.command, Receive("", c.recvs).heard);
        LedgerConcat(Holding(l), d.events, talk);
        LedgerConcat(Holding(l), d.events + talk, [Shut(fd)]);
      }
    }
  }

  lemma FirstOfRun(l: Link, done: Done, rest: seq<Done>)
    ensures Trace([done] + rest) == done.events + Trace(rest)
    ensures LinkAfter(l, [done] + rest) == LinkAfter(done.link, rest)
  {
    assert ([done] + rest)[1..] == rest;
  }

  /** Over every run: no descriptor leaks, none is closed twice or used after it was closed, the driver
      holds exactly the one in its field, and a call fails exactly when it leaves the field at -1. */
  lemma {:induction false} DescriptorConservation(l: Link, calls: seq<Call>, cap: int)
    ensures var dones := Run(l, calls, cap);
            && Ledger(Holding(l), Trace(dones)) == Some(Holding(LinkAfter(l, dones)))
            && forall k :: 0 <= k < |dones| ==> (dones[k].outcome.Failed? <==> dones[k].link.fd == -1)
    decreases |calls|
  {
    if calls != [] {
      var done := ExecuteStep(l, calls[0], cap);
      var rest := if done.outcome.Blocked? then [] else Run(done.link, calls[1..], cap);
      ExecuteKeepsLedger(l, calls[0], cap);
      if !done.outcome.Blocked? {
        DescriptorConservation(done.link, calls[1..], cap);
      }
      FirstOfRun(l, done, rest);
      LedgerConcat(Holding(l), done.events, Trace(rest));
    }
  }

  // ---------------------------------------------------------------- backoff

  function Rung(k: nat, cap: int): int {
    Min(INITIAL_BACKOFF_MS * Pow2(k), cap)
  }

  function Pow2(k: nat): nat {
    if k == 0 then 1 else 2 * Pow2(k - 1)
  }

  /** How many attempts since the last success were made after the backoff of their moment had elapsed, told by the
      clocks of the attempts and by what became of the calls. */
  ghost function LateAttempts(held: bool, last: int, k: nat, calls: seq<Call>, dones: seq<Done>, cap: int): nat
    requires |dones| <= |calls|
    decreases |dones|
  {
    if dones == [] then k
    else
      var dial := calls[0].dial;
      var next :=
        if held then k
        else if Reachable(dial) then 0
        else if dial.now - last >= Rung(k, cap) then k + 1
        else k;
      LateAttempts(!dones[0].outcome.Failed?, if held then last else dial.later, next, calls[1..], dones[1..], cap)
  }

  /** The backoff in closed form: it doubles once for each late attempt, up to the cap, and a
      successful connect starts it over. */
  lemma {:induction false} BackoffClosedForm(l: Link, calls: seq<Call>, cap: int, k: nat)
    requires cap >= INITIAL_BACKOFF_MS
    requires l.backoffMs == Rung(k, cap)
    ensures var dones := Run(l, calls, cap);
            LinkAfter(l, dones).backoffMs
            == Rung(LateAttempts(l.fd != -1, l.lastAttempt, k, calls, dones, cap), cap)
    decreases |calls|
  {
    if calls != [] {
      var done := ExecuteStep(l, calls[0], cap);
      var rest := if done.outcome.Blocked? then [] else Run(done.link, calls[1..], cap);
      assert Pow2(k + 1) == 2 * Pow2(k);
      assert Rung(0, cap) == INITIAL_BACKOFF_MS;
      ConnectSucceeds(l, calls[0].dial, cap);
      if l.fd == -1 {
        AttemptIsRecorded(l, calls[0].dial, cap);
      }
      ExecuteKeepsBackoff(l, calls[0], cap);
      hide ExecuteStep, ConnectStep, Reachable;
      if !done.outcome.Blocked? {
        BackoffClosedForm(done.link, calls[1..], cap,
                          if l.fd != -1 then k
                          else if Reachable(calls[0].dial) then 0
                          else if calls[0].dial.now - l.lastAttempt >= Rung(k, cap) then k + 1
                          else k);
      }
      FirstOfRun(l, done, rest);
      assert ([done] + rest)[1..] == rest;
    }
  }

  lemma ExecuteKeepsBackoff(l: Link, c: Call, cap: int)
    ensures var d, done := ConnectStep(l, c.dial, cap).link, ExecuteStep(l, c, cap);
            && done.link.backoffMs == d.backoffMs && done.link.lastAttempt == d.lastAttempt
            && (done.outcome.Failed? <==> done.link.fd == -1)
  {
    ExecuteKeepsLedger(l, c, cap);
    ConnectKeepsLedger(l, c.dial, cap);
  }

  // ---------------------------------------------------------------- the other end

  /** What the server has seen of the current connection: its number, the bytes that arrived there,
      and the bytes that the driver has taken from it. */
  datatype Peer = Peer(conn: nat, wire: string, read: string)

  function See(p: Peer, e: Event): Peer {
    match e
    case Connected(_) => Peer(p.conn + 1, "", "")
    case Sent(_, bytes) => p.(wire := p.wire + bytes)
    case Received(_, bytes) => p.(read := p.read + bytes)
    case _ => p
  }

  function Observe(p: Peer, events: seq<Event>): Peer
    decreases |events|
  {
    if events == [] then p else Observe(See(p, events[0]), events[1..])
  }

  /** A server: its reply to the last of the lines that arrived on a connection. */
  type Server = (nat, seq<string>) -> string

  function Answers(server: Server, conn: nat, lines: seq<string>): string {
    if lines == [] then "" else Answers(server, conn, lines[..|lines| - 1]) + server(conn, lines)
  }

  ghost predicate WellFormedServer(server: Server) {
    forall conn: nat, lines: seq<string> :: WellFormedReply(server(conn, lines))
  }

  /** The driver never gets bytes that the server has not written, nor out of order. */
  ghost predicate Honest(server: Server, p: Peer, events: seq<Event>)
    decreases |events|
  {
    events == [] ||
    var q := See(p, events[0]);
    && (events[0].Received? ==> q.read <= Answers(server, q.conn, CompleteLines(q.wire)))
    && Honest(server, q, events[1..])
  }

  lemma {:induction false} ObserveConcat(server: Server, p: Peer, a: seq<Event>, b: seq<Event>)
    ensures Observe(p, a + b) == Observe(Observe(p, a), b)
    ensures Honest(server, p, a + b) <==> Honest(server, p, a) && Honest(server, Observe(p, a), b)
    decreases |a|
  {
    if a == [] {
      assert a + b == b;
    } else {
      assert (a + b)[1..] == a[1..] + b;
      ObserveConcat(server, See(p, a[0]), a[1..], b);
    }
  }

  lemma ObserveFirst(server: Server, p: Peer, e: Event, rest: seq<Event>)
    ensures Observe(p, [e] + rest) == Observe(See(p, e), rest)
    ensures Honest(server, p, [e] + rest) ==> Honest(server, See(p, e), rest)
    ensures Honest(server, p, [e] + rest) && e.Received? ==>
              See(p, e).read <= Answers(server, p.conn, CompleteLines(p.wire))
  {
    assert ([e] + rest)[1..] == rest;
  }

  lemma ObserveTwo(server: Server, p: Peer, a: Event, b: Event)
    ensures Observe(p, [a, b]) == See(See(p, a), b)
  {
    ObserveFirst(server, p, a, [b]);
    ObserveFirst(server, See(p, a), b, []);
    assert [a, b] == [a] + [b] && [b] == [b] + [];
  }

  /** Between two calls: everything that the server wrote on a live connection has been read. */
  ghost predicate Synced(server: Server, l: Link, p: Peer) {
    l.fd != -1 ==> EndsLine(p.wire) && p.read == Answers(server, p.conn, CompleteLines(p.wire))
  }

  lemma {:induction false} DiallingRenews(server: Server, p: Peer, endpoints: seq<Endpoint>)
    ensures var (fd, events) := TryEndpoints(endpoints);
            Observe(p, events) == if fd == -1 then p else Peer(p.conn + 1, "", "")
  {
    if endpoints != [] {
      DiallingRenews(server, p, endpoints[1..]);
      match endpoints[0]
      case NoSocket =>
      case Accepted(fd) =>
        ObserveTwo(server, p, Opened(fd), Connected(fd));
      case Refused(fd) =>
        ObserveTwo(server, p, Opened(fd), Shut(fd));
        ObserveConcat(server, p, [Opened(fd), Shut(fd)], TryEndpoints(endpoints[1..]).1);
    }
  }

  lemma ConnectKeepsSync(server: Server, l: Link, p: Peer, d: Dial, cap: int)
    requires Synced(server, l, p)
    ensures var r := ConnectStep(l, d, cap);
            && Synced(server, r.link, Observe(p, r.events))
            && (r.error.Some? ==> r.link.fd == -1)
            && (r.error.None? ==> r.link.fd != -1)
            && Observe(p, r.events) == (if l.fd == -1 && r.error.None? then Peer(p.conn + 1, "", "") else p)
  {
    match d
    case Telnet(_, _, _, endpoints) => DiallingRenews(server, p, endpoints);
    case UnixSocket(_, _, _, endpoint) =>
      if !endpoint.NoSocket? {
        ObserveTwo(server, p, Opened(endpoint.fd), Shut(endpoint.fd));
        ObserveTwo(server, p, Opened(endpoint.fd), Connected(endpoint.fd));
      }
    assert CompleteLines("") == [];
  }

  /** The loop against an honest server that still has `reply` to deliver, of which `response` was
      taken already: a reply it returns is that reply, and leaves nothing behind. */
  lemma {:induction false} ReceivePaired(server: Server, p: Peer, base: string, reply: string, response: string,
                                         fd: int, recvs: seq<Recv>)
    requires WellFormedReply(reply)
    requires |response| < |reply| && response <= reply && p.read == base + response
    requires Answers(server, p.conn, CompleteLines(p.wire)) == base + reply
    requires Honest(server, p, ReceivedEvents(fd, Receive(response, recvs).heard))
    ensures var r := Receive(response, recvs);
            var q := Observe(p, ReceivedEvents(fd, r.heard));
            && q.conn == p.conn && q.wire == p.wire
            && (r.outcome.Reply? ==> r.outcome.text == reply && q.read == base + reply)
    decreases |recvs|
  {
    hide WellFormedReply, Honest, CompleteLines, Terminated, Answers;
    var r := Receive(response, recvs);
    if |response| <= MAX_RESPONSE_SIZE && recvs != [] && recvs[0].Data? {
      var bytes := recvs[0].bytes;
      var longer := response + bytes;
      var q := See(p, Received(fd, bytes));
      assert r.heard[0] == bytes;
      ObserveFirst(server, p, Received(fd, bytes), ReceivedEvents(fd, r.heard[1..]));
      assert q.read == base + longer by {
        assert (base + response) + bytes == base + (response + bytes);
      }
      ChunkOfReply(base, response, bytes, reply);
      if |longer| < |reply| {
        assert r.heard[1..] == Receive(longer, recvs[1..]).heard;
        ReceivePaired(server, q, base, reply, longer, fd, recvs[1..]);
      } else {
        assert r.heard[1..] == [] && ReceivedEvents(fd, r.heard[1..]) == [];
      }
    }
  }

  lemma ChunkOfReply(base: string, response: string, bytes: string, reply: string)
    requires WellFormedReply(reply) && base + (response + bytes) <= base + reply
    ensures response + bytes <= reply && CString(bytes) == bytes
    ensures |response + bytes| < |reply| ==> !Terminated(response + bytes)
    ensures |response + bytes| == |reply| ==> response + bytes == reply
  {
    var longer := response + bytes;
    PrefixOfRest(base, longer, reply);
    assert forall i :: 0 <= i < |bytes| ==> bytes[i] == longer[|response| + i] == reply[|response| + i];
    CStringOfNulFree(bytes);
    assert longer == reply[..|longer|];
  }

  lemma PrefixOfRest(base: string, a: string, b: string)
    requires base + a <= base + b
    ensures a <= b
  {
    assert forall i :: 0 <= i < |a| ==> a[i] == (base + a)[|base| + i] == (base + b)[|base| + i] == b[i];
  }

  /** The reply belongs to the command: it answers the last line that arrived on its connection. */
  ghost predicate Answered(server: Server, p: Peer, command: string, text: string) {
    var lines := CompleteLines(p.wire);
    lines != [] && lines[|lines| - 1] == command && text == server(p.conn, lines)
  }

  lemma TalkPaired(server: Server, p: Peer, command: string, fd: int, recvs: seq<Recv>)
    requires WellFormedServer(server) && OneLine(command) && EndsLine(p.wire)
    requires p.read == Answers(server, p.conn, CompleteLines(p.wire))
    requires Honest(server, p, Talk(fd, command, Receive("", recvs).heard))
    ensures var r := Receive("", recvs);
            var q := Observe(p, Talk(fd, command, r.heard));
            && q.conn == p.conn && EndsLine(q.wire)
            && CompleteLines(q.wire) == CompleteLines(p.wire) + [command]
            && (r.outcome.Reply? ==>
                  Answered(server, q, command, r.outcome.text)
                  && q.read == Answers(server, q.conn, CompleteLines(q.wire)))
  {
    var heard := ReceivedEvents(fd, Receive("", recvs).heard);
    var asked := See(p, Sent(fd, command + "\r\n"));
    ObserveFirst(server, p, Sent(fd, command + "\r\n"), heard);
    LineAppended(p.wire, command);
    var lines := CompleteLines(p.wire) + [command];
    assert lines[..|lines| - 1] == CompleteLines(p.wire);
    var reply := server(p.conn, lines);
    assert WellFormedReply(reply);
    NothingIsTerminated();
    assert p.read + "" == p.read;
    ReceivePaired(server, asked, p.read, reply, "", fd, recvs);
  }

  lemma ExecutePaired(server: Server, l: Link, p: Peer, c: Call, cap: int)
    requires WellFormedServer(server) && Synced(server, l, p) && OneLine(c.command)
    requires Honest(server, p, ExecuteStep(l, c, cap).events)
    ensures var done := ExecuteStep(l, c, cap);
            var q := Observe(p, done.events);
            && (!done.outcome.Blocked? ==> Synced(server, done.link, q))
            && (done.outcome.Reply? ==> Answered(server, q, c.command, done.outcome.text))
  {
    var d := ConnectStep(l, c.dial, cap);
    ConnectKeepsSync(server, l, p, c.dial, cap);
    if d.error.None? {
      var fd := d.link.fd;
      var q := Observe(p, d.events);
      if !c.sent {
        ObserveConcat(server, p, d.events, [Shut(fd)]);
      } else {
        var talk := Talk(fd, c.command, Receive("", c.recvs).heard);
        ObserveConcat(server, p, d.events, talk);
        ObserveConcat(server, p, d.events + talk, [Shut(fd)]);
        TalkPaired(server, q, c.command, fd, c.recvs);
      }
    }
  }

  /** Reply pairing over whole runs: against an honest server with well-formed replies, every call that
      returns a text returns the server's answer to its own command, whatever the fragmentation and
      whichever other calls failed and reconnected before it. */
  lemma {:induction false} ReplyPairing(server: Server, l: Link, p: Peer, calls: seq<Call>, cap: int)
    requires WellFormedServer(server) && Synced(server, l, p)
    requires forall k :: 0 <= k < |calls| ==> OneLine(calls[k].command)
    requires Honest(server, p, Trace(Run(l, calls, cap)))
    ensures var dones := Run(l, calls, cap);
            forall k :: 0 <= k < |dones| && dones[k].outcome.Reply? ==>
              Answered(server, Observe(p, Trace(dones[..k + 1])), calls[k].command, dones[k].outcome.text)
    decreases |calls|
  {
    if calls != [] {
      var dones := Run(l, calls, cap);
      var done := dones[0];
      var q := Observe(p, done.events);
      ObserveConcat(server, p, done.events, Trace(dones[1..]));
      ExecutePaired(server, l, p, calls[0], cap);
      if !done.outcome.Blocked? {
        assert dones[1..] == Run(done.link, calls[1..], cap);
        ReplyPairing(server, done.link, q, calls[1..], cap);
      }
      hide Observe, Answered, Synced, Honest, WellFormedServer, ExecuteStep, OneLine;
      forall k | 0 <= k < |dones| && dones[k].outcome.Reply?
        ensures Answered(server, Observe(p, Trace(dones[..k + 1])), calls[k].command, dones[k].outcome.text)
      {
        ObservePrefix(server, p, dones, k);
        if k == 0 {
          ObserveNothing(q);
        } else {
          assert dones[k] == dones[1..][k - 1] && calls[k] == calls[1..][k - 1];
        }
      }
    }
  }

  lemma ObserveNothing(p: Peer)
    ensures Observe(p, []) == p
  {
  }

  /** What the server has seen after the first calls of a run. */
  lemma ObservePrefix(server: Server, p: Peer, dones: seq<Done>, k: nat)
    requires k < |dones|
    ensures Observe(p, Trace(dones[..k + 1])) == Observe(Observe(p, dones[0].events), Trace(dones[1..][..k]))
    ensures k == 0 ==> Trace(dones[1..][..k]) == []
  {
    hide Observe;
    assert dones[..k + 1][1..] == dones[1..][..k];
    ObserveConcat(server, p, dones[0].events, Trace(dones[1..][..k]));
  }

  // ---------------------------------------------------------------- command framing

  /** All the bytes that were sent, on whatever connection. */
  function Wire(events: seq<Event>): string {
    if events == [] then "" else (if events[0].Sent? then events[0].bytes else "") + Wire(events[1..])
  }

  lemma {:induction false} WireConcat(a: seq<Event>, b: seq<Event>)
    ensures Wire(a + b) == Wire(a) + Wire(b)
  {
    if a == [] {
      assert a + b == b;
    } else {
      assert (a + b)[1..] == a[1..] + b;
      WireConcat(a[1..], b);
    }
  }

  /** Did the command of a call leave the driver? */
  predicate Issued(o: Outcome) {
    !o.Failed? || o.error in {MessageSize, ConnectionAborted}
  }

  function Commands(calls: seq<Call>, dones: seq<Done>): seq<string>
    requires |dones| <= |calls|
  {
    if dones == [] then []
    else (if Issued(dones[0].outcome) then [calls[0].command] else []) + Commands(calls[1..], dones[1..])
  }

  lemma {:induction false} DiallingSendsNothing(endpoints: seq<Endpoint>)
    ensures Wire(TryEndpoints(endpoints).1) == ""
  {
    if endpoints != [] {
      DiallingSendsNothing(endpoints[1..]);
      match endpoints[0]
      case NoSocket =>
      case Accepted(fd) =>
        WireConcat([Opened(fd)], [Connected(fd)]);
        assert [Opened(fd), Connected(fd)] == [Opened(fd)] + [Connected(fd)];
      case Refused(fd) =>
        WireConcat([Opened(fd)], [Shut(fd)]);
        assert [Opened(fd), Shut(fd)] == [Opened(fd)] + [Shut(fd)];
        WireConcat([Opened(fd), Shut(fd)], TryEndpoints(endpoints[1..]).1);
    }
  }

  lemma {:induction false} HearingSendsNothing(fd: int, heard: seq<string>)
    ensures Wire(ReceivedEvents(fd, heard)) == ""
  {
    if heard != [] {
      HearingSendsNothing(fd, heard[1..]);
      WireConcat([Received(fd, heard[0])], ReceivedEvents(fd, heard[1..]));
    }
  }

  lemma OutcomeSaysIssued(recvs: seq<Recv>, response: string)
    ensures Issued(Receive(response, recvs).outcome)
    decreases |recvs|
  {
    if |response| <= MAX_RESPONSE_SIZE && recvs != [] && recvs[0].Data? {
      OutcomeSaysIssued(recvs[1..], response + CString(recvs[0].bytes));
    }
  }

  lemma ExecuteWire(l: Link, c: Call, cap: int)
    ensures var done := ExecuteStep(l, c, cap);
            Wire(done.events) == if Issued(done.outcome) then c.command + "\r\n" else ""
  {
    hide Wire, Receive, ConnectStep, Talk;
    var d := ConnectStep(l, c.dial, cap);
    ConnectingSendsNothing(l, c.dial, cap);
    if d.error.None? {
      var fd := d.link.fd;
      var r := Receive("", c.recvs);
      OutcomeSaysIssued(c.recvs, "");
      TalkIsTheCommand(fd, c.command, r.heard);
      SilentBeginning(d.events, Talk(fd, c.command, r.heard), fd);
    }
  }

  lemma SilentBeginning(a: seq<Event>, b: seq<Event>, fd: int)
    requires Wire(a) == ""
    ensures Wire(a + b) == Wire(b) && Wire(a + b + [Shut(fd)]) == Wire(b)
    ensures Wire(a + [Shut(fd)]) == ""
  {
    assert Wire([Shut(fd)]) == "";
    hide Wire;
    WireConcat(a, b);
    WireConcat(a + b, [Shut(fd)]);
    WireConcat(a, [Shut(fd)]);
  }

  lemma TalkIsTheCommand(fd: int, command: string, heard: seq<string>)
    ensures Wire(Talk(fd, command, heard)) == command + "\r\n"
  {
    HearingSendsNothing(fd, heard);
    WireConcat([Sent(fd, command + "\r\n")], ReceivedEvents(fd, heard));
  }

  lemma ConnectingSendsNothing(l: Link, d: Dial, cap: int)
    ensures var r := ConnectStep(l, d, cap);
            Wire(r.events) == "" && (r.error.Some? ==> !Issued(Failed(r.error.value)))
  {
    match d
    case Telnet(_, _, _, endpoints) => DiallingSendsNothing(endpoints);
    case UnixSocket(_, _, _, endpoint) =>
      if !endpoint.NoSocket? {
        WireConcat([Opened(endpoint.fd)], [Shut(endpoint.fd)]);
        WireConcat([Opened(endpoint.fd)], [Connected(endpoint.fd)]);
        assert [Opened(endpoint.fd), Shut(endpoint.fd)] == [Opened(endpoint.fd)] + [Shut(endpoint.fd)];
        assert [Opened(endpoint.fd), Connected(endpoint.fd)] == [Opened(endpoint.fd)] + [Connected(endpoint.fd)];
      }
  }

  /** Framing round trip over every run: the receiving side splits the bytes into exactly the commands
      that were issued, provided no command can end its own line. */
  lemma {:induction false} CommandFraming(l: Link, calls: seq<Call>, cap: int)
    requires forall k :: 0 <= k < |calls| ==> OneLine(calls[k].command)
    ensures var dones := Run(l, calls, cap);
            var wire := Wire(Trace(dones));
            EndsLine(wire) && CompleteLines(wire) == Commands(calls, dones)
    decreases |calls|
  {
    if calls == [] {
      assert CompleteLines("") == [];
    } else {
      var dones := Run(l, calls, cap);
      var done, rest := dones[0], dones[1..];
      ExecuteWire(l, calls[0], cap);
      WireConcat(done.events, Trace(rest));
      if done.outcome.Blocked? {
        assert CompleteLines("") == [];
      } else {
        assert rest == Run(done.link, calls[1..], cap);
        CommandFraming(done.link, calls[1..], cap);
      }
      OneMoreCommand(calls[0].command, Issued(done.outcome), Wire(Trace(rest)));
    }
  }

  lemma OneMoreCommand(command: string, issued: bool, wire: string)
    requires OneLine(command) && EndsLine(wire)
    ensures var first := if issued then command + "\r\n" else "";
            && EndsLine(first + wire)
            && CompleteLines(first + wire) == (if issued then [command] else []) + CompleteLines(wire)
  {
    LineAlone(command);
    if issued {
      EndsLineConcat(command + "\r\n", wire);
      LinesOfConcat(command + "\r\n", wire);
    } else {
      assert "" + wire == wire;
    }
  }

  lemma ExecuteKeepsValid(l: Link, trace: seq<Event>, c: Call, cap: int)
    requires Ledger({}, trace) == Some(Holding(l))
    ensures var done := ExecuteStep(l, c, cap); Ledger({}, trace + done.events) == Some(Holding(done.link))
  {
    ExecuteKeepsLedger(l, c, cap);
    LedgerConcat({}, trace, ExecuteStep(l, c, cap).events);
  }

  // ---------------------------------------------------------------- the driver

  /** Either of the two drivers: which one it is shows in the dials it makes. `cap` is the largest
      backoff, and `trace` is the history of its system calls. */
  class LiquidsoapDriver {
    const cap: int
    var socketFd: int
    var backoffMs: int
    var lastAttempt: int
    ghost var trace: seq<Event>

    function View(): Link
      reads this
    {
      Link(socketFd, backoffMs, lastAttempt)
    }

    /** The descriptor in the field is the one that the system calls so far have left open. */
    ghost predicate Valid()
      reads this
    {
      Ledger({}, trace) == Some(Holding(View()))
    }

    constructor (cap: int, backoffMs: int, epoch: int)
      ensures Valid() && this.cap == cap && View() == Link(-1, backoffMs, epoch) && trace == []
    {
      this.cap := cap;
      socketFd, this.backoffMs, lastAttempt := -1, backoffMs, epoch;
      trace := [];
    }

    method Disconnect()
      modifies this`socketFd, this`trace
      ensures View() == old(View()).(fd := -1)
      ensures trace == old(trace) + if old(socketFd) == -1 then [] else [Shut(old(socketFd))]
    {
      if socketFd != -1 {
        trace := trace + [Shut(socketFd)];
        socketFd := -1;
      }
    }

    method ApplyBackoffDelay(dial: Dial)
      modifies this`backoffMs, this`lastAttempt
      ensures View() == BackoffStep(old(View()), dial, cap)
    {
      if dial.now - lastAttempt >= backoffMs {
        backoffMs := Min(backoffMs * 2, cap);
      }
      lastAttempt := dial.later;
    }

    /** Opening one socket and connecting it; the caller closes it again if that fails. */
    method TryEndpoint(endpoint: Endpoint) returns (connected: bool)
      requires socketFd == -1
      modifies this`socketFd, this`trace
      ensures connected == endpoint.Accepted?
      ensures socketFd == if endpoint.NoSocket? then -1 else endpoint.fd
      ensures trace == old(trace) + (match endpoint
                                     case NoSocket => []
                                     case Refused(fd) => [Opened(fd)]
                                     case Accepted(fd) => [Opened(fd), Connected(fd)])
    {
      if endpoint.NoSocket? { return false; }
      socketFd := endpoint.fd;
      trace := trace + [Opened(socketFd)];
      connected := endpoint.Accepted?;
      if connected {
        trace := trace + [Connected(socketFd)];
      }
    }

    method ConnectTelnet(resolved: bool, endpoints: seq<Endpoint>) returns (error: Option<Errc>)
      requires socketFd == -1
      modifies this`socketFd, this`backoffMs, this`trace
      ensures !resolved ==> error == Some(InvalidArgument) && View() == old(View()) && trace == old(trace)
      ensures resolved ==>
                && socketFd == TryEndpoints(endpoints).0
                && trace == old(trace) + TryEndpoints(endpoints).1
                && backoffMs == (if socketFd == -1 then old(backoffMs) else INITIAL_BACKOFF_MS)
                && error == if socketFd == -1 then Some(ConnectionRefused) else None
    {
      if !resolved { return Some(InvalidArgument); }
      var i := 0;
      while i < |endpoints|
        invariant 0 <= i <= |endpoints| && socketFd == -1 && backoffMs == old(backoffMs)
        invariant TryEndpoints(endpoints).0 == TryEndpoints(endpoints[i..]).0
        invariant old(trace) + TryEndpoints(endpoints).1 == trace + TryEndpoints(endpoints[i..]).1
      {
        var connected := TryEndpoint(endpoints[i]);
        assert endpoints[i..][1..] == endpoints[i + 1..];
        if connected {
          backoffMs := INITIAL_BACKOFF_MS;
          return None;
        }
        Disconnect();
        i := i + 1;
      }
      return Some(ConnectionRefused);
    }

    method ConnectUnix(pathLength: nat, endpoint: Endpoint) returns (error: Option<Errc>)
      requires socketFd == -1
      modifies this`socketFd, this`backoffMs, this`lastAttempt, this`trace
      ensures forall now, later ::
                ConnectStep(Link(-1, 0, 0), UnixSocket(now, later, pathLength, endpoint), 0).error == error
      ensures error.None? ==> View() == old(View()).(fd := endpoint.fd, backoffMs := INITIAL_BACKOFF_MS)
      ensures error.Some? ==> View() == old(View())
      ensures trace == old(trace) + (if endpoint.NoSocket? then []
                                     else if error.None? then [Opened(endpoint.fd), Connected(endpoint.fd)]
                                     else [Opened(endpoint.fd), Shut(endpoint.fd)])
    {
      if endpoint.NoSocket? { return Some(IoError); }
      if pathLength >= SUN_PATH_SIZE {
        socketFd := endpoint.fd;
        trace := trace + [Opened(socketFd)];
        Disconnect();
        return Some(InvalidArgument);
      }
      var connected := TryEndpoint(endpoint);
      if !connected {
        Disconnect();
        return Some(ConnectionRefused);
      }
      backoffMs := INITIAL_BACKOFF_MS;
      return None;
    }

    method Connect(dial: Dial) returns (error: Option<Errc>)
      modifies this
      ensures var d := ConnectStep(old(View()), dial, cap);
              View() == d.link && error == d.error && trace == old(trace) + d.events
    {
      if socketFd != -1 { return None; }
      ApplyBackoffDelay(dial);
      match dial {
        case Telnet(_, _, resolved, endpoints) => error := ConnectTelnet(resolved, endpoints);
        case UnixSocket(_, _, pathLength, endpoint) => error := ConnectUnix(pathLength, endpoint);
      }
    }

    /** The receive loop. */
    method ReceiveReply(recvs: seq<Recv>) returns (outcome: Outcome)
      requires socketFd != -1
      modifies this`socketFd, this`trace
      ensures var r := Receive("", recvs);
              && outcome == r.outcome
              && socketFd == (if outcome.Failed? then -1 else old(socketFd))
              && trace == old(trace) + ReceivedEvents(old(socketFd), r.heard)
                        + if outcome.Failed? then [Shut(old(socketFd))] else []
    {
      hide Terminated, CString;
      var response := "";
      var i := 0;
      ghost var all := Receive("", recvs);
      while true
        invariant 0 <= i <= |recvs| && socketFd == old(socketFd)
        invariant all.outcome == Receive(response, recvs[i..]).outcome
        invariant old(trace) + ReceivedEvents(socketFd, all.heard)
                  == trace + ReceivedEvents(socketFd, Receive(response, recvs[i..]).heard)
        decreases |recvs| - i
      {
        if |response| > MAX_RESPONSE_SIZE {
          Disconnect();
          return Failed(MessageSize);
        }
        if i == |recvs| { return Blocked; }
        var r := recvs[i];
        assert recvs[i..][1..] == recvs[i + 1..];
        i := i + 1;
        if r.Closed? {
          Disconnect();
          return Failed(ConnectionAborted);
        }
        response := response + CString(r.bytes);
        trace := trace + [Received(socketFd, r.bytes)];
        if Terminated(response) {
          assert ReceivedEvents(socketFd, [r.bytes]) == [Received(socketFd, r.bytes)];
          return Reply(response);
        }
      }
    }

    method Execute(c: Call) returns (outcome: Outcome)
      requires Valid()
      modifies this
      ensures var done := ExecuteStep(old(View()), c, cap);
              View() == done.link && outcome == done.outcome && trace == old(trace) + done.events
      ensures Valid()
    {
      ExecuteKeepsValid(old(View()), old(trace), c, cap);
      ConnectKeepsLedger(old(View()), c.dial, cap);
      var error := Connect(c.dial);
      if error.Some? { return Failed(error.value); }
      if !c.sent {
        Disconnect();
        return Failed(IoError);
      }
      trace := trace + [Sent(socketFd, c.command + "\r\n")];
      outcome := ReceiveReply(c.recvs);
      ExecuteTrace(old(trace), ConnectStep(old(View()), c.dial, cap).events, c.command,
                   ConnectStep(old(View()), c.dial, cap).link.fd, Receive("", c.recvs));
    }
  }

  lemma ExecuteTrace(before: seq<Event>, dialled: seq<Event>, command: string, fd: int, r: Reception)
    ensures before + dialled + [Sent(fd, command + "\r\n")] + ReceivedEvents(fd, r.heard) + []
            == before + (dialled + Talk(fd, command, r.heard))
    ensures before + dialled + [Sent(fd, command + "\r\n")] + ReceivedEvents(fd, r.heard) + [Shut(fd)]
            == before + (dialled + Talk(fd, command, r.heard) + [Shut(fd)])
  {
  }
}
