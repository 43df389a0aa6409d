/**
 The state manager: it mirrors the status and the track of the stream, publishes a snapshot whenever
 one of them changes, and turns DJ intents into transport commands.
 */
module StateMirror {
  import opened Sequences
  import opened Wrappers
  import opened Text
  import StatusReply
  import NowPlaying
  import Transport = LiquidsoapTransport

  // ---------------------------------------------------------------- data

  datatype Json = JString(text: string) | JNumber(value: real) | JObject(fields: map<string, Json>) | JOther

  datatype TrackInfo = TrackInfo(artist: string, title: string, playlist: string, duration: real,
                                 startTime: string, endTime: string)

  datatype GlobalState = GlobalState(status: string, track: TrackInfo, volume: int)

  const INITIAL_STATE := GlobalState("stopped", TrackInfo("", "", "", 0.0, "", ""), 100)

  datatype Commands = Commands(status: string, setUri: string, reload: string, pushAudio: string, skip: string)

  datatype Intents = Intents(setPlaylist: string, pushAudio: string, skip: string, statusRequest: string)

  /** What does not change while the manager lives; `format` prints a point in time. */
  datatype Config = Config(commands: Commands, intents: Intents, format: int -> string)

  datatype Kind = StatusCmd | NowPlayingCmd | SetUriCmd | ReloadCmd | PushCmd | SkipCmd

  /** A command that was handed to the transport, and whether it came back with a reply. */
  datatype Issued = Issued(kind: Kind, line: string, ok: bool)

  /** The manager together with the history of its publications and commands. */
  datatype Mirror = Mirror(state: GlobalState, published: seq<GlobalState>, commands: seq<Issued>)

  /** A poll: the replies to the two commands, if there are any, and the clock. A DJ command: its intent and
      payload, and whether the first and the second command it may issue succeed. */
  datatype Op =
    | Poll(status: Option<string>, metadata: Option<Json>, now: int)
    | DjCommand(intent: string, payload: Json, firstOk: bool, secondOk: bool)

  // ---------------------------------------------------------------- the steps

  function Broadcast(m: Mirror): Mirror {
    m.(published := m.published + [m.state])
  }

  function Issue(m: Mirror, kind: Kind, line: string, ok: bool): Mirror {
    m.(commands := m.commands + [Issued(kind, line, ok)])
  }

  /** The status that a poll observes. */
  function Judge(reply: Option<string>): string {
    match reply
    case None => "error"
    case Some(text) => if StatusReply.IsPlaying(text) then "playing" else "stopped"
  }

  function UpdateStatus(m: Mirror, c: Config, reply: Option<string>): Mirror {
    var asked := Issue(m, StatusCmd, c.commands.status, reply.Some?);
    var status := Judge(reply);
    if status == m.state.status then asked
    else Broadcast(asked.(state := asked.state.(status := status)))
  }

  predicate Has(j: Json, key: string) {
    j.JObject? && key in j.fields
  }

  /** A text or number member with a default; None if the member has another type, which throws. */
  function TextMember(j: Json, key: string, otherwise: string): Option<string> {
    if !Has(j, key) then Some(otherwise)
    else if j.fields[key].JString? then Some(j.fields[key].text)
    else None
  }

  function NumberMember(j: Json, key: string, otherwise: real): Option<real> {
    if !Has(j, key) then Some(otherwise)
    else if j.fields[key].JNumber? then Some(j.fields[key].value)
    else None
  }

  /** Rounding to the nearest integer, halves away from zero. */
  function LlRound(x: real): int {
    if x >= 0.0 then (x + 0.5).Floor else -((0.5 - x).Floor)
  }

  /** The nearest integer, halves away from zero. */
  lemma NearestInteger(x: real)
    ensures -0.5 <= LlRound(x) as real - x <= 0.5
    ensures LlRound(-x) == -LlRound(x)
    ensures x >= 0.0 ==> LlRound(x) as real - x > -0.5
  {
  }

  function EndOf(now: int, duration: real): int {
    now + LlRound(duration * 1000.0)
  }

  /** The members are read one after the other, so an exception leaves a track that is half updated.
      The flag says that the update ran to its end. */
  function NewTrack(t: TrackInfo, c: Config, meta: Json, title: string, now: int): (TrackInfo, bool) {
    var t1 := t.(title := title);
    var artist := TextMember(meta, "artist", "Unknown");
    if artist.None? then (t1, false)
    else
      var t2 := t1.(artist := artist.value);
      var playlist := TextMember(meta, "playlist", "default");
      if playlist.None? then (t2, false)
      else
        var t3 := t2.(playlist := playlist.value);
        var duration := NumberMember(meta, "duration", 0.0);
        if duration.None? then (t3, false)
        else (t3.(duration := duration.value, startTime := c.format(now),
                  endTime := c.format(EndOf(now, duration.value))), true)
  }

  function UpdateMetadata(m: Mirror, c: Config, metadata: Option<Json>, now: int): Mirror {
    var asked := Issue(m, NowPlayingCmd, "jax.nowplaying", metadata.Some?);
    if metadata.None? || !metadata.value.JObject? then asked
    else
      var title := TextMember(metadata.value, "title", "Unknown");
      if title.None? || title.value == m.state.track.title then asked
      else
        var (track, complete) := NewTrack(m.state.track, c, metadata.value, title.value, now);
        var updated := asked.(state := asked.state.(track := track));
        if complete then Broadcast(updated) else updated
  }

  function PollStep(m: Mirror, c: Config, status: Option<string>, metadata: Option<Json>, now: int): Mirror {
    UpdateMetadata(UpdateStatus(m, c, status), c, metadata, now)
  }

  predicate Forbidden(c: char) {
    c == '\r' || c == '\n' || c == '\0'
  }

  function Clean(arg: string): string {
    if arg == "" then ""
    else (if Forbidden(arg[0]) then "" else [arg[0]]) + Clean(arg[1..])
  }

  /** The argument of a command that a payload asks for: None if it is missing, is not a text, or has
      nothing left once it is sanitized. */
  function Argument(data: Json, key: string): Option<string> {
    if !Has(data, key) || !data.fields[key].JString? then None
    else
      var clean := Clean(data.fields[key].text);
      if clean == "" then None else Some(clean)
  }

  function DjStep(m: Mirror, c: Config, intent: string, payload: Json, firstOk: bool, secondOk: bool): Mirror {
    var data := if Has(payload, "payload") then payload.fields["payload"] else payload;
    if intent == c.intents.setPlaylist then
      match Argument(data, "uri")
      case None => m
      case Some(uri) =>
        var set1 := Issue(m, SetUriCmd, c.commands.setUri + " " + uri, firstOk);
        if firstOk then Issue(set1, ReloadCmd, c.commands.reload, secondOk) else set1
    else if intent == c.intents.pushAudio then
      match Argument(data, "path")
      case None => m
      case Some(path) => Issue(m, PushCmd, c.commands.pushAudio + " " + path, firstOk)
    else if intent == c.intents.skip then Issue(m, SkipCmd, c.commands.skip, firstOk)
    else if intent == c.intents.statusRequest then Broadcast(m)
    else m
  }

  function Step(m: Mirror, c: Config, op: Op): Mirror {
    match op
    case Poll(status, metadata, now) => PollStep(m, c, status, metadata, now)
    case DjCommand(intent, payload, firstOk, secondOk) => DjStep(m, c, intent, payload, firstOk, secondOk)
  }

  function Run(m: Mirror, c: Config, ops: seq<Op>): Mirror
    decreases |ops|
  {
    if ops == [] then m else Run(Step(m, c, ops[0]), c, ops[1..])
  }

  const START := Mirror(INITIAL_STATE, [], [])

  // ---------------------------------------------------------------- histories without repeats

  function Dedup<T(==)>(s: seq<T>): (d: seq<T>)
    ensures s != [] ==> d != []
  {
    if |s| <= 1 then s
    else if s[|s| - 1] == s[|s| - 2] then Dedup(s[..|s| - 1])
    else Dedup(s[..|s| - 1]) + [s[|s| - 1]]
  }

  lemma {:induction false} DedupAppend<T>(s: seq<T>, x: T)
    requires s != []
    ensures Dedup(s + [x]) == if s[|s| - 1] == x then Dedup(s) else Dedup(s) + [x]
  {
    assert (s + [x])[..|s|] == s;
  }

  function Statuses(states: seq<GlobalState>): seq<string> {
    seq(|states|, i requires 0 <= i < |states| => states[i].status)
  }

  function Titles(states: seq<GlobalState>): seq<string> {
    seq(|states|, i requires 0 <= i < |states| => states[i].track.title)
  }

  function TitlesOf(tracks: seq<TrackInfo>): seq<string> {
    seq(|tracks|, i requires 0 <= i < |tracks| => tracks[i].title)
  }

  // ---------------------------------------------------------------- what a run observes

  /** The status that a reply shows: an error without one, and otherwise what the text in front of the first END
      line says. */
  function Shown(reply: Option<string>): string {
    if reply.None? then "error"
    else if StatusReply.Says(reply.value[..StatusReply.Find(reply.value, StatusReply.FRAME)]) then "playing"
    else "stopped"
  }

  lemma JudgeIsShown(reply: Option<string>)
    ensures Judge(reply) == Shown(reply)
  {
    if reply.Some? {
      StatusReply.OnlyTheBodyCounts(reply.value);
    }
  }

  function StatusSeenBy(op: Op): seq<string> {
    if op.Poll? then [Shown(op.status)] else []
  }

  function SeenStatuses(ops: seq<Op>): seq<string> {
    if ops == [] then [] else StatusSeenBy(ops[0]) + SeenStatuses(ops[1..])
  }

  /** Metadata whose members can all be read, apart from the title. */
  predicate Sound(metadata: Option<Json>) {
    metadata.Some? ==>
      && TextMember(metadata.value, "artist", "").Some?
      && TextMember(metadata.value, "playlist", "").Some?
      && NumberMember(metadata.value, "duration", 0.0).Some?
  }

  predicate SoundOps(ops: seq<Op>) {
    forall i :: 0 <= i < |ops| && ops[i].Poll? ==> Sound(ops[i].metadata)
  }

  /** The track that a poll observes, with the clock of that moment. */
  function SeenTrack(c: Config, metadata: Option<Json>, now: int): Option<TrackInfo>
    requires Sound(metadata)
  {
    if metadata.None? || !metadata.value.JObject? || TextMember(metadata.value, "title", "Unknown").None? then None
    else
      var meta := metadata.value;
      var duration := NumberMember(meta, "duration", 0.0).value;
      Some(TrackInfo(TextMember(meta, "artist", "Unknown").value, TextMember(meta, "title", "Unknown").value,
                     TextMember(meta, "playlist", "default").value, duration,
                     c.format(now), c.format(EndOf(now, duration))))
  }

  function TrackSeenBy(c: Config, op: Op): seq<TrackInfo>
    requires op.Poll? ==> Sound(op.metadata)
  {
    if op.Poll? && SeenTrack(c, op.metadata, op.now).Some? then [SeenTrack(c, op.metadata, op.now).value] else []
  }

  function SeenTracks(c: Config, ops: seq<Op>): seq<TrackInfo>
    requires SoundOps(ops)
  {
    if ops == [] then [] else TrackSeenBy(c, ops[0]) + SeenTracks(c, ops[1..])
  }

  /** How often the current state was asked for. */
  function StatusRequests(c: Config, ops: seq<Op>): nat {
    if ops == [] then 0
    else RequestsIn(c, ops[0]) + StatusRequests(c, ops[1..])
  }

  function RequestsIn(c: Config, op: Op): nat {
    if op.DjCommand? && AsksForStatus(c, op.intent) then 1 else 0
  }

  predicate AsksForStatus(c: Config, intent: string) {
    && intent == c.intents.statusRequest
    && intent !in {c.intents.setPlaylist, c.intents.pushAudio, c.intents.skip}
  }

  /** The first of the last tracks that all have the same title. */
  function FirstOfRun(tracks: seq<TrackInfo>): TrackInfo
    requires tracks != []
  {
    var n := |tracks|;
    if n >= 2 && tracks[n - 1].title == tracks[n - 2].title then FirstOfRun(tracks[..n - 1]) else tracks[n - 1]
  }

  lemma {:induction false} FirstOfRunAppend(tracks: seq<TrackInfo>, t: TrackInfo)
    requires tracks != []
    ensures FirstOfRun(tracks + [t]) == if tracks[|tracks| - 1].title == t.title then FirstOfRun(tracks) else t
    ensures FirstOfRun(tracks).title == tracks[|tracks| - 1].title
  {
    assert (tracks + [t])[..|tracks|] == tracks;
    if |tracks| > 1 {
      FirstOfRunAppend(tracks[..|tracks| - 1], tracks[|tracks| - 1]);
      assert tracks[..|tracks| - 1] + [tracks[|tracks| - 1]] == tracks;
    }
  }

  // ---------------------------------------------------------------- the mirror invariant

  /** The last publication, or the initial state if there is none. */
  function LastPublished(m: Mirror): GlobalState {
    if m.published == [] then INITIAL_STATE else m.published[|m.published| - 1]
  }

  /** The mirror against everything observed so far, of which the first element is the initial state. */
  ghost predicate Faithful(m: Mirror, statuses: seq<string>, tracks: seq<TrackInfo>, requests: nat) {
    && statuses != [] && tracks != []
    && m.state.status == statuses[|statuses| - 1]
    && m.state.track == FirstOfRun(tracks)
    && m.state.volume == INITIAL_STATE.volume
    && Dedup([INITIAL_STATE.status] + Statuses(m.published)) == Dedup(statuses)
    && Dedup([INITIAL_STATE.track.title] + Titles(m.published)) == Dedup(TitlesOf(tracks))
    && m.state == LastPublished(m)
    && |m.published| == (|Dedup(statuses)| - 1) + (|Dedup(TitlesOf(tracks))| - 1) + requests
  }

  /** A publication appends the current status and title to the published histories. */
  lemma BroadcastHistory(m: Mirror, last: GlobalState)
    requires last == LastPublished(m)
    ensures var before, after := [INITIAL_STATE.status] + Statuses(m.published),
                                 [INITIAL_STATE.status] + Statuses(Broadcast(m).published);
            Dedup(after) == if last.status == m.state.status then Dedup(before) else Dedup(before) + [m.state.status]
    ensures var before, after := [INITIAL_STATE.track.title] + Titles(m.published),
                                 [INITIAL_STATE.track.title] + Titles(Broadcast(m).published);
            Dedup(after) == if last.track.title == m.state.track.title then Dedup(before)
                            else Dedup(before) + [m.state.track.title]
  {
    hide Dedup;
    var published, now := m.published, m.state;
    var statuses := [INITIAL_STATE.status] + Statuses(published);
    assert Statuses(published + [now]) == Statuses(published) + [now.status];
    Regrouped([INITIAL_STATE.status], Statuses(published), [now.status]);
    DedupAppend(statuses, now.status);
    var titles := [INITIAL_STATE.track.title] + Titles(published);
    assert Titles(published + [now]) == Titles(published) + [now.track.title];
    Regrouped([INITIAL_STATE.track.title], Titles(published), [now.track.title]);
    DedupAppend(titles, now.track.title);
  }

  lemma StatusKeepsFaithful(m: Mirror, c: Config, reply: Option<string>, statuses: seq<string>,
                            tracks: seq<TrackInfo>, requests: nat)
    requires Faithful(m, statuses, tracks, requests)
    ensures Faithful(UpdateStatus(m, c, reply), statuses + [Shown(reply)], tracks, requests)
  {
    JudgeIsShown(reply);
    hide Dedup, FirstOfRun, TitlesOf, Statuses, Titles, Judge;
    var status := Judge(reply);
    var asked := Issue(m, StatusCmd, c.commands.status, reply.Some?);
    if status == m.state.status {
      DedupAppend(statuses, status);
    } else {
      NewStatusKeepsFaithful(asked, status, statuses, tracks, requests);
    }
  }

  lemma NewStatusKeepsFaithful(m: Mirror, status: string, statuses: seq<string>, tracks: seq<TrackInfo>,
                               requests: nat)
    requires Faithful(m, statuses, tracks, requests) && status != m.state.status
    ensures Faithful(Broadcast(m.(state := m.state.(status := status))), statuses + [status], tracks, requests)
  {
    hide Dedup, FirstOfRun, TitlesOf, Statuses, Titles;
    DedupAppend(statuses, status);
    BroadcastHistory(m.(state := m.state.(status := status)), m.state);
  }

  lemma TitlesAppend(tracks: seq<TrackInfo>, t: TrackInfo)
    requires tracks != []
    ensures TitlesOf(tracks + [t]) == TitlesOf(tracks) + [t.title]
    ensures TitlesOf(tracks) != [] && TitlesOf(tracks)[|TitlesOf(tracks)| - 1] == tracks[|tracks| - 1].title
  {
  }

  /** What one more observed track does to the observed titles and to the current run of equal ones. */
  lemma TrackSeen(tracks: seq<TrackInfo>, t: TrackInfo)
    requires tracks != []
    ensures var current := FirstOfRun(tracks);
            && FirstOfRun(tracks + [t]) == (if current.title == t.title then current else t)
            && Dedup(TitlesOf(tracks + [t]))
               == Dedup(TitlesOf(tracks)) + (if current.title == t.title then [] else [t.title])
  {
    FirstOfRunAppend(tracks, t);
    TitlesAppend(tracks, t);
    DedupAppend(TitlesOf(tracks), t.title);
    hide Dedup, FirstOfRun, TitlesOf;
  }

  lemma TrackKeepsFaithful(m: Mirror, t: TrackInfo, statuses: seq<string>, tracks: seq<TrackInfo>, requests: nat)
    requires Faithful(m, statuses, tracks, requests)
    ensures var next := if t.title == m.state.track.title then m else Broadcast(m.(state := m.state.(track := t)));
            Faithful(next, statuses, tracks + [t], requests)
  {
    hide Dedup, FirstOfRun, Statuses, Titles, TitlesOf;
    TrackSeen(tracks, t);
    if t.title != m.state.track.title {
      BroadcastHistory(m.(state := m.state.(track := t)), m.state);
    }
  }

  lemma MetadataKeepsFaithful(m: Mirror, c: Config, metadata: Option<Json>, now: int, statuses: seq<string>,
                              tracks: seq<TrackInfo>, requests: nat)
    requires Faithful(m, statuses, tracks, requests) && Sound(metadata)
    ensures var seen := SeenTrack(c, metadata, now);
            Faithful(UpdateMetadata(m, c, metadata, now), statuses,
                     tracks + (if seen.Some? then [seen.value] else []), requests)
  {
    var seen := SeenTrack(c, metadata, now);
    if seen.None? {
      assert tracks + [] == tracks;
    } else {
      TrackKeepsFaithful(Issue(m, NowPlayingCmd, "jax.nowplaying", true), seen.value, statuses, tracks, requests);
    }
  }

  lemma DjKeepsFaithful(m: Mirror, c: Config, op: Op, statuses: seq<string>, tracks: seq<TrackInfo>, requests: nat)
    requires Faithful(m, statuses, tracks, requests) && op.DjCommand?
    ensures Faithful(Step(m, c, op), statuses, tracks, requests + RequestsIn(c, op))
  {
    hide Dedup, FirstOfRun, TitlesOf, Statuses, Titles, Argument;
    if AsksForStatus(c, op.intent) {
      BroadcastHistory(m, m.state);
    }
  }

  lemma StepKeepsFaithful(m: Mirror, c: Config, op: Op, statuses: seq<string>, tracks: seq<TrackInfo>, requests: nat)
    requires Faithful(m, statuses, tracks, requests)
    requires op.Poll? ==> Sound(op.metadata)
    ensures Faithful(Step(m, c, op), statuses + StatusSeenBy(op), tracks + TrackSeenBy(c, op),
                     requests + RequestsIn(c, op))
  {
    match op
    case Poll(status, metadata, now) =>
      StatusKeepsFaithful(m, c, status, statuses, tracks, requests);
      var asked := UpdateStatus(m, c, status);
      MetadataKeepsFaithful(asked, c, metadata, now, statuses + [Shown(status)], tracks, requests);
    case DjCommand(_, _, _, _) =>
      DjKeepsFaithful(m, c, op, statuses, tracks, requests);
      Regrouped(statuses, [], []);
      Regrouped(tracks, [], []);
  }

  lemma {:induction false} RunKeepsFaithful(m: Mirror, c: Config, ops: seq<Op>, statuses: seq<string>,
                                            tracks: seq<TrackInfo>, requests: nat)
    requires Faithful(m, statuses, tracks, requests) && SoundOps(ops)
    ensures Faithful(Run(m, c, ops), statuses + SeenStatuses(ops), tracks + SeenTracks(c, ops),
                     requests + StatusRequests(c, ops))
    decreases |ops|
  {
    hide Faithful, Step, StatusSeenBy, TrackSeenBy, RequestsIn, Sound;
    if ops == [] {
      Regrouped(statuses, [], []);
      Regrouped(tracks, [], []);
    } else {
      var op, rest := ops[0], ops[1..];
      StepKeepsFaithful(m, c, op, statuses, tracks, requests);
      RunKeepsFaithful(Step(m, c, op), c, rest, statuses + StatusSeenBy(op), tracks + TrackSeenBy(c, op),
                       requests + RequestsIn(c, op));
      Regrouped(statuses, StatusSeenBy(op), SeenStatuses(rest));
      Regrouped(tracks, TrackSeenBy(c, op), SeenTracks(c, rest));
    }
  }

  /** Change-only history: published and observed statuses are the same once adjacent repeats are
      removed, likewise the titles, and every publication is a change or was asked for. */
  lemma ChangeOnlyHistory(c: Config, ops: seq<Op>)
    requires SoundOps(ops)
    ensures var m := Run(START, c, ops);
            var statuses := [INITIAL_STATE.status] + SeenStatuses(ops);
            var titles := TitlesOf([INITIAL_STATE.track] + SeenTracks(c, ops));
            && Dedup([INITIAL_STATE.status] + Statuses(m.published)) == Dedup(statuses)
            && Dedup([INITIAL_STATE.track.title] + Titles(m.published)) == Dedup(titles)
            && |m.published| == (|Dedup(statuses)| - 1) + (|Dedup(titles)| - 1) + StatusRequests(c, ops)
  {
    hide Run, Dedup, FirstOfRun, SeenStatuses, SeenTracks, StatusRequests, TitlesOf, Statuses, Titles, SoundOps;
    StartIsFaithful();
    RunKeepsFaithful(START, c, ops, [INITIAL_STATE.status], [INITIAL_STATE.track], 0);
  }

  /** Mirror agreement: the last publication is the current state, the status is the last one observed,
      and the track is the first observation in the current run of equal titles. */
  lemma MirrorAgreement(c: Config, ops: seq<Op>)
    requires SoundOps(ops)
    ensures var m := Run(START, c, ops);
            var statuses := [INITIAL_STATE.status] + SeenStatuses(ops);
            && m.state == LastPublished(m)
            && m.state.status == statuses[|statuses| - 1]
            && m.state.track == FirstOfRun([INITIAL_STATE.track] + SeenTracks(c, ops))
            && m.state.volume == 100
  {
    hide Run, Dedup, FirstOfRun, SeenStatuses, SeenTracks, StatusRequests, TitlesOf, Statuses, Titles, SoundOps;
    StartIsFaithful();
    RunKeepsFaithful(START, c, ops, [INITIAL_STATE.status], [INITIAL_STATE.track], 0);
  }

  lemma StartIsFaithful()
    ensures Faithful(START, [INITIAL_STATE.status], [INITIAL_STATE.track], 0)
  {
    assert [INITIAL_STATE.status] + Statuses([]) == [INITIAL_STATE.status];
    assert [INITIAL_STATE.track.title] + Titles([]) == [INITIAL_STATE.track.title];
    assert TitlesOf([INITIAL_STATE.track]) == [INITIAL_STATE.track.title];
  }

  // ---------------------------------------------------------------- what a poll and an intent do

  /** A status poll: it issues the configured command, the status is what the reply shows, and the state is published
      exactly if the status is new. */
  lemma StatusIsShown(m: Mirror, c: Config, reply: Option<string>)
    ensures var after := UpdateStatus(m, c, reply);
            && after.commands == m.commands + [Issued(StatusCmd, c.commands.status, reply.Some?)]
            && after.state == m.state.(status := after.state.status)
            && (after.state.status == "error" <==> reply.None?)
            && (after.state.status == "playing"
                <==> reply.Some? && StatusReply.Says(reply.value[..StatusReply.Find(reply.value, StatusReply.FRAME)]))
            && after.state.status in {"error", "playing", "stopped"}
            && after.published == m.published + if after.state.status == m.state.status then [] else [after.state]
  {
    JudgeIsShown(reply);
    StatusWordsDiffer();
    hide StatusReply.IsPlaying, StatusReply.Says, StatusReply.Find;
  }

  lemma StatusWordsDiffer()
    ensures "error" != "playing" && "error" != "stopped" && "playing" != "stopped"
  {
    assert "error"[0] == 'e' && "playing"[0] == 'p' && "stopped"[0] == 's';
  }

  /** A framed and padded word, as Liquidsoap sends it. */
  lemma WordIsShown(m: Mirror, c: Config, w1: string, word: string, w2: string, rest: string)
    requires StatusReply.Blank(w1) && StatusReply.Blank(w2)
    requires StatusReply.Find(w1 + word + w2, StatusReply.FRAME) == |w1 + word + w2|
    ensures UpdateStatus(m, c, Some(w1 + word + w2 + StatusReply.FRAME + rest)).state.status
            == if StatusReply.Says(word) then "playing" else "stopped"
    ensures UpdateStatus(m, c, Some(w1 + word + w2)).state.status
            == if StatusReply.Says(word) then "playing" else "stopped"
  {
    StatusReply.FramingDoesNotMatter(w1, word, w2, rest);
    hide StatusReply.IsPlaying, StatusReply.Says, StatusReply.Find, StatusReply.Blank;
  }

  /** The reply to the last poll of a run, if there is a poll. */
  function LastReply(ops: seq<Op>): Option<Option<string>> {
    if ops == [] then None
    else
      var op := ops[|ops| - 1];
      if op.Poll? then Some(op.status) else LastReply(ops[..|ops| - 1])
  }

  /** Over every run, whatever else it sees: the status is what the last poll showed. */
  lemma {:induction false} LastPollShows(c: Config, ops: seq<Op>)
    ensures Run(START, c, ops).state.status
            == if LastReply(ops).None? then "stopped" else Shown(LastReply(ops).value)
    decreases |ops|
  {
    if ops != [] {
      var n := |ops| - 1;
      LastPollShows(c, ops[..n]);
      RunFurther(START, c, ops, n);
      assert ops[..n + 1] == ops;
      StepShows(Run(START, c, ops[..n]), c, ops[n]);
      hide Run, Step, Shown;
    }
  }

  lemma StepShows(m: Mirror, c: Config, op: Op)
    ensures Step(m, c, op).state.status == if op.Poll? then Shown(op.status) else m.state.status
  {
    if op.Poll? {
      JudgeIsShown(op.status);
      hide Judge, Shown;
    }
  }

  lemma {:induction false} RunFurther(m: Mirror, c: Config, ops: seq<Op>, k: nat)
    requires k < |ops|
    ensures Run(m, c, ops[..k + 1]) == Step(Run(m, c, ops[..k]), c, ops[k])
    decreases k
  {
    hide Step;
    if k == 0 {
      assert ops[..1][1..] == [] && ops[..0] == [];
    } else {
      assert ops[..k + 1][1..] == ops[1..][..k] && ops[..k][1..] == ops[1..][..k - 1];
      RunFurther(Step(m, c, ops[0]), c, ops[1..], k - 1);
    }
  }

  /** A member that is missing, or is a text. */
  ghost predicate Readable(meta: Json, key: string) {
    meta.JObject? && (key in meta.fields ==> meta.fields[key].JString?)
  }

  function TextOr(meta: Json, key: string, otherwise: string): string {
    if meta.JObject? && key in meta.fields && meta.fields[key].JString? then meta.fields[key].text else otherwise
  }

  function NumberOr(meta: Json, key: string, otherwise: real): real {
    if meta.JObject? && key in meta.fields && meta.fields[key].JNumber? then meta.fields[key].value else otherwise
  }

  /** A metadata poll: it issues its command; without a new title nothing changes; otherwise the members are taken
      over up to the first one that cannot be read, and the state is published if all of them can. */
  lemma TrackIsShown(m: Mirror, c: Config, metadata: Option<Json>, now: int)
    ensures var after := UpdateMetadata(m, c, metadata, now);
            var t, u := m.state.track, after.state.track;
            && after.commands == m.commands + [Issued(NowPlayingCmd, "jax.nowplaying", metadata.Some?)]
            && after.state == m.state.(track := u)
            && if metadata.Some? && Readable(metadata.value, "title")
                  && TextOr(metadata.value, "title", "Unknown") != t.title then
                 var meta := metadata.value;
                 var artist := Readable(meta, "artist");
                 var playlist := artist && Readable(meta, "playlist");
                 var all := playlist && ("duration" in meta.fields ==> meta.fields["duration"].JNumber?);
                 && u.title == TextOr(meta, "title", "Unknown")
                 && u.artist == (if artist then TextOr(meta, "artist", "Unknown") else t.artist)
                 && u.playlist == (if playlist then TextOr(meta, "playlist", "default") else t.playlist)
                 && (if all then
                       && u.duration == NumberOr(meta, "duration", 0.0)
                       && u.startTime == c.format(now)
                       && u.endTime == c.format(now + LlRound(u.duration * 1000.0))
                       && after.published == m.published + [after.state]
                     else
                       && u.duration == t.duration && u.startTime == t.startTime && u.endTime == t.endTime
                       && after.published == m.published)
               else u == t && after.published == m.published
  {
  }

  /** The payload proper: it may be wrapped once. */
  function Unwrapped(payload: Json): Json {
    if payload.JObject? && "payload" in payload.fields then payload.fields["payload"] else payload
  }

  /** The commands that each intent issues, and nothing else; only a status request publishes, and no intent
      changes the state. */
  lemma IntentIssues(m: Mirror, c: Config, intent: string, payload: Json, firstOk: bool, secondOk: bool)
    ensures var after := Step(m, c, DjCommand(intent, payload, firstOk, secondOk));
            var uri := Clean(TextOr(Unwrapped(payload), "uri", ""));
            var path := Clean(TextOr(Unwrapped(payload), "path", ""));
            var issued :=
              if intent == c.intents.setPlaylist then
                if uri == "" then []
                else [Issued(SetUriCmd, c.commands.setUri + " " + uri, firstOk)]
                     + if firstOk then [Issued(ReloadCmd, c.commands.reload, secondOk)] else []
              else if intent == c.intents.pushAudio then
                if path == "" then [] else [Issued(PushCmd, c.commands.pushAudio + " " + path, firstOk)]
              else if intent == c.intents.skip then [Issued(SkipCmd, c.commands.skip, firstOk)]
              else [];
            && after.commands == m.commands + issued
            && after.state == m.state
            && after.published == m.published + if AsksForStatus(c, intent) then [m.state] else []
  {
    Regrouped(m.commands, [Issued(SetUriCmd, c.commands.setUri + " " + Clean(TextOr(Unwrapped(payload), "uri", "")),
                                  firstOk)], [Issued(ReloadCmd, c.commands.reload, secondOk)]);
  }

  // ---------------------------------------------------------------- where the agreement ends

  /** Metadata with a new title and another member that cannot be read. */
  ghost predicate BreaksOff(m: Mirror, metadata: Option<Json>) {
    && metadata.Some? && metadata.value.JObject?
    && TextMember(metadata.value, "title", "Unknown") !in {None, Some(m.state.track.title)}
    && !Sound(metadata)
  }

  lemma HalfUpdatedTrack(m: Mirror, c: Config, metadata: Option<Json>, now: int)
    requires LastPublished(m) == m.state
    ensures var after := UpdateMetadata(m, c, metadata, now);
            after.state != LastPublished(after) <==> BreaksOff(m, metadata)
  {
  }

  /** Where the agreement ends, exactly: a poll leaves the last publication behind the state if and only if
      it sees a new title in metadata of which another member cannot be read. */
  lemma PollBreaksOff(m: Mirror, c: Config, status: Option<string>, metadata: Option<Json>, now: int)
    requires LastPublished(m) == m.state
    ensures var after := PollStep(m, c, status, metadata, now);
            after.state != LastPublished(after) <==> BreaksOff(m, metadata)
  {
    HalfUpdatedTrack(UpdateStatus(m, c, status), c, metadata, now);
    hide UpdateMetadata;
  }

  /** The members that the now-playing parser puts into its result. */
  function TrackJson(t: NowPlaying.Track): Json {
    JObject(map["artist" := JString(t.artist), "title" := JString(t.title),
                "playlist" := JString(t.playlist), "duration" := JNumber(t.duration)])
  }

  /** What the now-playing parser gives is always sound, and is observed as it was parsed. */
  lemma ParsedMetadataIsSound(c: Config, data: string, stod: NowPlaying.Stod, now: int)
    ensures var t := NowPlaying.Parse(data, stod);
            && Sound(Some(TrackJson(t)))
            && SeenTrack(c, Some(TrackJson(t)), now)
               == Some(TrackInfo(t.artist, t.title, "default", t.duration,
                                 c.format(now), c.format(EndOf(now, t.duration))))
            && t.title != INITIAL_STATE.track.title
  {
    NowPlaying.AlwaysWellTyped(data, stod);
    var t := NowPlaying.Parse(data, stod);
    KeysDiffer();
    var fields := TrackJson(t).fields;
    assert fields["artist"] == JString(t.artist) && fields["title"] == JString(t.title);
    assert fields["playlist"] == JString(t.playlist) && fields["duration"] == JNumber(t.duration);
  }

  lemma KeysDiffer()
    ensures "artist" != "title" && "artist" != "playlist" && "artist" != "duration"
    ensures "title" != "playlist" && "title" != "duration" && "playlist" != "duration"
  {
    assert "artist"[0] == 'a' && "title"[0] == 't' && "playlist"[0] == 'p' && "duration"[0] == 'd';
  }

  // ---------------------------------------------------------------- commands

  predicate ReloadPaired(commands: seq<Issued>, k: nat)
    requires k < |commands|
  {
    && (commands[k].kind.ReloadCmd? ==> k > 0 && commands[k - 1].kind.SetUriCmd? && commands[k - 1].ok)
    && (commands[k].kind.SetUriCmd? && commands[k].ok ==> k + 1 < |commands| && commands[k + 1].kind.ReloadCmd?)
  }

  /** The reloads are exactly the commands that directly follow a successful set-uri. */
  ghost predicate ReloadsFollowSetUri(commands: seq<Issued>) {
    forall k: nat :: k < |commands| ==> ReloadPaired(commands, k)
  }

  lemma OneMoreCommand(commands: seq<Issued>, e: Issued)
    requires ReloadsFollowSetUri(commands)
    requires !e.kind.ReloadCmd? && !(e.kind.SetUriCmd? && e.ok)
    ensures ReloadsFollowSetUri(commands + [e])
  {
    forall k: nat | k < |commands|
      ensures ReloadPaired(commands + [e], k)
    {
      assert ReloadPaired(commands, k);
    }
  }

  lemma SetUriAndReload(commands: seq<Issued>, set1: Issued, reload: Issued)
    requires ReloadsFollowSetUri(commands)
    requires set1.kind.SetUriCmd? && set1.ok && reload.kind.ReloadCmd?
    ensures ReloadsFollowSetUri(commands + [set1] + [reload])
  {
    forall k: nat | k < |commands|
      ensures ReloadPaired(commands + [set1] + [reload], k)
    {
      assert ReloadPaired(commands, k);
    }
  }

  lemma StepKeepsReloads(m: Mirror, c: Config, op: Op)
    requires ReloadsFollowSetUri(m.commands)
    ensures ReloadsFollowSetUri(Step(m, c, op).commands)
  {
    match op
    case Poll(status, metadata, now) =>
      var asked := UpdateStatus(m, c, status);
      OneMoreCommand(m.commands, Issued(StatusCmd, c.commands.status, status.Some?));
      OneMoreCommand(asked.commands, Issued(NowPlayingCmd, "jax.nowplaying", metadata.Some?));
    case DjCommand(intent, payload, firstOk, secondOk) =>
      var next := Step(m, c, op);
      if |next.commands| == |m.commands| + 1 {
        OneMoreCommand(m.commands, next.commands[|m.commands|]);
      } else if |next.commands| == |m.commands| + 2 {
        SetUriAndReload(m.commands, next.commands[|m.commands|], next.commands[|m.commands| + 1]);
      }
  }

  lemma {:induction false} ReloadOnlyAfterSetUri(m: Mirror, c: Config, ops: seq<Op>)
    requires ReloadsFollowSetUri(m.commands)
    ensures ReloadsFollowSetUri(Run(m, c, ops).commands)
    decreases |ops|
  {
    if ops != [] {
      StepKeepsReloads(m, c, ops[0]);
      ReloadOnlyAfterSetUri(Step(m, c, ops[0]), c, ops[1..]);
    }
  }

  /** Sanitizing drops exactly CR, LF and NUL, and keeps the order of everything else. */
  lemma CleanIsFilter(a: string, b: string)
    ensures Clean(a + b) == Clean(a) + Clean(b)
    ensures forall c: char :: Clean([c]) == if c == '\r' || c == '\n' || c == '\0' then "" else [c]
    ensures '\r' !in Clean(a) && '\n' !in Clean(a) && '\0' !in Clean(a)
    ensures ('\r' !in a && '\n' !in a && '\0' !in a) <==> Clean(a) == a
    ensures (forall c :: c in a ==> c == '\r' || c == '\n' || c == '\0') <==> Clean(a) == ""
  {
    CleanOfConcat(a, b);
    CleanKeeps(a);
    forall c: char ensures Clean([c]) == if Forbidden(c) then "" else [c] {
      assert [c][1..] == "";
    }
  }

  lemma {:induction false} CleanOfConcat(a: string, b: string)
    ensures Clean(a + b) == Clean(a) + Clean(b)
  {
    if a == "" {
      assert a + b == b;
    } else {
      assert (a + b)[1..] == a[1..] + b;
      CleanOfConcat(a[1..], b);
    }
  }

  lemma {:induction false} CleanKeeps(a: string)
    ensures forall c :: c in Clean(a) ==> c in a && !Forbidden(c)
    ensures (forall c :: c in a ==> !Forbidden(c)) <==> Clean(a) == a
    ensures (forall c :: c in a ==> Forbidden(c)) <==> Clean(a) == ""
    ensures |Clean(a)| <= |a|
  {
    if a != "" {
      CleanKeeps(a[1..]);
      assert a == [a[0]] + a[1..];
      assert forall c :: c in a <==> c == a[0] || c in a[1..];
    }
  }

  /** One turn of the sanitizing loop. */
  lemma CleanFirst(arg: string, i: nat, result: string)
    requires i < |arg|
    ensures result + Clean(arg[i..])
         == (if Forbidden(arg[i]) then result else result + [arg[i]]) + Clean(arg[i + 1..])
  {
    assert arg[i..][1..] == arg[i + 1..];
    var rest := Clean(arg[i + 1..]);
    hide Clean;
    assert "" + rest == rest;
    Regrouped(result, [arg[i]], rest);
  }

  predicate SafeCommands(c: Commands) {
    OneLine(c.status) && OneLine(c.setUri) && OneLine(c.reload) && OneLine(c.pushAudio) && OneLine(c.skip)
  }

  ghost predicate AllOneLine(commands: seq<Issued>) {
    forall k :: 0 <= k < |commands| ==> OneLine(commands[k].line)
  }

  lemma ArgumentIsOneLine(data: Json, key: string, prefix: string)
    requires OneLine(prefix) && Argument(data, key).Some?
    ensures OneLine(prefix + " " + Argument(data, key).value)
  {
    CleanKeeps(data.fields[key].text);
  }

  lemma StepIsOneLine(m: Mirror, c: Config, op: Op)
    requires SafeCommands(c.commands) && AllOneLine(m.commands)
    ensures AllOneLine(Step(m, c, op).commands)
  {
    match op
    case Poll(status, metadata, now) =>
      assert OneLine("jax.nowplaying");
      assert AllOneLine(UpdateStatus(m, c, status).commands);
    case DjCommand(intent, payload, _, _) =>
      var data := if Has(payload, "payload") then payload.fields["payload"] else payload;
      if intent == c.intents.setPlaylist {
        if Argument(data, "uri").Some? { ArgumentIsOneLine(data, "uri", c.commands.setUri); }
      } else if intent == c.intents.pushAudio {
        if Argument(data, "path").Some? { ArgumentIsOneLine(data, "path", c.commands.pushAudio); }
      }
  }

  /** Whatever the payloads contain, no command that is issued can end its own line. */
  lemma {:induction false} EveryCommandIsOneLine(m: Mirror, c: Config, ops: seq<Op>)
    requires SafeCommands(c.commands) && AllOneLine(m.commands)
    ensures AllOneLine(Run(m, c, ops).commands)
    decreases |ops|
  {
    if ops != [] {
      StepIsOneLine(m, c, ops[0]);
      EveryCommandIsOneLine(Step(m, c, ops[0]), c, ops[1..]);
    }
  }

  /** The commands of a run of the manager, handed to the transport in their order, arrive at the other
      end of the wire as the same lines, however often the transport fails and reconnects. */
  lemma CommandsArriveIntact(c: Config, ops: seq<Op>, l: Transport.Link, calls: seq<Transport.Call>, cap: int)
    requires SafeCommands(c.commands)
    requires var m := Run(START, c, ops);
             |calls| <= |m.commands| && forall k :: 0 <= k < |calls| ==> calls[k].command == m.commands[k].line
    ensures var dones := Transport.Run(l, calls, cap);
            CompleteLines(Transport.Wire(Transport.Trace(dones))) == Transport.Commands(calls, dones)
  {
    EveryCommandIsOneLine(START, c, ops);
    Transport.CommandFraming(l, calls, cap);
  }

  // ---------------------------------------------------------------- the object

  /** The state manager. Its histories are ghost: they are what the event bus and the transport saw. */
  class StateManager {
    const config: Config
    var status: string
    var track: TrackInfo
    var volume: int
    ghost var published: seq<GlobalState>
    ghost var commands: seq<Issued>

    ghost function View(): Mirror
      reads this
    {
      Mirror(GlobalState(status, track, volume), published, commands)
    }

    constructor (config: Config)
      ensures this.config == config && View() == START
    {
      this.config := config;
      status, track, volume := INITIAL_STATE.status, INITIAL_STATE.track, INITIAL_STATE.volume;
      published, commands := [], [];
    }

    method BroadcastState()
      modifies this`published
      ensures View() == Broadcast(old(View()))
    {
      published := published + [GlobalState(status, track, volume)];
    }

    method Execute(kind: Kind, line: string, ok: bool)
      modifies this`commands
      ensures View() == Issue(old(View()), kind, line, ok)
    {
      commands := commands + [Issued(kind, line, ok)];
    }

    method SanitizeTelnetArg(arg: string) returns (clean: Option<string>)
      ensures clean == if Clean(arg) == "" then None else Some(Clean(arg))
    {
      var result := "";
      for i := 0 to |arg|
        invariant result + Clean(arg[i..]) == Clean(arg)
      {
        CleanFirst(arg, i, result);
        if !Forbidden(arg[i]) {
          result := result + [arg[i]];
        }
      }
      assert arg[|arg|..] == "" && result + "" == result;
      return if result == "" then None else Some(result);
    }

    method RefreshStatus(reply: Option<string>)
      modifies this
      ensures View() == UpdateStatus(old(View()), config, reply)
    {
      Execute(StatusCmd, config.commands.status, reply.Some?);
      if reply.None? {
        if status != "error" {
          status := "error";
          BroadcastState();
        }
        return;
      }
      var newStatus := if StatusReply.IsPlaying(reply.value) then "playing" else "stopped";
      if newStatus != status {
        status := newStatus;
        BroadcastState();
      }
    }

    /** Returns early where a member cannot be read: that is where the exception leaves the function. */
    method RefreshMetadata(metadata: Option<Json>, now: int)
      modifies this
      ensures View() == UpdateMetadata(old(View()), config, metadata, now)
    {
      Execute(NowPlayingCmd, "jax.nowplaying", metadata.Some?);
      if metadata.None? { return; }
      var meta := metadata.value;
      if !meta.JObject? { return; }
      var title := TextMember(meta, "title", "Unknown");
      if title.None? { return; }
      if title.value != track.title {
        track := track.(title := title.value);
        var artist := TextMember(meta, "artist", "Unknown");
        if artist.None? { return; }
        track := track.(artist := artist.value);
        var playlist := TextMember(meta, "playlist", "default");
        if playlist.None? { return; }
        track := track.(playlist := playlist.value);
        var duration := NumberMember(meta, "duration", 0.0);
        if duration.None? { return; }
        track := track.(duration := duration.value);
        track := track.(startTime := config.format(now));
        track := track.(endTime := config.format(EndOf(now, track.duration)));
        BroadcastState();
      }
    }

    method PollOnce(reply: Option<string>, metadata: Option<Json>, now: int)
      modifies this
      ensures View() == Step(old(View()), config, Poll(reply, metadata, now))
    {
      RefreshStatus(reply);
      RefreshMetadata(metadata, now);
    }

    method HandleDjCommand(intent: string, payload: Json, firstOk: bool, secondOk: bool)
      modifies this
      ensures View() == Step(old(View()), config, DjCommand(intent, payload, firstOk, secondOk))
    {
      var data := if Has(payload, "payload") then payload.fields["payload"] else payload;
      if intent == config.intents.setPlaylist {
        if !Has(data, "uri") || !data.fields["uri"].JString? { return; }
        var uri := SanitizeTelnetArg(data.fields["uri"].text);
        if uri.None? { return; }
        Execute(SetUriCmd, config.commands.setUri + " " + uri.value, firstOk);
        if !firstOk { return; }
        Execute(ReloadCmd, config.commands.reload, secondOk);
      } else if intent == config.intents.pushAudio {
        if !Has(data, "path") || !data.fields["path"].JString? { return; }
        var path := SanitizeTelnetArg(data.fields["path"].text);
        if path.None? { return; }
        Execute(PushCmd, config.commands.pushAudio + " " + path.value, firstOk);
      } else if intent == config.intents.skip {
        Execute(SkipCmd, config.commands.skip, firstOk);
      } else if intent == config.intents.statusRequest {
        BroadcastState();
      }
    }
  }
}
