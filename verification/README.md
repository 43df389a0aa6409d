# Smooth Operator: a verified model of its gateway logic

Smooth Operator is a gateway between a Liquidsoap audio stream and an AMQP message bus. It polls Liquidsoap
over a telnet or Unix socket, mirrors what it learns, publishes every change, and turns the commands of a DJ
into Liquidsoap commands. This project models that logic, and the part of the bundled AMQP client library
that it runs on, and proves what they promise.

| file | what it models |
|---|---|
| `LiquidsoapTransport.dfy` | the request/response transport: dialling, backoff, the receive loop, errors and reconnects |
| `MetadataQuery.dfy` | the now-playing query from the wire to the parsed track |
| `NowPlaying.dfy`, `StatusReply.dfy` | the two reply parsers |
| `StateMirror.dfy` | the state manager: the mirror, its publications, and the commands of a DJ |
| `PublisherConfirms.dfy`, `ConfirmLaws.dfy` | publisher confirms with callbacks that publish and destroy while they run, and what each operation on them comes to |
| `Monitors.dfy` | monitors and watchables, by which the library notices that an object died in a callback |
| `HeartbeatTimer.dfy` | the libev wrapper: one timer for connecting and for heartbeats, and its handler |
| `Bytes.dfy`, `Flags.dfy`, `MessageProperties.dfy` | the codec of message properties and envelopes |
| `MessageBody.dfy` | reassembly of a body from frames, with and without copying |
| `Address.dfy` | the AMQP address: parser and printer |
| `Text.dfy`, `Sequences.dfy`, `Numbers.dfy`, `Wrappers.dfy` | shared helpers: searching in texts, splitting lines, concatenation, options and results |

Where the source changes state step by step, there is a class or a method with a loop that is proved equal to
a step function (its `ensures` ties the new state to that function of the old one). The laws are then proved
about the step functions, for every run of them. Time is a number, the outside world (what a `recv` returns,
whether a `send` works, what a callback does) is an argument, and what the outside world sees is a history.

## What turned out to be different from what one would expect

* The backoff is computed but nothing ever waits for it: `apply_backoff_delay` only records the attempt.
* The comment in `libev.h` says that a silent peer is disconnected with the third heartbeat. That is so exactly
  for even timeouts: `SilentPeer` and `TwoHeartbeatsIffEven` give the number of heartbeats for all of them.
* `Message::append` is documented to say whether the message is complete. When the whole body arrives in one
  frame and is not copied, it says no, unless the body is empty: `BorrowedBody`. An empty frame after such a frame
  makes the message forget its body: `Reassembly` gives the exact condition.
* Messages that could not be sent share key zero in the map of handlers, and a multiple ack of any tag confirms
  that entry: `FailedPublishIsConfirmed`. A message that the callbacks of a multiple confirm fail to publish is
  dropped instead, without any report: `FateOfFailedPublishes`.
* The map of handlers owns the deferred objects. A nack callback that destroys the channel frees the object that
  calls it, which is then asked for its lost callback: `FreedObjectIsUsed` and `WhenAConfirmUsesAFreedObject` give
  the exact conditions. Acks and errors are free of this; after an error, the error callback still runs if the lost
  callback destroyed the channel.
* If a member of the now-playing object has the wrong type, the state manager keeps a track that is updated in
  part and was not published: `PollBreaksOff` says exactly when. The parser never gives such an object:
  `ParsedMetadataIsSound`.
* A now-playing line that ends in `END` can be taken for the end of its own reply: `FramedLine`.
* A title with a bar comes back only if a third field follows it: `TwoFields` against `ThreeFields`.
* `is_playing_response` clears a reply that is a bare `END`. It need not: `BareEndSaysNothing`.
* An address without a login, or with one of two ambiguous vhosts, does not survive being printed and parsed:
  `AddressRoundTrip`.
* Chunks that start with a NUL byte make no progress, and do not count against the size limit: `ReceiveIsBounded`
  gives the bound with them, and `StillWaiting` says exactly when the loop waits for more.
* A parameter without an equals sign in front of one that has it makes the address constructor throw:
  `RejectedOptions`.

## Model

| member | source | states |
|---|---|---|
| `LiquidsoapTransport.FragmentationIndependence` | src/drivers/liquidsoap_driver.cpp:84-105 | a text comes back whole from every way of cutting it into receives, if and only if it has no NUL byte, its terminator is at its end only and it is at most one byte over the limit |
| `LiquidsoapTransport.ReceiveIsBounded` | src/drivers/liquidsoap_driver.cpp:81-103 | whatever arrives, the loop makes at most one receive more than the limit has bytes, plus one for each chunk that starts with a NUL byte; on more input than that it settles; and it returns at most the limit plus 4095 bytes |
| `LiquidsoapTransport.NoProgress` | src/drivers/liquidsoap_driver.cpp:98-99 | the chunks that do not make the response longer are exactly those that start with a NUL byte |
| `LiquidsoapTransport.StillWaiting` | src/drivers/liquidsoap_driver.cpp:87-103 | exactly when the loop still waits for more: after every receive so far it was open, and what was heard was neither terminated nor over the limit |
| `LiquidsoapTransport.LeadingNulsNeverSettle` | src/drivers/liquidsoap_driver.cpp:87-103 | any number of chunks that start with a NUL byte, whatever follows it in them, leave the loop waiting for the next one |
| `LiquidsoapTransport.ReplyPairing` | src/drivers/liquidsoap_driver.cpp:74-106 | over every run against a server that answers every line on a connection in order, every call that returns a text returns the answer to its own command, whatever the fragmentation, errors and reconnects before it |
| `LiquidsoapTransport.ReceivePaired` | src/drivers/liquidsoap_driver.cpp:84-103 | a receive loop that has part of its reply returns exactly that reply and leaves nothing of it unread |
| `LiquidsoapTransport.ReceiveGives` | src/drivers/liquidsoap_driver.cpp:87-105 | the outcome of the receive loop, exactly, told by the chunks alone: the reply, the size error, the closed connection or the wait that settles at one of them |
| `LiquidsoapTransport.ExecuteGives` | src/drivers/liquidsoap_driver.cpp:169-202 | a call that has a connection and could send gives exactly what its chunks settle on, and keeps the descriptor unless it fails |
| `LiquidsoapTransport.ExecuteReturns` | src/drivers/liquidsoap_driver.cpp:169-202 | if a descriptor is held or the server can be reached, the command could be sent, and the chunks carry a well-formed reply within the limit, then the call returns that reply and keeps its connection |
| `LiquidsoapTransport.ExecuteFails` | src/drivers/liquidsoap_driver.cpp:170-177 | any other call fails, with the error of the connect, or with an I/O error if it could not send, and holds nothing |
| `LiquidsoapTransport.CallsReturn` | src/drivers/liquidsoap_driver.cpp:169-202 | the same for every call of every run: each starts from where the calls before it left the driver, and only a call that still waits keeps later ones from being made |
| `LiquidsoapTransport.DescriptorConservation` | src/drivers/liquidsoap_driver.cpp:22-65 | over every run, the descriptors that were opened and not shut are exactly the one the driver holds, nothing is shut twice or used after it was shut, and a call fails exactly when it leaves the driver with none |
| `LiquidsoapTransport.BackoffClosedForm` | src/drivers/liquidsoap_driver.cpp:22-56 | over every run, the backoff is min(100 * 2^k, cap), where k counts the attempts since the last success that were made when it had elapsed |
| `LiquidsoapTransport.FirstThatAccepts` | src/drivers/liquidsoap_driver.cpp:49-64 | dialling connects to the first address that accepts, fails exactly if none does, and tried every address before it |
| `LiquidsoapTransport.ConnectSucceeds` | src/drivers/liquidsoap_driver.cpp:34-64 | a connect succeeds if and only if a descriptor is held already, or the host resolved and an address accepts, or the path is shorter than 108 and the socket accepts; the descriptor is that of the first to accept |
| `LiquidsoapTransport.ConnectFails` | src/drivers/liquidsoap_driver.cpp:138-156 | the error of every connect that fails |
| `LiquidsoapTransport.AttemptIsRecorded` | src/drivers/liquidsoap_driver.cpp:122-131 | every attempt records its clock; success starts the backoff over, and any other attempt doubles it up to the cap if it had elapsed |
| `LiquidsoapTransport.CommandFraming` | src/drivers/liquidsoap_driver.cpp:74-82 | over every run, what was sent splits at its line endings into exactly the commands that were issued, in order |
| `LiquidsoapTransport.ExecuteWire` | src/drivers/liquidsoap_driver.cpp:74-82 | one call puts its own command line on the wire, or nothing if it fails before sending |
| `LiquidsoapTransport.LiquidsoapDriver.Connect` | src/drivers/liquidsoap_driver.cpp:133-160 | does what the step function says: no attempt while connected, otherwise the backoff and one attempt per address |
| `LiquidsoapTransport.LiquidsoapDriver.ApplyBackoffDelay` | src/drivers/liquidsoap_driver.cpp:122-131 | doubles the backoff up to the cap if it had elapsed, and records the attempt |
| `LiquidsoapTransport.LiquidsoapDriver.Disconnect` | src/drivers/liquidsoap_driver.cpp:162-167 | shuts the descriptor once and forgets it; does nothing without one |
| `LiquidsoapTransport.LiquidsoapDriver.ReceiveReply` | src/drivers/liquidsoap_driver.cpp:179-201 | the loop returns the outcome of the step function, records what it heard, and drops the connection exactly when it fails |
| `LiquidsoapTransport.LiquidsoapDriver.Execute` | src/drivers/liquidsoap_driver.cpp:169-202 | link, outcome and system calls are those of the step function, from any valid state |
| `MetadataQuery.FramedLine` | src/drivers/liquidsoap_driver.cpp:100-112 | a line closed by an END line comes back whole from every fragmentation, if and only if it has no NUL byte and does not end in END, and the reply is not too long |
| `MetadataQuery.QueryRoundTrip` | src/drivers/liquidsoap_driver.cpp:108-112 | artist, title and duration written by the server are what the query returns, for every fragmentation of the reply |
| `MetadataQuery.QueryReturns` | src/drivers/liquidsoap_driver.cpp:108-112 | the same for the whole query, with a connection held or made |
| `MetadataQuery.QueryErrors` | src/drivers/liquidsoap_driver.cpp:110 | the query gives an error exactly if its call fails, and the same one |
| `MetadataQuery.GetMetadata` | src/drivers/liquidsoap_driver.cpp:204-208 | issues the now-playing command and gives its error, or what the parser makes of its reply |
| `NowPlaying.NowPlayingRoundTrip` | include/smoothoperator/nowplaying_parser.hpp:28-58 | after any blank lines, with either line ending or none, and with anything behind it, artist, title (bars allowed) and duration are read back |
| `NowPlaying.ThreeFields` | include/smoothoperator/nowplaying_parser.hpp:36-50 | artist and title of a line of three fields come back if and only if the artist is not empty and has no bar, the title is not empty and the duration has no bar |
| `NowPlaying.TwoFields` | include/smoothoperator/nowplaying_parser.hpp:36-50 | with two fields, if and only if moreover the title has no bar; the duration is then zero |
| `NowPlaying.MissingFields` | include/smoothoperator/nowplaying_parser.hpp:36-56 | every line with bars, in plain words: an empty artist or title is "Unknown", the playlist is "default", and the duration is that of the third field |
| `NowPlaying.BareLineIsTitle` | include/smoothoperator/nowplaying_parser.hpp:36-38 | a line without bars is the title of an unknown artist |
| `NowPlaying.AlwaysWellTyped` | include/smoothoperator/nowplaying_parser.hpp:53-56 | whatever the reply, the names are not empty, the playlist is the default one and the duration is not negative |
| `NowPlaying.LineIsFound` | include/smoothoperator/nowplaying_parser.hpp:32-35 | the first line that is neither blank nor END is the one that is used, without its carriage return |
| `NowPlaying.NothingIsFound` | include/smoothoperator/nowplaying_parser.hpp:32-56 | END behind blank lines, or nothing behind them, gives the default track, whatever follows |
| `NowPlaying.ParseDuration` | include/smoothoperator/nowplaying_parser.hpp:14-24 | the duration is the number if the whole text is read as a finite number that is not negative, and never negative |
| `NowPlaying.ReadFields` | include/smoothoperator/nowplaying_parser.hpp:36-56 | filling in the members one by one gives the fields of the line and the defaults |
| `NowPlaying.ParseNowPlaying` | include/smoothoperator/nowplaying_parser.hpp:28-58 | the loop over the lines gives the parsed track of every text |
| `StatusReply.OnlyTheBodyCounts` | include/smoothoperator/state_manager.hpp:15-26 | the answer depends only on what stands in front of the first END line |
| `StatusReply.FramingDoesNotMatter` | include/smoothoperator/state_manager.hpp:15-26 | padding around the word and anything behind the END line do not change the answer, nor does a missing frame |
| `StatusReply.BareEndSaysNothing` | include/smoothoperator/state_manager.hpp:19 | a reply of nothing but END would be judged as not playing even if it were not cleared |
| `StatusReply.TrimFindsTheWord` | include/smoothoperator/state_manager.hpp:20-24 | trimming finds the word in any padding |
| `StateMirror.ChangeOnlyHistory` | src/core/state_manager.cpp:33-106 | over every run, published and observed statuses agree once adjacent repeats are removed, and so do the titles; the number of publications is status changes plus title changes plus status requests |
| `StateMirror.MirrorAgreement` | src/core/state_manager.cpp:39-106 | over every run, the last publication is the current state, the status is the last one observed, and the track is the first observation of the current run of equal titles |
| `StateMirror.StatusIsShown` | src/core/state_manager.cpp:39-56 | a status poll issues the configured command; the status is "error" if and only if there is no reply, "playing" if and only if the text in front of the first END line says so, and "stopped" otherwise; it is published exactly if it is new |
| `StateMirror.WordIsShown` | src/core/state_manager.cpp:49-55 | a word with padding, framed or not, is shown as what the word says |
| `StateMirror.LastPollShows` | src/core/state_manager.cpp:33-56 | over every run, the status is what the last poll showed |
| `StateMirror.TrackIsShown` | src/core/state_manager.cpp:58-106 | a metadata poll issues its command; with a new title the members are taken over, each with its default, up to the first one that cannot be read, with the start and the end of the track, and the state is published if all of them can |
| `StateMirror.IntentIssues` | src/core/state_manager.cpp:108-155 | the exact commands that each intent issues, with the payload wrapped or not, and that no intent changes the state |
| `StateMirror.RunKeepsFaithful` | src/core/state_manager.cpp:33-155 | every operation keeps the invariant that ties the state and the publications to everything observed so far |
| `StateMirror.HalfUpdatedTrack` | src/core/state_manager.cpp:72-78 | a metadata update leaves the last publication (the initial state, if there is none) behind the state if and only if it sees a new title in an object of which another member cannot be read |
| `StateMirror.PollBreaksOff` | src/core/state_manager.cpp:33-106 | the same for a whole poll, whatever the status reply |
| `StateMirror.ParsedMetadataIsSound` | include/smoothoperator/nowplaying_parser.hpp:53-57 | what the parser gives has members of the right types, is observed as it was parsed, and is never the title of the initial state |
| `StateMirror.NearestInteger` | src/core/state_manager.cpp:92 | the end of a track is rounded to the nearest millisecond, halves away from zero |
| `StateMirror.ReloadOnlyAfterSetUri` | src/core/state_manager.cpp:116-130 | over every run, the reloads are exactly the commands that directly follow a successful set-uri |
| `StateMirror.CleanIsFilter` | src/core/state_manager.cpp:10-20 | sanitizing drops exactly CR, LF and NUL, keeps everything else in order, and leaves nothing of exactly the texts that have nothing else |
| `StateMirror.EveryCommandIsOneLine` | src/core/state_manager.cpp:108-155 | whatever the payloads contain, no command that is issued can end its own line |
| `StateMirror.CommandsArriveIntact` | src/core/state_manager.cpp:121-148 | the commands of any run, handed to the transport, arrive at the other end of the wire as the same lines, however often it fails and reconnects |
| `StateMirror.StateManager.BroadcastState` | src/core/state_manager.cpp:157-159 | publishes the whole current state once |
| `StateMirror.StateManager.SanitizeTelnetArg` | src/core/state_manager.cpp:10-20 | the filtering loop gives the sanitized argument, or refuses it if nothing is left |
| `StateMirror.StateManager.RefreshStatus` | src/core/state_manager.cpp:39-56 | state, publications and commands after a status poll, also when the command fails |
| `StateMirror.StateManager.RefreshMetadata` | src/core/state_manager.cpp:58-106 | state, publications and commands after a metadata poll, also where an exception leaves it in the middle |
| `StateMirror.StateManager.PollOnce` | src/core/state_manager.cpp:33-37 | a poll is the poll step |
| `StateMirror.StateManager.HandleDjCommand` | src/core/state_manager.cpp:108-155 | state, publications and commands after an intent, for every payload and every failure |
| `PublisherConfirms.ConfirmedExactlyOnce` | tmp_install/include/amqpcpp/reliable.h:54-194 | over every run with callbacks that publish and destroy, a sent message is reported at most once, and while the object lives it was reported zero times exactly while its tag is outstanding |
| `PublisherConfirms.CallbacksRunAtMostOnce` | tmp_install/include/amqpcpp/deferredpublish.h:47-79 | over every run, each callback of a sent message runs at most once, and the ack callback never together with a nack, lost or error callback |
| `PublisherConfirms.StepConserves` | tmp_install/include/amqpcpp/reliable.h:54-194 | every operation keeps that invariant |
| `ConfirmLaws.StepTells` | tmp_install/include/amqpcpp/reliable.h:54-194 | what every operation reports and calls, exactly: an ack acks, a nack nacks and an error fails the messages it names, in ascending order and up to the end of the channel |
| `ConfirmLaws.OperationsKeepTheirVoice` | tmp_install/include/amqpcpp/reliable.h:54-194 | at every step of every run from the start: acks report acks and run ack callbacks only, nacks and errors run none, and each is about exactly the messages it names |
| `PublisherConfirms.CallbacksAreDelivered` | tmp_install/include/amqpcpp/deferredpublish.h:47-79 | over every run, the callbacks that ran for a reported message are exactly those that were given with it and that its verdict asks for, once each |
| `PublisherConfirms.UnreportedIsSilent` | tmp_install/include/amqpcpp/deferredpublish.h:47-79 | over every run, a message that was not reported has had no callback |
| `PublisherConfirms.PublishStores` | tmp_install/include/amqpcpp/reliable.h:257-270 | a publish stores the callbacks it was given, under the next tag or under zero, and changes nothing else |
| `ConfirmLaws.SentIsOutstandingPlusAnswered` | tmp_install/include/amqpcpp/reliable.h:228-271 | over every run that leaves the object alive, the messages sent are the outstanding ones plus the answered ones |
| `PublisherConfirms.MultipleIsManySingles` | tmp_install/include/amqpcpp/reliable.h:80-98 | for a tag that was given out, also with a failed publish pending, a multiple confirm has the outcomes, their ascending order, the callbacks, the end and, apart from key zero, the remaining map of one single confirm for each outstanding tag; what its callbacks publish under a tag is neither confirmed nor erased |
| `ConfirmLaws.FateOfFailedPublishes` | tmp_install/include/amqpcpp/reliable.h:84-97 | a multiple confirm reports the failed publish that was pending, and none of its own callbacks: it erases one unreported if and only if one of the callbacks it executes fails to publish; single confirms keep one if and only if a callback of a tag other than zero fails to publish |
| `PublisherConfirms.SingleTellsItsOwn` | tmp_install/include/amqpcpp/reliable.h:61-78 | a single confirm reports its own tag and no other, and erases nothing else |
| `PublisherConfirms.ErrorTellsAll` | tmp_install/include/amqpcpp/reliable.h:169-194 | an error reports every outstanding message in ascending order, only what its callbacks publish is left, and it never uses a freed object |
| `ConfirmLaws.ErrorKeepsNewFailures` | tmp_install/include/amqpcpp/reliable.h:175-187 | after an error a failed publish is pending if and only if one of the error's own callbacks fails to publish |
| `ConfirmLaws.FailedPublishIsConfirmed` | tmp_install/include/amqpcpp/reliable.h:81-98 | a multiple confirm reports key zero once more, if and only if a failed publish is pending |
| `ConfirmLaws.OnlyGivenTagsAreSafe` | tmp_install/include/amqpcpp/reliable.h:84-97 | with something outstanding, a multiple confirm neither confirms nor erases what its callbacks publish, whatever the callbacks are, if and only if its tag was given out |
| `PublisherConfirms.HookFrame` | tmp_install/include/amqpcpp/reliable.h:257-270 | what a callback does depends on the next tag only, reports nothing, sends exactly the messages in front of a destruction, under the next tags, and fills key zero if it fails to publish |
| `PublisherConfirms.VerdictChoosesCallbacks` | tmp_install/include/amqpcpp/deferredpublish.h:47-79 | which callbacks are invoked, in their order: an ack never loses the message; the error callback runs even after a lost callback that destroyed the channel; after a nack callback, the lost callback runs unless the object was freed |
| `PublisherConfirms.FreedObjectIsUsed` | tmp_install/include/amqpcpp/deferredpublish.h:56-63 | a report uses an object that was freed, if and only if it is a nack whose nack callback destroys the channel, or fails to publish while the object is under key zero |
| `ConfirmLaws.WhenAConfirmUsesAFreedObject` | tmp_install/include/amqpcpp/reliable.h:138-156 | a multiple confirm does so, if and only if it comes to such an object before any callback has destroyed the channel |
| `ConfirmLaws.OnlyNacksUseFreedObjects` | tmp_install/include/amqpcpp/reliable.h:54-194 | no operation but a nack ever does |
| `PublisherConfirms.OutstandingIsAscending` | tmp_install/include/amqpcpp/reliable.h:84-87 | the sweep meets exactly the tags of its range, in ascending order |
| `PublisherConfirms.Reliable.Unacknowledged` | tmp_install/include/amqpcpp/reliable.h:228 | the number of outstanding tags, and one more if messages that could not be sent are pending |
| `PublisherConfirms.Reliable.Publish` | tmp_install/include/amqpcpp/reliable.h:257-271 | the new entry is stored under the next tag, or under zero if sending failed |
| `PublisherConfirms.Reliable.Send` | tmp_install/include/amqpcpp/tagger.h:45-49 | the tag counter: the tag handed out, or zero |
| `PublisherConfirms.Reliable.Tell` | tmp_install/include/amqpcpp/deferredpublish.h:47-79 | reporting runs the callbacks of the verdict on the live object |
| `PublisherConfirms.Reliable.OnAck` | tmp_install/include/amqpcpp/reliable.h:54-105 | the object after an ack, single or multiple, is the one of the step function, also when a callback destroys it |
| `PublisherConfirms.Reliable.OnNack` | tmp_install/include/amqpcpp/reliable.h:112-163 | the same for a nack, up to the point where a freed object would be used |
| `PublisherConfirms.Reliable.ReportError` | tmp_install/include/amqpcpp/reliable.h:169-194 | the same for a channel error |
| `Monitors.ValidMeansAlive` | tmp_install/include/amqpcpp/monitor.h:119-122 | after every history of makings, copies, assignments and destructions, a monitor is valid exactly if the object it was last made to watch is alive, and the vectors hold exactly the monitors that point to their owners |
| `Monitors.StepKeepsConsistent` | tmp_install/include/amqpcpp/monitor.h:54-95 | every operation, also an assignment of a monitor to itself, keeps every vector free of repeats and equal to the set of monitors that point to its owner |
| `Monitors.WithoutRemoves` | tmp_install/include/amqpcpp/watchable.h:57-64 | removing from the vector removes the one monitor and nothing else |
| `Monitors.WithoutKeepsOrder` | tmp_install/include/amqpcpp/watchable.h:57-64 | and keeps the order of the others |
| `Monitors.Watchable.Add` | tmp_install/include/amqpcpp/watchable.h:47-51 | appends one monitor |
| `Monitors.Watchable.Remove` | tmp_install/include/amqpcpp/watchable.h:57-64 | leaves the vector without that monitor |
| `Monitors.Watchable.Destroy` | tmp_install/include/amqpcpp/watchable.h:66-70 | invalidates exactly the monitors of the vector |
| `Monitors.Monitor.constructor` | tmp_install/include/amqpcpp/monitor.h:54-58 | all links among the live objects after a monitor is made |
| `Monitors.Monitor.Copy` | tmp_install/include/amqpcpp/monitor.h:64-68 | the same after a copy, also of an invalid monitor |
| `Monitors.Monitor.Assign` | tmp_install/include/amqpcpp/monitor.h:74-86 | the same after an assignment, also to itself |
| `Monitors.Monitor.Destroy` | tmp_install/include/amqpcpp/monitor.h:91-95 | the same after a destruction |
| `HeartbeatTimer.LoopStaysBalanced` | tmp_install/include/amqpcpp/libev.h:225-353 | in every interleaving the loop is unreferenced once exactly while the wrapper is timed, and not at all once it is destroyed |
| `HeartbeatTimer.NegotiatingNeedsARunningTimer` | tmp_install/include/amqpcpp/libev.h:360-390 | negotiating keeps that balance if and only if the timer is running or heartbeats are refused |
| `HeartbeatTimer.NoEarlyClose` | tmp_install/include/amqpcpp/libev.h:243-265 | once heartbeats are negotiated, the connection is closed only if nothing was read for one and a half timeouts; before, only if it was never initialized and its deadline has passed |
| `HeartbeatTimer.ExpirationDecides` | tmp_install/include/amqpcpp/libev.h:234-284 | over every legal run, what an expiration does: it closes if and only if no heartbeats are negotiated and the connection is not initialized, or they are and nothing was read for one and a half timeouts; otherwise it sends a heartbeat if and only if the last one is an interval ago |
| `HeartbeatTimer.SetupTimesOut` | tmp_install/include/amqpcpp/libev.h:243-256 | with a punctual loop, a connection that negotiates no heartbeats and is never initialized is closed exactly sixty seconds after its wrapper was made |
| `HeartbeatTimer.TimelyClose` | tmp_install/include/amqpcpp/libev.h:257-265 | with a punctual loop, the time never passes one and a half timeouts after the last read without a close, and a close happens exactly then |
| `HeartbeatTimer.ArmedInTheFuture` | tmp_install/include/amqpcpp/libev.h:276-283 | the timer is always set to a point strictly in the future, which is the earlier of the next heartbeat and the expiry |
| `HeartbeatTimer.HeartbeatsKeepTheirDistance` | tmp_install/include/amqpcpp/libev.h:266-274 | heartbeats are never closer than half the timeout, however late the loop runs |
| `HeartbeatTimer.IntervalIsHalf` | tmp_install/include/amqpcpp/libev.h:273 | the interval is half the timeout in whole seconds, but at least one |
| `HeartbeatTimer.HeartbeatsOnSchedule` | tmp_install/include/amqpcpp/libev.h:266-283 | with a punctual loop and any traffic, the n-th heartbeat goes out exactly n intervals after the negotiation |
| `HeartbeatTimer.SilentPeer` | tmp_install/include/amqpcpp/libev.h:257-283 | from every history: a peer that is silent after the negotiation gets a stated number of heartbeats, and the connection is closed on one and a half timeouts after it |
| `HeartbeatTimer.TwoHeartbeatsIffEven` | tmp_install/include/amqpcpp/libev.h:293-295 | the heartbeats that were sent when a silent peer is closed on are two, as the comment intends, if and only if the timeout is even |
| `HeartbeatTimer.Wrapper.constructor` | tmp_install/include/amqpcpp/libev.h:309-330 | the timer runs for the connect timeout, and the loop is unreferenced once |
| `HeartbeatTimer.Wrapper.Expire` | tmp_install/include/amqpcpp/libev.h:234-284 | timer, effect on the connection and loop references after an expiration |
| `HeartbeatTimer.Wrapper.Activate` | tmp_install/include/amqpcpp/libev.h:291-299 | reading moves the expiry, once heartbeats are negotiated |
| `HeartbeatTimer.Wrapper.StartHeartbeats` | tmp_install/include/amqpcpp/libev.h:360-390 | the timer after a negotiation, and the accepted timeout |
| `HeartbeatTimer.Wrapper.Stop` | tmp_install/include/amqpcpp/libev.h:343-353 | the destructor stops the timer and restores the reference, if it is timed |
| `HeartbeatTimer.HandlerKeepsLoopBalanced` | tmp_install/include/amqpcpp/libev.h:461-512 | over every run of a handler each connection has one wrapper, the loop is unreferenced once for each running timer, and detached wrappers leave nothing behind |
| `HeartbeatTimer.WatchingIsAMap` | tmp_install/include/amqpcpp/libev.h:408-435 | the list of watchers behaves as a map from descriptors to flags, in which flags zero mean absence |
| `HeartbeatTimer.DetachRemoves` | tmp_install/include/amqpcpp/libev.h:506-512 | detaching removes the wrapper of that connection and no other |
| `HeartbeatTimer.ServeActsOnItsOwn` | tmp_install/include/amqpcpp/libev.h:461-512 | every request acts on the wrapper of its own connection, made on demand with sixty seconds to connect, and on no other |
| `Bytes.NumberRoundTrip` | tmp_install/include/amqpcpp/outbuffer.h:84-117 | a number that fits is read back from its octets in network byte order |
| `Bytes.NetworkOrder` | tmp_install/include/amqpcpp/outbuffer.h:84-117 | the octets are the digits of the number to the base 256, the highest first |
| `Bytes.OctetsRoundTrip` | tmp_install/include/amqpcpp/outbuffer.h:84-117 | and the octets from the number, so that the writing is the only one |
| `Bytes.OutBuffer.AddNumber` | tmp_install/include/amqpcpp/outbuffer.h:84-117 | appends the number in network byte order |
| `Flags.GetAfterSet` | tmp_install/include/amqpcpp/booleanset.h:119-149 | setting one flag sets that flag and no other |
| `Flags.OctetRoundTrip` | tmp_install/include/amqpcpp/booleanset.h:70-73 | the flag octet survives the wire |
| `MessageProperties.ChangesKeepClean` | tmp_install/include/amqpcpp/metadata.h:170-340 | after any sequence of setters, removers and copies, a cleared flag implies a default field |
| `MessageProperties.ApplyKeepsClean` | tmp_install/include/amqpcpp/metadata.h:214-340 | every change keeps that, and changes the presence and the value of its own property only |
| `MessageProperties.PersistenceIsSet` | tmp_install/include/amqpcpp/metadata.h:318-340 | switching persistence on or off makes persistent() say so, by the delivery mode two, and touches no other property |
| `MessageProperties.FieldsDescend` | tmp_install/include/amqpcpp/metadata.h:381-394 | the fields are written from the high flag bits to the low ones, as section 4.2.6.1 of AMQP 0-9-1 requires |
| `MessageProperties.FieldWidths` | tmp_install/include/amqpcpp/metadata.h:49-127 | what each field takes on the wire, by its type, and that an empty field is all zeros |
| `MessageProperties.ValueRoundTrip` | tmp_install/include/amqpcpp/stringfield.h:79-86 | every field value is read back, with exactly what follows it, and has the size that is declared for it |
| `MessageProperties.LongTextIsMisread` | tmp_install/include/amqpcpp/stringfield.h:257-267 | a short string of more than 255 octets is never read back: its length octet wraps around |
| `MessageProperties.MetaDataRoundTrip` | tmp_install/include/amqpcpp/metadata.h:140-159 | the metadata is read back, with exactly what follows it, if and only if every absent property has its default and no short string is too long |
| `MessageProperties.BuiltMetaDataRoundTrip` | tmp_install/include/amqpcpp/metadata.h:134-395 | metadata that was built by any changes of a fresh object is read back if and only if no short string is too long |
| `MessageProperties.SizeIsWritten` | tmp_install/include/amqpcpp/metadata.h:346-368 | the size, summed in another order than the fields are written in, is the number of octets written, as a 32-bit number |
| `MessageProperties.EnvelopeRoundTrip` | tmp_install/include/amqpcpp/envelope.h:76-138 | an envelope is read back, with exactly what follows it, if and only if its metadata is |
| `MessageProperties.EnvelopeSizeIsWritten` | tmp_install/include/amqpcpp/envelope.h:118-122 | the size of an envelope is the number of octets written, if and only if its metadata takes fewer than 2^32 |
| `MessageProperties.StreamRoundTrip` | tmp_install/include/amqpcpp/envelope.h:76-138 | any concatenation of envelopes decodes to the original list |
| `MessageProperties.Header.SetField` | tmp_install/include/amqpcpp/metadata.h:214-227 | the metadata after a setter |
| `MessageProperties.Header.RemoveField` | tmp_install/include/amqpcpp/metadata.h:279-292 | the metadata after a remover |
| `MessageProperties.Header.MakePersistent` | tmp_install/include/amqpcpp/metadata.h:327-340 | the metadata after the delivery mode is switched |
| `MessageProperties.Header.Assign` | tmp_install/include/amqpcpp/metadata.h:170-189 | all fields and flags are copied |
| `MessageProperties.Header.FillBuffer` | tmp_install/include/amqpcpp/metadata.h:374-395 | appends the flag octets and the present fields, in order |
| `MessageProperties.Header.ReadBuffer` | tmp_install/include/amqpcpp/metadata.h:140-159 | reads the flags and the present fields, and consumes exactly those |
| `MessageBody.Reassembly` | tmp_install/include/amqpcpp/message.h:95-130 | a body that is cut into frames is put together again, whatever the allocated memory holds, if and only if no empty frame follows a frame with the whole body |
| `MessageBody.CopiedBody` | tmp_install/include/amqpcpp/message.h:98-125 | on the copying path the filled part is what has arrived, surplus octets are dropped, and the result is true exactly when the body is complete |
| `MessageBody.BorrowedBody` | tmp_install/include/amqpcpp/message.h:109-129 | a body in one frame is there at once, but the result is true only if it is empty |
| `MessageBody.EmptyFrameForgets` | tmp_install/include/amqpcpp/message.h:115-129 | frames after a frame with the whole body leave nothing but what the allocated memory held |
| `MessageBody.Message.SetBodySize` | tmp_install/include/amqpcpp/message.h:78-87 | stores the size, or refuses one that does not fit the platform |
| `MessageBody.Message.AppendFrame` | tmp_install/include/amqpcpp/message.h:95-130 | body, filled part and result after one frame, in place; the frame is not changed |
| `Address.AddressRoundTrip` | tmp_install/include/amqpcpp/address.h:99-431 | what is printed parses to an equal address, if and only if the components avoid their delimiters, there is a login, and the vhost is not the one that the options make ambiguous; then even the case of the hostname is kept |
| `Address.OptionsAreParsed` | tmp_install/include/amqpcpp/address.h:149-167 | every printed list of options is parsed back into the whole map |
| `Address.ParsedIsDelimited` | tmp_install/include/amqpcpp/address.h:99-189 | whatever the text, a parsed address has components that avoid their delimiters, a sorted map of options and a port of 16 bits |
| `Address.BareHost` | tmp_install/include/amqpcpp/address.h:99-189 | a host alone is parsed as a guest at the port of its scheme and the vhost "/"; with a user in front of it, as that user without a password |
| `Address.LoginIsCut` | tmp_install/include/amqpcpp/address.h:125-132 | the user data is cut at its first colon, and without one there is no password |
| `Address.PortOfHost` | tmp_install/include/amqpcpp/address.h:172-188 | the port is sixteen bits of the number behind the colon, and without a colon 5671 or 5672 |
| `Address.NumberIsRead` | tmp_install/include/amqpcpp/address.h:182 | white space and a sign in front of the number are taken, and what follows it is ignored |
| `Address.WithoutSlash` | tmp_install/include/amqpcpp/address.h:139-146 | without a slash the options are looked for in the whole rest, which is also the host |
| `Address.PlainParameters` | tmp_install/include/amqpcpp/address.h:154-166 | parameters without an equals sign are ignored |
| `Address.SchemeIsNeeded` | tmp_install/include/amqpcpp/address.h:104-108 | the scheme is the reason for a refusal if and only if it is neither of the two |
| `Address.DefaultsAreNotPrinted` | tmp_install/include/amqpcpp/address.h:400-407 | the default port and the vhost "/" are not printed |
| `Address.RejectedOptions` | tmp_install/include/amqpcpp/address.h:149-167 | the option texts that are rejected are exactly those in which a parameter without an equals sign comes before one that has it |
| `Address.UnsetLoginIsLost` | tmp_install/include/amqpcpp/address.h:394-395 | an address that has no login never comes back, even if its components avoid their delimiters |
| `Address.InsertKeepsOptions` | tmp_install/include/amqpcpp/address.h:80 | assigning an option keeps the map sorted without regard to case, and adds at most its own key |
| `Address.EquivalentKeys` | tmp_install/include/amqpcpp/address.h:34-43 | two keys are the same to the map of options exactly if they differ in case only |
| `Address.InsertThenFind` | tmp_install/include/amqpcpp/address.h:160 | assigning an option changes the value of that option, whatever the case of its key, and of no other |
| `Address.PortIsRead` | tmp_install/include/amqpcpp/address.h:182 | a printed port is read back |
| `Address.ParseAddress` | tmp_install/include/amqpcpp/address.h:99-189 | the moving positions of the constructor give the parsed address, or the error, of every text |
| `Address.ReadOptions` | tmp_install/include/amqpcpp/address.h:149-167 | the loop over the parameters ends and gives the options of every text |
| `Address.PrintAddress` | tmp_install/include/amqpcpp/address.h:389-431 | the loop over the options writes the printed address |

## Left out

- Sockets, DNS and partial sends: a `send` sends a whole line or fails, a `recv` gives 1 to 4095 bytes or fails, and both are arguments.
- The headers liquidsoap_driver.hpp and config.hpp are not part of this model: the maximal backoff, the initial backoff and the configured commands are parameters, and the maximal backoff is at least 100.
- A call in progress is never interrupted: the outcome `Blocked` stands for a call that still waits in `recv`.
- NUL bytes inside addresses and hostnames, for which the source mixes counted and terminated strings; bytes above 127 in `strcasecmp` and in white space; an `atoi` that overflows.
- `std::stod`, floating point rounding and `llround` overflow: the conversion is an abstract partial function and durations are real numbers.
- Parsing and dumping JSON, and formatting points in time: a JSON value is a datatype, and the format is a function from points in time to texts.
- The mutex of the state manager: its public operations are the steps of a run.
- Exceptions of metadata polls: where a member has another type, the method returns early, in the state that the exception leaves behind. Whoever catches the exception is not modelled.
- The bodies of `Tagger` and `Throttle`, which are not in the repository: a publish gives the next tag or zero, and their `onAck`, `onNack` and `reportError` do nothing to the handlers.
- Callbacks that raise a channel error or confirm synchronously, that register other callbacks on a deferred object while it reports, or that read its failed flag; callbacks are lists of publishes and destructions.
- What happens once a freed object was used: the channel is then `Undefined`, and the model stops. Deferred objects are values with an identity, and are alive while the map, or the map that an error moved out, holds that identity.
- The callable of a callback that frees its own deferred object is destroyed while it runs; that it may run to its end is taken for granted.
- Overflow of delivery tags beyond 64 bits.
- The body of `~Watchable`, which is not in the repository: it is taken to invalidate every monitor in its vector.
- Reuse of memory: a new watchable is not one that a monitor still remembers.
- Priorities of watchers, and what `process`, `heartbeat` and `close` of a connection do, in particular if they call back into the wrapper; a timer that fires late is modelled, an overflow of its clock is not.
- The other event loops (boost, libevent, libuv), TLS, and the remaining frames of the protocol.
- The fourteen fields of `MetaData` are one map and its fourteen conditional statements one loop over the list of properties; the setters for texts in their various C++ forms are one.
- The codec of field tables: a table is an uninterpreted run of octets behind its length. Floating point fields and signed numbers.
- The body of `InBuffer`, which is not in the repository: it reads in network byte order and fails where the octets end.
- Sizes of envelopes beyond 64 bits.
- `Address::operator<` and the conversion of an address to a string: the printer is `operator<<`.
- Loading the configuration, the message bus driver, `main` with its signals and retries, and logging.
