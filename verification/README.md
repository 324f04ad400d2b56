# rodrev in Dafny

rodrev asks a fleet of puppet nodes questions over an MQTT broker. `rvd` runs on every node and
answers; `rv` sends requests and folds whatever comes back into an outcome; the broker's retained
messages say who exists. This project models the parts of it where correctness is about whole
runs, about interleavings, or about two pieces of code agreeing, and proves what they promise.
`dafny verify dfyconfig.toml` checks all of it.

| module | what it models |
|---|---|
| `Text` | string functions of the Go library the rest leans on, with their laws |
| `CallIds` | how random bytes become a call id |
| `Wire` | requests, replies, `callID`, `newReply`; the codecs are a parameter |
| `Multiplexer` | one session as a state machine: any number of calls, the router, close, drain |
| `Sessions` | the `Session` object with its own state, tied to a reachable state of that machine |
| `Engine`, `Daemon` | result coercion, and the daemon's decision what to answer |
| `Outcomes` | the folds of `FilterMatch`, `Query` and `PuppetStatusStream` |
| `Fleet` | calls, router, daemons and folds together; the two evaluation strategies compared |
| `Settling` | runs in which every node's answer gets to its call and the call returns |
| `Presence`, `PresenceRuns` | the heartbeat cache, a cleanup pass, and a pass racing its followers |
| `Watcher` | the live view of the fleet, and its agreement with the cleanup rule |
| `PuppetRun` | one puppet run at a time |
| `Facts` | the evaluator's and the REPL's fact walkers |
| `Scanners`, `Completion` | the completer |
| `FactCalls` | fact calls as written in a query, and how the completer reads them |
| `MetaLines` | what is offered for meta commands, their arguments and symbols, said over the line |

The state machines (`Multiplexer`, `PresenceRuns`, `PuppetRun`) have a `Step` datatype, an
`Enabled`/`Next` pair and an `Exec` over step sequences. A theorem about them is about every step
sequence that can be executed. The router's lookup and its hand-over are separate steps, since the
lock is released in between, and so are a cleanup's publish and its forget.

The main results:

* `Fleet.ReturnedOutcomesAgree`: what a `FilterMatch` and a `Query` of the same expression return,
  each with an answer of every node through at some point before, on one session or two, at the same time or
  one after the other, sorts the fleet into the same three sets, if and only if the expression is
  not empty and no node fails without an error text. It rests on `Multiplexer.NothingLost`,
  `Fleet.OwnAnswersOnly`, `Outcomes.TallyIsFirstWord` and `Wire.CallIDRoundTrip`.
  `Settling.BothCanReturn` gives such runs for every fleet. The counts Eval reports are the numbers of
  nodes the expression is true of and broken on.
* `Multiplexer.ConservationHolds`, `RoutingHolds`, `OverflowHolds`, `LifecycleHolds` and
  `CloseIsFinal`: where every arrived reply is, who may see it, what is dropped and what `Close`
  leaves behind, in every interleaving. `Sessions.Session.Route` gives the queues the router leaves.
* `PresenceRuns.CacheHolds`, `QuietCache` and `RemovesWhatItJudged`: what the heartbeat cache is at
  every point of every interleaving of two followers, a cleanup and the broker, and exactly when a
  pass removes what it judged.
* `Scanners.EnclosingParen` and `StringStartMeaning`: the completer's scanners against definitions
  that do not scan.
* `Completion.CompleteKeepsText`, `SuffixesRebuildLine` and `EveryClassIsReachable`: completion
  never changes typed text, loses no candidate and reaches every class. `FactCalls.CallParsesBack`
  and `FactCompletionResolves`: exactly which written fact calls the completer reads as written,
  and that below those it offers exactly the names there, each of which both fact walkers resolve.

## Where the code falls short of its promise

In each case the model does what the code does, and the exact condition is proved.

* `traverseHash` checks an index with `iarg+1 > len(v)`. For 9223372036854775807 the sum wraps and
  the slice access panics; `factPath` does not (`Facts.TraverseHash`, `Facts.LastIntCrashes`).
* `completeMeta` takes `fields[0]` of the text after the colon. A line with a colon, then blanks,
  and nothing else panics, and no other line does (`Completion.PanicsOnBareColon`).
* An empty expression is an error on every node for `Query` and a match on every node for
  `FilterMatch` (`Fleet.EmptyExpressionDiffers`). `Query` also takes an error with an empty text for
  "did not match"; the only text that could be empty is that of a failed node meta conversion, and
  whether the interpreter ever fails that way is open (`Fleet.SilentErrors`,
  `Fleet.MuteNodeDiffers`). Nothing else sets the strategies apart (`Fleet.VerdictsAgree`).
* `Coverage.Answered` is documented as the number of nodes that replied. It counts replies that
  decode: the two are equal exactly if as many counted replies are repeats as nodes sent nothing
  that decodes (`Outcomes.CoverageCountsReplies`, `Outcomes.UndecodableIsNobody`).
* A broadcast arrives as root and `puppet`. Under a root of two or more levels that ends in `puppet`
  itself, `addressedToMe` takes it for a request to a node of that name: a fleet-wide run is started
  by nobody (`Daemon.BroadcastAddressed`, `Daemon.UnheededRun`).
* `enclosingCall` splits a call at blanks and does not skip literals. It reads a call of plain
  arguments as written exactly if no argument has a blank and the parens in them match
  (`FactCalls.CallParsesBack`); after `(fact "my fact" ` it completes below `my`, `fact`
  (`FactCalls.BlankMisleads`). A completed name is closed where it ends exactly if it has no
  unescaped quote and does not end in an escape (`FactCalls.ClosedIsLiteral`).
* The error returns of `run` leave the status flags set. With no run in progress they are clear
  exactly if the last run got to its end (`PuppetRun.IdleFlags`, `PuppetRun.PipeErrorLeavesFlags`).
* A cleanup judges its snapshot and removes what is retained by the time it publishes. The two are
  the same exactly if what was on its way on the topic when the pass began, and what was announced
  on it since, leaves the payload as it was (`PresenceRuns.RemovesWhatItJudged`); a run from the
  start in which a fresh heartbeat is wiped is `PresenceRuns.LateHeartbeatIsWiped`. The forget that
  follows leaves the cache right exactly if the broker has nothing on the topic or a message on it
  is on its way (`PresenceRuns.ForgetIsHarmless`, `PresenceRuns.LateForgetDropsHeartbeat`).
* With an empty event root `relativeTopic` leaves the leading slash on, and where the node puts root
  and slash in front, as subscribing does, no cleanup removes anything
  (`PresenceRuns.EmptyRootRemovesNothing`).
* `staleAge` multiplies without a check. It covers three intervals exactly up to a third of the
  largest duration; past that the product wraps and the node is stale before one interval is over
  (`Watcher.StaleAgeCoversInterval`). `Watcher.MinimumStaleAge` names the intervals that get the
  minimum of 15 minutes, the first one past the third among them.

## Model

| member | source | states |
|---|---|---|
| `CallIds.TitleRoundTrip` | common/runtime.go:107-116 | the bytes can be read back from a title for every byte string: neither trimming the padding nor replacing '+' and '/' in the alphabet of section 4 of RFC 4648 loses anything |
| `CallIds.TitleInjective` | common/runtime.go:113-116 | two byte strings of any lengths have the same title exactly if they are equal |
| `CallIds.TitleIsTopicFriendly` | common/runtime.go:112-116 | a title is one topic level: no '/', '+', '#' or '='; it is empty exactly for no bytes |
| `CallIds.UpperTitles` | common/runtime.go:107-116 | the first quarter of the base 64 alphabet, by the titles of known bytes |
| `CallIds.MixedTitles` | common/runtime.go:107-116 | the second quarter |
| `CallIds.LowerTitles` | common/runtime.go:107-116 | the third quarter |
| `CallIds.DigitTitles` | common/runtime.go:107-116 | the last quarter, '+' and '/' in their replaced form |
| `CallIds.KnownTails` | common/runtime.go:113-116 | titles of one and two known bytes: zero bits filled up, padding gone |
| `Wire.CallIDRoundTrip` | client/session.go:193-204 | the id, and with it the random bytes, is recovered from the header alone or, without one, from the last segment of the reply topic under any event root |
| `Wire.NewReplyMeaning` | client/session.go:206-229 | the sender is the header's fqdn or else the node name; a reply is an error, or a no-match, exactly by its type; an error's text is the decoded message if there is one, and never empty |
| `Wire.RefusalTexts` | plugin/puppet/server.go:84-149 | the texts of the refusals a daemon sends |
| `Text.SplitJoin` | client/session.go:200 | joining what Split gives with the separator is the text again |
| `Text.SplitPieces` | plugin/puppet/server.go:49 | no piece has the separator in it |
| `Text.LeqMeaning` | query/repl/data.go:51 | strings are ordered by prefix, or by the smaller character where they first differ |
| `Text.AtoiSigned` | query/functions.go:59 | a sign in front of digits counts, and what does not fit 64 bits is not read |
| `Multiplexer.ConservationHolds` | client/session.go:87-105 | in every reachable state every event taken off the channel is in exactly one of: some call's seen or queued replies, the router's hand, dropped as unknown, dropped as full, drained; every event not taken is in none |
| `Multiplexer.RoutingHolds` | client/session.go:87-105 | in every reachable state each buffer holds at most 512 replies, each call has replies with its own id only, in arrival order and none twice, what the router holds included; nothing is registered once closed |
| `Multiplexer.OverflowHolds` | client/session.go:99-103 | a reply is dropped for a full buffer only if more than 512 replies carried its id |
| `Multiplexer.IdsAreTitles` | client/session.go:116 | in every run the k-th registered call goes under the title of the k-th blob drawn |
| `Multiplexer.FreshIds` | client/session.go:116-124 | random blobs that never repeat give calls with distinct ids in every run |
| `Multiplexer.RegisterLifecycle` | client/session.go:118-124 | a registration keeps the calls map equal to the calls in progress exactly if no call in progress has its id |
| `Multiplexer.LifecycleHolds` | client/session.go:118-158 | in every run with fresh ids the calls map is, while open, exactly the calls in progress with their own sinks, over refused, unsent, stopped and expired calls alike; once closed it is empty |
| `Multiplexer.CloseIsFinal` | client/session.go:173-188 | whatever runs after a close, the session stays closed and empty, no call is added, and at most one reply, the one already looked up, reaches any sink |
| `Multiplexer.OrderlyHolds` | client/session.go:90-97 | if only solicited replies arrive and ids are fresh, no reply is turned away as unknown while its call is there and the session open |
| `Multiplexer.NothingLost` | client/session.go:87-158 | under the same conditions every reply to an open call is with the call, in the router's hand, still in the channel, or was dropped for a full buffer |
| `Multiplexer.NothingDropped` | client/session.go:16-19 | and none of them was dropped as long as no more than 512 carry its id |
| `Sessions.Session.constructor` | client/session.go:70-83 | a new session is open, with no call and nothing in flight |
| `Sessions.Session.Register` | client/session.go:116-124 | exactly a closed session turns a call away, unchanged; otherwise the call has a new, empty sink of its own, found under an id its random bytes can be read back from |
| `Sessions.Session.Dispatch` | client/session.go:131-146 | whatever comes back with the request's header, or without one on its reply topic under any root, carries the id of the call; nothing but the call's standing changes |
| `Sessions.Session.Await` | client/session.go:149-153 | what onReply gets is the oldest queued reply and carries the id of this very call, in every reachable session |
| `Sessions.Session.HandOver` | client/session.go:98-103 | the reply in the router's hand is for the call whose sink it holds, gone or not, and only that sink changes, if it has room |
| `Sessions.Session.RouteOne` | client/session.go:88-104 | undisturbed, a reply reaches the one call registered under its id if that has room, and no other sink changes |
| `Sessions.Session.Route` | client/session.go:85-105 | left alone, the router gets through everything that arrived without waiting, and every registered call then has, after what it had, exactly the replies with its id in order of arrival, up to 512 |
| `Sessions.Session.Shut` | client/session.go:173-188 | closing empties the map, leaves sinks and channel alone, and does nothing the second time |
| `Sessions.Session.DrainAll` | client/session.go:183-187 | draining empties the channel and no call sees any of it |
| `Sessions.RegisterTied` | client/session.go:117-124 | a new sink at the end and the map entry are the machine's Register step on what the object holds |
| `Sessions.ConsumeTied` | client/session.go:149 | taking the head of a real queue is the machine's Consume step on positions |
| `Sessions.EnqueueTied` | client/session.go:99-103 | the bounded send on a real queue is the machine's Enqueue step on positions |
| `Engine.ParseBoolMeaning` | query/query.go:109-151 | a filter holds exactly for true, a non-empty string or a positive int, fails to hold exactly for other values of those types, and is an error exactly for anything else or a failed evaluation |
| `Engine.ResultMeaning` | query/query.go:109-139 | the result record by the evaluated value: truth, whether it can be a filter, the type's name, the display |
| `Daemon.FactSubset` | plugin/puppet/server.go:282-294 | the loop gives the requested subset of the facts |
| `Daemon.SubsetMeaning` | plugin/puppet/server.go:282-294 | that subset is the only map with exactly the requested facts that exist, or all of them when none are requested, each with its value |
| `Daemon.FactDump` | plugin/puppet/server.go:179-200 | a node asked by name, or by a filter that names nobody else, answers a facts request with exactly those of its facts |
| `Daemon.ClassDump` | plugin/puppet/server.go:133-145 | and a classes request with its classes, sorted, none lost or added |
| `Daemon.OtherAnswers` | plugin/puppet/server.go:103-152 | status carries the node's summary, fact the one fact or nil, an unknown command is refused, and parameters that do not decode get no answer |
| `Daemon.RunAnswer` | plugin/puppet/server.go:118-119 | a run that is started is answered with what the run lock said |
| `Daemon.QueryReplyCarries` | plugin/puppet/server.go:158-177 | the whole answer to a query by what it evaluates to: verdict, error text by the place it failed, type and display |
| `Daemon.FilterGate` | plugin/puppet/server.go:78-101 | a filter that fails is reported, one that does not hold is answered exactly if the request asks for that, and nothing else is done |
| `Daemon.EventAnswered` | plugin/puppet/server.go:37-69 | nothing is sent exactly for a request that does not decode, has no reply topic or too short a path, or whose command has nothing to say; what is sent carries the request's id and the node's settled fqdn |
| `Daemon.UnicastPath` | plugin/puppet/server.go:245-260 | a request sent to puppet/<target> under any event root ends in puppet and the target |
| `Daemon.BroadcastAddressed` | plugin/puppet/server.go:262-280 | a broadcast is taken to be for a node if and only if its root does not end in puppet or is nothing but that, or the node is itself named puppet |
| `Daemon.UnicastReachesOne` | plugin/puppet/server.go:103-145 | an unfiltered facts, classes or run request for a target is acted on and answered by the node of that name; any other is silent and does nothing |
| `Daemon.FilteredUnicast` | plugin/puppet/server.go:73-145 | with a filter a node dumps or runs exactly if it is the target and matches |
| `Daemon.UnicastActors` | plugin/puppet/server.go:214-234 | over a fleet with distinct names at most one node acts, and one does exactly if the target is in the fleet and passes the filter |
| `Daemon.BroadcastDecision` | plugin/puppet/server.go:103-145 | under every root, on a node the filter lets through, a run is started exactly where the broadcast is heeded and met with silence elsewhere; a dump is sent if there was a filter and refused without one |
| `Daemon.UnheededRun` | plugin/puppet/server.go:270-279 | under any longer root that ends in puppet a fleet-wide run is started by no node of any fleet, unless one is named puppet |
| `Daemon.SitePuppetIsUnheeded` | plugin/puppet/server.go:270-279 | site/puppet is such a root |
| `Outcomes.FilterSightingMeaning` | client/query.go:58-68 | FilterMatch takes a reply for an error with that text, a no-match or a match exactly by its type |
| `Outcomes.QuerySightingMeaning` | client/query.go:211-235 | Query takes an error or undecodable reply for an error of its sender, and otherwise goes by the decoded answer, its fqdn, error, match and value |
| `Outcomes.TallyIsFirstWord` | client/query.go:53-70 | under any order, duplication or loss a class holds exactly the nodes whose first reply says so, errors with that very text |
| `Outcomes.ValueIsFirst` | client/query.go:233-235 | a node's value is the one its first reply brought if that is not empty, and there is none otherwise |
| `Outcomes.TallyPartition` | client/query.go:208-240 | the three classes are duplicate-free, pairwise disjoint and together hold exactly the named nodes seen; onNode fires once for each |
| `Outcomes.AnsweredCountsNodes` | client/query.go:30-33 | Answered() is the number of distinct non-empty fqdns seen |
| `Outcomes.FilterCollector.OnReply` | client/query.go:53-70 | the callback keeps its slices, maps and seen set equal to the tally of everything heard, and asks for more |
| `Outcomes.FilterMatch` | client/query.go:41-72 | over any list of replies the outcome is the tally of what they say, and onNode fires for each match, in order |
| `Outcomes.QueryCollector.OnReply` | client/query.go:210-240 | the callback keeps its state equal to the tally of everything heard, values and undecodable replies included, and what it passed to onNode equal to the first replies |
| `Outcomes.QueryFleet` | client/query.go:200-242 | over any list of replies the outcome is the tally of what they say, and onNode fires once for each node in order of first answer, with that answer |
| `Outcomes.ToldFirstReplies` | client/query.go:221-238 | a reply is passed to onNode exactly if it is the first about its node, as it arrived or was made up for an error |
| `Outcomes.StatusStream` | client/query.go:101-134 | the loop gives the summaries and the coverage of the replies |
| `Outcomes.SummaryIsLastWord` | client/query.go:121-126 | the status map holds for a node exactly the last summary of it that decoded, however its other replies came |
| `Outcomes.CoverageCountsReplies` | client/query.go:92-93 | the coverage counts decoded replies; it is the number of nodes that replied at all exactly if as many counted replies are repeats as nodes sent nothing that decodes; with everything decoded, exactly if nobody answered twice |
| `Outcomes.CoverageByKind` | client/query.go:111-127 | each counter is the number of replies of its kind |
| `Outcomes.UndecodableIsNobody` | client/query.go:121-125 | replies that do not decode count for nobody, however many nodes sent them |
| `Outcomes.SummariesAreMatches` | client/query.go:126-127 | there are never more summaries than counted matches |
| `Fleet.FilterAnswer` | plugin/puppet/server.go:78-108 | through daemon, wire and newReply, with or without the correlation header, a filtered status request comes back as that node's verdict |
| `Fleet.QueryAnswer` | plugin/puppet/server.go:158-177 | the same for the query command, with the display of what is neither true nor false as its value |
| `Fleet.EveryNodeAnswers` | plugin/puppet/server.go:89-99 | neither an answer-always status request nor a query leaves any node silent |
| `Fleet.VerdictMeaning` | query/query.go:109-151 | for a non-empty expression both strategies' verdicts are said in terms of the evaluated value, coercions and error texts worked out |
| `Fleet.VerdictsAgree` | plugin/puppet/server.go:160-175 | a node gets the same kind of verdict from both strategies exactly if the expression is not empty and the node does not fail with an empty text |
| `Fleet.SilentErrors` | query/query.go:82-105 | the only empty error text is that of a node meta conversion error that says nothing |
| `Fleet.EmptyExpressionDiffers` | plugin/puppet/server.go:158-163 | on an empty expression every node matches for FilterMatch and fails for Query |
| `Fleet.MuteNodeDiffers` | client/query.go:225-232 | a node that failed with an empty text, should the interpreter ever do so, would be an error for FilterMatch and unmatched for Query |
| `Fleet.StrategiesAgree` | client/query.go:41-72 | with every node's reply delivered, in any order and with repeats, FilterMatch and Query give the same matched, unmatched and erroring nodes if and only if every node is comparable |
| `Fleet.SummariesAgree` | query/repl/eval_cluster.go:53-108 | then the counts do not depend on the strategy Eval picked, and everybody responded |
| `Fleet.FilterCounts` | query/repl/eval_cluster.go:96-101 | with everybody's answer the filter strategy reports as matched the number of nodes the expression is true of, as errors the number it is broken on, and everybody as responded |
| `Fleet.QueryCounts` | query/repl/eval_cluster.go:69-74 | and so does the query strategy, except that nodes failing without a word are no errors |
| `Fleet.EmptyCounts` | query/repl/eval_cluster.go:53-58 | with no expression one strategy reports everybody as matched, the other as an error |
| `Fleet.SilentMeaning` | query/repl/eval_cluster.go:103-105 | Silent is reported exactly if the expression is false on no node |
| `Fleet.HonestIsOrderly` | common/runtime.go:55-65 | replies sent by daemons are solicited, whether or not the correlation header was copied |
| `Fleet.OwnAnswersOnly` | client/session.go:107-158 | in every interleaving a call only ever gets fleet answers to its own request, the reply looked up and not yet queued included |
| `Fleet.FilterMatchIsTruthful` | client/query.go:35-72 | in every run whoever FilterMatch lists in a class is a fleet node that evaluated the expression that way |
| `Fleet.QueryIsTruthful` | client/query.go:197-242 | the same for Query |
| `Fleet.SettledIsFullyAnswered` | client/session.go:147-157 | when an answer of every node got through to a waiting call of an open session, whatever else is in flight for it or for other calls, the call has a full answer |
| `Fleet.ExpiredIsOver` | client/session.go:154-155 | from its deadline on, until after its return and whatever else runs, nothing changes what a call was handed |
| `Fleet.RunGoesOn` | client/session.go:147-157 | what a call was handed stays handed to it for the rest of any run, and its request stays the same |
| `Fleet.ReturnedIsFullyAnswered` | client/session.go:110-158 | what a call returns that had an answer of every node through at any point before, repeats in flight and a close since then included, rests on a full answer to its request |
| `Fleet.ReturnedOutcomesAgree` | query/repl/eval_cluster.go:53-108 | a FilterMatch and a Query of one expression, each with an answer of every node through at some point before it returned, on one session or two, return the same three sets if and only if every node is comparable; their counts are the numbers of nodes the expression is true of and broken on |
| `Settling.ServeOne` | client/session.go:87-157 | on a session with any other calls, from any point where a call has everything so far, one more node's answer can arrive, be routed and be consumed, and the call has that too |
| `Settling.AskAndReturn` | client/session.go:107-158 | on any idle session, for every fleet of any size and every query or answer-always filter, a call can be made, get every node's answer by its deadline and return, leaving the session idle |
| `Settling.BothCanReturn` | query/repl/eval_cluster.go:53-58 | there is a run of one session in which a FilterMatch and then a Query of any expression return with everybody's answer |
| `Presence.RelativeTopicRoundTrip` | daemon/heartbeat-cleanup.go:206-212 | with a non-empty root the node restores the original topic exactly if it is under the root |
| `Presence.HeartbeatCache.constructor` | daemon/heartbeat-cleanup.go:48-50 | a new cache is empty |
| `Presence.HeartbeatCache.Follow` | daemon/heartbeat-cleanup.go:53-66 | following messages makes the cache their last-write-wins view |
| `Presence.HeartbeatCache.Snapshot` | daemon/heartbeat-cleanup.go:68-76 | a snapshot is the cache as it stands |
| `Presence.StaleMeaning` | daemon/heartbeat-cleanup.go:183-204 | presence is stale exactly if there is some and it is under /heartbeat/, does not decode, has no timestamp, or has one older than the cleanup age |
| `Presence.CleanTopic` | daemon/heartbeat-cleanup.go:157-179 | one turn of the loop counts a topic exactly if it is stale, not kept, and a dry run or published; and forgets it exactly if it was published |
| `Presence.RunHeartbeatCleanup` | daemon/heartbeat-cleanup.go:152-181 | for any pattern of publish failures a pass removes exactly the stale topics other than Keep whose publish succeeded, publishes exactly those paths, counts cleared and seen exactly; a dry run changes nothing |
| `Presence.PassRemoves` | daemon/heartbeat-cleanup.go:157-179 | what a pass counts and removes, said over the entries' topics, payloads and timestamps |
| `Presence.DryRunPredicts` | daemon/heartbeat-cleanup.go:166-170 | a dry run counts what a pass clears when every publish succeeds |
| `Presence.SecondPassIsIdle` | daemon/heartbeat-cleanup.go:152-181 | a second pass at the same instant clears nothing, and is still after exactly what could not be published |
| `Presence.KeepIsKept` | daemon/heartbeat-cleanup.go:159-161 | no pass touches the kept topic |
| `Presence.SourceOfPresence` | client/discovery.go:195-207 | the name read out of a daemon's presence topic is the daemon's |
| `PresenceRuns.FiltersDisjoint` | daemon/heartbeat-cleanup.go:17-23 | the two subscriptions share no topic |
| `PresenceRuns.FollowersCommute` | daemon/heartbeat-cleanup.go:111-117 | streams on disjoint topics give the same cache in either order |
| `PresenceRuns.ClearsItself` | daemon/heartbeat-cleanup.go:171-172 | the cleanup message for a followed topic goes to that very topic if there is a root, and to one nobody follows if there is none |
| `PresenceRuns.CachedStep` | daemon/heartbeat-cleanup.go:53-82 | every step keeps the cache the last-write-wins view of the deliveries short of the topics forgotten since |
| `PresenceRuns.CacheHolds` | daemon/heartbeat-cleanup.go:53-82 | with any root, at every point of every interleaving a topic is cached, with its last delivered payload, exactly if it was delivered and not removed or forgotten since; and working off both channels would give a cache that never forgets what the broker retains |
| `PresenceRuns.QuietCache` | daemon/heartbeat-cleanup.go:38-46 | with both channels worked off, the cache is the broker's retained presence short of exactly the topics forgotten after their latest delivery |
| `PresenceRuns.OwnPresenceIsFollowed` | daemon/heartbeat-cleanup.go:145-150 | a daemon's own presence topic is one its cleanup follows |
| `PresenceRuns.OwnPresenceStays` | daemon/heartbeat-cleanup.go:90-91 | in any run, only an announcement on the kept topic changes what is retained there |
| `PresenceRuns.RemovesWhatItJudged` | daemon/heartbeat-cleanup.go:155-177 | over whole runs, what a pass removes from a topic is the payload it judged if and only if the messages on that topic pending when it began and announced since are none or end in that payload |
| `PresenceRuns.PublishRemovesCurrent` | daemon/heartbeat-cleanup.go:162-177 | under a root a publish removes what is retained on its topic by then and nothing else, without one nothing; its topic was judged stale in the snapshot and is not the kept one |
| `PresenceRuns.EmptyRootRemovesNothing` | daemon/heartbeat-cleanup.go:206-212 | with an empty root no publish of any run changes what the broker retains |
| `PresenceRuns.ForgetIsHarmless` | daemon/heartbeat-cleanup.go:172-177 | in every reachable state a forget leaves the cache right about its topic if and only if the broker has nothing on it or a message on it is on its way |
| `PresenceRuns.LateHeartbeatIsWiped` | daemon/heartbeat-cleanup.go:156-172 | a run from the start in which a heartbeat the pass would have let be, announced after its snapshot, is removed |
| `PresenceRuns.LateForgetDropsHeartbeat` | daemon/heartbeat-cleanup.go:172-177 | a run from the start in which a heartbeat delivered between publish and forget leaves the cache, with both channels worked off and the broker retaining it |
| `Watcher.ViewRefinesHistory` | client/watch.go:37-54 | a topic maps to a node exactly if that is its last usable rodrev heartbeat and nothing cleared the topic since |
| `Watcher.HeartbeatMeaning` | client/discovery.go:143-182 | a message is a node's heartbeat exactly if it decodes with a rodrev entry that decodes and names an fqdn, and the node has that entry's fqdn, version and features, the message's timestamp and its service names in order |
| `Watcher.ReadHeartbeat` | client/discovery.go:143-182 | the parsing steps give exactly that, and nothing for any other message |
| `Watcher.NodeWatcher.constructor` | client/watch.go:27-35 | a new watcher has seen nothing |
| `Watcher.NodeWatcher.Run` | client/watch.go:37-54 | the loop keeps the map equal to the view of the whole history |
| `Watcher.NodeWatcher.Discovery` | client/watch.go:77-99 | active and stale hold exactly the fqdns with an active or stale topic, each with a node of that kind some topic holds; a service is listed exactly if some node provides it, with each such node once for every topic that holds it, in order of fqdn |
| `Watcher.DiscoveryCovers` | client/watch.go:75-99 | active and stale fqdns together are the known ones, and are disjoint exactly if no two topics of one fqdn differ in staleness |
| `Watcher.WithFeature` | client/discovery.go:56-69 | the result is sorted, duplicate-free, and exactly the active nodes announcing the feature |
| `Watcher.QueryCapable` | query/repl/eval_cluster.go:110-116 | comparing two lengths decides exactly that some node is active and all active ones announce the query command |
| `Watcher.CapableOverHistory` | client/discovery.go:56-69 | the active nodes all have a feature if the payloads of all active topics announce it, and exactly then where the topics of one node are of one mind |
| `Watcher.NodeWatcher.Capable` | query/repl/eval_cluster.go:113-116 | so the watcher's answer follows from the history of messages alone |
| `Watcher.CleanupSparesActive` | daemon/heartbeat-cleanup.go:183-204 | outside /heartbeat/ no message is removable and its node active at the same instant, if the cleanup age is at least the node's stale age |
| `Watcher.ShortAgeClashes` | client/discovery.go:184-193 | for every shorter cleanup age there is a heartbeat both rules claim |
| `Watcher.DefaultAgeCovers` | daemon/heartbeat-cleanup.go:24 | for every duration as interval: the default cleanup age suffices exactly up to ten days, and where the triple wraps to at most thirty |
| `Watcher.StaleAgeCoversInterval` | client/discovery.go:184-193 | for every duration as interval: the stale age covers three intervals exactly up to a third of the largest duration, and past that is shorter than one |
| `Watcher.MinimumStaleAge` | client/discovery.go:187-193 | for every duration as interval: exactly which ones get the minimum, wrapped ones included |
| `Watcher.HugeIntervalWraps` | client/discovery.go:187-193 | the first interval past the third gets 15 minutes |
| `PuppetRun.InvHolds` | plugin/puppet/run.go:36-135 | in every reachable state the lock is held exactly while a run is in progress, one run at most is; applying implies started implies busy implies scheduled; a slept delay is within 0 and 24 hours and below the capped request when randomised |
| `PuppetRun.OneRunAtATime` | plugin/puppet/run.go:37-53 | any two runs in progress are the same run, and the lock is taken |
| `PuppetRun.BusyIsRefused` | plugin/puppet/run.go:36-41 | a Run call changes nothing exactly while a run is in progress |
| `PuppetRun.RefusedStatus` | plugin/puppet/run.go:37-44 | what a refused caller is told says "scheduled" except between taking the lock and setting the flag after a clean run, and between clearing the flags and releasing the lock |
| `PuppetRun.IdleFlags` | plugin/puppet/run.go:119-135 | with no run in progress the flags are clear exactly if the last run did not leave through an error return |
| `PuppetRun.PipeErrorLeavesFlags` | plugin/puppet/run.go:75-84 | from any reachable state a pipe error leads to an idle state with flags set |
| `PuppetRun.Agent.constructor` | plugin/puppet/run.go:12-23 | one permit, all flags clear, no run |
| `PuppetRun.Agent.Run` | plugin/puppet/run.go:36-50 | a call is turned down exactly while some run is in progress, changes nothing then and gets the flags as they are; otherwise it is the only run, with the scheduled flag set |
| `PuppetRun.Agent.Postpone` | plugin/puppet/run.go:55-68 | the delay slept is within 0 and 24 hours and the request, strictly below both when randomised, and the request or its cap otherwise; busy is set exactly if there is one |
| `PuppetRun.Agent.ReadOutput` | plugin/puppet/run.go:91-104 | applying is set exactly if it was or some line has the prefix; nothing else changes |
| `PuppetRun.Agent.Execute` | plugin/puppet/run.go:52-135 | whichever way run ends, the lock is free and nothing is in progress; the flags are clear exactly if pipes and start worked; the delay slept is bounded as promised |
| `Facts.FactPath` | query/repl/data.go:13-36 | succeeds exactly if the path denotes a value, and returns it |
| `Facts.TraverseHash` | query/functions.go:45-79 | panics exactly if the walk meets a list with index 9223372036854775807; otherwise gives the value the path denotes, nil if none |
| `Facts.LastIntCrashes` | query/functions.go:63-67 | a fact tree and a path on which the walkers part |
| `Facts.FactChildren` | query/repl/data.go:38-61 | the sorted keys of an object, the indexes of a list in order, nothing otherwise |
| `Facts.ChildrenResolve` | query/repl/data.go:38-61 | every child offered extends the path to one both walkers resolve, printed indexes included |
| `Facts.ChildrenComplete` | query/repl/data.go:38-61 | below an object exactly the offered names resolve; below a list whatever resolves reads as an offered index |
| `Scanners.OpenParen` | query/repl/complete.go:198-216 | the backward depth-counter scan finds the top of the stack a forward matching scan leaves, -1 if it is empty |
| `Scanners.EnclosingParen` | query/repl/complete.go:195-219 | that position is the one and only open paren followed by a balanced word |
| `Scanners.StringStart` | query/repl/complete.go:175-193 | the loop runs the quote automaton |
| `Scanners.StringStartMeaning` | query/repl/complete.go:173-193 | the cursor is inside a literal exactly if an odd number of unescaped quotes precedes it, and the literal starts at the last of them |
| `Scanners.PlainKeepsStart` | query/repl/complete.go:178-191 | typing text without quotes and backslashes neither enters nor leaves a literal |
| `Completion.WithPrefix` | query/repl/complete.go:231-239 | the loop filters by prefix, keeping order |
| `Completion.PrefixedMeaning` | query/repl/complete.go:231-239 | a candidate is kept exactly if it is one and has the prefix |
| `Completion.CompleteClass` | query/repl/complete.go:150-171 | the loop gives the sorted, duplicate-free listing of the next segments |
| `Completion.ClassCandidatesMeaning` | query/repl/complete.go:148-171 | a text is offered exactly if it is the next segment of some class with the typed prefix |
| `Completion.CandidateAdvances` | query/repl/complete.go:157-163 | a next segment is longer than what was typed, extends it, and is the class closed with a quote or a part of it |
| `Completion.CandidateMeaning` | query/repl/complete.go:157-163 | it ends with the first :: after what was typed, and is the whole class and a quote exactly if there is none |
| `Completion.SegmentsReachClass` | query/repl/complete.go:148-171 | from any prefix of any class repeated completion ends with that class and its quote |
| `Completion.FindCall` | query/repl/complete.go:195-229 | the loop form of enclosingCall gives the name and unquoted arguments after the enclosing paren |
| `Completion.FindToken` | query/repl/complete.go:130-135 | the backward loop finds where the symbol under the cursor starts |
| `Completion.TokenStartMeaning` | query/repl/complete.go:51-52 | from there on no character ends a symbol, and the one before does |
| `Completion.QueryCandidates` | query/repl/complete.go:117-146 | the loops and calls inside a query compute the specified offer |
| `MetaLines.SymbolOffers` | query/repl/complete.go:130-145 | outside a literal exactly the functions that go on from the symbol at the cursor are offered, and behind a % the node meta keys |
| `MetaLines.ClassOffers` | query/repl/complete.go:125-126 | inside a class literal exactly the next segments of the classes with the typed prefix |
| `MetaLines.OtherCallOffersNothing` | query/repl/complete.go:121-128 | inside a literal of any other call nothing |
| `Completion.MetaCandidates` | query/repl/complete.go:75-114 | the loops and calls behind a colon compute the specified offer, the panic included |
| `MetaLines.CommandOffers` | query/repl/complete.go:78-81 | while a command is typed exactly the commands that go on from it are offered, with a blank |
| `MetaLines.ArgumentOffers` | query/repl/complete.go:82-114 | behind a command, and whatever arguments it already has, exactly the names that go on from the word at the cursor are offered, with a blank: facts for fact, classes for class, formats for out, save, load and the nodes for snapshot; paths for local and behind save and load |
| `MetaLines.UnknownOffersNothing` | query/repl/complete.go:83-86 | behind a command that is not known nothing is |
| `Completion.CompleteLine` | query/repl/complete.go:54-72 | the whole completer computes the specified offer and tail for every line and position |
| `Completion.CompleteKeepsText` | query/repl/complete.go:54-146 | for every line and position head is a prefix of the text left of the cursor, tail is the rest, and head with any candidate not from the filesystem starts with that text |
| `Completion.PanicsOnBareColon` | query/repl/complete.go:76-83 | completing panics if and only if the text left of the cursor is blanks, a colon, blanks |
| `Completion.CompleteRunes` | query/repl/term.go:116-134 | the loop gives the candidates without their typed part, and how much was typed |
| `Completion.SuffixesRebuildLine` | query/repl/term.go:116-134 | for every position on the line no candidate is dropped, and the typed text with a suffix is head with its candidate |
| `FactCalls.CallParsesBack` | query/repl/complete.go:195-229 | behind any text, a written fact call of arguments without quotes and backslashes is read as written if and only if no argument has a blank and the parens in them match |
| `FactCalls.BlankMisleads` | query/repl/complete.go:220-227 | any argument of two words is read as two arguments |
| `FactCalls.CursorInLiteral` | query/repl/complete.go:118-121 | behind any text outside a literal, the next argument begun is the literal the cursor is in |
| `FactCalls.ClosedIsLiteral` | query/repl/complete.go:241-248 | the quote put after a completed name ends the literal right there if and only if the name has no unescaped quote and does not end in an escape |
| `FactCalls.FactCompletionResolves` | query/repl/complete.go:118-125 | below such arguments exactly the names there with the typed prefix are offered; accepting one writes the call with it as next argument, which ends where the name does if and only if the name has no unescaped quote and no trailing escape; both walkers resolve the path meant |
| `Completion.EveryClassIsReachable` | query/repl/complete.go:118-127 | from any typed prefix of a class there is a chain of accepted completions of the line, each longer, that ends with the class closed |

## Left out

- The MQTT transport, the go-zerosvc node and the CBOR, JSON and YAML codecs: messages are steps, decoders are arbitrary functions, assumed right only about bodies encoded for them. A subscription to `discovery/#` also matches the topic `discovery` itself, which the model does not follow. A send that reports failure is taken not to have reached the wire.
- The lisp interpreter, regexp and the 1000-iteration hook: an arbitrary function from a query text to a value or a failure. A node's facts, classes and interpreter stay the same while one request is under way.
- The random generator: `Fresh` assumes that no two calls of a session draw the same 8 bytes; `Multiplexer.RegisterLifecycle` says what happens otherwise. `RngBlob`'s retries are not modelled.
- Deadlines are steps that may come at any point; no scheduler fairness is modelled, so the theorems about runs are about safety, and `Settling` says what can happen.
- `Sessions.Session.Await`: the methods of the object are stretches of code without interference; what may come between them is any other method, as steps of the machine.
- `PuppetRun.Agent.Run`: the status it returns is the one it set; in the source the new goroutine may have set more flags by the time it is read. `PuppetRun.Agent.Execute` runs without interference; the machine has the interleavings.
- `Summary.Known` and `Elapsed`, the sinks of `evalQuery` and `evalFilter`, and the error returned beside an outcome: the fleet view's size, a clock and a callback.
- The log is not modelled, and `ParseBool`'s error text has the displayed value where the source prints the raw one.
- `PuppetFactStream`, `NodeFacts`, `NodeClasses`, `NodeSnapshot`, `CallCollect`: the same folds over the same calls, which would only add easy members.
- `Presence.RunHeartbeatCleanup`: covers a pass with nobody else at work; a pass with the followers at work is the `PresenceRuns` machine, where any topic may also be passed over.
- `Watcher.CleanupSparesActive`: needs the clock to be further than the cleanup age from the zero time, for messages without a timestamp.
- `DiscoverOnce`, `WaitForNodes`, `jittered`: wall-clock waiting and float arithmetic.
- `lookupMeta`: a parameter of the completer, since which commands exist plays no part in the properties.
- `Completion.EveryClassIsReachable`: needs a class without quotes and backslashes, since accepting any other would end the literal being typed; `Completion.SegmentsReachClass` has no such condition.
- `Completion.CompleteKeepsText`: says nothing about candidates from the filesystem beyond head and tail; `GlobPaths` is an arbitrary function. Strings are sequences of code points, and space and tab are the only blanks.
- `FactCalls.FactCompletionResolves`: takes it that the interpreter reads a literal without quotes and backslashes as the text in it; the reader itself is not modelled.
- `Facts.TraverseHash`: assumes that no list is longer than the largest int. `sexpArrToStr` and `HashGet`, which flatten the arguments, are not modelled.
- Fencing, ipset, downtime, hvminfo, certificates, configuration, output formats, the web socket, snapshots on disk: foreign calls, plumbing and user interface.
