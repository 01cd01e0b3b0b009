# Live reconfiguration and the message pipeline of servone, verified

This project models the concurrent and algebraic parts of servone in Dafny and proves what they
promise. It has two halves.

**Live reconfiguration.** `config/watcher.go` debounces file events with a restartable 500 ms timer,
loads the file and hands the result to the servers. `server/server.go` answers a reload by building a
whole new router, publishing it, and emptying a template cache that request goroutines fill without
holding a lock across the sequence.

**The message pipeline.** `kafka/kafka.go` sanitises topics and races a broker callback against a
timeout before it updates two metrics. `snmpclient/snmp.go` walks targets on a ticker until it is
stopped. `db/database.go` merges two maps, inserts a row and only then publishes.

## How it is modelled

Concurrent pieces are state machines: a partial function `Step(state, action)`, a run being any finite
sequence of actions (`Runs` in `Prelude.dfy`). A theorem about "every run" quantifies over all action
sequences, so over every interleaving, every clock and every choice the environment can make. One
induction principle, `Runs.Keeps`, serves all machines; `Counting` supplies the cardinality steps of the
conservation laws. The same code in its sequential form is a class whose methods change its fields in
place (`DynamicServer`, `ConfigWatcher`, `Metrics`, `Scheduler`, `Save`).

| file | contents |
|---|---|
| `Prelude.dfy` | options, iteration orders, runs, counting |
| `Topics.dfy` | the topic sanitizer and the topics its callers build |
| `Numerals.dfy`, `Templates.dfy` | numeric path variables; the template fragment and the uncached rendering |
| `HttpSpec.dfy` | configuration, routing and the answer of a fresh server, as functions |
| `DynamicServer.dfy`, `ServerMachine.dfy` | the HTTP server as an object, and under interleaving |
| `Watcher.dfy`, `Loading.dfy`, `ConfigWatcher.dfy` | the watcher machine, which written texts are loaded, and the watcher object |
| `Convergence.dfy`, `Settling.dfy` | what servers end up holding, and exactly when they must |
| `EndToEnd.dfy` | the watcher and the concurrent server together: from the file to the answer |
| `Publish.dfy`, `Metrics.dfy` | concurrent publishing, and one call on the collectors |
| `Scheduler.dfy`, `SchedulerMachine.dfy` | the SNMP client object, and its scheduler in time |
| `Save.dfy` | merging, and insert before publish |

Library behaviour is taken by contract. `time.AfterFunc` expires atomically and starts a goroutine;
stopping an expired timer does nothing. `fsnotify`'s `Close` waits for its reader, so nothing is
delivered after it. A Kafka promise runs exactly once per record. A ticker buffers one tick and drops
the rest. `int` and `time.Duration` are 64 bits. A mutex-protected section and a read or write of one
pointer are single steps. YAML and JSON parsing, path matching, header canonicalisation, time
formatting and templates outside the documented fragment are deterministic parameters (`World`,
`Setup`, `Engine`). Insert, connect, marshal and delivery failures are choices of the environment.

## What the proofs found

- Convergence needs a premise. If a reload overtakes an older one that is still running, all can go
  quiet with the servers holding the older file (`OverlapBreaksConvergence`). The exact condition, with
  no premise on overlap, is a property of the state (`ConvergesIff`): left alone, a server is bound to
  end up with a configuration if and only if every reload that still owes it a hand-over carries that
  configuration, a read still to come can give nothing else, and it is in place or on its way.
- "The last configuration that parsed" means the last one *read*: a good write followed within the
  window by a bad one is never loaded, whatever the gap below 500 ms (`GoodWriteCanBeSkipped`). The
  condition is the window: when handling takes no time, a text is loaded before the next write if and
  only if that comes more than 500 ms later (`WriteIsLoadedIff`; at exactly 500 ms it may go either way),
  and a whole run loads exactly the texts of such writes, in order (`LoadsAreSurvivors`).
- A reload can start after `ConfigWatcher.Stop` has returned (`ReloadAfterStop`): exactly when the loop
  had one accepted event in hand, or that event's timer is armed already (`AfterStop`, `StopCancels`).
- Messages of concurrent saves may leave in another order than their rows (`ConcurrentOrderMayDiffer`).
  Order is safe exactly while no row that waits for its message stands before one whose message is out
  or waits too (`OrderKeptIff`), so always when saves do not overlap there (`SoloKeepsOrder`).
- Topics whose cleaned bodies differ by one leading `bz.` collide only if the shorter body lacks the
  prefix (`CollideIff`, `OnePrefixApartNeedNotCollide`). HTTP records are not a family of their own: a
  url can enter any other family (`HttpEntersFamilyIff`).
- An endpoint that answers GET on the metrics path shadows the metrics page (`MetricsReachableIff`).
- `time.Duration(Term) * time.Second` wraps above 9223372036 seconds (`PeriodExactIff`); one second more
  panics (`OverlongTermPanics`), and the terms that do are known exactly (`TermPanicsIff`).
- The code differs from snmp_flow.md in two places and the model follows the code: the topic of a walk is
  `bz.snmp.walk.` plus the *sanitised* target, not `snmp.walk.<target>`; and the handler still routes
  `/api/snmp/walk`, which the document calls removed.

## Model

| member | source | states |
|---|---|---|
| Topics.CleanEachCharacter | kafka/kafka.go:90-93 | wherever it stands, a slash becomes a dot, an allowed character stays and any other is dropped |
| Topics.LeadingSlashIgnoredOnce | kafka/kafka.go:89 | exactly one leading slash is ignored |
| Topics.AllowedCharacters | kafka/kafka.go:18 | the characters that survive are exactly the letters, the digits, dot, underscore and dash |
| Topics.NormalForm | kafka/kafka.go:88-101 | the sanitizer's image, its fixed points and the strings over the allowed characters starting with `bz.` are the same set |
| Topics.Idempotent | kafka/kafka.go:41-43 | sanitising what the caller already sanitised changes nothing |
| Topics.LengthBound | kafka/kafka.go:88-101 | at most three characters are added, and three exactly when nothing was removed and the prefix was missing |
| Topics.CollideIff | kafka/kafka.go:88-101 | exactly which inputs share a topic |
| Topics.OnePrefixApartNeedNotCollide | kafka/kafka.go:96-98 | for every clean `x`, `bz.bz.x` and `bz.x` are one `bz.` apart and do not collide |
| Topics.SnmpTopicShape | snmpclient/snmp.go:265-266 | an SNMP batch ends on `bz.snmp.`, the cleaned operation, a dot and the sanitised source |
| Topics.MqttTopicShape | mqttclient/mqtt.go:52-58 | an MQTT message ends on `bz.mq.` plus its cleaned topic |
| Topics.CoapTopicShape | coap/coap.go:146 | a CoAP message ends on `bz.coap` plus its cleaned path |
| Topics.FamiliesDisjoint | kafka/kafka.go:88-101 | SNMP, MQTT and CoAP topics never coincide |
| Topics.SnmpSourcesCollideIff | snmpclient/snmp.go:265 | sources share a topic exactly when they sanitise alike |
| Topics.HttpEntersFamilyIff | db/database.go:340-343 | exactly which urls publish into a given family |
| Numerals.AtoiExactly | server/server.go:194 | the accepted numerals are exactly an optional sign, leading zeros and the decimal digits of a 64-bit value, which is returned |
| Numerals.MagnitudeIsPositional | server/server.go:194 | numerals are read in decimal notation: each digit counts its place in `0123456789`, times ten for every digit after it |
| Numerals.NumeralBecomesNumber | server/server.go:192-199 | the data holds a number exactly for an accepted numeral, and any other text as it is |
| Numerals.ConvertPrintConvert | server/server.go:192-199 | converting, printing and converting again equals converting once, for every text |
| Numerals.NumeralsPrintCanonically | server/server.go:194-196 | an accepted numeral prints as the one canonical decimal of its value |
| Numerals.ShownUnchangedIff | coap/coap.go:183-189 | a variable is shown unchanged exactly when it is no in-range numeral or already canonical |
| Templates.UnparseParse | README.md:141 | printing a parsed template gives back its body, and parsing yields only well-formed node lists |
| Templates.ParseUnparse | README.md:141 | every well-formed node list is parsed back exactly |
| Templates.FastPathAgrees | server/server.go:168-170 | a body without `{{` parses and executes to itself on any data |
| Templates.HasOpenIff | server/server.go:168 | a body takes the template path exactly when `{{` stands at some position |
| Templates.OtherRendering | server/server.go:180-209 | outside the fragment, a body that does not parse or fails to execute is given as it is, and any other as the engine renders it on the described data |
| Templates.FragmentRendering | server/server.go:180-209 | a documented body never falls back to raw text, and its printed parse renders the same |
| Templates.RenderingSubstitutes | server/server.go:203-209 | any piece of a template prints its own text, or its field's value, between the renderings of what stands before and after it |
| Templates.BodySubstitutes | README.md:141 | in a documented body every action is replaced by its variable's value, the clock's for `timestamp`, and the text on either side renders as it would alone |
| Templates.NameCharacters | README.md:141 | the field names of the fragment are made of letters, digits and underscore |
| Templates.RenderingReadsFieldsOnly | server/server.go:203-209 | a rendering depends on the data only at the named fields |
| Templates.TimestampOverrides | server/server.go:201 | a path variable called `timestamp` never shows |
| Templates.FillData | server/server.go:191-201 | the data loop gives the same map for every iteration order |
| Templates.CoapProcessTemplate | coap/coap.go:171-201 | the uncached function computes the reference rendering |
| HttpSpec.FindIsFirstFit | server/server.go:74-84 | the first route fitting path and method answers; otherwise the method is wrong exactly when some path fitted |
| HttpSpec.LaterRouteYields | server/server.go:74-84 | a route added to a router answers only what no earlier route fits, and otherwise counts at most towards a wrong method |
| HttpSpec.UpperCases | server/server.go:76 | a configured method is compared letter by letter in capitals |
| HttpSpec.MetricsReachableIff | server/server.go:65-71 | a GET of the metrics path is answered with the metrics page exactly when no endpoint answers GET on that path |
| HttpSpec.HandlerOutcome | server/server.go:65-164 | the first configured endpoint that fits decides between refusal of an oversized body, an SNMP operation, and its own page and saved record; with none, exactly which of metrics page, wrong method and not found is given, and nothing is saved |
| HttpSpec.HeaderOrderIrrelevantIff | server/server.go:154-156 | response headers are independent of the iteration order exactly when equal canonical keys have equal values |
| HttpSpec.AnswerOrderIrrelevant | server/server.go:154-156 | with headers that agree up to canonicalisation the whole answer is the same for every header order |
| DynamicServer.DynamicServer.constructor | server/server.go:42-62 | a new server has the complete router of its configuration, its address and an empty cache |
| DynamicServer.DynamicServer.SetupRoutes | server/server.go:65-71 | the loop builds the complete router |
| DynamicServer.DynamicServer.ProcessTemplate | server/server.go:167-210 | the cached rendering equals the uncached one, the cache stays coherent, and it holds the template of every body that parses from then on |
| DynamicServer.DynamicServer.WriteHeaders | server/server.go:154-156 | the header loop sets, for each canonical key, the last header in the order |
| DynamicServer.DynamicServer.ServeHTTP | server/server.go:87-164 | a request gets the answer of a fresh server for the current configuration |
| DynamicServer.DynamicServer.Reload | server/server.go:219-240 | a freshly built router is published, the cache emptied, the address kept |
| DynamicServer.Replay | server/server.go:42-240 | over any history, each answer is that of a fresh server for the configuration then in force |
| DynamicServer.FreshServerAnswersAlike | server/server.go:42-62 | an aged and a new server both answer as a fresh one for the configuration then in force, and alike even under different header orders when the headers agree |
| ServerMachine.SafePublication | server/server.go:219-232 | in every reachable state the handler is the completely built router of the latest reload, or of the one before until the latest has published |
| ServerMachine.CacheAlwaysCoherent | server/server.go:173-189 | in every reachable state each cache entry is the parse of its key |
| ServerMachine.AnswersAsLiveAtDispatch | server/server.go:87-164 | whatever interleaves, a finished request got status, all headers, body and record of the one configuration live at its dispatch, rendered without a cache at a time between dispatch and completion, for every header order alike when the headers agree |
| ServerMachine.TrackKeeps | server/server.go:87-88 | no step moves a request to another router or changes what a router was built from |
| ServerMachine.RequestCanFinish | server/server.go:87-164 | from any reachable state, whatever else is going on, a dispatched request has a way to its answer |
| ServerMachine.RenderingCanFinish | server/server.go:173-209 | a rendering has a way to its answer, with its parsed template in the cache by then |
| ServerMachine.FinishReload | server/server.go:219-240 | a reload has a way to its end, with its own router as the handler and the cache empty |
| Watcher.EventsThatCount | config/watcher.go:70-73 | the loop takes an event in hand exactly if it is a write or creation of the watched file |
| Watcher.SingleArmedTimer | config/watcher.go:86-97 | at most one timer is armed, it is the debouncer's, and it belongs to the latest accepted event |
| Watcher.DebounceLateClock | config/watcher.go:86-97 | with any clock, an event followed within 500 ms never fires, and firings are 500 ms apart |
| Watcher.DebounceRefinement | config/watcher.go:86-97 | on an ideal clock, at any moment before Stop, the expiries are exactly the debounced events, with only the latest event undecided while its timer is armed or being replaced |
| Watcher.DebounceComplete | config/watcher.go:86-97 | the converse: every event times in order and every firings that are debounced, either choice at each gap of exactly 500 ms included, come from some run on an ideal clock |
| Watcher.AfterStop | config/watcher.go:117-128 | in every state after Stop returned, a timer can still be armed if and only if the loop has an accepted event in hand, a reload can still start if and only if so or that timer is armed, and at most one is armed |
| Watcher.StopCancels | config/watcher.go:117-123 | what is armed once Stop holds the mutex was armed by that one event |
| Watcher.ReloadAfterStop | config/watcher.go:73 | a run in which a reload starts after Stop returned |
| Convergence.EveryServerIsHandedTheFile | config/watcher.go:100-114 | in every quiet state the newest load saw the current file and every load that parsed reached every server, overlap or not |
| Convergence.Converges | config/watcher.go:62-114 | without overlap, in every quiet state every server holds the parse of the current file, or of the newest load that parsed |
| Settling.ConvergesIff | config/watcher.go:62-114 | with no premise on overlap: a server is bound to end up with a configuration if and only if every reload still owing it carries it, a read to come can give nothing else, and it is in place or on its way |
| Convergence.OverlapBreaksConvergence | config/watcher.go:94-96 | a run with overlapping reloads that leaves the older file's configuration in place |
| Convergence.GoodWriteCanBeSkipped | config/watcher.go:90-92 | for every gap below 500 ms, a run in which a parsable text overwritten after that gap is never loaded |
| Loading.WriteIsLoadedIff | config/watcher.go:86-107 | from any reachable state with no timer due and no reload about to read, a written text is loaded before the next write if and only if that comes more than 500 ms later, and nothing else is |
| Loading.LoadsAreSurvivors | config/watcher.go:86-107 | with no gap of exactly 500 ms, a whole run loads exactly the texts of the writes not followed within 500 ms, in order |
| Loading.EveryScheduleRuns | config/watcher.go:62-97 | every schedule of writes is that of some such run |
| EndToEnd.AnsweredAsHeld | server/server.go:219-240 | a request is answered from the configuration that the watcher's machine says the server holds when it is dispatched |
| EndToEnd.SettledServes | config/watcher.go:100-114 | overlap or not: once a server is settled on a configuration, at rest every request is answered from it |
| EndToEnd.FollowingRunExists | server/server.go:219-240 | for every run of the watcher the server has a run making exactly the reloads it is handed |
| EndToEnd.QuietServesTheFile | config/watcher.go:100-114 | without overlap, once all is quiet every request at every server is answered from the parse of the current file |
| ConfigWatcher.ConfigWatcher.ScheduleReload | config/watcher.go:86-97 | the old timer is stopped and one with a deadline 500 ms ahead is the only one armed |
| ConfigWatcher.ConfigWatcher.WatchEvent | config/watcher.go:70-73 | a write or creation of the watched file takes a new timer due 500 ms later; any other event arms nothing |
| ConfigWatcher.ConfigWatcher.WatchEvents | config/watcher.go:62-83 | over a batch of events, each at its own time and with the timer running on, only the last write or creation of the file has its timer armed or just fired, due 500 ms after it; without one nothing is armed |
| ConfigWatcher.ConfigWatcher.ReloadConfig | config/watcher.go:100-114 | a parsed file reaches every server that is not nil, an unparsable one changes none |
| ConfigWatcher.ConfigWatcher.Stop | config/watcher.go:117-128 | nothing is armed and the watcher is closed |
| Publish.Conservation | kafka/kafka.go:64-79 | in every reachable state a topic's counts equal its observations plus the calls between the two updates, and observations equal completed calls |
| Publish.AcknowledgementsAccounted | kafka/kafka.go:52-79 | acknowledged records equal successes, acknowledgements left in channels, and those received and not yet counted |
| Publish.RaceSafety | kafka/kafka.go:53-79 | the slot never overflows, the callback never blocks, nil is returned exactly on a recorded success, and a timeout took five seconds |
| Publish.LabelsAreNormal | kafka/kafka.go:43-50 | every metric label is a Kafka-safe topic |
| Publish.LabelledByTopic | kafka/kafka.go:41-43 | in any run a call is labelled with the sanitised topic it was made with and timed from its start |
| Publish.VerdictAtSelect | kafka/kafka.go:65-79 | status and reported time are those of the moment the select was decided: the result in the channel, or a timeout |
| Publish.TimesOutIff | kafka/kafka.go:75 | a waiting call can time out exactly from five seconds after its select began |
| Publish.LabelsCountTheirCalls | metrics/metrics.go:141-144 | the counters and, value by value, the histogram of a label are those of the calls whose given topic sanitises to it |
| Publish.CallCanReturn | kafka/kafka.go:65-79 | every call has a way to return, whatever the broker does |
| Publish.CallCanBeAnswered | kafka/kafka.go:55-74 | a record in hand can come back acknowledged or failed, and the call returns so |
| Publish.RejectedRecordsNothing | kafka/kafka.go:45-48 | wherever a marshal failure happens in a run, the run without it ends with the same counters, histograms and other calls |
| Metrics.Collectors.RecordKafkaPublish | metrics/metrics.go:141-144 | one counter and one observation of the topic are added, nothing else |
| Metrics.KafkaPublisher.Publish | kafka/kafka.go:41-80 | one call returns nil exactly when acknowledged in time and leaves exactly one observation and one count, under the status of its verdict, or none if data does not marshal |
| Scheduler.SNMPClient.ProcessResults | snmpclient/snmp.go:244-276 | the batch reaches the nested topic if the broker takes it, and is stored whenever there is a database that takes it, whether or not publishing worked |
| Scheduler.SNMPClient.WalkV3 | snmpclient/snmp.go:116-146 | a walk that breaks off publishes and stores nothing; a complete one sends one batch with its target and exactly its PDUs, if the broker takes it, and stores the same, if a database does |
| Scheduler.SNMPClient.Sweep | snmpclient/snmp.go:67-71 | every target is walked once in order, whichever walks fail |
| Scheduler.SNMPClient.RunScheduler | snmpclient/snmp.go:50-78 | walks come in whole sweeps, every message and row is that of one complete walk with its target and PDUs, in order, and a non-positive term walks nothing |
| Scheduler.SweepsUntilStop | snmpclient/snmp.go:64-75 | the sweeps are the wake-ups before the stop channel is first seen |
| Scheduler.RepeatAt | snmpclient/snmp.go:67-71 | in whole sweeps, walk `p` of any sweep is of target `p` |
| SchedulerMachine.Trace | snmpclient/snmp.go:63-71 | in every reachable state the walks are whole sweeps and a prefix of one |
| SchedulerMachine.StopIsFinal | snmpclient/snmp.go:81-85 | when Stop returns the walks are whole sweeps and never grow again |
| SchedulerMachine.Rate | snmpclient/snmp.go:60-66 | sweeps, dropped ticks and the buffered tick add up to the elapsed periods |
| SchedulerMachine.DroppedOnlyWhileSweeping | snmpclient/snmp.go:60-75 | a scheduler that reacts at once loses ticks only to time passing during a sweep |
| SchedulerMachine.InstantSweepsKeepPace | snmpclient/snmp.go:60-75 | sweeps that take no time come once per elapsed period |
| SchedulerMachine.TickCanSweep | snmpclient/snmp.go:65-72 | a waiting tick can always start a sweep of all targets |
| SchedulerMachine.StopCanReturn | snmpclient/snmp.go:73-85 | once the channel is closed, Stop has a way to return without a further sweep |
| SchedulerMachine.PeriodExactIff | snmpclient/snmp.go:60 | the period is exact exactly up to 9223372036 seconds |
| SchedulerMachine.TermPanicsIff | snmpclient/snmp.go:60 | the ticker refuses exactly the terms whose product in nanoseconds lies in the upper half of a 64-bit range or on its end, and then no walk is made |
| SchedulerMachine.OverlongTermPanics | snmpclient/snmp.go:60 | from one second more, up to 18446744073, the ticker refuses the period and nothing ever runs |
| Save.MergeLoops | db/database.go:411-419 | for every iteration order the loops compute the union with `data` winning |
| Save.MergeUnique | db/database.go:300-308 | the union with `data` winning is one definite map, so all three copies compute the same |
| Save.MergeAgainIff | db/database.go:254-258 | merging parameters in changes nothing exactly when their keys are all present, as after a first merge |
| Save.Database.SaveToDBWithError | db/database.go:409-461 | nil is returned exactly when the row was inserted; the row has the url, the parameters and the merged data, and the same record is published only after it |
| Save.Database.SaveAll | db/database.go:446-458 | a sequential run appends exactly the rows of the saves that insert and the messages of those that reach the broker, in their order, and returns nil for the former |
| Save.SequentialOrder | db/database.go:446-458 | what a sequential run publishes is an order-preserving subsequence of its rows, each record on its own url's topic |
| Save.AllArriveIff | db/database.go:446-458 | every row has its message exactly when every stored attempt reaches the broker |
| Save.SubsequenceEmbeds | db/database.go:446-458 | a subsequence is what stands in order at some positions |
| Save.InsertBeforePublish | db/database.go:335-347 | over any interleaving rows are the published, the lost and the not yet published records, so published records are contained in the rows |
| Save.StartedRecord | db/database.go:335-347 | in any interleaving a save of a job carries its url, its parameters and the merge of its data with them |
| Save.SaveCanReturn | db/database.go:335-347 | every save has a way to insert, publish and return nil |
| Save.OrderKeptIff | db/database.go:335-347 | from any state in row order, without further rows, order is kept if and only if no row waiting for its message stands before one whose message is out or waits too |
| Save.SoloKeepsOrder | db/database.go:446-458 | if at most one save at a time is between insert and publish, messages are a subsequence of the rows in order |
| Save.ConcurrentOrderMayDiffer | db/database.go:335-347 | a run of two saves that publishes in the other order |

## Left out

- The CoAP listener's lifecycle: go-coap offers no stop, so the code does not guarantee that its reload takes effect. The watcher's servers are HTTP servers or nil.
- SQL, connection pooling, table creation and the snmp, mqtt and coap tables: an insert succeeds or fails. `SaveToDB` and the global `SaveToDBWithError` run the same merge, insert and publish as the method; `SaveToDB` only logs its errors.
- The `received` and `created_at` times of a saved record: two unrelated clock readings.
- The wire behaviour of Kafka, MQTT, SNMP and file notification, and the rewriting of PDU values to strings.
- YAML, JSON and templates outside text and `{{.name}}` (with ASCII names): deterministic parameters.
- Regular-expression path matching, path cleaning and redirects in the router: an abstract match.
- What net/http makes of a reply: the model ends at the status, headers and body handed to the response writer.
- The SNMP request handler, trap listener, security parameters, gauges, logging and the main programs.
- `pathVars`: the field is only ever reset to an empty map.
- ServerMachine.AnswersAsLiveAtDispatch: the read of `server.Handler` is unsynchronised in the source; the model takes it as one atomic step, which the Go memory model does not promise.
- Convergence.Converges: states the sufficient premise, no overlap; the exact condition is Settling.ConvergesIff.
- Loading.WriteIsLoadedIff: assumes that handling an event and starting a read take no time; with delays a read may come after the next write and load that text, and DebounceLateClock is what holds.
- Watcher.DebounceRefinement: the ideal clock also lets no time pass between stopping the old timer and arming the new one; with any clock DebounceLateClock holds.
- EndToEnd.AnsweredAsHeld: the watcher's machine hands a configuration over in one step and the server's own run takes it in many; the two runs are tied by the order of the reloads, and the last one must have finished.
- DynamicServer.DynamicServer.ServeHTTP: the goroutine that saves a record is represented by the record it is given, and a reload running at the same time by ServerMachine.
- Scheduler.SNMPClient.RunScheduler: the wake-ups are given; when the ticker produces them, and that an overlong term panics, is in SchedulerMachine.
- HttpSpec.UpperCases: methods are ASCII; what upper-casing does to other letters is not modelled.
- Starting the scheduler twice, and closing its stop channel twice, which panics.
