# Vehicle telemetry pipeline: a Dafny model

An OBD-II client reads a car, an LTE gateway queues its messages for AWS IoT Core, and a cloud API
derives a trip, a health score and maintenance findings from the stored records. This project models
the parts of that pipeline where state, ordering and arithmetic interact, and proves what they
guarantee. `dafny verify dfyconfig.toml` verifies everything.

What is proved, hardest first:

- **The gateway's publish queue** (`Topics`, `MqttQueue`, `MqttCounters`, `MqttManager`, `MqttRuns`). One
  flat list of at most 20 entries acts as two lanes: events and responses in order of acceptance, then
  one telemetry entry per topic. Class `MQTTManager` changes the list in place; `MqttRuns` interleaves
  its methods with a publisher that reads `queue[0]`, awaits the modem and only then calls `pop(0)`. Over
  every run the lanes, the order, the newest values and the counters hold. The comments promise that
  queued events are preserved (mqtt_manager.py:33-34, 47-48). That is false when an event arrives while
  telemetry is being published: `DtcEventLost` shows a run, and `NothingLostIffNoLosingSteps` says
  exactly when it happens. A newer telemetry value can be lost in the same way: `NewerValueLost`,
  `RemovedIsSentIff`.
- **The trip estimate** (`Records`, `Trip`, `TripLoop`, `TripProperties`). The loop with its carried
  fields, freshness windows and running totals equals a declarative trip, and the trip satisfies time
  accounting, bounds, monotonicity and exactness at constant speed.
- **Health and maintenance** (`Health`, `HealthFacts`, `Maintenance`, `MaintenanceFacts`,
  `HealthAgreement`). Every warning, the score and every condition is characterised by the fields of the
  records, and the two separately written rule sets are compared on every list of records, with the exact
  conditions under which status and data quality disagree.
- **The TCP path** (`Framing`, `TcpServer`, `ServerRuns`): partial writes, every schedule of reads, what is
  acknowledged, counted and queued, and every interleaving of connections with each other and with the
  publisher.
- **The client's sampling loop** (`ClientRuns`, `ClientLoop`): the loop on its variables is proved against
  a function of what happens in each pass, and every run of that function is bounded: what is valid, what
  is sent, and how far the gateway's knowledge can lag behind the car.
- **Trouble codes from CAN bytes to the cloud** (`Dtc`), **PID discovery on bitmaps** (`PidDiscovery`),
  **the log ring buffer** (`Logger`), **the device registry** (`Devices`, `Timestamps`) and **the parser
  of received commands** (`CommandEvents`). `Text` and `Options` are shared helpers.

Where comments or documentation and code differ, the code is modelled:

- docs/INTERCONNECTION.md and the comment at tcp_server.py:73-75 let the acknowledgement follow
  validation and queueing. The code acknowledges first, and acknowledges invalid JSON too
  (tcp_server.py:67-77). `AcknowledgedIsQueuedIff` says when an acknowledged message is queued;
  `GarbageAcknowledged` and `TelemetryRefused` give inputs for which it is not.
- Bytes behind the first newline of a chunk are dropped (tcp_server.py:121-123). `SecondFrameLost` loses a
  frame, and `RestSafeIff` says when no chunking can.
- Line breaks with carriage returns in a command are shortened before the length is applied
  (mqtt_manager.py:211, 227-229), although multi-line payloads are meant to stay intact:
  `CommandParsesBack` has the exact condition, `WindowsLinesLost` an input.
- docs/OBD2_DATA_REFERENCE.md:6-8 promises that a PID that times out is omitted. The valid bit is never
  cleared (obd2_source.c:139-144), so the last value keeps being sent: `RunSendsDecodes` says exactly what
  each message holds, `OmitsFailedIff` when the promise is kept, and `TimedOutStillSent` is a run that
  breaks it.
- The extended group sends the slow signals without remembering them as sent (app_main.c:229-235).
  `SlowDrifts` is a run that leaves the gateway 30 degrees off with nothing due; `SlowAfterEveryFifthPass`
  and `SlowSafeIff` say when this happens. A first value close to zero is likewise taken for sent:
  `SpeedNeverSent` and `FastKnownIff`.
- The comment at obd2_source.c:269 has unused bytes skipped as padding. Code pairs start at `data[2]`, and
  the end bound lies one byte behind the payload (obd2_source.c:311-313), so padding can be read as a code:
  `PaddingReadIff` says when, `NoCodesIff` when an answer without codes stays without codes, and
  `PhantomCode` is a frame for which it does not.

Modelling choices. A client message is a map from keys to the text that `str()` gives for the value. JSON
numbers are `real`, before rounding; a text that `float()` accepts carries its number. Times are integer
milliseconds. White space and letter case are ASCII. A NaN that marks a signal as never sent, and a
missing value, are `None`. `uint32_t` masks are sets of fields; the ECU's bitmaps and their bit tests use
bit vectors. The network, the vehicle and the clock are parameters or nondeterministic choices.

## Model

| member | source | states |
|---|---|---|
| Topics.Slug | gateway/lilygo-micropython/mqtt_manager.py:299-308 | A topic level has 1 to 40 characters, each a digit, a lower-case letter or a hyphen, so no slash |
| Topics.Safe | gateway/lilygo-micropython/mqtt_manager.py:299-308 | The loop over the characters returns that slug |
| Topics.SlugFixesExactlySlugs | gateway/lilygo-micropython/mqtt_manager.py:299-308 | A text is left unchanged exactly when it already is a slug |
| Topics.SlugIdempotent | gateway/lilygo-micropython/mqtt_manager.py:299-308 | Sanitising twice is sanitising once |
| Topics.SlugAt | gateway/lilygo-micropython/mqtt_manager.py:301-308 | Every character of a level, from the stripped and lower-cased value, and its length |
| Text.StripIs | gateway/lilygo-micropython/mqtt_manager.py:301 | Only white space is stripped, and only at the two ends |
| Topics.LevelIsSlug | gateway/lilygo-micropython/mqtt_manager.py:279-282 | A level is the slug of the value that the nested `get` calls find, default included |
| Topics.TopicIs | gateway/lilygo-micropython/mqtt_manager.py:278-297 | The levels of the topic from the fields of the message, with their fallbacks, and the text of its kind |
| Topics.KindIff | gateway/lilygo-micropython/mqtt_manager.py:195-206 | Which words in which of the two fields make an event, a diagnostic, a fast or a slow message |
| Topics.SuffixNamesKind | gateway/lilygo-micropython/mqtt_manager.py:283-295 | The topic suffix and the message kind, decided in two places, agree for any two messages |
| Topics.TopicInjective | gateway/lilygo-micropython/mqtt_manager.py:278-297 | Two messages share a topic exactly when area, device type, device id and kind agree |
| Topics.ResponseTopicReserved | gateway/lilygo-micropython/config.py:106-108 | No client message reaches the topic of command responses |
| MqttQueue.SameTopicSameKind | gateway/lilygo-micropython/mqtt_manager.py:35-45 | Coalescing never changes the kind of an entry |
| MqttQueue.LowestPriorityIndex | gateway/lilygo-micropython/mqtt_manager.py:185-192 | The victim is the last entry of the cheapest kind present, and there is none exactly when all entries are events or responses |
| MqttQueue.VictimUnique | gateway/lilygo-micropython/mqtt_manager.py:185-192 | At most one entry is such a victim |
| MqttQueue.VictimKind | gateway/lilygo-micropython/mqtt_manager.py:185-192 | The victim is a diagnostic if there is one, else fast, else slow, else other telemetry, and the last of its kind |
| MqttQueue.EnqueueRefinesLanes | gateway/lilygo-micropython/mqtt_manager.py:31-55 | Offering a message to the flat list is offering it to the two-lane queue, with the same answer, and the list stays two lanes |
| MqttCounters.CountersMove | gateway/lilygo-micropython/mqtt_manager.py:38-55 | Each counter moves exactly in its own case, told by the list before the call: an older value replaced, telemetry displaced, a full list with nothing replaced |
| MqttQueue.ImportantRefusedIffFullOfImportant | gateway/lilygo-micropython/mqtt_manager.py:164-183 | An event or response is refused exactly when the list is full of events and responses, and then only a counter changes |
| MqttManager.MQTTManager.constructor | gateway/lilygo-micropython/mqtt_manager.py:15-29 | The manager starts disconnected with an empty queue and zero counters |
| MqttManager.MQTTManager.Enqueue | gateway/lilygo-micropython/mqtt_manager.py:31-55 | The whole new state and the answer are those of the queue specification |
| MqttManager.MQTTManager.EnqueuePriority | gateway/lilygo-micropython/mqtt_manager.py:161-162 | A command response is offered on the response topic with kind response |
| MqttManager.MQTTManager.EnqueueImportant | gateway/lilygo-micropython/mqtt_manager.py:164-183 | Eviction, counters and insertion behind the last important entry are those of the specification |
| MqttManager.MQTTManager.InsertPosition | gateway/lilygo-micropython/mqtt_manager.py:178-181 | The insertion loop stops at the end of the important prefix |
| MqttManager.MQTTManager.LowestPriority | gateway/lilygo-micropython/mqtt_manager.py:185-192 | The nested search finds the unique victim or reports that there is none |
| MqttManager.MQTTManager.PublishHead | gateway/lilygo-micropython/mqtt_manager.py:67-89 | One publish with any messages queued while the modem is awaited: the whole new state, and which entry is removed |
| MqttManager.MQTTManager.EnqueueArrivals | gateway/lilygo-micropython/mqtt_manager.py:31-55 | Messages queued one after the other give the state of the specification |
| MqttManager.MQTTManager.PublishDone | gateway/lilygo-micropython/mqtt_manager.py:71-73 | The head of that moment is removed, the count grows, the last topic is the published one |
| MqttManager.MQTTManager.PublishFailed | gateway/lilygo-micropython/mqtt_manager.py:80-89 | A failure disconnects and is counted, and leaves the queue alone |
| MqttRuns.StepKeepsInv | gateway/lilygo-micropython/mqtt_manager.py:31-89 | Each atomic step keeps lanes, order, newest values, in-flight head and counters |
| MqttRuns.RunKeepsInv | gateway/lilygo-micropython/mqtt_manager.py:57-89 | Every reachable state satisfies that invariant |
| MqttRuns.RunIsTwoLanes | gateway/lilygo-micropython/mqtt_manager.py:35-55 | In every reachable state: at most 20 entries, important ones first, telemetry topics pairwise distinct |
| MqttRuns.RunKeepsNewest | gateway/lilygo-micropython/mqtt_manager.py:35-45 | Queued telemetry is the newest offer ever made for its topic |
| MqttRuns.RunIsFifo | gateway/lilygo-micropython/mqtt_manager.py:164-183 | Accepted events and responses are exactly those removed so far followed by those queued, in order of acceptance |
| MqttRuns.RunBalances | gateway/lilygo-micropython/mqtt_manager.py:38-73 | Offers are queued, published, coalesced or dropped; refusals are drops without priority evictions |
| MqttRuns.RunTallies | gateway/lilygo-micropython/mqtt_manager.py:38-89 | Over a run each of the five counters is the number of steps that it stands for |
| MqttRuns.RunStatus | gateway/lilygo-micropython/mqtt_manager.py:62-83 | The status shows the topic published last, and whether the connection stands |
| MqttRuns.HeadAfterArrivals | gateway/lilygo-micropython/mqtt_manager.py:68-71 | From any two-lane queue, after any messages queued behind the head: the entry that stands first |
| MqttRuns.PopExact | gateway/lilygo-micropython/mqtt_manager.py:68-71 | The queue is not empty at the pop; the removed entry, and exactly when it is the published one |
| MqttRuns.RunPairsPops | gateway/lilygo-micropython/mqtt_manager.py:68-71 | Over a run, a published event is the one removed, and removed telemetry has the topic and kind of what was published |
| MqttRuns.NothingLostIff | gateway/lilygo-micropython/mqtt_manager.py:68-71 | No accepted event or response is lost exactly when no event arrived during a completed publish of telemetry; each such publish loses one |
| MqttRuns.NothingLostIffNoLosingSteps | gateway/lilygo-micropython/mqtt_manager.py:68-71 | The same as a condition on the steps of the run: no publish of telemetry is completed with an event queued since it began |
| MqttRuns.RemovedIsSentIff | gateway/lilygo-micropython/mqtt_manager.py:68-71 | Over a run, what `pop(0)` removes is what was published exactly when no publish of telemetry is completed with an event or a newer value for its topic queued since it began |
| MqttRuns.NewerValueLost | gateway/lilygo-micropython/mqtt_manager.py:42-45 | A run in which the newest accepted value of a topic is neither sent nor queued |
| MqttRuns.EventLost | gateway/lilygo-micropython/mqtt_manager.py:68-71 | Telemetry in flight and then any event: the event is removed unpublished |
| MqttRuns.DtcEventLost | gateway/lilygo-micropython/mqtt_manager.py:68-71 | A concrete run: an accepted event that is neither sent nor queued |
| CommandEvents.FindIsFirst | gateway/lilygo-micropython/mqtt_manager.py:217-220 | `find` returns the first occurrence, and -1 only if there is none |
| CommandEvents.DigitsParse | gateway/lilygo-micropython/mqtt_manager.py:224 | A printed length is read back |
| CommandEvents.ByteLengthExact | gateway/lilygo-micropython/mqtt_manager.py:227-229 | The modem's byte count selects exactly the value if and only if the value is ASCII |
| CommandEvents.TaggedValue | gateway/lilygo-micropython/mqtt_manager.py:215-229 | A length-tagged value is read back exactly when it is ASCII, whatever follows it |
| CommandEvents.CommandParsesBack | gateway/lilygo-micropython/mqtt_manager.py:208-229 | Topic and payload of a receive block are each read back exactly when ASCII and free of carriage returns; the payload may hold line feeds and markers |
| CommandEvents.WindowsLinesLost | gateway/lilygo-micropython/mqtt_manager.py:211-229 | A payload whose lines end with carriage return and line feed does not come back |
| Records.Merge | aws-dashboard/backend/car_health_api/lambda_function.py:101-115 | The two nested loops compute the newest-first merge and the first record of each class |
| Records.LatestIsFirst | aws-dashboard/backend/car_health_api/lambda_function.py:106-109 | The record kept for a class is the first, newest first, of that class |
| Records.MergedIsNewest | aws-dashboard/backend/car_health_api/lambda_function.py:105-113 | A merged field is the value of the first record that carries it |
| Records.MergedNewerFirst | aws-dashboard/backend/car_health_api/lambda_function.py:105-113 | A newer record overwrites what it carries and keeps the rest |
| Records.SecondsAndMillis | aws-dashboard/backend/car_health_api/lambda_function.py:138-143 | A moment given in seconds and in milliseconds is the same time exactly between 1973 and 5138 |
| Trip.SampleIff | aws-dashboard/backend/car_health_api/lambda_function.py:188-209 | A record gives a sample exactly when the newest readings of speed and engine speed are at most 15 s old, the engine turns above 400 rpm, and the preferred fuel rate is at most 15 s old |
| Trip.SampleValues | aws-dashboard/backend/car_health_api/lambda_function.py:182-194 | The values of a sample are the newest readings; the rate is direct when a non-negative direct reading exists, else estimated from the air flow |
| Trip.TimelineIs | aws-dashboard/backend/car_health_api/lambda_function.py:174-177 | The loop visits every record with a timestamp and no other, oldest first |
| Trip.CarriedIsLatest | aws-dashboard/backend/car_health_api/lambda_function.py:178-180 | The carried state and its times hold the newest reading of every field |
| Trip.CarriedIsMerged | aws-dashboard/backend/car_health_api/lambda_function.py:174-180 | Carrying forward from the oldest record equals merging the stamped records from the newest |
| Trip.CarriedIsMergedWhenStamped | aws-dashboard/backend/car_health_api/lambda_function.py:101-115 | When all records carry timestamps, trip state and merged telemetry are the same map |
| TripLoop.TripEstimate | aws-dashboard/backend/car_health_api/lambda_function.py:154-285 | The loop with its running totals returns the declarative trip, and its final state is the merge |
| TripLoop.CarryForward | aws-dashboard/backend/car_health_api/lambda_function.py:178-180 | One record overwrites its fields and stamps them, in any order of its items |
| TripLoop.StateObserves | aws-dashboard/backend/car_health_api/lambda_function.py:182-209 | Judging the carried state is judging the newest readings of the timeline |
| TripLoop.AddSegment | aws-dashboard/backend/car_health_api/lambda_function.py:220-237 | The running totals grow by the trapezoid, the gap or nothing |
| TripLoop.MarkSample | aws-dashboard/backend/car_health_api/lambda_function.py:211-218 | Maxima, fuel source, start and end are those of all samples so far |
| TripProperties.TimeAccounting | aws-dashboard/backend/car_health_api/lambda_function.py:221-236 | Possible time is valid time plus 15 s a gap; idle lies within valid; no interval exceeds 15 s |
| TripProperties.PossibleWithinDuration | aws-dashboard/backend/car_health_api/lambda_function.py:239-240 | On records in time order the possible time fits into the duration |
| TripProperties.CoverageIsPercentage | aws-dashboard/backend/car_health_api/lambda_function.py:240 | Coverage lies in [0, 100] and the clamp never acts |
| TripProperties.CoverageCountsGaps | aws-dashboard/backend/car_health_api/lambda_function.py:251-254 | 90 % coverage means at most one gap per 135 s of valid time, 70 % at most one per 35 s, in both directions |
| TripProperties.HighConfidenceIff | aws-dashboard/backend/car_health_api/lambda_function.py:251-256 | HIGH confidence exactly for 600 s, 30 intervals and at most one gap per 135 s of valid time |
| TripProperties.MediumConfidenceIff | aws-dashboard/backend/car_health_api/lambda_function.py:251-256 | At least MEDIUM confidence exactly for 180 s, 10 intervals and at most one gap per 35 s of valid time |
| TripProperties.DistanceWithinSpeeds | aws-dashboard/backend/car_health_api/lambda_function.py:225-227 | Distance lies between slowest and fastest sample times the valid time |
| TripProperties.AverageWithinMaximum | aws-dashboard/backend/car_health_api/lambda_function.py:241 | Average speed never exceeds maximum speed |
| TripProperties.ConstantSpeedExact | aws-dashboard/backend/car_health_api/lambda_function.py:225-227 | At constant speed the distance is exact |
| TripProperties.NewerRecordAdds | aws-dashboard/backend/car_health_api/lambda_function.py:220-237 | A newer record never lowers fuel, nor distance unless a speed is negative |
| TripProperties.EconomiesInverse | aws-dashboard/backend/car_health_api/lambda_function.py:242-243 | When both economies are reported, their product is 100 |
| TripProperties.FuelBounds | aws-dashboard/backend/car_health_api/lambda_function.py:228-232 | Idle fuel lies between zero and the fuel used |
| TripProperties.FuelWithinRates | aws-dashboard/backend/car_health_api/lambda_function.py:226-232 | Fuel lies between lowest and highest rate times the valid time, and idle fuel between the same rates times the idle time |
| TripProperties.ConstantRateExact | aws-dashboard/backend/car_health_api/lambda_function.py:226-232 | At a constant rate fuel and idle fuel are exact |
| TripProperties.IdleBelowOne | aws-dashboard/backend/car_health_api/lambda_function.py:230-232 | A trip at 1 km/h and more has no idle time and fuel; a trip below it is idle altogether |
| TripProperties.UnbrokenExact | aws-dashboard/backend/car_health_api/lambda_function.py:220-240 | Without interruption possible, valid and whole time are the time from first to last record, with full coverage and no gap |
| TripProperties.LinearExact | aws-dashboard/backend/car_health_api/lambda_function.py:225-229 | Speed or rate that changes evenly with time is integrated exactly |
| TripProperties.NoAdvance | aws-dashboard/backend/car_health_api/lambda_function.py:221 | Records whose time does not advance count for nothing |
| TripProperties.DerivedValues | aws-dashboard/backend/car_health_api/lambda_function.py:241-243 | Each economy and the average speed times its denominator gives its numerator; when each is reported |
| TripProperties.InstantValues | aws-dashboard/backend/car_health_api/lambda_function.py:244-250 | The instant values are those of the last record, with litres per 100 km from 5 km/h on |
| TripProperties.MarksAre | aws-dashboard/backend/car_health_api/lambda_function.py:211-218 | Maxima are attained bounds; start, end, duration, activity and fuel source follow the first and last sample |
| Health.HealthMethod | aws-dashboard/backend/car_health_api/lambda_function.py:288-397 | The running score, status and warnings give the report of the rule set; the code lists are filtered in place |
| Health.AgeRules | aws-dashboard/backend/car_health_api/lambda_function.py:299-310 | Score, status and warning for the age of the newest record |
| Health.FluidRules | aws-dashboard/backend/car_health_api/lambda_function.py:312-333 | Coolant, fuel and load warnings, and a score of 100 minus all penalties |
| Health.TrimAndVoltageRules | aws-dashboard/backend/car_health_api/lambda_function.py:337-358 | Trim and voltage warnings, and a score of 100 minus all penalties |
| Health.CleanDtcs | aws-dashboard/backend/car_health_api/lambda_function.py:360-365 | The three lists are filtered and joined without repeats |
| Health.DtcRules | aws-dashboard/backend/car_health_api/lambda_function.py:366-368 | Trouble codes cost 10 points and 5 each, at most 35 |
| Health.LinkRules | aws-dashboard/backend/car_health_api/lambda_function.py:370-377 | The reported link state overrides the status and costs points |
| HealthFacts.CoolantWarnings | aws-dashboard/backend/car_health_api/lambda_function.py:312-319 | Which `coolant_c` gives which coolant warning |
| HealthFacts.FuelAndLoadWarnings | aws-dashboard/backend/car_health_api/lambda_function.py:321-333 | Which `fuel_level_pct` and `engine_load_pct` give which warning |
| HealthFacts.TrimWarnings | aws-dashboard/backend/car_health_api/lambda_function.py:337-348 | Which fuel trims give which of the two warnings |
| HealthFacts.VoltageWarnings | aws-dashboard/backend/car_health_api/lambda_function.py:350-358 | Which voltage gives which warning, only with `engine_rpm` above 400 |
| HealthFacts.OtherWarnings | aws-dashboard/backend/car_health_api/lambda_function.py:291-310 | Warnings for link state, trouble codes and the age of the newest record in milliseconds |
| HealthFacts.ScoreIs | aws-dashboard/backend/car_health_api/lambda_function.py:379-388 | The score is 100 less the cost of each warning, not below 0, and the level follows from the points lost |
| HealthFacts.StatusIs | aws-dashboard/backend/car_health_api/lambda_function.py:297-310 | The status by reported link and age, and the age in full seconds |
| HealthFacts.CodesAre | aws-dashboard/backend/car_health_api/lambda_function.py:360-365 | The report holds exactly the valid codes of the three lists, each once |
| HealthFacts.CleanListsAre | aws-dashboard/backend/car_health_api/lambda_function.py:361-364 | Each list of the telemetry is replaced by its own valid codes |
| Maintenance.SeriesMethod | aws-dashboard/backend/car_health_api/lambda_function.py:404-410 | The numeric values of a field, oldest first |
| MaintenanceFacts.SeriesCounts | aws-dashboard/backend/car_health_api/lambda_function.py:404-410 | A series has one value for each record with a number, and as many out of range as there are such records |
| MaintenanceFacts.SeriesEnds | aws-dashboard/backend/car_health_api/lambda_function.py:404-410 | It begins with the oldest reading and ends with the newest |
| MaintenanceFacts.CoolingIs | aws-dashboard/backend/car_health_api/lambda_function.py:436-462 | Each of the five cooling conditions, exactly, by merged coolant, number of hot records and rise |
| MaintenanceFacts.ChargingIs | aws-dashboard/backend/car_health_api/lambda_function.py:468-493 | Each of the five charging conditions, exactly, by merged voltage, engine speed and number of records out of range |
| MaintenanceFacts.FuelAirIs | aws-dashboard/backend/car_health_api/lambda_function.py:499-528 | Each of the four fuel and air conditions, exactly, by the merged trims and whether any were read |
| MaintenanceFacts.DiagnosticsAndDataAre | aws-dashboard/backend/car_health_api/lambda_function.py:534-561 | Each diagnostics and data-quality condition, exactly, by trouble codes, link, age and share of failed requests |
| MaintenanceFacts.FindingsAre | aws-dashboard/backend/car_health_api/lambda_function.py:463-576 | Which finding stands for which system, and on how many readings it rests |
| Maintenance.Worst | aws-dashboard/backend/car_health_api/lambda_function.py:585 | The overall condition occurs among the findings and ranks highest |
| Maintenance.ActionableCounts | aws-dashboard/backend/car_health_api/lambda_function.py:586 | The actionable systems are as many as findings rank OBSERVE or higher |
| Maintenance.PerfectScoreIff | aws-dashboard/backend/car_health_api/lambda_function.py:379 | The score is 100 exactly when there is no warning |
| Maintenance.GoodIff | aws-dashboard/backend/car_health_api/lambda_function.py:379-388 | GOOD exactly for data at most 15 s old, no trouble codes, no hot coolant, no abnormal voltage, no OFFLINE link and at most 10 points lost otherwise |
| HealthAgreement.VitalsUnchanged | aws-dashboard/backend/car_health_api/lambda_function.py:361-364 | Filtering the code lists leaves every other value of the telemetry alone |
| HealthAgreement.TrimAgrees | aws-dashboard/backend/car_health_api/lambda_function.py:510-513 | A trim warning is raised exactly when fuel and air is SERVICE_SOON |
| HealthAgreement.CoolantAgrees | aws-dashboard/backend/car_health_api/lambda_function.py:444-453 | A critical coolant warning exactly when cooling is INSPECT_NOW; a high one only if cooling is at least OBSERVE |
| HealthAgreement.ChargingAgrees | aws-dashboard/backend/car_health_api/lambda_function.py:471-485 | Charging is at least OBSERVE exactly with a voltage warning, or three samples out of range while the engine runs |
| HealthAgreement.DtcAgrees | aws-dashboard/backend/car_health_api/lambda_function.py:534-535 | Trouble codes cost points exactly when diagnostics is at least SERVICE_SOON |
| HealthAgreement.DataQualityOfflineIff | aws-dashboard/backend/car_health_api/lambda_function.py:553-555 | Data quality is INSPECT_NOW exactly for a reported OFFLINE, or no reported state and records over 60 s old |
| HealthAgreement.OfflineDisagreement | aws-dashboard/backend/car_health_api/lambda_function.py:389-396 | Status OFFLINE and data quality disagree exactly when old records carry some other link state |
| HealthAgreement.StaleDisagreement | aws-dashboard/backend/car_health_api/lambda_function.py:553-557 | Status STALE and data quality disagree exactly when records of 16 to 60 s carry some other link state and errors are few |
| HealthAgreement.ErrorsUnseen | aws-dashboard/backend/car_health_api/lambda_function.py:549-557 | Data quality asks for service under a fresh status exactly when more than a tenth of at least 20 requests failed |
| HealthAgreement.OverallAgrees | aws-dashboard/backend/car_health_api/lambda_function.py:585-586 | The overall condition is the highest of the five, and at least OBSERVE exactly when a system is actionable |
| HealthAgreement.QuietMaintenance | aws-dashboard/backend/car_health_api/lambda_function.py:433-586 | With nothing actionable, the only warnings left concern timestamps, fuel level, load, and the age of records with a link state of their own |
| TcpServer.TCPServer.Acknowledge | gateway/lilygo-micropython/tcp_server.py:63-77 | Up to the drain: the acknowledgement depends on nothing but the text of the frame |
| TcpServer.TCPServer.Book | gateway/lilygo-micropython/tcp_server.py:79-93 | From the drain to the next read: count, registry and queue after one frame, and each counted packet belongs to one device, live or evicted |
| TcpServer.TCPServer.Handle | gateway/lilygo-micropython/tcp_server.py:58-98 | A connection that is not interrupted acknowledges, counts and queues its frames in order, up to the one that ends it |
| TcpServer.TCPServer.Record | gateway/lilygo-micropython/tcp_server.py:79-85 | Packet count, last client, last text and the registry after one frame |
| TcpServer.Processed | gateway/lilygo-micropython/tcp_server.py:62-77 | The booked frames are the longest prefix of frames that neither end nor break the connection |
| TcpServer.AcceptedIff | gateway/lilygo-micropython/mqtt_manager.py:31-55 | The queue accepts a message exactly when there is a free place, or one held by telemetry for an event, or one of the same topic for telemetry |
| TcpServer.AcknowledgedIsQueuedIff | gateway/lilygo-micropython/tcp_server.py:67-93 | An acknowledged message is taken over by the queue exactly when the acknowledgement got out, the JSON is an object and the queue has a place for it; otherwise the queue stays as it was |
| TcpServer.GarbageAcknowledged | gateway/lilygo-micropython/tcp_server.py:67-77 | Text that is not JSON is acknowledged and never queued |
| ServerRuns.QueueRuns | gateway/lilygo-micropython/tcp_server.py:58-98 | Whatever the connections do, the publish queue goes through a run of the queue model |
| ServerRuns.OffersAreBooked | gateway/lilygo-micropython/tcp_server.py:79-93 | Over every interleaving the messages offered are the JSON objects among the booked frames, in the order of booking |
| ServerRuns.AcknowledgementsBalance | gateway/lilygo-micropython/tcp_server.py:76-79 | Acknowledgements are booked frames, connections still draining, and connections that broke on one |
| ServerRuns.ConnectionsKeepOrder | gateway/lilygo-micropython/tcp_server.py:62-93 | Each connection has its frames booked in the order of acknowledgement, all but perhaps the last |
| ServerRuns.TelemetryRefused | gateway/lilygo-micropython/mqtt_manager.py:50-54 | A run of the server: a client sends 20 events and a fast message, which is acknowledged, booked and dropped |
| Framing.UpToNewline | gateway/lilygo-micropython/tcp_server.py:122 | The part before the first newline, or everything |
| Framing.StreamReader.Read | gateway/lilygo-micropython/tcp_server.py:113-119 | A read takes what the schedule brings, at most the asked size, or stalls |
| Framing.ReadMessage | gateway/lilygo-micropython/tcp_server.py:100-126 | For every schedule: the bytes taken and the frame are those of the chunk-by-chunk specification, at most 4096 bytes |
| Framing.SteadyTaken | gateway/lilygo-micropython/tcp_server.py:108-126 | Without a stall the reading ends only at a newline, at 4096 bytes or at the end |
| Framing.FrameIsMessageIff | gateway/lilygo-micropython/tcp_server.py:100-126 | Under every schedule without stalls a newline-free message is returned whole exactly when it has at most 4096 bytes |
| Framing.ConnectionDelivers | gateway/lilygo-micropython/tcp_server.py:100-126 | A complete or broken connection yields a prefix of the message, and all of it when unbroken and short enough |
| Framing.PacketIs | gateway/lilygo-micropython/tcp_server.py:103-126 | A packet without a newline is returned as far as it came in before the timeout, whole exactly if all of it came in and it has at most 4096 bytes |
| Framing.RestSafeIff | gateway/lilygo-micropython/tcp_server.py:121-123 | No chunking takes bytes behind the newline exactly when there are none or the message leaves no room for them |
| Framing.SecondFrameLost | gateway/lilygo-micropython/tcp_server.py:121-123 | Two frames in one chunk: the first is returned and the second is gone |
| Framing.GatewayClient.SendAll | esp-obd2-client/main/gateway_client.c:47-56 | For every partial write, success means that all bytes were sent in order, failure a prefix |
| Framing.GatewayClient.Connect | esp-obd2-client/main/gateway_client.c:22-45 | A connection starts empty, and a failed one leaves none open |
| Framing.GatewayClient.Attempt | esp-obd2-client/main/gateway_client.c:63-80 | One attempt puts a prefix of the frame on its connection, and all of it when it succeeds |
| Framing.GatewayClient.Send | esp-obd2-client/main/gateway_client.c:58-84 | At most two connections, each carrying a prefix of the frame and nothing else; success means that the last carries all of it |
| Framing.Deliver | esp-obd2-client/main/gateway_client.c:58-84 | Sent and received: on success the gateway gets the message under every schedule without stalls exactly if it has at most 4096 bytes, and never anything else |
| Dtc.FormatInjective | esp-obd2-client/main/obd2_source.c:254-264 | Two byte pairs have the same code exactly when they are equal |
| Dtc.FormatIs | esp-obd2-client/main/obd2_source.c:254-264 | Every character of a code from the bits of the two bytes |
| Dtc.AppendUnique | esp-obd2-client/main/obd2_source.c:266-283 | The buffer gains the code exactly when it is acceptable, new, and there is room |
| Dtc.ReadPairs | esp-obd2-client/main/obd2_source.c:311-314 | The inner loop appends the pairs of one frame in order |
| Dtc.Receive | esp-obd2-client/main/obd2_source.c:294-315 | Stopping early at a full buffer changes nothing: the result is that of all frames |
| Dtc.QueryDtcMode | esp-obd2-client/main/obd2_source.c:285-317 | The list is what all pairs of all answering frames leave, or empty if the request was not sent |
| Dtc.CollectsFirstDistinct | esp-obd2-client/main/obd2_source.c:266-315 | That list is the codes of the first 12 distinct acceptable pairs in order of arrival |
| Dtc.ContributesIff | esp-obd2-client/main/obd2_source.c:298-310 | Which frames contribute pairs |
| Dtc.PairAt | esp-obd2-client/main/obd2_source.c:312-313 | Which bytes make each pair |
| Dtc.DistinctHas | esp-obd2-client/main/obd2_source.c:269-277 | Which pairs are collected |
| Dtc.DistinctInOrder | esp-obd2-client/main/obd2_source.c:274-281 | Collected pairs stand in the order of their first arrivals |
| Dtc.PaddingReadIff | esp-obd2-client/main/obd2_source.c:308-314 | A byte behind the payload is read as part of a code exactly when the payload is even and the frame is longer |
| Dtc.NoCodesIff | esp-obd2-client/main/obd2_source.c:308-314 | An answer without codes leaves the list empty exactly when the padding is 0 or 255, or there is none |
| Dtc.PhantomCode | esp-obd2-client/main/obd2_source.c:308-314 | With padding 0x55 the answer without codes becomes P0055, which the cloud keeps |
| Dtc.ValidDtcCodes | aws-dashboard/backend/car_health_api/lambda_function.py:121-135 | The loop returns the specified filter; anything but a list gives no codes |
| Dtc.Cleaned | aws-dashboard/backend/car_health_api/lambda_function.py:126-135 | All codes returned are well-formed and pairwise distinct |
| Dtc.CleanedHas | aws-dashboard/backend/car_health_api/lambda_function.py:126-135 | A code is returned exactly when it is valid and some item stands for it |
| Dtc.CleanedFixesExactlyValid | aws-dashboard/backend/car_health_api/lambda_function.py:126-135 | A list is returned unchanged exactly when its codes are valid and distinct |
| Dtc.CleanedIdempotent | aws-dashboard/backend/car_health_api/lambda_function.py:126-135 | Filtering twice is filtering once |
| Dtc.FilterAccepts | aws-dashboard/backend/car_health_api/lambda_function.py:128-132 | Exactly which byte pairs the cloud accepts, and that it accepts all that the firmware sends |
| Dtc.PipelineKeepsCodes | esp-obd2-client/main/obd2_source.c:285-317 | Whatever frames arrive, the cloud keeps the firmware's list as it is |
| PidDiscovery.TestBitExact | esp-obd2-client/main/obd2_source.c:177-184 | The shift test reads exactly the bit that Annex A of ISO 15031-5 assigns to the PID, for all 32 offsets |
| PidDiscovery.OneWindowEach | esp-obd2-client/main/obd2_source.c:148-162 | Each PID of the table lies in exactly one window, at a shift of 0 to 31 |
| PidDiscovery.TableMatchesQueries | esp-obd2-client/main/obd2_source.c:148-160 | Each field is discovered once, under the very PID with which the read functions query it (lines 216-249) |
| PidDiscovery.FirstReply | esp-obd2-client/main/obd2_source.c:171-176 | The reply used is well formed and for the base asked, and there is none only if no frame is |
| PidDiscovery.FirstReplyIsFirst | esp-obd2-client/main/obd2_source.c:171-186 | The first of several replies counts |
| PidDiscovery.ReplyIs | esp-obd2-client/main/obd2_source.c:174-176 | Which frames are replies |
| PidDiscovery.AddRows | esp-obd2-client/main/obd2_source.c:180-185 | One reply adds exactly the advertised fields of its window |
| PidDiscovery.DiscoverSupportedPids | esp-obd2-client/main/obd2_source.c:146-192 | The mask has a bit exactly when it is MIL or the reply of its window advertises the PID; silent windows add nothing |
| ClientRuns.RunDecodes | esp-obd2-client/main/obd2_source.c:134-144 | In every run a field is valid exactly when some due read of its group decoded it while supported, and then the snapshot holds the last value decoded |
| ClientRuns.RunMaskGrows | esp-obd2-client/main/obd2_source.c:139-144 | Valid fields stay valid and are supported |
| ClientRuns.GroupsAre | esp-obd2-client/main/obd2_source.c:213-252 | Which fields each read function reads |
| ClientRuns.RunNumbers | esp-obd2-client/main/app_main.c:43 | Sequence numbers grow strictly from message to message |
| ClientRuns.RunConsecutive | esp-obd2-client/main/app_main.c:43 | Messages are numbered from 1 without holes as long as none fails while it is printed |
| ClientRuns.RunSendsDecodes | esp-obd2-client/main/app_main.c:63-242 | Exactly which messages a pass sends and what each holds: every field of its kind ever decoded by then, with the last value, whether or not the query of this pass succeeded |
| ClientRuns.OmitsFailedIff | esp-obd2-client/main/obd2_source.c:139-144 | A message omits the fields whose queries failed exactly when every field of the group that was ever decoded is decoded again in this pass |
| ClientRuns.TimedOutStillSent | esp-obd2-client/main/obd2_source.c:139-144 | A run of two passes: the engine speed times out and its old value is sent |
| ClientRuns.RunAcks | esp-obd2-client/main/app_main.c:199-204 | In every run what is remembered of a signal is what was acknowledged last, or zero, unless the extended group sent something since |
| ClientRuns.TickFast | esp-obd2-client/main/app_main.c:192-204 | After a pass either a due fast message was not acknowledged and nothing is taken for sent, or every fast signal is within its deadband of the value acknowledged last; which of the two is exactly whether a signal is still due |
| ClientRuns.FastAfterEveryPass | esp-obd2-client/main/app_main.c:191-242 | The same after every pass of every run |
| ClientRuns.FastQuietIff | esp-obd2-client/main/app_main.c:194-198 | A fast message is due exactly when one of the four signals drifts by its own threshold |
| ClientRuns.SlowQuietIff | esp-obd2-client/main/app_main.c:210-218 | A slow message is due exactly when one of the five signals drifts by its own threshold |
| ClientRuns.FastKnownIff | esp-obd2-client/main/app_main.c:194-204 | After a pass every decoded fast signal is known to the gateway exactly when a message is due and acknowledged, or all decoded by then were known before |
| ClientRuns.SpeedNeverSent | esp-obd2-client/main/app_main.c:194-204 | A run with all messages acknowledged in which a decoded speed was never sent |
| ClientRuns.TickSlow | esp-obd2-client/main/app_main.c:206-228 | After a pass that reads the slow group: a due message failed, or every slow signal is close to the acknowledged value exactly if it is close to what the extended group had acknowledged |
| ClientRuns.SlowAfterEveryFifthPass | esp-obd2-client/main/app_main.c:206-235 | The same after every fifth pass of every run |
| ClientRuns.SlowSafeIff | esp-obd2-client/main/app_main.c:210-235 | Before the next reading: every reading that is not due is close to the acknowledged value exactly when some signal was never remembered, or the extended group had only the remembered values acknowledged |
| ClientRuns.SlowDrifts | esp-obd2-client/main/app_main.c:206-235 | A run of 35 passes: the car reads 90 degrees, nothing is due, and the gateway holds 120 |
| ClientLoop.TelemetryTask.constructor | esp-obd2-client/main/app_main.c:171-190 | The snapshot starts at zero with nothing valid, remembered or sent |
| ClientLoop.TelemetryTask.ReadOne | esp-obd2-client/main/obd2_source.c:139-144 | Only a successful decode of a supported field changes its value and its bit |
| ClientLoop.TelemetryTask.ReadGroup | esp-obd2-client/main/obd2_source.c:213-252 | The reads of one group, in any order, are one step of the specification |
| ClientLoop.TelemetryTask.Publish | esp-obd2-client/main/app_main.c:27-124 | A message holds the valid fields of its kind with their current values under the next number; building, printing and acknowledgement decide what else changes |
| ClientLoop.TelemetryTask.IsDue | esp-obd2-client/main/app_main.c:194-198 | The deadband test fires exactly when some watched signal is not close to its remembered value |
| ClientLoop.TelemetryTask.SampleAndSend | esp-obd2-client/main/app_main.c:192-204 | Read, compare, send and remember: the whole new state |
| ClientLoop.TelemetryTask.SlowPart | esp-obd2-client/main/app_main.c:206-228 | Every fifth pass the slow group: the whole new state |
| ClientLoop.TelemetryTask.ExtendedPart | esp-obd2-client/main/app_main.c:229-235 | Every 30th pass the extended group, sent without being remembered: the whole new state |
| ClientLoop.TelemetryTask.DiagnosticPart | esp-obd2-client/main/app_main.c:236-240 | Every 60th pass two messages that carry no signal: the whole new state |
| ClientLoop.TelemetryTask.Tick | esp-obd2-client/main/app_main.c:191-242 | One pass on the variables is one pass of the specification |
| ClientLoop.Operate | esp-obd2-client/main/app_main.c:171-243 | The telemetry loop carries out every run, so all results about runs hold of its variables |
| Logger.GatewayLogger.constructor | gateway/lilygo-micropython/logger.py:7-10 | The log starts empty |
| Logger.GatewayLogger.Add | gateway/lilygo-micropython/logger.py:12-18 | The retained log gains the entry and drops the oldest one when full |
| Logger.GatewayLogger.Entries | gateway/lilygo-micropython/logger.py:30-43 | The last min(max(0, limit), length) entries in order, across wrap-around |
| Logger.GatewayLogger.Trim | gateway/lilygo-micropython/logger.py:45-57 | Exactly the last `keep` entries stay, and the buffer can be refilled |
| Logger.ReadAt | gateway/lilygo-micropython/logger.py:36-40 | The modular index reads the right item of the unrolled log |
| Logger.OverwriteFull | gateway/lilygo-micropython/logger.py:17-18 | Overwriting one slot and advancing is appending to a bounded sequence |
| Logger.RunIsSuffix | gateway/lilygo-micropython/logger.py:12-57 | After any additions and trims the log is a suffix of all entries ever added, of known length within the capacity |
| Logger.Perform | gateway/lilygo-micropython/logger.py:12-57 | The ring buffer carries out any such run |
| Timestamps.FormatOrder | gateway/lilygo-micropython/utils.py:20-25 | Comparing two timestamps as texts compares the times |
| Timestamps.FormatIs | gateway/lilygo-micropython/utils.py:23-25 | Each field of the timestamp with its digits and separator |
| Devices.TotalWithout | gateway/lilygo-micropython/device_manager.py:35-50 | Removing a device removes its packets from the total |
| Devices.OldestIsLeastRecent | gateway/lilygo-micropython/device_manager.py:42-50 | While timestamps do not go back, a device updated before the evicted one carries the same timestamp |
| Devices.OldestInTime | gateway/lilygo-micropython/device_manager.py:42-50 | After any messages the evicted device was updated no later in time than any other, although texts are compared |
| Devices.Replay | gateway/lilygo-micropython/device_manager.py:13-50 | After any messages under any clock: bound and packet counts hold, each device shows the time of its last message, and timestamps never went back exactly if the clock never did |
| Devices.UpdatedMeans | gateway/lilygo-micropython/device_manager.py:23-36 | What the updated device shows, and that every other one stays as it was |
| Devices.IdentityIs | gateway/lilygo-micropython/device_manager.py:16-20 | Id and name with their fallbacks |
| Devices.ForgetKeepsOk | gateway/lilygo-micropython/device_manager.py:49-50 | Eviction keeps order and packet accounting |
| Devices.RememberKeepsOk | gateway/lilygo-micropython/device_manager.py:29-36 | An update keeps order and packet accounting |
| Devices.DeviceManager.FindOldest | gateway/lilygo-micropython/device_manager.py:43-48 | The loop finds a device that no other precedes, in any order of the dictionary |
| Devices.DeviceManager.EvictOldest | gateway/lilygo-micropython/device_manager.py:42-50 | Exactly that device is removed |
| Devices.DeviceManager.Update | gateway/lilygo-micropython/device_manager.py:13-36 | The registry after one message: who is evicted, what is stored, one packet more, and never more devices than the capacity |

## Left out

- UART and AT commands, certificates, bearer and Wi-Fi bring-up, the CAN driver and sockets: a publish,
  read or query succeeds or fails freely, and received frames are given.
- Reconnect delays, back-off, state texts, last error, the command counters and the contents of a command
  response: they do not touch the queue.
- `enqueue` of JSON that is not an object: it raises, and `TcpServer` models the handler that catches it.
- TcpServer.TCPServer.Handle: runs one connection without interruption; other connections and the
  publisher may act while it reads or drains, and `ServerRuns` covers every such interleaving on the
  specification.
- The modem's receive buffer and the JSON of a command: `CommandEvents` starts at the assembled block.
- JSON parsing and printing, including key order and numbers as text.
- Floating-point rounding, NaN and infinities, `round` in the reports, evidence texts and
  recommendations.
- Health.HealthMethod: returns the filtered telemetry as a new map, so the aliasing of the dictionary
  that the source changes in place is not captured.
- Health: a link state that is a number or a list is shown as one fixed text, which no rule asks for.
- Unicode white space, case mapping and the digits that `int()` accepts beyond ASCII.
- Wrap-around of the sequence number and of tick counters.
- ClientRuns: PID scaling formulas, the simulator mode, the time since the last success and the contents
  of diagnostics messages.
- PidDiscovery.DiscoverSupportedPids: takes the frames received before each deadline as given.
- Logger: the clock, the console output and a capacity below one.
- Packet rate, receive timestamps, supervisor, connection close and the HTTP dashboard of the gateway.
- DynamoDB queries, routing, history and static files of the API, and the page that renders them.
