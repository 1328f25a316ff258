# InfiniBand exporter: a verified model of the collection engine

The exporter answers each scrape by running command-line tools against an InfiniBand fabric and turning their text
into metrics. This project models what happens in between and proves it, for all texts, all fabrics and all
interleavings:

* **ibswinfo** (`FullReport`, `Vitals`, `StaticCache`, `IbswinfoCollect`, with `FullReportLines`). A cold scrape
  parses a long report with a stateful parser and fills a cache; a warm scrape parses a shorter text and puts the
  cached fields back. Main results: both parsers read back what was printed for every hardware state, and the full one
  fails *if and only if* some reading is no number (`Hardware`, `FullRoundTrip`, `VitalsRoundTrip`, `Printed`); over
  every run of scrapes the cache is exactly the last full parse of each switch still present, a scrape is warm *if and
  only if* that parse is younger than the TTL, and a warm report is what a full scrape would report *if and only if*
  every reading is a number and nothing that vitals omits has changed (`WarmScrape`); a concurrent scrape, in which
  each goroutine looks up its entry in the middle of the run, is one such run whatever its schedule.
* **The bounded fan-out** (`FanOut`, `FanOutProofs`, `FanOutLoads`, `FanOutClock`, `Schedule`, `ScrapeTime`). A step
  relation with the token channel, the wait group, the mutex (entering, loading, storing and leaving are separate
  steps), atomic totals, and close. Main results: safety in every reachable state, no deadlock, a bound on the length
  of every run, equality with the sequential loop for every interleaving, also when each goroutine first reads the
  shared table (`FanOutLoads`), and, with a clock, a tight bound on when each device starts (`FanOutClock`). The port
  counters (`PerfCollect`) and ibswinfo (`IbswinfoCollect`) are two instances; the HCA collector runs the same program
  as the switch collector.
* **perfquery** (`Retry`, `Perfquery`, `PerfqueryProofs`, `Emission`, `Samples`). The retry loop, the per-port parser,
  and the emission of samples. Main results: the parser composes and reads back any blocks; on any text it counts the
  lines that give a counter no number, and a port's samples are the last readings made while it was selected; for every
  schedule one scrape raises the totals by exactly the sum of the devices' accounts; with both queries on, no sample is
  emitted twice *if and only if* no two outputs of a device set the same counter of the same port.
* **ibnetdiscover** (`Ibnetdiscover`, `TopologyFold`, `TopologyOrder`, `TopologyLines`, `TopologyRoundTrip`,
  `PortState`, `TopologyCache`). The topology parser, with the rejoining of quoted names, and the process-wide cache.
  Main results: on any text, which lines fail and which panic, the first of them deciding; any printed fabric, with
  ports that name no peer or are unplugged, parses back to itself, whatever the order and the white space of its
  lines, *if and only if* every line about a link can be read; one `port_state` sample per line; for every
  interleaving a call to `GetPorts` returns the last whole store *if and only if* that is younger than the TTL, and
  its own run otherwise.
* **anonymize.sh** (`Anonymize` and the ten files beside it). Substitutions one after the other in the whole text.
  Main results: on GUIDs every order equals one simultaneous renaming *if and only if* no source is the generated
  number of another; the anonymised dump of a fabric parses to that fabric renamed *if and only if* its lines can be
  read and no harvested name is shown with two paddings.

Conventions: a number that is not a number (NaN) is `None`, other numbers are `real`, text is a sequence of runes, time
is a natural number or an integer. Running a tool is an oracle: it gives output, a timeout or an error. The order in
which Go ranges over a map is arbitrary: lists are described as enumerations, and loops over maps pick any element.
Concurrent programs are step relations; everything else that updates variables is a method, proved against a function,
and the lemmas are about that function.

Where the code and its comments disagree, the code is modelled. A device whose base query fails has no entry in the
metrics table (`PerfCollect.MetricsOfScrape`), so its `up` is not claimed to be 0. A topology line of exactly five
fields indexes out of range, and so does a line about a link whose rate and names can be read, that names an uplink and
has fewer than eleven fields: both are the outcome `Panic`, not a precondition (`TopologyLines.LineStopsIff`). The rate
is looked at before the names, so a line whose pair of names comes right after five words fails instead
(`TopologyLines.LatePairFails`). An HCA with a link and a later line without a peer reports the rate of that later line.
The full parser knows single-digit power supplies only. Both caches are stamped after the tool has run, so the age
proved below the TTL is the age of the store. `anonymize.sh` promises that one source always gets one name, but takes a
name for another when only its padding differs, while the topology parser trims both.

What does not hold for every input is given with its exact condition, and with an input that fails:

* the full report of a printed state is parsed iff every reading is a number (`Printed.FullTextRoundTrip`); a fan speed
  that is none, which vitals accepts (`WarmScrape.UnreadableFanIsMissed`);
* a warm report is what a full scrape reports iff every reading is a number, the static fields and the statuses have not
  changed and vitals lists every supply (`WarmScrape.WarmScrapeRefinesFull`, `WarmScrape.WarmAgreesOverRuns`); a firmware
  upgrade the warm report does not show (`WarmScrape.UpgradeIsMissed`); a supply with a two-digit id makes the modes
  differ, whatever the texts (`WarmScrape.LongIdsNeverAgree`, `WarmScrape.TenthSupplyIsMissed`);
* a line fails iff it is about a link and its rate or its names cannot be read, and panics iff it has five fields or
  names an uplink too early (`TopologyLines.LineStopsIff`); a line of each kind (`TopologyLines.FiveFieldsPanic`,
  `TopologyLines.EarlyPairPanics`, `TopologyLines.LatePairFails`);
* a printed fabric is read back iff each line about a link has a known rate and each line without a peer a name without
  parentheses (`TopologyRoundTrip.DrawingRoundTrip`, `TopologyRoundTrip.FabricRoundTrip`); lines without
  (`TopologyLines.RatesOfLanes`, `TopologyLines.PeerlessLine`);
* samples are unique iff the outputs do not overlap (`Samples.SamplesAreUniqueIff`); a device whose outputs do
  (`Samples.OverlapHappens`);
* the order of the GUID substitutions is irrelevant iff no source is the number of another
  (`AnonymizeGuids.AnyOrderIffNoChain`); a text in which one is (`AnonymizeChain.NumberOfAnotherSource`);
* the anonymised dump is the renamed fabric iff its lines can be read and no harvested name is shown with two paddings
  (`AnonymizeMeaning.AnonymisedFabric`); a dump on which it is under no renaming (`AnonymizePadding.LeafTwice`,
  `AnonymizePadding.LeafTwiceHappens`);
* for a limit that is not negative, the fan-out ends iff the limit is at least one or there is no device
  (`FanOutProofs.FanOutNeverDeadlocks`).

`dafny verify dfyconfig.toml` checks the project.

## Model

| member | source | states |
|---|---|---|
| `FullReport.ParseIbswinfo` | collectors/ibswinfo.go:405-532 | The imperative full parser computes the fold of its rows, and fails exactly when some row is fatal: a temperature or power row whose value is no number, or a fan row whose value is neither empty nor a number, in no unreadable uptime row. |
| `FullReport.RunFails` | collectors/ibswinfo.go:436-523 | From any state the scan of any rows fails if and only if one of them is fatal, wherever it stands: no row before it can save or hide it. |
| `FullReportLines.ItemsOfLine` | collectors/ibswinfo.go:416-425 | For any line: it is a divider iff it begins with five dashes, and a row of this key and value iff it has exactly one bar and they are the trimmed texts before and behind it. |
| `FullReportLines.HeaderIsLeftmost` | collectors/ibswinfo.go:414 | For any key, the id of a header is the digit of the leftmost `PSU`, digit, ` status` anywhere in it, and there is none iff these are nowhere. (With collectors/ibswinfo.go:462-464.) |
| `FullReportLines.FanIsLeftmost` | collectors/ibswinfo.go:415 | For any key, the id of a fan is all digits behind the leftmost `fan#` that has some, and there is none iff no `fan#` has. (With collectors/ibswinfo.go:502-506.) |
| `FullReportLines.ClockIsRead` | collectors/ibswinfo.go:436-459 | One or two digits of hours below 24, two of minutes and seconds below 60 are that many seconds; a fraction behind a point or a comma counts in its first nine digits. |
| `FullReportLines.OnlyClocksAreRead` | collectors/ibswinfo.go:436-459 | Nothing else is a time of day. |
| `FullReportLines.UptimeIsRead` | collectors/ibswinfo.go:436-459 | Before the only dash stand the days, their first `d` dropped, 86400 seconds each; without a dash there is a time of day only. |
| `FullReportLines.SecondHeader` | collectors/ibswinfo.go:460-489 | A second header of a supply begins its record afresh, unless its value is empty: then the record goes on. |
| `Numbers.DecimalRoundTrip` | collectors/ibswinfo.go:479 | Digits, a point and digits, signed or not, are read as the number they write, each digit behind the point a tenth of the one before. |
| `Numbers.ParsesIffDecimal` | collectors/ibswinfo.go:479 | A text is a number iff it is digits with at most one point, and at most one sign in front. |
| `Numbers.ThreeDecimals` | collectors/ibswinfo.go:479 | `71.25` and `-0.5` are read as these numbers, `1.2.3` is none. |
| `Text.SpacesAre` | collectors/ibswinfo.go:424-425 | White space is the twenty-five code points with the property White_Space, and nothing else. |
| `FullReport.ScanRow` | collectors/ibswinfo.go:424-523 | One row of a key and a value: the `continue`s on an unreadable uptime or an empty fan speed, and the early error returns, leave exactly the state of the specification. |
| `FullReport.ScanPsu` | collectors/ibswinfo.go:460-489 | The power-supply part of a row: the header sets the current id, other rows update the stored record, nothing is stored after the fourth divider. |
| `FullReport.ScanTempAndFans` | collectors/ibswinfo.go:490-523 | The temperature, chassis fan status and fan rows, with their error cases. |
| `FullReportProofs.ScalarsAreLastRows` | collectors/ibswinfo.go:426-459 | In any report each static field is the value of its last row, the chassis fan status that of the last one after the fourth divider, the uptime that of the last row that parses, the fans those of the fan rows in order. (With collectors/ibswinfo.go:490-523.) |
| `FullReportProofs.PsuRowsFollowTheirHeader` | collectors/ibswinfo.go:412-531 | For any text made of power-supply blocks with distinct ids between other rows, each `DC power`, `fan status` and `power (W)` lands on the nearest preceding header, and nothing after the fourth divider touches a supply. |
| `FullReportProofs.RecordsAreTheBlocks` | collectors/ibswinfo.go:460-489 | The table of supplies holds one record for each block, with that block's last values, and no other. (With collectors/ibswinfo.go:525-528.) |
| `FullReportProofs.IdsAreSingleDigits` | collectors/ibswinfo.go:414 | Every id the full parser can record is one digit, for any text. (With collectors/ibswinfo.go:462-464.) |
| `Ibswinfo.ListSupplies` | collectors/ibswinfo.go:525-529 | Ranging over the table in any order lists each supply once, under its id. |
| `Vitals.ParseVitals` | collectors/ibswinfo.go:549-612 | The imperative vitals parser computes the fold of its lines; unreadable numbers are skipped, never an error. |
| `VitalsRoundTrip.VitalsAreLastLines` | collectors/ibswinfo.go:549-612 | For any text, uptime and temperature are the last lines of their key that hold a number, a supply is listed iff some line names it and has the value of its last line, and the fans are the fan lines in order. |
| `VitalsRoundTrip.KeysAreExact` | collectors/ibswinfo.go:551-552 | For any key: it lists a supply or a fan iff it is the prefix, some digits and the suffix, and nothing else. |
| `FullRoundTrip.UptimeRoundTrip` | collectors/ibswinfo.go:436-459 | For every number of seconds, the days-hours-minutes-seconds form parses to that number. |
| `FullRoundTrip.FullLinesRoundTrip` | collectors/ibswinfo.go:405-532 | For every hardware state whose readings are numbers the printed full report parses to exactly that state. |
| `VitalsRoundTrip.VitalsLinesRoundTrip` | collectors/ibswinfo.go:549-612 | For every hardware state, its readings numbers or not, and whichever supplies the tool lists, the printed vitals parse to its readings: a listed supply without a reading is NaN, a supply not listed is absent. |
| `Printed.FullTextRoundTrip` | collectors/ibswinfo.go:405-532 | Any text that prints a hardware state, with quiet lines (titles, blank and comment lines, an unreadable uptime) anywhere in it, parses if and only if every reading is a number, and then to exactly that state. |
| `Printed.VitalsTextRoundTrip` | collectors/ibswinfo.go:549-612 | Any vitals text of a hardware state, with quiet lines anywhere, parses to its readings, whether they are numbers or not. |
| `Printed.PrintedTextsExist` | collectors/ibswinfo.go:405-612 | Every hardware state has such texts, whichever supplies vitals lists, so the round trips are about something. |
| `StaticCache.Cache.constructor` | collectors/ibswinfo.go:81 | The cache begins empty. |
| `StaticCache.Cache.UseVitalsForGUID` | collectors/ibswinfo.go:242-256 | Vitals is chosen exactly when the TTL is positive, there is an entry, and its age is below the TTL; the entry is then handed out. |
| `StaticCache.Cache.ScrapeDevice` | collectors/ibswinfo.go:272-347 | One goroutine body: which mode runs, what each failure counts, what is merged, what is stored and when nothing is. |
| `StaticCache.Cache.Evict` | collectors/ibswinfo.go:354-366 | After a scrape exactly the entries of that scrape's devices are left, unchanged; with the cache disabled nothing happens. |
| `StaticCache.MakeEntry` | collectors/ibswinfo.go:318-335 | The stored entry has each static field of the report, the status strings of each of its supplies in order, and the time of the store. |
| `StaticCache.Reattach` | collectors/ibswinfo.go:295-313 | The merge keeps the vitals readings and takes the static fields, and the status of each supply found by id, from the cache. |
| `StaticCache.CacheIsCoherent` | collectors/ibswinfo.go:242-346 | Over every run, a switch has an entry iff it had a full parse since it last was absent, and the entry has the fields of the last one and the time at which that was stored: failed runs, failed parses and vitals scrapes change nothing. (With collectors/ibswinfo.go:354-366.) |
| `StaticCache.DisabledCacheStaysEmpty` | collectors/ibswinfo.go:244-246 | With a TTL of zero or less nothing is ever stored. (With collectors/ibswinfo.go:317.) |
| `StaticCache.ModeIsDecided` | collectors/ibswinfo.go:242-256 | Which mode a scrape takes, from the events alone: over every run, vitals if and only if the TTL is positive, the switch has a last full parse, and that was younger than the TTL when the mode was chosen. |
| `StaticCache.TurnIsCounted` | collectors/ibswinfo.go:279-345 | A timeout counts one timeout, a failed run or a full text with a fatal row one error, and exactly the other runs give a report; a vitals text always does. |
| `StaticCache.WarmReportsAreFreshEnough` | collectors/ibswinfo.go:242-256 | Over every run, a vitals report is the vitals parse of its text with the static fields and the supply statuses of the last full parse of that switch put back, and that parse was younger than the TTL when the mode was chosen. (With collectors/ibswinfo.go:290-314.) |
| `WarmScrape.MergeEnumerates` | collectors/ibswinfo.go:303-313 | The merged list enumerates the vitals supplies with the cached statuses, whatever the order of either list. |
| `WarmScrape.WarmScrapeRefinesFull` | collectors/ibswinfo.go:288-337 | Through both parsers and the merge, a full scrape reports and a warm one reports the same (supplies up to order) if and only if every reading is a number, the static fields and statuses are unchanged and vitals lists every supply, with a reading or a blank. (With collectors/ibswinfo.go:405-532 and collectors/ibswinfo.go:549-612.) |
| `WarmScrape.WarmAgreesOverRuns` | collectors/ibswinfo.go:242-346 | Over every run of scrapes, a warm scrape reports, and a full scrape at that moment would report the same (supplies up to order) if and only if every reading is a number, neither the static fields nor the statuses have changed since the last full parse of that switch, and vitals lists every supply. (With collectors/ibswinfo.go:405-612.) |
| `WarmScrape.LongIdsNeverAgree` | collectors/ibswinfo.go:414 | If vitals lists an id that is not one character, the two modes differ for any texts and any cache. (With collectors/ibswinfo.go:551.) |
| `WarmScrape.TenthSupplyIsMissed` | collectors/ibswinfo.go:414 | A concrete such id. (With collectors/ibswinfo.go:551.) |
| `WarmScrape.UpgradeIsMissed` | collectors/ibswinfo.go:295-302 | Concrete texts before and after a firmware upgrade for which the warm report shows the old version and differs from the full one. |
| `WarmScrape.UnreadableFanIsMissed` | collectors/ibswinfo.go:512-523 | A concrete fan row on which the full scrape fails, while the vitals line of the same fan is a fan without a speed. (With collectors/ibswinfo.go:590-602.) |
| `IbswinfoCollect.CacheOfScrape` | collectors/ibswinfo.go:261-351 | For every schedule of one scrape, each goroutine looking up its entry at some step of the run, the cache ends as if the switches had taken their turns one by one. |
| `IbswinfoCollect.ConcurrentScrapeIsARun` | collectors/ibswinfo.go:261-366 | Any run of scrapes followed by a concurrent one is a run: the turns the lookups decided, then the eviction. So the results over runs hold for concurrent scrapes. |
| `IbswinfoCollect.ScrapeCountsTurns` | collectors/ibswinfo.go:279-287 | For every schedule, one report per successful switch, and each failure counted once in the right total. (With collectors/ibswinfo.go:338-345.) |
| `IbswinfoCollect.ScrapeCountsExecutions` | collectors/ibswinfo.go:279-345 | For every schedule, the error total rises by the number of runs that failed or gave a full text with a fatal row, the timeout total by the number that timed out, and there is one report for each of the others. |
| `FanOutProofs.FanOutSafety` | collectors/switch.go:172-181 | In every reachable state at most `limit` jobs are in flight, the buffered tokens are those jobs plus at most one, two goroutines are never inside the mutex, and at close the channel is empty and every goroutine done with it. (With collectors/switch.go:243-246.) |
| `FanOutProofs.FanOutNeverDeadlocks` | collectors/switch.go:172-181 | A run that cannot go on has returned, if the limit is at least one; with a smaller limit and some device nothing at all happens. (With collectors/switch.go:243-246.) |
| `FanOutProofs.FanOutTerminates` | collectors/switch.go:172-246 | Every run is at most 4 times the number of effects plus 5 steps per device plus 2 long. |
| `FanOutProofs.FanOutIsSequential` | collectors/switch.go:168-248 | Whatever the interleaving, a finished fan-out leaves the rows (as a multiset), table and totals of the sequential loop. |
| `FanOutProofs.SequentialContent` | collectors/switch.go:168-248 | The sequential loop leaves the initial state plus each program's tally, and each key's last written value. |
| `FanOutLoads.OwnEntryUntouched` | collectors/ibswinfo.go:261-351 | In every reachable state, until a goroutine has stored its own entry, the shared table still holds the entry of its key from before the scrape, whatever the others have done. |
| `FanOutLoads.LoadsSeeTheStart` | collectors/ibswinfo.go:242-256 | Hence whenever a goroutine looks, it finds the entry from before the scrape. |
| `FanOutLoads.LoadingFanOutIsSequential` | collectors/ibswinfo.go:261-351 | Whatever the interleaving, also of the lookups, a finished fan-out leaves what the sequential loop leaves in which every device finds the entry from before the scrape. |
| `FanOutLoads.LoadingNeverDeadlocks` | collectors/ibswinfo.go:261-351 | With a limit of at least one, a run with lookups that has not returned can go on. |
| `FanOutLoads.LoadingTerminates` | collectors/ibswinfo.go:261-351 | Every run with lookups is at most 4 times the number of effects of the sequential loop plus 6 steps per device plus 2 long. |
| `Schedule.StartBound` | collectors/switch.go:172-181 | With limit `c` and jobs of at most `T`, job `i` starts by `floor(i/c) * T`; `FanOutClock` proves that the start times of every run of the step relation are such a schedule. |
| `Schedule.FanOutWithinBound` | collectors/switch.go:172-246 | The whole fan-out ends by `ceil(n/c) * T`. |
| `Schedule.BoundIsTight` | collectors/switch.go:172-181 | Jobs that all take `T` start exactly then. |
| `Schedule.ScheduleExists` | collectors/switch.go:172-181 | Any list of durations has such a schedule. |
| `FanOutClock.TimedRunIsASchedule` | collectors/switch.go:172-246 | For every interleaving of a finished run under a clock, and however long its goroutines take, the times at which the loop sends its tokens are the schedule of the times for which the jobs held them. |
| `FanOutClock.TimedFanOutWithinBound` | collectors/switch.go:172-246 | So in every timed run of the step relation job `i` starts by `floor(i/c) * T`, and the last token is back by `ceil(n/c) * T`. |
| `ScrapeTime.ScrapeWithinBudget` | collectors/switch.go:172-246 | In every finished timed run of the step relation in which no goroutine holds its token for longer than its queries take, device `i` starts within `floor(i/c)` rounds and the last token is back within `ceil(n/c)` rounds, a round being the number of queries of a device times `(r+1) * timeout + r * delay`. (With collectors/perfquery.go:51-84.) |
| `ScrapeTime.JobBudgetIsTight` | collectors/switch.go:185-240 | A goroutine all of whose attempts fail after the timeout takes exactly its number of queries times that budget. |
| `Retry.PerfqueryWithRetry` | collectors/perfquery.go:51-84 | At most `max(0, r) + 1` calls; the outcome of the last; retries are calls minus one; it stops at the first success or deadline, and gives up on failures only after all retries. |
| `Retry.QueryWithinBudget` | collectors/perfquery.go:51-84 | Whatever the outcomes, a query takes at most `(r+1) * timeout + r * delay`. |
| `Retry.BudgetIsTight` | collectors/perfquery.go:51-84 | A query whose every attempt fails after the timeout makes all its retries and takes exactly that long. |
| `Perfquery.InitializeCounters` | collectors/perfquery.go:120-130 | Every float field becomes NaN. |
| `Perfquery.PerfqueryParse` | collectors/perfquery.go:132-182 | The imperative parser computes the fold of its lines: one listed record per port, and as many errors as there are lines that name a counter and give it no number. |
| `Perfquery.ErrorsAreBadLines` | collectors/perfquery.go:162-169 | On any lines and from any state, the errors rise by exactly the number of lines that name a counter and give it no number. |
| `Perfquery.ListRecords` | collectors/perfquery.go:178-180 | Ranging over the table in any order lists each record once. |
| `Perfquery.KeysArePorts` | collectors/perfquery.go:146-176 | Every record carries the port it is stored under. |
| `PerfqueryProofs.ParseComposes` | collectors/perfquery.go:132-182 | Parsing two texts one after the other is the union of their records and the sum of their errors, if the second opens by selecting a port and selects none of the first's. |
| `PerfqueryProofs.PerfqueryRoundTrip` | collectors/perfquery.go:132-182 | Any blocks for distinct ports, with unknown lines anywhere, parse without error to one record per block. |
| `PerfqueryProofs.BlockValuesAre` | collectors/perfquery.go:149-174 | In a block's record, four times the value of each `PortXmitData` or `PortRcvData` reading, the value itself of every other, and NaN for each counter not read. |
| `PerfqueryProofs.AllRecordsAre` | collectors/perfquery.go:149-181 | Which ports have a record, and that it is their block's. |
| `PerfqueryProofs.OnlyMentioned` | collectors/perfquery.go:138-177 | For any text, a counter is set only if a line names it, a port recorded only if selected. |
| `PerfqueryProofs.OnlyDataIsScaled` | collectors/perfquery.go:171-173 | Of all counters exactly `PortXmitData` and `PortRcvData` are multiplied, by four. |
| `PerfqueryProofs.NameValueIff` | collectors/perfquery.go:139-145 | A line has a name and a value iff it has exactly one colon, and the value is what stands behind it without its dots. |
| `PerfqueryProofs.RecordedIff` | collectors/perfquery.go:155-176 | A line makes a record for its port iff it names `PortSelect`, a counter with a number, or `device`, the unexported field that reflection finds too. |
| `PerfqueryProofs.DotsGo` | collectors/perfquery.go:145 | Dropping the dots drops every dot and nothing else, piece by piece. |
| `PerfqueryProofs.CountersAreLastReadings` | collectors/perfquery.go:138-177 | For any text, a counter of a port is its last reading while that port was selected, times four for `PortXmitData` and `PortRcvData` only, and not a number without one; and exactly the ports are recorded under which some line is recorded. |
| `Emission.EmitPortCounters` | collectors/port_counters.go:148-160 | The samples are exactly the readings that are numbers, each in the series its counter is published as, with the device and port of the record. (With collectors/port_counters.go:38-123.) |
| `Emission.EmittedAre` | collectors/port_counters.go:148-160 | A sample is emitted iff it is the reading of some definition's field, under that metric, device and port. |
| `Emission.EveryCounterHasItsSeries` | collectors/port_counters.go:38-123 | Each of the 28 counters is emitted under the series written beside it in a table of its own. |
| `Emission.SamplesAreEmitters` | collectors/port_counters.go:148-160 | A series is sampled as often as there are records with a value for it. |
| `Emission.EmittersPermuted` | collectors/switch.go:120-122 | That does not depend on the order of the records. |
| `Samples.LastReadingsAreEmitted` | collectors/perfquery.go:132-182 | From the text to the sample: whatever the output, for each counter and the series it is published as, the series is emitted for a port with a value exactly if that is the counter's last reading while the port was selected. (With collectors/port_counters.go:38-160.) |
| `Samples.TenWordsAreFortyBytes` | collectors/perfquery.go:171-173 | A concrete output: ten words sent by port 1 are the one sample `port_transmit_data_bytes_total`, port 1, 40. (With collectors/port_counters.go:38-40.) |
| `PerfCollect.JobTally` | collectors/switch.go:182-242 | The effects of one goroutine add up to its device's account, read off the outcomes of its queries. |
| `PerfCollect.JobsOwnKeys` | collectors/switch.go:241 | Each goroutine writes only its own device's metrics entry. (With collectors/hca.go:220.) |
| `PerfCollect.FinishedScrapeIsSequential` | collectors/switch.go:168-248 | Schedule independence of the collector's rows, metrics and totals, for devices with distinct GUIDs. (With collectors/hca.go:149-227.) |
| `PerfCollect.ScrapeConservesAccounts` | collectors/switch.go:185-236 | For every schedule, rows and totals rise by exactly the devices' accounts: base failures, rcv-err failures, timeouts, retries, and one error for each line of a successful output that names a counter and gives it no number. (With collectors/perfquery.go:164-169.) |
| `PerfCollect.ScrapeCountsQueries` | collectors/switch.go:185-236 | For every schedule, counted over all queries of the scrape: errors rise by the queries that failed and the lines of successful ones that give a counter no number, timeouts by those that ended at their deadline, retries by the retries of all. |
| `PerfCollect.MetricsOfScrape` | collectors/switch.go:198-242 | For every schedule, a device has a metrics entry iff its base query succeeded: the duration of that query, no timeout and no error; `rcvErrTimeout` iff rcv-err is collected and the query of some recorded port ended at its deadline, `rcvErrError` iff one failed; the duration of the last of these queries, 0 without one. |
| `Samples.OneOutputEmitsOnce` | collectors/perfquery.go:149-181 | The records of one output emit a series at most once, only for their device, ports and counters named. (With collectors/port_counters.go:148-160.) |
| `Samples.RowsOfScrape` | collectors/switch.go:203-239 | For every schedule, a record is left iff it is parsed from the base output of some device and the base counters are collected, or from the `-E` output of a port recorded there and rcv-err is. |
| `Samples.SamplesAreUnique` | collectors/switch.go:203-239 | For every schedule and any flags no (metric, GUID, port) is emitted twice, if a device's `-x` and `-E` outputs name disjoint counters and `-E` reports only the port asked for. (With collectors/port_counters.go:148-160.) |
| `Samples.SamplesAreUniqueIff` | collectors/switch.go:203-239 | For every schedule, with both queries on, no (metric, GUID, port) is emitted twice if and only if no two successful outputs of one device set the same counter of the same port. (With collectors/port_counters.go:148-160.) |
| `Samples.OverlapHappens` | collectors/switch.go:203-239 | A concrete device whose two outputs report one counter of one port, so that its sample is emitted twice. |
| `Ibnetdiscover.IbnetdiscoverParse` | collectors/ibnetdiscover.go:179-289 | The imperative parser computes the fold of its lines and splits the devices; it succeeds iff no line stops it, and fails or panics as the first line that stops it does. |
| `Ibnetdiscover.RejoinName` | collectors/ibnetdiscover.go:216-231 | The backward loop over the fields computes the specified rejoining. |
| `Ibnetdiscover.ListGuids` | collectors/ibnetdiscover.go:336-342 | The keys, each once, in whatever order ranging has. |
| `Ibnetdiscover.SplitDevices` | collectors/ibnetdiscover.go:277-288 | The two lists hold the devices of their type, each once, strictly increasing by GUID. |
| `Ibnetdiscover.TopologyIsUnique` | collectors/ibnetdiscover.go:277-288 | The two lists do not depend on the order of map iteration, and no GUID is in both. (With collectors/ibnetdiscover.go:336-342.) |
| `Order.SortSorts` | collectors/ibnetdiscover.go:278 | Sorting distinct keys gives the same keys, increasing. |
| `TopologyFold.RunIsDescribed` | collectors/ibnetdiscover.go:183-276 | The parse succeeds iff no line stops it, and then each device is what the lines about it say. |
| `TopologyFold.DescribedIs` | collectors/ibnetdiscover.go:189-276 | If each (GUID, port) is on at most one line and the lines about a device agree on its kind and LID, its uplinks and down ports are exactly those of its lines, its name that of the last line that tells one, its rates and `Switch` those of the last that has them. |
| `TopologyOrder.LineOrderDoesNotMatter` | collectors/ibnetdiscover.go:183-289 | If moreover the lines about a device tell one name and one rate, permuting the lines changes neither success nor the result, except `Switch` and the order of `DownPorts`. |
| `PortState.EmitDevice` | collectors/switch.go:143-148 | The samples of one device: 1 for each uplink, 0 for each entry of its down ports. |
| `PortState.EmitPortState` | collectors/switch.go:141-150 | How often each sample is emitted over all switches. |
| `PortState.PortStateIsExact` | collectors/ibnetdiscover.go:189-215 | If each (GUID, port) is on at most one line and the lines about a device agree on its kind and LID, each connected line of a switch yields exactly one sample 1, each `???` line exactly one sample 0, and there are no others. (With collectors/ibnetdiscover.go:263-275 and collectors/switch.go:141-150.) |
| `TopologyLines.FindPairIsLeftmostLongest` | collectors/ibnetdiscover.go:316-325 | The names of a connected line are the leftmost match of the regular expression with its greedy groups, and there is none exactly when the expression does not match. |
| `TopologyLines.NamesOfPair` | collectors/ibnetdiscover.go:315-325 | Both names come back trimmed, for any names without quotes. |
| `TopologyLines.ConnectedLine` | collectors/ibnetdiscover.go:183-275 | A connected line with any gaps and padding is read as printed: never dropped as a split port, never altered by the rejoining; it fails only if its rate cannot be read. |
| `TopologyLines.RejoinsToSeven` | collectors/ibnetdiscover.go:216-231 | For a quoted name of any number of words, spaces beside the quotes or not, exactly seven fields are left. (With collectors/ibnetdiscover.go:307-313.) |
| `TopologyLines.PeerlessLine` | collectors/ibnetdiscover.go:189-234 | Whatever is quoted: a `???` line is a down port if asked for, with its name unless that holds a parenthesis; every peerless SDR line is dropped; any other describes the device without an uplink, or fails on its rate or its name. (With collectors/ibnetdiscover.go:291-305 and collectors/ibnetdiscover.go:315-333.) |
| `TopologyLines.RatesOfLanes` | collectors/ibnetdiscover.go:291-305 | At each of the nine speeds, a width of `n` lanes has `n` times the signalling and effective bit rate written in a table of its own, divided by eight; any other speed is an error. (With collectors/ibnetdiscover.go:43-55.) |
| `TopologyLines.EffectiveIsAtMostRaw` | collectors/ibnetdiscover.go:43-55 | For any width and speed that parse, the effective rate is at most the signalling rate, and equal to it only from HDR on or without lanes. |
| `TopologyLines.LineStopsIff` | collectors/ibnetdiscover.go:183-262 | A line fails if and only if it is about a link (six fields or more, not `???`, not a split port) and its width has no digit, its speed is unknown, or its names cannot be read; it panics if and only if it has five fields or is about a link that can be read, names an uplink and has fewer than eleven fields. (With collectors/ibnetdiscover.go:291-333.) |
| `TopologyLines.TextStopsIff` | collectors/ibnetdiscover.go:179-276 | A text is parsed iff none of its lines fails or panics, and is rejected or panics iff the first of them that does either fails or panics. |
| `TopologyLines.FiveFieldsPanic` | collectors/ibnetdiscover.go:183-189 | A concrete line of five fields that panics. |
| `TopologyLines.EarlyPairPanics` | collectors/ibnetdiscover.go:234-262 | A concrete line that names an uplink before its eleventh field and panics. |
| `TopologyLines.LatePairFails` | collectors/ibnetdiscover.go:234-246 | Two names right behind five words: the line fails on its rate, it does not panic. |
| `TopologyRoundTrip.DrawingRoundTrip` | collectors/ibnetdiscover.go:179-289 | The same whatever names the lines show, agreeing or not: a device takes the last name its lines tell, an uplink that of its own line; a text with a line that cannot be read is rejected. (With collectors/ibnetdiscover.go:315-342.) |
| `TopologyRoundTrip.FabricRoundTrip` | collectors/ibnetdiscover.go:179-289 | Any text that prints a well-formed fabric of cabled, peerless and unplugged ports at any speed, its names padded in any way, its lines in any order among quiet lines, parses to that fabric if every line about a link can be read, and is rejected otherwise: every node once, with its uplinks, down ports, name and LID; the `Switch` of the last of its lines with a peer; an HCA with the rates of the last of its lines that has some, a peerless one included. (With collectors/ibnetdiscover.go:315-342.) |
| `TopologyCache.Holder.constructor` | collectors/ibnetdiscover.go:97-104 | The cache begins unset. |
| `TopologyCache.Holder.GetPorts` | collectors/ibnetdiscover.go:123-154 | One call, whatever the run of the tool would give: with a positive TTL and a store younger than it, the two stored lists and no change; otherwise the own run, which changes the cache, all three fields, only if it succeeded and the TTL is positive. |
| `TopologyCache.SoloCallIsCall` | collectors/ibnetdiscover.go:123-154 | The step relation run without interference is that call. |
| `TopologyCache.NoTornTopology` | collectors/ibnetdiscover.go:123-154 | For every interleaving, a hit returns both lists of the last store before the caller's own check, made by a successful run, and the age of that store at the check was below the TTL; a call that ran the tool returns its own run. |
| `TopologyCache.AnsweredIffYoung` | collectors/ibnetdiscover.go:123-133 | For every interleaving, a call that has returned was answered from the cache if and only if the TTL is positive, some store had been made before it looked, and the last of these was younger than the TTL at that moment; with a positive TTL every call looks. |
| `TopologyCache.CacheIsOneStore` | collectors/ibnetdiscover.go:97-104 | Outside the mutex the cache is the last store, both lists and the time of that same store, made of the storing caller's own successful run; or untouched and never refreshed. (With collectors/ibnetdiscover.go:145-151.) |
| `TopologyCache.OnlySuccessStores` | collectors/ibnetdiscover.go:145-151 | Only the holder of the mutex, with its own successful run and a positive TTL, changes the cache. |
| `TopologyCache.TotalsCountFailures` | collectors/ibnetdiscover.go:136-144 | At every moment the totals are the numbers of runs that have failed and that have timed out. |
| `TopologyCache.CallsReturn` | collectors/ibnetdiscover.go:123-154 | At most 11 steps a call, and a run stops only when all calls have returned. |
| `Anonymize.MapGuids` | scripts/anonymize.sh:47-54 | Exactly the listed GUIDs are numbered, no two alike; a list without repetitions in its own order, from 1 on. |
| `Anonymize.SubstituteGuids` | scripts/anonymize.sh:56-61 | The text after the substitutions in turn, in the given order. |
| `Anonymize.HarvestNames` | scripts/anonymize.sh:67-96 | The two tables of names, as a fold over the lines a newline ends. |
| `Anonymize.SubstituteNames` | scripts/anonymize.sh:100-113 | The text after the quoted-name substitutions in turn. |
| `AnonymizeGuids.ReplaceIsRename` | scripts/anonymize.sh:57-61 | On a text in which no GUID runs into an `x`, one substitution renames exactly the GUIDs that are its source, in place. |
| `AnonymizeGuids.InTurnIsComposite` | scripts/anonymize.sh:57-61 | Any order of substitutions is one renaming, the composition of the single ones. |
| `AnonymizeGuids.AnyOrderIffNoChain` | scripts/anonymize.sh:47-61 | On such a text every order equals the simultaneous renaming if and only if no source is the number of another source. |
| `AnonymizeGuids.ChainBreaks` | scripts/anonymize.sh:57-61 | If one is, an order that differs from the simultaneous renaming. |
| `AnonymizeChain.NumberOfAnotherSource` | scripts/anonymize.sh:47-61 | A text on which it happens: its GUIDs, in the order of the sort, are numbered so that one gets the number that is the other. |
| `AnonymizeGuids.GuidsOfRenamed` | scripts/anonymize.sh:47-61 | The GUIDs of the renamed text are the renamed GUIDs of the text, in place. |
| `AnonymizeGuids.NoSourceSurvivesIff` | scripts/anonymize.sh:47-61 | No source is left in the renamed text if and only if no GUID of the text is renamed to a source; without a chain and without a number that is its own source that is so. |
| `AnonymizeNames.ReplaceIsRenameQuoted` | scripts/anonymize.sh:101-106 | One substitution renames exactly the quoted names that are its source. |
| `AnonymizeNames.NamesAreSimultaneous` | scripts/anonymize.sh:98-113 | Switch names then HCA names, each in any order, equal one simultaneous renaming of the quoted names. |
| `AnonymizeHarvest.LinesHarvested` | scripts/anonymize.sh:74-96 | The tables give every source its own generated name. |
| `AnonymizeHarvest.HarvestCovers` | scripts/anonymize.sh:74-96 | Both names of every connected line of a switch or HCA are harvested, each into the table of its kind. |
| `AnonymizeHarvest.HarvestIs` | scripts/anonymize.sh:74-96 | And nothing else is: a text is a source iff it is one of the two names of such a line. |
| `AnonymizePattern.LooksLikeHcaIffHolds` | scripts/anonymize.sh:89 | The heuristic holds iff `HCA-` and a digit, or `mlx`, a digit, an underscore and a digit, stand anywhere in the name. |
| `AnonymizePattern.PairIsLeftmost` | scripts/anonymize.sh:75 | For any line, the two names are those of the leftmost match of the pattern: an opening, a name without quotes, a dash among white space, a name, a closing; there are none iff it matches nowhere. |
| `AnonymizePattern.HarvestNumbersNames` | scripts/anonymize.sh:67-96 | Switches are called `sw-01`, `sw-02`, ... and HCAs `hca-01`, `hca-02`, ...: each name has the number of different names of its kind the lines have shown up to its first occurrence, in at least two digits. |
| `AnonymizePattern.NumberedGuidSpells` | scripts/anonymize.sh:47-54 | A generated GUID is `0x` and sixteen lower-case digits that spell its number. |
| `AnonymizeHarvest.ForeignNamesDoNotCollide` | scripts/anonymize.sh:74-113 | If no source looks generated, the tables rename without collision and no two texts to the same name. |
| `AnonymizeMeaning.ScriptExists` | scripts/anonymize.sh:43-113 | On every text with fewer GUIDs than numbers the script has a run, so the results below are about something. |
| `AnonymizeMeaning.AnonymisedDrawing` | scripts/anonymize.sh:49-113 | For any such drawing, padded or not, the anonymised text parses to the drawing with its GUIDs and quoted texts renamed, no two nodes taking one GUID and no two texts one name; if some line cannot be read, it is rejected as the drawing is. (With collectors/ibnetdiscover.go:179-289.) |
| `AnonymizeMeaning.SurvivingTexts` | scripts/anonymize.sh:74-113 | A text survives the script iff it is on no connected line of a switch or HCA that a space follows the type of and a newline ends; otherwise it becomes a generated name. |
| `AnonymizeMeaning.AnonymisedFabric` | scripts/anonymize.sh:49-113 | For any drawing of a fabric without a chain, whatever the orders, the anonymised text parses to the fabric with its GUIDs renamed and its names renamed by some map if and only if every line can be read and no harvested name is shown with two paddings; then the map never gives two names of the dump the same one. (With collectors/ibnetdiscover.go:179-289.) |
| `AnonymizePadding.LeafTwice` | scripts/anonymize.sh:74-113 | A host and a switch whose name is once printed with a trailing space: the script takes it for two switches, and the result is parsed but is the renamed fabric under no renaming. (With collectors/ibnetdiscover.go:315-325.) |
| `AnonymizePadding.LeafTwiceHappens` | scripts/anonymize.sh:43-113 | Such a text exists, and on it the script numbers the two GUIDs in order and meets no chain. |

## Left out

- Running the tools (`exec.go`, the `*Args` functions): process groups, signals and command lines; an execution is an
  oracle.
- HTTP, the registry, the run-once lock and file, flags, logging, descriptors and label lists.
- `last_execution` and the duration of a whole collector: plain clock reads. `up`, `collect_error` and
  `collect_timeout` are read off the metrics table and would add only easy members.
- Numbers: plain decimals with an optional sign and fraction, without exponents, `inf`, `nan` or hexadecimal, and as
  exact reals without rounding; the totals do not wrap at 64 bits.
- Regular expressions: each is a function for that one expression. White space is that of `unicode.IsSpace`;
  texts are runes, without invalid UTF-8.
- The `sync.Map` of the ibswinfo cache: a lookup is one step and a store one critical section of the fan-out's mutex in
  `IbswinfoCollect`, and single calls on values in `StaticCache`. Scrapes of ibswinfo do not overlap each other.
- `FanOutClock.TimedRunIsASchedule`: time passes in whole units, and only while the loop waits for a token or for the
  wait group; the steps themselves take none.
- `TopologyOrder.LineOrderDoesNotMatter`: `Switch` is not determined by the set of lines, since the last uplink
  wins.
- `TopologyRoundTrip.FabricRoundTrip`: about names without quotes; on other texts the parser is described line by line
  (`TopologyFold.RunIsDescribed`, `TopologyLines.LineStopsIff`) and by the leftmost-longest match only.
- `ScrapeTime.ScrapeWithinBudget`: that a goroutine holds its token for the time of its queries is a premise; its other
  work takes no time.
- `AnonymizeMeaning.AnonymisedFabric`: about dumps whose quoted names are not blank, hold no GUID and no parenthesis, do
  not look generated and are not ` - `, whose short lines hold neither quotes nor GUIDs, and in which every node has a
  port.
- `anonymize.sh`: MAC substitution, the LIDs its header announces but its code never touches, fewer than 16^16
  GUIDs, and what the shell does with an empty table of names. The collation of `sort` only chooses orders and numbers,
  over which everything is quantified.
