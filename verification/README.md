# A verified model of FERS

FERS is a radar signal simulator: a C++ library with a command-line program, a desktop interface
(TypeScript, with a Rust backend), and maintenance scripts. This project models seven of its parts and
proves what they keep, undo and promise.

| Part | Modules |
|---|---|
| Saving a platform as a template and inserting it into a scenario | `AssetTemplates`, `TemplateProperties`, `TemplateCapacity`, `TemplateRuns`, `TemplateInsertion`, `Scenario`, `ScenarioNames`, `SimIds` |
| The oversampling audit: least-squares fit, clock quantisation, printers and parsers | `Signals`, `Clocking`, `TextPrinters`, `Shell`, `OversamplingCli`, `CaseFiles` |
| Run control and the telemetry pipeline, as a state machine of atomic steps | `RunControl`, `Telemetry`, `TelemetryPipeline`, `StreamingStore` |
| Renaming of duplicate names in migrated files | `DuplicateNames`, `DanglingReferences` |
| The progress-event reducer and its completion pass | `Progress`, `ProgressMessages`, `ProgressCompletion` |
| Acceptance of VITA 49 settings in four layers | `VitaOutput`, `VitaCli`, `VitaUi` |
| The table of stream statistics | `StreamRows` |

`Wrappers`, `Decimal`, `JavaScript`, `Reals`, `FreshName` and `Sorting` hold what several parts share. Arithmetic on
floating point is modelled over `real`, so no statement is about rounding; machine integers are bounded where
the code depends on their bounds.

Code that changes state step by step is a method (over an array, a class or local variables) proved
equal to a function of its inputs; the properties are lemmas about those functions.

## What was found

These are places where the code does not meet the plain form of a property. Each is proved, with an input on
which it fails and the exact condition under which the property holds.

- A receiver's dechirp reference names a transmitter or a waveform, and insertion carries the name over
  while every copy is renamed. References by name follow the copy if and only if no transmitter name is that of a
  component of the platform and no waveform name is that of a waveform saved with it
  (`NameReferencesFollowIff`, `DechirpStaysBehind`, `WaveformStaysBehind`).
- `try_start` sets `running` and then clears `cancel_requested`. A stop is still requested later if and only
  if it did not fall between the two (`StopIsHeardIff`, `StopCanBeLost`).
- The store accepts any number as packet-ring size (finite ones are modelled). Appending a batch counts every
  packet exactly if and only if the batch fits or the size is whole and not negative
  (`AppendConservesIff`, `FractionalSizeMiscounts`); over any run the account is exact if and only if every batch was counted so, and never too small
  (`ConservedIff`, `BadRingSizeLosesCount`, `NegativeRingSizeLosesCount`).
- A reference to a name that no element had can be captured by an element that is renamed to that name. Some answers
  of the user bring this about if and only if the tree has a duplicated name or, for a name that cannot be typed
  because it is empty or has outer white space, the name is a number that one of the groups of duplicates can
  reach (`DanglingReferenceCapturableIff`, `CaptureExample`); a given run does it only when the name was typed
  or is a duplicated name with a number (`CapturedOnlyByAnswers`).
- `jsonEscape` passes most control characters through, so its output is a legal JSON string if and only if
  the only control characters are line feed, carriage return and tab (`DecodeOfEscaped`, `BellIsNotEscaped`).
- The interface accepts a host that holds a NUL character, and the backend refuses it. Over well-formed text nothing
  else that is accepted is refused later (`AcceptedRunsIff`, `NulHostIsRefused`). In automatic epoch mode an
  epoch set earlier stays.
- The message of an export's chunk is matched to its receiver if and only if the name is not empty and has no line
  break; all other messages find their receiver under every name (`ExportChunkMatchesBack`, `NamelessChunk`,
  `ReceiverMessagesMatchBack`).
- Two counters of one listed receiver share a row of the table and the last one wins. A total over the rows is
  the total over the counters if and only if, of two counters of the same stream, the earlier one reports
  nothing of it (`TotalsAgree`, `DerivedTotalsIff`, `SharedRowLosesPackets`).

## Model

| member | source | states |
|---|---|---|
| `TemplateProperties.SaveInsertIsIsomorphic` | packages/fers-ui/src/stores/assetTemplates.ts:188-531 | saving a platform whose references resolve and inserting it into any scenario: no warnings, the copy equals the original apart from ids, names and references, each reference leads to a copy of the asset the original led to, and two references are equal exactly when they were; if the ids of the target are reserved, looking a reference up in the resulting scenario finds that copy |
| `TemplateProperties.InsertionKeepsIntegrity` | packages/fers-ui/src/stores/assetTemplates.ts:409-531 | for every template and scenario: each inserted reference is empty or names an asset this insertion added, one warning per reference the dependencies do not resolve, new names and ids distinct and clashing with nothing, prior items unchanged apart from cached path points |
| `TemplateProperties.InsertPlatformFacts` | packages/fers-ui/src/stores/assetTemplates.ts:471-529 | everything a platform insertion adds, copied from the template, with the id maps that connect dependencies and copies; each new name is the first free one of Copy, Copy 2 and so on after its base, that of the platform being the name of the template, and the new ids are those the counters give in turn |
| `TemplateProperties.ReferenceMeans` | packages/fers-ui/src/stores/assetTemplates.ts:295-314 | an inserted reference is present exactly when the template's was and resolves, and then names the copy of the last dependency with that id |
| `TemplateProperties.InsertAssetFacts` | packages/fers-ui/src/stores/assetTemplates.ts:409-470 | inserting a single waveform, timing source or antenna adds one copy under the first free copy name of the template and the next ids, and changes nothing else |
| `TemplateCapacity.InsertSucceedsIff` | packages/fers-ui/src/stores/assetTemplates.ts:409-531 | an insertion succeeds if and only if every id counter the template draws on has room for the ids it needs, and each then advances by exactly their number |
| `TemplateCapacity.DrawIff` | packages/fers-ui/src/stores/scenarioStore/idUtils.ts:77-85 | generating a list of ids of given types succeeds if and only if each type's counter has room for all of them |
| `TemplateCapacity.DrawnIdIs` | packages/fers-ui/src/stores/scenarioStore/idUtils.ts:77-85 | each id of such a list has the code of its type and the next free number of that type |
| `TemplateRuns.SeededInsertionsKeepIds` | packages/fers-ui/src/stores/scenarioStore/idUtils.ts:67-75 | from counters seeded with the ids of a scenario, any number of insertions leaves all its ids pairwise different and none of them to be generated again |
| `TemplateRuns.InsertionsKeepIds` | packages/fers-ui/src/stores/assetTemplates.ts:409-531 | the same over any sequence of insertions from any state in which it holds |
| `TemplateProperties.NameReferencesFollowIff` | packages/fers-ui/src/stores/assetTemplates.ts:316-407 | references by name are kept as they are, so they follow the copies if and only if no transmitter name is that of a component of the platform and no waveform name that of a saved waveform; a name of either kind that is never follows; a kept name resolves afterwards exactly when the scenario had it or a copy happens to have got it |
| `TemplateRuns.DechirpStaysBehind` | packages/fers-ui/src/stores/assetTemplates.ts:316-407 | a platform with a receiver that dechirps with its own transmitter: inserted into any scenario, the copied receiver keeps the old name while the copied transmitter has a new one |
| `TemplateRuns.WaveformStaysBehind` | packages/fers-ui/src/stores/assetTemplates.ts:316-407 | a platform whose transmitter uses a waveform by id and whose receiver dechirps with it by name: no reference names a component, and still the name stays behind the copied waveform |
| `TemplateProperties.SelectedFacts` | packages/fers-ui/src/stores/assetTemplates.ts:140-149 | a saved dependency list holds, once each, the first item of every wanted id, and looking an id up in it finds what the scenario has |
| `TemplateProperties.SelectedInOrder` | packages/fers-ui/src/stores/assetTemplates.ts:140-149 | the saved dependencies stand in the order of the scenario, each the first with a wanted id, none left out |
| `TemplateProperties.SaveFacts` | packages/fers-ui/src/stores/assetTemplates.ts:188-231 | saving gives the first waveform with the id, or else timing source, antenna or platform, as it is and under its own name, a platform without cached points; nothing only when no item has the id |
| `TemplateProperties.CloneAssetsFacts` | packages/fers-ui/src/stores/assetTemplates.ts:233-293 | copies of dependencies differ from them in ids and names only, are appended in order, and the id map sends each dependency to its copy |
| `TemplateProperties.CloneComponentsFacts` | packages/fers-ui/src/stores/assetTemplates.ts:316-407 | copied components have mapped references, fresh ids and fresh names, and the warnings are those of the unmapped references in order |
| `AssetTemplates.SelectUnique` | packages/fers-ui/src/stores/assetTemplates.ts:140-149 | the loop over a filtered list keeps the first item of every wanted id |
| `AssetTemplates.CollectPlatformDependencies` | packages/fers-ui/src/stores/assetTemplates.ts:151-186 | the sets filled from the components select exactly the dependencies of the platform |
| `TemplateInsertion.CreateTemplateFromScenarioItem` | packages/fers-ui/src/stores/assetTemplates.ts:188-231 | looks the item up among waveforms, timings, antennas and platforms in turn and saves what the specification saves |
| `TemplateInsertion.CloneEntryList` | packages/fers-ui/src/stores/assetTemplates.ts:254-291 | entries get new ids from the counters, values kept, in order; if the counters run out they keep what was drawn until then |
| `TemplateInsertion.CloneOne` | packages/fers-ui/src/stores/assetTemplates.ts:233-271 | the copy of one asset, and the counters after it whether it succeeds or not |
| `TemplateInsertion.CloneDependencies` | packages/fers-ui/src/stores/assetTemplates.ts:471-500 | one loop over dependencies: the scenario, the id map and, in every case, the counters after it |
| `TemplateInsertion.RemapReference` | packages/fers-ui/src/stores/assetTemplates.ts:295-314 | the mapped reference, with a warning appended exactly when a present reference has no mapping |
| `TemplateInsertion.CloneOneComponent` | packages/fers-ui/src/stores/assetTemplates.ts:316-407 | one component by its kind, with ids, remapped references and warnings in the order the code produces them, and the counters in every case |
| `TemplateInsertion.CloneComponentList` | packages/fers-ui/src/stores/assetTemplates.ts:501-529 | the loop over components, each name fresh against the scenario and the components before it, and the counters in every case |
| `TemplateInsertion.ClonePlatformWaypointIds` | packages/fers-ui/src/stores/assetTemplates.ts:273-293 | a platform frame with new ids for motion and rotation waypoints and no cached points, and the counters in every case |
| `TemplateInsertion.CloneTemplateIntoScenarioData` | packages/fers-ui/src/stores/assetTemplates.ts:409-531 | the whole procedure against the insertion the properties are proved about, the error case and the counters it leaves included |
| `Scenario.CollectScenarioNames` | packages/fers-ui/src/stores/scenarioStore/nameUtils.ts:15-80 | a name is collected exactly when an item that is not ignored has it; without ignored ids, exactly when an asset, platform or component has it |
| `Scenario.LeftOutIff` | packages/fers-ui/src/stores/scenarioStore/nameUtils.ts:15-48 | an item is ignored exactly when one of its own ids, for a monostatic component also those of its two halves, is among the given ones and not empty |
| `ScenarioNames.CreateUniqueName` | packages/fers-ui/src/stores/scenarioStore/nameUtils.ts:82-100 | keeps a free name unless a copy is asked for, and otherwise takes the first free one of the numbered names |
| `ScenarioNames.UniqueCopyName` | packages/fers-ui/src/stores/scenarioStore/nameUtils.ts:113-123 | the name chosen is the first of BASE Copy, BASE Copy 2, BASE Copy 3 and so on that is not taken |
| `ScenarioNames.FirstFreeCopyIsUnique` | packages/fers-ui/src/stores/scenarioStore/nameUtils.ts:82-100 | only one name is the first free one |
| `ScenarioNames.CopyNameInjective` | packages/fers-ui/src/stores/scenarioStore/nameUtils.ts:82-100 | no two of the candidate names are equal, so the search ends |
| `FreshName.SearchProgress` | scripts/migrate_fers_xml.py:68-71 | every name tried and found taken leaves fewer taken names to meet: the counter search ends |
| `SimIds.IdTextInjective` | packages/fers-ui/src/stores/scenarioStore/idUtils.ts:77-85 | ids of different types or counters are different texts |
| `SimIds.ReserveReserves` | packages/fers-ui/src/stores/scenarioStore/idUtils.ts:55-65 | after reserving an id, whatever form of integer its text has, it is never generated |
| `SimIds.SeedReserves` | packages/fers-ui/src/stores/scenarioStore/idUtils.ts:67-75 | after seeding the counters with some ids none of them is ever generated |
| `SimIds.FreshAppend` | packages/fers-ui/src/stores/scenarioStore/idUtils.ts:77-85 | two stretches of generated ids join to one in which all ids are pairwise different, the step of the induction in DrawnIdsAreFresh |
| `SimIds.SimIdCounters.GenerateSimId` | packages/fers-ui/src/stores/scenarioStore/idUtils.ts:77-85 | the next id of a type, or the overflow error with the counters untouched |
| `SimIds.SimIdCounters.ReserveSimId` | packages/fers-ui/src/stores/scenarioStore/idUtils.ts:55-65 | moves the counter of the id's type past the id, ignores other type codes, and refuses text that is not an integer |
| `SimIds.SimIdCounters.SeedSimIdCounters` | packages/fers-ui/src/stores/scenarioStore/idUtils.ts:67-75 | reserves the present ids in turn; at one that is not an integer it stops, those before it reserved |
| `Signals.FitIsLeastSquares` | verification/oversampling/src/main.cpp:385-402 | the error of any gain g exceeds that of the fitted gain by the squared distance of the gains times the reference energy; the fitted gain is the optimum, and the only one unless the reference is silent |
| `Signals.CauchySchwarz` | verification/oversampling/src/main.cpp:385-398 | the squared correlation is at most the product of the energies, for all signals |
| `Signals.PlainError` | verification/oversampling/src/main.cpp:389-391 | the plain error is both energies less twice the real correlation |
| `Signals.CompareSignals` | verification/oversampling/src/main.cpp:372-404 | the loop reads within bounds, and its result measures the compared window: mean square error, correlation in [0, 1] and 0 for silence, least-squares gain |
| `Signals.WindowLength` | verification/oversampling/src/main.cpp:375-378 | the window drops skip_edge samples at both ends, and is empty when less than that is there |
| `Clocking.PrfErrorBound` | verification/oversampling/src/main.cpp:1084-1088 | the effective PRF is never below the requested one and exceeds it by less than prf^2 / (R - prf) |
| `Clocking.PrfIsLeast` | verification/oversampling/src/main.cpp:1084-1088 | of the frequencies with a whole number of samples per pulse it is the least that is not below the requested one |
| `Clocking.PrfIdempotent` | verification/oversampling/src/main.cpp:1084-1088 | quantising a quantised PRF changes nothing |
| `Clocking.PrfImprovesWithRatio` | verification/oversampling/src/main.cpp:1084-1088 | multiplying the oversampling ratio by a whole number never worsens the PRF |
| `Clocking.SkipIsLastSample` | verification/oversampling/src/main.cpp:1090-1094 | the skip becomes the last sample instant not after it; doing it again changes nothing |
| `Clocking.SkipImprovesWithRatio` | verification/oversampling/src/main.cpp:1090-1094 | a finer clock never worsens the skip |
| `Clocking.BufferIsLeastCover` | verification/oversampling/src/main.cpp:1096-1100 | the size is the least number of samples that covers the duration |
| `Clocking.BufferAdds` | verification/oversampling/src/main.cpp:1096-1100 | sizes of adjacent intervals add up to the whole to within one sample |
| `Clocking.WrappedDelayIsFraction` | verification/oversampling/src/main.cpp:417-423 | the result is the one representative of the negated delay in [0, 1) |
| `TextPrinters.JsonEscape` | verification/oversampling/src/main.cpp:107-136 | the loop prints the escaped text |
| `TextPrinters.DecodeOfEscaped` | verification/oversampling/src/main.cpp:107-136 | decoding the escapes of RFC 8259, section 7, gives back every string; by the strict grammar exactly when no other control character occurs |
| `TextPrinters.EscapedLength` | verification/oversampling/src/main.cpp:107-136 | only the quotation mark, the backslash, line feed, carriage return and tab are escaped, each by one more character |
| `TextPrinters.BellIsNotEscaped` | verification/oversampling/src/main.cpp:107-136 | a bell character is printed in a way that is not legal JSON |
| `TextPrinters.ParseUnsignedList` | verification/oversampling/src/main.cpp:216-233 | the getline loop, with its errors for bad values and for an empty list |
| `TextPrinters.StoulOfDigits` | verification/oversampling/src/main.cpp:216-233 | `std::stoul` of decimal text is its value, or the range error beyond 64 bits |
| `TextPrinters.StoulReads` | verification/oversampling/src/main.cpp:216-233 | white space, an optional sign, digits and any other text after them: the value, wrapped around when negative, or the range error |
| `TextPrinters.StoulReadsNothingElse` | verification/oversampling/src/main.cpp:216-233 | and no other text is read |
| `TextPrinters.ListRoundTrip` | verification/oversampling/run_and_analyze.py:118-133 | parsing undoes the comma join for every non-empty list of unsigned values, and refuses the empty list |
| `Shell.ShellQuote` | verification/oversampling/src/main.cpp:198-214 | the loop prints the quoted word |
| `Shell.WordsAfterQuoted` | verification/oversampling/src/main.cpp:198-214 | a POSIX shell reads a quoted word as that word, whatever characters it holds and whatever follows |
| `Shell.ShellReadsWordsIff` | verification/oversampling/src/main.cpp:1222-1243 | the shell reads the command as exactly the words it was built from if and only if no word holds a NUL |
| `OversamplingCli.ParseCli` | verification/oversampling/src/main.cpp:235-301 | the option loop, with all its errors; `fs::absolute`, which depends on the working directory, is a parameter |
| `OversamplingCli.CommandLineRoundTrip` | verification/oversampling/src/main.cpp:235-301 | a command with any settings, in any order and with repetitions, is read as that command with those settings over the defaults, the last of each kind counting |
| `OversamplingCli.AcceptedIff` | verification/oversampling/src/main.cpp:235-301 | a command line is accepted exactly when its command is one of the three, a suite is named, and the rest is known options in pairs with readable values |
| `OversamplingCli.ParsedIsUnsigned` | verification/oversampling/src/main.cpp:235-301 | every number that was read fits 32 bits |
| `OversamplingCli.ChildCommand` | verification/oversampling/src/main.cpp:1222-1243 | the command line the parent builds |
| `OversamplingCli.ChildLaunchRoundTrip` | verification/oversampling/src/main.cpp:1222-1243 | what the child parses is exactly the suite, ratio, filter length, seed and output directory the parent chose and the parent's program path made absolute, for all unsigned values and exactly the NUL-free strings |
| `OversamplingCli.RunMatrix` | verification/oversampling/src/main.cpp:1262-1283 | launches are the beginning of the plan up to the first failing child, whose status is returned; success means the whole plan succeeded, whatever each launch would return |
| `OversamplingCli.PlanAt` | verification/oversampling/src/main.cpp:1262-1283 | the plan holds every combination of ratio, filter length and suite once, in the order of the loops, each with its own ratio, filter length, suite and directory |
| `OversamplingCli.PlanMembers` | verification/oversampling/src/main.cpp:1262-1283 | a launch is in the plan exactly when its ratio and filter length are listed, its suite is one of the four, and its directory is named after the three |
| `CaseFiles.CaseDirRoundTrip` | verification/oversampling/run_and_analyze.py:161-169 | reading a case directory gives back ratio, filter length and suite, so no two cases share a directory |
| `CaseFiles.ChildWritesWhereItBelongs` | verification/oversampling/src/main.cpp:1222-1283 | from the command line of the audit to that of each child: the ratio, filter length and suite the child reads are those the analysis reads from the directory it writes to |
| `CaseFiles.FindCases` | verification/oversampling/run_and_analyze.py:161-179 | the loop and the sort, with the error of a directory that is not a case |
| `CaseFiles.PlanIsFound` | verification/oversampling/run_and_analyze.py:161-179 | when the matrix has left the directories of its plan, in whatever order they are listed, the script finds exactly the planned cases, each once, by ratio, filter length and suite |
| `RunControl.ControlOverEveryRun` | packages/fers-ui/src-tauri/src/lib.rs:205-223 | over every interleaving at most one run is live, `running` is set exactly while one is, and a stop seen by a run stays requested |
| `RunControl.ControlStep` | packages/fers-ui/src-tauri/src/lib.rs:382-516 | each atomic step keeps that invariant |
| `RunControl.InitialControl` | packages/fers-ui/src-tauri/src/lib.rs:205-209 | the invariant holds of the default state |
| `RunControl.StopIsHeardIff` | packages/fers-ui/src-tauri/src/lib.rs:211-218 | a stop during a run is still requested later if and only if the run's try_start had returned |
| `RunControl.StopCanBeLost` | packages/fers-ui/src-tauri/src/lib.rs:211-218 | an execution in which a stop is lost |
| `RunControl.StartWinsIff` | packages/fers-ui/src-tauri/src/lib.rs:212-219 | in every reachable state a start wins exactly when no run is live and is refused exactly when one is |
| `RunControl.SimulationControlState.ClaimRun` | packages/fers-ui/src-tauri/src/lib.rs:211-216 | the compare-exchange is the start step of the state machine |
| `RunControl.SimulationControlState.ClearCancelRequest` | packages/fers-ui/src-tauri/src/lib.rs:216-218 | the store that follows is its second step |
| `RunControl.SimulationControlState.RequestStop` | packages/fers-ui/src-tauri/src/lib.rs:513-516 | the stop command is the stop step |
| `RunControl.SimulationControlState.FinishRun` | packages/fers-ui/src-tauri/src/lib.rs:220-222 | `finish` is the finish step |
| `Telemetry.PushAllKeepsTheLast` | packages/fers-ui/src-tauri/src/lib.rs:158-183 | the ring is the last `limit` packets of everything it was given, and every packet it no longer holds was counted |
| `Telemetry.AppendConservesIff` | packages/fers-ui/src/stores/vita49StreamingStore.ts:451-464 | for every finite number as ring size, appending a batch never loses count, and counts exactly if and only if the batch fits or the size is whole and not negative |
| `Telemetry.FractionalSizeMiscounts` | packages/fers-ui/src/stores/vita49StreamingStore.ts:451-464 | of four packets a ring of size 2.5 keeps three and counts one and a half |
| `Telemetry.AppendKeepsTheLast` | packages/fers-ui/src/stores/vita49StreamingStore.ts:451-464 | the interface's ring is the last packets of what it was given, as many as the size rounded up, and none for a negative size |
| `Telemetry.Vita49TelemetryBuffer.Reset` | packages/fers-ui/src-tauri/src/lib.rs:147-156 | the state after a reset, with the limit 500 when none is given and otherwise at most a million |
| `Telemetry.Vita49TelemetryBuffer.Ingest` | packages/fers-ui/src-tauri/src/lib.rs:158-183 | statistics are replaced by parseable ones, and the packet loop equals pushing the batch |
| `Telemetry.Vita49TelemetryBuffer.Poll` | packages/fers-ui/src-tauri/src/lib.rs:185-202 | hands out the oldest packets, the pending omission count and unseen statistics, and clears the last two |
| `Telemetry.PollHandsOut` | packages/fers-ui/src-tauri/src/lib.rs:185-202 | a poll hands out the oldest packets, as many as were asked for but at least one, and leaves the others; it has more exactly when there were more; the omission count and the statistics are handed out once |
| `Telemetry.DrainEmpties` | packages/fers-ui/src/views/Vita49StreamingView.tsx:234-246 | polling while there is more hands out a quiet ring in order and leaves it empty, every batch but the last being full |
| `Telemetry.Vita49TelemetryBuffer.DrainAvailable` | packages/fers-ui/src/views/Vita49StreamingView.tsx:234-246 | the loop against that specification |
| `StreamingStore.RunStateMeans` | packages/fers-ui/src/stores/vita49StreamingStore.ts:422-483 | the run state after any sequence of actions, read off the actions: the last deciding one, and after a start whether draining or only stopping was marked since |
| `StreamingStore.EndedUntilStart` | packages/fers-ui/src/stores/vita49StreamingStore.ts:435-449 | marking never revives a stream that has ended: only a start leads out of completed, failed and cancelled |
| `StreamingStore.EndsAreReported` | packages/fers-ui/src/stores/vita49StreamingStore.ts:422-483 | after any actions an error is shown exactly while the state is failed, metadata only after an end, and the VITA 49 part is that of the metadata |
| `StreamingStore.ActionsSay` | packages/fers-ui/src/stores/vita49StreamingStore.ts:422-483 | expected streams, statistics, metadata, error and ring size after any actions, read off the actions; the trace is empty from a start or a reset to the next batch |
| `StreamingStore.Vita49StreamingStore.StartRun` | packages/fers-ui/src/stores/vita49StreamingStore.ts:424-434 | the whole store after a start: every field is reset but the settings |
| `StreamingStore.Vita49StreamingStore.AppendPacketBatch` | packages/fers-ui/src/stores/vita49StreamingStore.ts:451-464 | the store's new trace, and that nothing else changes |
| `StreamingStore.Vita49StreamingStore.CompleteRun` | packages/fers-ui/src/stores/vita49StreamingStore.ts:465-471 | the whole store after a completion, with the metadata and its VITA 49 part |
| `StreamingStore.Vita49StreamingStore.FailRun` | packages/fers-ui/src/stores/vita49StreamingStore.ts:479-483 | the whole store after a failure: the metadata of an earlier end stays |
| `TelemetryPipeline.ReportSeesEverything` | packages/fers-ui/src-tauri/src/lib.rs:443-498 | when a stream reports its end, every message sent has been ingested in order, the statistics are the last parseable ones sent, and its packets are the last that reached the ring |
| `TelemetryPipeline.NoForeignReset` | packages/fers-ui/src-tauri/src/lib.rs:443-446 | between a run's own reset and its finish no run can reset the buffer |
| `TelemetryPipeline.NoRunIsStuck` | packages/fers-ui/src-tauri/src/lib.rs:382-516 | in every reachable state every live run can be brought to its end by steps of its own thread and its worker alone |
| `TelemetryPipeline.PollReportsNews` | packages/fers-ui/src-tauri/src/lib.rs:158-202 | in every interleaving from the initial state, a poll reports the last parseable statistics ingested since the poll or reset before it, and none when there were none |
| `TelemetryPipeline.DeliveryOverEveryRun` | packages/fers-ui/src-tauri/src/lib.rs:431-502 | the delivery invariant holds over every interleaving: what was sent is what was ingested followed by what is queued |
| `TelemetryPipeline.LedgerOverEveryRun` | packages/fers-ui/src-tauri/src/lib.rs:146-202 | over every interleaving with whole, non-negative ring sizes all traced packets are in a ring or counted, each ring is the end of what reached it, order never changes, and the interface's ring is within its size from the first append or clearing after a change of size on |
| `TelemetryPipeline.PacketsAreAccountedFor` | packages/fers-ui/src/stores/vita49StreamingStore.ts:451-464 | the same from the initial state on, end to end, both rings within their limits |
| `TelemetryPipeline.ConservedAfterReset` | packages/fers-ui/src-tauri/src/lib.rs:146-202 | after a reset, packets in parsed batches = interface ring + interface omitted + backend ring + backend omitted |
| `TelemetryPipeline.ConservedIff` | packages/fers-ui/src/stores/vita49StreamingStore.ts:451-464 | whatever sizes are set, over every interleaving no packet is ever missing from the account, and it is exact if and only if every batch was counted exactly |
| `TelemetryPipeline.BadRingSizeLosesCount` | packages/fers-ui/src/stores/vita49StreamingStore.ts:451-464 | a size that is negative or not whole breaks the balance with the first poll that overflows it |
| `TelemetryPipeline.NegativeRingSizeLosesCount` | packages/fers-ui/src/stores/vita49StreamingStore.ts:451-464 | a negative one does with the very next poll |
| `DuplicateNames.NamesEndUpDistinct` | scripts/migrate_fers_xml.py:39-104 | for every tree and every user input: all names pairwise distinct, used_names is the set of names in the tree, and no element gains or loses a name |
| `DuplicateNames.ReferencesKeepTheirMeaning` | scripts/migrate_fers_xml.py:86-104 | every reference whose name was defined names exactly one element afterwards, which had that name before |
| `DuplicateNames.ReferencesFollowTheFirst` | scripts/migrate_fers_xml.py:86-104 | such a reference ends up with the new name of the first element that had the name, unless the user typed another; without input always |
| `DuplicateNames.OccurrencesInOrder` | scripts/migrate_fers_xml.py:39-54 | the elements of a name are listed in document order |
| `DuplicateNames.ReferencesInOrder` | scripts/migrate_fers_xml.py:39-54 | the references to a name are listed in document order, and those of one element as pulse, timing, antenna |
| `DuplicateNames.OrderIsOfFirsts` | scripts/migrate_fers_xml.py:39-57 | the names are dealt with in the order in which they first appear |
| `DanglingReferences.GroupNumberedInOrder` | scripts/migrate_fers_xml.py:57-83 | without input the elements of a duplicated name get, in document order, the first numbers that are free |
| `DanglingReferences.DanglingReferenceCapturableIff` | scripts/migrate_fers_xml.py:57-104 | a reference to nobody comes to name an element for some answers of the user if and only if, when its name can be typed, the tree has a duplicated name, and otherwise the name is reached when each group in turn takes as many of its free numbers as it has elements |
| `DanglingReferences.CapturedOnlyByAnswers` | scripts/migrate_fers_xml.py:63-83 | in any run such a reference is captured only when its name was typed or is a duplicated name with a number |
| `DanglingReferences.CaptureExample` | scripts/migrate_fers_xml.py:57-83 | a tree on which that happens |
| `DuplicateNames.NameIsFirstFreeAnswer` | scripts/migrate_fers_xml.py:73-79 | the name chosen is the first answer that is free, a blank line or the end of input standing for the default, and no further line is read |
| `DuplicateNames.ReferenceIsFirstOption` | scripts/migrate_fers_xml.py:97-102 | the reference chosen is the first answer that is one of the new names |
| `DuplicateNames.DefaultNameIsFirstFree` | scripts/migrate_fers_xml.py:63-71 | the default is the first free numbered name from the occurrence's place on |
| `DuplicateNames.ResolveNameKeepsInv` | scripts/migrate_fers_xml.py:57-104 | dealing with one group of duplicates keeps names, used names and references consistent |
| `DuplicateNames.Collect` | scripts/migrate_fers_xml.py:39-54 | pass 1 fills the dictionaries with all definitions and references, in document order |
| `DuplicateNames.FindDefaultName` | scripts/migrate_fers_xml.py:65-71 | the counter search ends with the first free numbered name |
| `DuplicateNames.AskForName` | scripts/migrate_fers_xml.py:73-79 | the retry loop ends, at the latest at the end of input, with a name that is free |
| `DuplicateNames.AskForReference` | scripts/migrate_fers_xml.py:97-102 | the retry loop ends with one of the new names |
| `DuplicateNames.RenameGroup` | scripts/migrate_fers_xml.py:57-83 | pass 2 renames every occurrence in place |
| `DuplicateNames.RedirectReferences` | scripts/migrate_fers_xml.py:86-104 | pass 3 redirects every recorded reference in place |
| `DuplicateNames.ResolveDuplicateNames` | scripts/migrate_fers_xml.py:34-104 | the tree, the used names and the unread input after the whole procedure |
| `Progress.MapRefinesHistory` | packages/fers-ui/src/views/simulationProgress.ts:61-207 | after any events each step but the main one holds its last event, its details are the last event of every detail id in the fixed order, and each stored message matches back to where it is stored |
| `Progress.MainStepIsLast` | packages/fers-ui/src/views/simulationProgress.ts:179-207 | the main step holds the last event matched to it |
| `Progress.UpsertFacts` | packages/fers-ui/src/views/simulationProgress.ts:164-177 | upserting replaces what was stored under the id, keeps everything else, and keeps order and uniqueness |
| `Progress.RankIsPlace` | packages/fers-ui/src/views/simulationProgress.ts:23-34 | the order of the details of a step |
| `Progress.TiesByFirstReport` | packages/fers-ui/src/views/simulationProgress.ts:164-207 | details of the same rank stand in the order in which they were first reported |
| `ProgressMessages.MainMessages` | packages/fers-ui/src/views/simulationProgress.ts:61-81 | the messages about the whole simulation belong to the main step, each with its detail |
| `ProgressMessages.OnlyMainMessages` | packages/fers-ui/src/views/simulationProgress.ts:61-81 | no other message belongs to the main step |
| `ProgressMessages.UnknownIff` | packages/fers-ui/src/views/simulationProgress.ts:61-143 | a message is unknown exactly when it is of none of the listed forms, and is then a step of its own |
| `ProgressMessages.ReceiverMessagesMatchBack` | packages/fers-ui/src/views/simulationProgress.ts:83-143 | whatever a receiver is called, each message about its streaming or export is matched to that receiver and that detail |
| `ProgressMessages.ExportChunkMatchesBack` | packages/fers-ui/src/views/simulationProgress.ts:125-142 | the message of an export's chunk is matched to its receiver if and only if the name is not empty and stays on one line |
| `ProgressMessages.NamelessChunk` | packages/fers-ui/src/views/simulationProgress.ts:125-142 | the first chunk of a receiver without a name is an unknown step |
| `ProgressCompletion.ReachableIsWellKept` | packages/fers-ui/src/views/simulationProgress.ts:196-207 | the invariant of every map the reducer can produce |
| `ProgressMessages.FinalizedMatchesBack` | packages/fers-ui/src/views/simulationProgress.ts:209-254 | the completion message of a streaming receiver is matched back to that receiver, whatever its name |
| `ProgressMessages.FinishedExportingMatchesBack` | packages/fers-ui/src/views/simulationProgress.ts:209-254 | the same for an exporting receiver |
| `ProgressCompletion.CompleteEventMatches` | packages/fers-ui/src/views/simulationProgress.ts:209-254 | a completion message keeps step, kind and receiver, stands at 100 percent, and completing it again changes nothing |
| `ProgressCompletion.NormalizedIsCompleted` | packages/fers-ui/src/views/simulationProgress.ts:256-296 | the pass with its re-adding of details, in any order of enumeration, completes each step by itself |
| `ProgressCompletion.CompletedIsIdempotent` | packages/fers-ui/src/views/simulationProgress.ts:256-296 | completing a completed map changes nothing |
| `ProgressCompletion.CompletionPass` | packages/fers-ui/src/views/simulationProgress.ts:256-312 | on every reachable map the pass keeps each key, adds at most `main`, gives every other step the completion message of its kind and receiver, stores it under the detail that stands for it and leaves all other details, leaves unknown steps alone, and is idempotent |
| `Progress.PercentIs` | packages/fers-ui/src/views/simulationProgress.ts:298-312 | no percentage without a total, and otherwise the share done, kept between 0 and 100 |
| `ProgressCompletion.NormalizeCompletedProgressSnapshot` | packages/fers-ui/src/views/simulationProgress.ts:256-296 | the loop against that specification |
| `VitaOutput.ValidEpochIff` | packages/libfers/src/api.cpp:176-200 | an epoch is valid exactly when its whole seconds fit 32 bits |
| `VitaOutput.SettersKeepSettled` | packages/libfers/src/api.cpp:492-631 | the default settings, and the outcome of every setter, keep all fields but the full scale within their limits |
| `VitaOutput.CallsSettle` | packages/libfers/src/api.cpp:468-631 | after any sequence of setter calls on a new context every field but the full scale is within its limits, and output mode and full scale are what the calls say |
| `VitaOutput.CallsLeave` | packages/libfers/src/api.cpp:468-631 | every setting after any sequence of setter calls is that of the last call of its kind with a value within the limits, or the default |
| `VitaOutput.RunnableIff` | packages/libfers/src/api.cpp:202-234 | after any sequence of setter calls a run is refused exactly when VITA 49 output stands enabled and no call ever set a valid full scale |
| `VitaOutput.ComplaintIff` | packages/libfers/src/api.cpp:202-234 | for any settings the check before a run passes exactly when output is not VITA 49 or every field is within its limits |
| `VitaOutput.FersContext.EnableVita49UdpOutput` | packages/libfers/src/api.cpp:492-531 | the settings on success, and unchanged settings with the recorded error on failure |
| `VitaOutput.FersContext.SetVita49Fullscale` | packages/libfers/src/api.cpp:533-552 | the same for the full scale |
| `VitaOutput.FersContext.SetVita49Epoch` | packages/libfers/src/api.cpp:554-573 | the same for the epoch |
| `VitaOutput.FersContext.SetVita49MaxUdpPayload` | packages/libfers/src/api.cpp:575-594 | the same for the payload size |
| `VitaOutput.FersContext.SetVita49QueueDepth` | packages/libfers/src/api.cpp:596-615 | the same for the queue depth |
| `VitaOutput.FersContext.SetVita49PacketTraceEnabled` | packages/libfers/src/api.cpp:617-631 | the same for the packet trace |
| `VitaOutput.FersContext.UseHdf5Output` | packages/libfers/src/api.cpp:468-490 | only the output mode changes |
| `VitaCli.ParseArguments` | packages/fers-cli/src/arg_parser.cpp:504-557 | the loop with its advancing index reads no argument beyond the last and gives the same result as reading the options in turn |
| `VitaCli.ReadArgumentsKeepsSound` | packages/fers-cli/src/arg_parser.cpp:153-298 | whatever options come in whatever order, accepted values are within the limits of the setters |
| `VitaCli.AcceptedArgumentsRun` | packages/fers-cli/src/cli_runner.cpp:110-145 | every argument vector accepted with VITA output passes all setters and the check before the run, in any context, and the settings are the parsed ones |
| `VitaCli.EpochAcceptedIff` | packages/fers-cli/src/arg_parser.cpp:195-212 | the epoch option accepts exactly decimal text whose whole seconds fit 32 bits |
| `VitaCli.ValuesAcceptedIff` | packages/fers-cli/src/arg_parser.cpp:184-244 | full scale, payload and queue depth are accepted exactly within their limits |
| `VitaCli.EndpointAcceptedIff` | packages/fers-cli/src/arg_parser.cpp:153-182 | an endpoint is accepted exactly as a host without colon, a colon, and a port from 1 to 65535 |
| `VitaCli.ArgumentsMean` | packages/fers-cli/src/arg_parser.cpp:504-557 | an accepted configuration says what was given, the last value of each option counting; readable arguments are accepted exactly when there is a script file and VITA options come with both an endpoint and a full scale or not at all |
| `VitaCli.SecondScriptIsRefused` | packages/fers-cli/src/arg_parser.cpp:504-557 | a second script file is refused |
| `VitaCli.ArgumentAcceptedIff` | packages/fers-cli/src/arg_parser.cpp:383-442 | of the arguments without a separate value exactly the listed options and the first script file are accepted |
| `VitaCli.EndpointRoundTrip` | packages/fers-cli/src/arg_parser.cpp:153-182 | every host without a colon and every port from 1 to 65535 can be given |
| `VitaCli.OptionsRoundTrip` | packages/fers-cli/src/arg_parser.cpp:504-557 | every script name that is not an option and every choice of settings within their limits can be given, and is read as exactly those settings |
| `VitaCli.ConfigureVita49Output` | packages/fers-cli/src/cli_runner.cpp:110-145 | the setters in order, stopping at the first failure, and the settings left behind in every case |
| `VitaUi.ValidateVita49Config` | packages/fers-ui/src/stores/vita49StreamingStore.ts:145-189 | the errors in the order they are pushed |
| `VitaUi.ErrorsAre` | packages/fers-ui/src/stores/vita49StreamingStore.ts:145-189 | each complaint is made exactly when it applies, once, and in the order of the fields |
| `VitaUi.NoErrorsMeans` | packages/fers-ui/src/stores/vita49StreamingStore.ts:145-189 | no errors exactly when every field is within its limits |
| `VitaUi.AcceptedIsReceived` | packages/fers-ui/src/stores/vita49StreamingStore.ts:191-212 | accepted settings reach the backend's fixed-width fields whole |
| `VitaUi.AcceptedRunsIff` | packages/fers-ui/src-tauri/src/fers_api.rs:651-663 | accepted settings pass every setter and the check before the run if and only if the host holds no NUL; the resulting settings are given whole |
| `VitaUi.NulHostIsRefused` | packages/fers-ui/src-tauri/src/fers_api.rs:594-602 | a host that is accepted and refused |
| `VitaUi.ConfigureVita49Stream` | packages/fers-ui/src-tauri/src/fers_api.rs:651-663 | the setters in order, stopping at the first error, and the settings left behind in every case |
| `StreamRows.MergedRows` | packages/fers-ui/src/stores/vita49StreamingStore.ts:302-382 | unique keys, sorted by receiver, mode and stream, a row for each expected row and each counter, and each row either shows, field by field, the last counter resolving to it or is the expected row |
| `StreamRows.ExpectedRowIs` | packages/fers-ui/src/stores/vita49StreamingStore.ts:316-330 | a counter resolves to the expected row of its receiver and known mode, or else to the only row of its receiver |
| `StreamRows.ModeIsRead` | packages/fers-ui/src/stores/vita49StreamingStore.ts:214-219 | the four known modes are read and every other text is the unknown one |
| `Sorting.SortIsStable` | packages/fers-ui/src/stores/vita49StreamingStore.ts:375-382 | elements of the same rank keep their order |
| `StreamRows.RowAtKey` | packages/fers-ui/src/stores/vita49StreamingStore.ts:332-363 | what the merge leaves under any key |
| `StreamRows.TotalsAgree` | packages/fers-ui/src/stores/vita49StreamingStore.ts:302-382 | a total over the rows falls short of the total over the counters by what was overwritten, and equals it if and only if of two counters that resolve to one row the earlier reports nothing |
| `StreamRows.ExpectedRowShows` | packages/fers-ui/src/stores/vita49StreamingStore.ts:221-275 | the row of a receiver before any counter, field by field |
| `StreamRows.DerivedKeysAreDistinct` | packages/fers-ui/src/stores/vita49StreamingStore.ts:221-275 | receivers with different ids have different keys |
| `StreamRows.ResolutionOfDerived` | packages/fers-ui/src/stores/vita49StreamingStore.ts:316-330 | a counter of a listed receiver resolves to the receiver's row whatever mode it reports; any other makes its own row |
| `StreamRows.SharedRowIff` | packages/fers-ui/src/stores/vita49StreamingStore.ts:277-347 | two counters share a row exactly when they report the same listed receiver, or the same unlisted receiver, mode and stream |
| `StreamRows.DerivedRows` | packages/fers-ui/src/stores/vita49StreamingStore.ts:221-382 | for the rows of a scenario a row is observed exactly when some counter resolves to it |
| `StreamRows.DerivedTotalsIff` | packages/fers-ui/src/stores/vita49StreamingStore.ts:221-382 | for each of the eight counts, totals agree if and only if of two counters of the same stream the earlier reports nothing of it |
| `StreamRows.DerivedCountsAreBlank` | packages/fers-ui/src/stores/vita49StreamingStore.ts:251-268 | an expected row shows nothing of any of the eight counts |
| `StreamRows.SharedRowLosesPackets` | packages/fers-ui/src/stores/vita49StreamingStore.ts:332-363 | two counters of one listed receiver: the packets of the first are missing from the rows |
| `StreamRows.MergeVita49StreamRows` | packages/fers-ui/src/stores/vita49StreamingStore.ts:302-382 | the loop and the final sort against the merge the properties are proved about |

## Left out

- CompareSignals: the square roots and the angle of the result are not taken; the squared quantities and the complex gain are returned instead, and rounding is not modelled.
- CloneTemplateIntoScenarioData: the catalogue of templates is not modelled, a platform template always lists its dependencies (perhaps none), and settings of assets and components are opaque.
- CreateTemplateFromScenarioItem: the id, the time stamps and the source record of a template are not modelled; insertion does not read them.
- Ingest: parsing the JSON of a telemetry message is a parameter (absent, malformed or parsed); a poisoned lock, a panicking thread and the overflow of a 64-bit counter are not modelled.
- AppendPacketBatch: a ring size that is an infinity or NaN is not modelled.
- AppendConservesIff: over finite ring sizes, as AppendPacketBatch is.
- ChildLaunchRoundTrip: shell expansions and operators are not modelled; text that would use them has no reading here, and quoted words never do.
- DecodeOfEscaped: surrogate pairs in \u escapes are not combined.
- FindCases: which directories the listing yields, and in which order, is a parameter; `int()` of text that is not a run of digits is an error here even where Python would read it.
- ResolveDuplicateNames: the tree is an array of elements in document order; prompts and messages, the parsing of XML and the rest of the migration are not modelled.
- ParseArguments: `std::stod` and the checks of options that do not concern VITA output are parameters, and the fields those options set are not kept.
- EnableVita49UdpOutput: a null context pointer is not modelled; it is refused by every setter.
- ValidateVita49Config: error messages are an enumeration.
- AcceptedRunsIff: text is well formed; a lone surrogate, which JavaScript allows in a string, is not modelled.
- NormalizeCompletedProgressSnapshot: the order in which JavaScript enumerates the keys is a parameter, so the results hold for every order; a key named `__proto__` is not special.
- MergeVita49StreamRows: ids, counts and stream ids are integers.
- Views, the batching of polls by a view, rendering, the simulation itself, spectral analysis, file and network access, and the foreign-function layer are not part of this model.
