# NetPulse, verified

NetPulse watches a network: it polls routers and switches, keeps an incident log, heals machines with
runbooks, talks to a mesh of peers and to an Alertmanager, and is configured through one JSON tree. This
project models the parts of it where several writers, a hand-written codec or a chain of tree
transformations have to agree, and proves what they promise. `dafny verify dfyconfig.toml` checks it.

How the model is laid out:

- **Incidents** (`Incidents`, `Operations`, `OperationsService`, `IncidentRows`, `AlertBatches`, `IncidentRuns`,
  `IncidentRaces`). Four tables and the transactions on them; the collector's poll and the Alertmanager's batch as
  serial operations (functions, and a class whose methods refine them); what each writes, field by field, and what a
  posted batch does by the status and labels of its alerts; then the same operations cut into their separate
  transactions and interleaved freely; and what becomes of each serial promise then. Each transaction takes one clock
  reading.
- **SNMP** (`OidText`, `SnmpWalk`, `Ber`, `SnmpResponse`, `SnmpAgent`). The walk against any agent and against an agent
  that holds a sorted table; the encoder and decoder, octet by octet, against ITU-T X.690; and the two together, from
  the octets of requests and of standard responses to the result of a walk.
- **Configuration** (`Json`, `JsonPaths`, `Secrets`, `Config`, `ConfigDefaults`, `ConfigFile`, `ConfigLeaves`,
  `EnvLeaves`, `Settings`, `SettingsPosts`). Deep merge, encryption, validation, environment variables, loading and
  saving, and the round trip of the settings form; and for each of them what becomes of the value at a path of the
  tree. DPAPI is a parameter: an oracle that may fail at any place of the tree.
- **Arithmetic** (`Availability`, `RamTrend`). The sweep against a definition instant by instant over
  integer times, on transitions and on the events themselves; the fitted line over the reals.
- **Wires** (`ByteStrings`, `RouterFraming`, `RouterReplies`, `RouterClient`, `WebSocket`, `MeshRpc`). RouterOS words,
  sentences and replies of every kind over a socket that delivers chunks of any size; WebSocket frames against RFC
  6455; mesh calls as threads that interleave with the receiver and with the loss of the link.
- **Resources** (`Pool`, `Jobs`, `Notifications`). Connections, job slots and deliveries under every interleaving.
- **Healing** (`RateLimit`, `RateRace`, `EventTime`, `Dedup`, `Healing`). The rate limiter, called one at a time and by
  several threads; the calendar, and the deduplication of events by the texts of their times; and the mutually
  recursive cascade.

`Wrappers` holds `Option` and `Result`, which stand for `None` and for raised exceptions. Clocks, random
identifiers, sends, writes and exit codes are parameters or oracles.

Where the code does not keep a promise, the code is modelled as it is and the exact condition is proved:

- `_len` writes base 128 digits that `_tlv_parse` reads in base 256: right below 128 bytes, never from there on.
- A v2c agent that repeats the identifier at the end of its table makes `snmp_walk` fill up with copies, exactly when
  the subtree is not empty, is short of the limit and is the end of the table.
- `_val_convert` reads integers unsigned, so it is right exactly when they are not negative.
- An identifier with a second arc of 40 or more does not come back from `_oid_dec`.
- `snmp_getnext` sends a message that standard decoding can read exactly when its content is shorter than 128 octets.
- Saving and loading, without environment overrides, gives a configuration back exactly when no text of it already
  looks encrypted and decrypts to another. Where no text does, it gives one loaded under overrides back exactly when
  it has every key of the defaults; an environment variable over a section the file spoiled can take keys away until
  the next load. No environment variable reaches
  a top-level key with an underscore, so the documented `NETPULSE_WEB_PORT` (netpulse/config.py:239) never sets
  `web_port`.
- Settings posted back as shown are kept exactly when every list other than `web_users` is free of secret-named
  keys and of masked values; a `web_admins` list loses its tokens.
- Interleaving breaks four promises that hold serially. A poll that answered ends without an active incident exactly
  when none is active at its end or the active one is the one its lookup found. It raises exactly when the incident
  its lookup found has been resolved since. The Alertmanager leaves an active incident open exactly when it had read a
  failing streak or its lookup had found another one. A failed poll creates an incident exactly when the window and
  the streak it read in its health transaction allow it and none is active at its end, and a firing alert by the
  windows its batch read at its beginning, so both can create one inside a window saved meanwhile. A run from the
  empty store is given for each failure. What a poll says of the failures on record (none after one that answered,
  two or more when it creates) holds as long as polls of one router do not overlap, as the lock of `poll`
  (netpulse/mikrotik.py:110-143) has it.
- A call pending when the mesh link drops ends by the error of the lost link or returns nothing, according to
  whether its slot is still there when it wakes.
- A delivery gets through more than once exactly when two `sent` writes were lost, or one was and a later one was
  not; its row is left `queued` or `sending` exactly when one of the named writes or the hand-over was lost. A run is
  given for each.
- The deduplication of events compares a time written with `T` to one written with a space, which is a comparison of
  days. It agrees with the window of hours exactly when an event of the key lies in the window, or none lies on the
  cutoff's day at or before the cutoff.
- `_rate_ok` holds no lock. The hourly limit holds as long as no other check of the pair writes between the
  comparison and the write of one; two threads that both compare before either writes are both let through. Where
  every check takes less than a period that is exactly when the starts are a period apart, which is more than the
  limit asks: with two starts an hour allowed, two at one moment keep it. In general they are a period apart exactly
  when every write comes while the comparison it rests on still holds of the table.
- The availability of a window depends on the order of the input exactly when at some instant of it the latest time is
  shared by two opposite transitions.

## Model

| member | source | states |
|---|---|---|
| `Incidents.OpenKeepsInv` | netpulse/operations.py:124-142 | opening keeps one active incident per key, the replay of every timeline, the times of every row; the unique index never fires |
| `Incidents.ChangeKeepsInv` | netpulse/operations.py:152-177 | so does every change by the operator, the collector or the Alertmanager |
| `Incidents.OpenCreatesIff` | netpulse/operations.py:124-142 | an incident is created exactly for valid arguments, a key without an active incident and an unused id |
| `Incidents.CreatedIsActive` | netpulse/operations.py:130-142 | what was created is the active incident of its key |
| `Incidents.OpenFrame` | netpulse/operations.py:124-142 | a failed call changes nothing; health and windows stay; one row is added exactly when one is created |
| `Incidents.ChangeFrame` | netpulse/operations.py:152-177 | a refused change leaves the store as it was; none adds a row or touches health or windows |
| `Incidents.OpenExtends` | netpulse/operations.py:130-142 | opening keeps every row under its id and key, resolved rows resolved, and never lowers a count |
| `Incidents.ChangeExtends` | netpulse/operations.py:157-176 | so does every change |
| `Incidents.OpenCounts` | netpulse/operations.py:130-142 | a completed call adds one occurrence to its own key and no other, and one active incident exactly when it created one |
| `Incidents.ChangeCounts` | netpulse/operations.py:157-176 | a change keeps all occurrences, and takes one active incident away from the key it resolves, if any |
| `Incidents.ActiveTotal` | netpulse/operations.py:30-31 | under the unique index the active incidents of a key number 0 or 1, and 1 exactly when a lookup finds one |
| `IncidentRows.StripIff` | netpulse/operations.py:10-13 | what `text` returns is the one text left without the white space around it |
| `IncidentRows.OpenRefusals` | netpulse/operations.py:124-127 | which arguments are refused, and with which error |
| `IncidentRows.CreatedRow` | netpulse/operations.py:137-141 | a created incident has the stripped device and title, the severity, key and id given, both times of the opening, no owner and one occurrence; its first note has the actor and the title |
| `IncidentRows.RepeatedRow` | netpulse/operations.py:132-136 | a repeated event leaves every field of the active incident of its key but its last time and its count, every other row, and the timeline |
| `IncidentRows.ChangedRowIs` | netpulse/operations.py:157-176 | a change writes one row, field by field as its action says, and one note of the actor, the action and the message or owner |
| `IncidentRows.ChangeOkIff` | netpulse/operations.py:152-173 | exactly which changes are made |
| `IncidentRows.HealthRow` | netpulse/operations.py:182-188 | a poll leaves its own time and that of the last answer in the health row of its router, and no other row is touched |
| `IncidentRows.HealthIsHistory` | netpulse/operations.py:182-188 | after any serial run the health row tells when the router was last polled and when it last answered |
| `IncidentRows.WindowSavedIff` | netpulse/operations.py:98-106 | a window is saved exactly when it ends between the epoch and seven days from now |
| `IncidentRows.CollectorRow` | netpulse/operations.py:198-201 | the incident the collector opens has the device, title, severity, key and actor of its router |
| `IncidentRows.CollectorCloses` | netpulse/operations.py:192-197 | the one it closes is noted as closed by the collector |
| `Operations.SuccessClears` | netpulse/operations.py:179-197 | run serially, a poll that answered leaves no active incident of its router and no failures, and reports a closure exactly when there was one |
| `Operations.CollectorCreatesIff` | netpulse/operations.py:179-202 | the collector creates exactly at a streak of two or more, outside maintenance, when none is active |
| `Operations.ResolveClears` | netpulse/operations.py:166-169 | resolving the active incident of a key succeeds and leaves none under that key |
| `Operations.ResolveElsewhere` | netpulse/operations.py:166-169 | and leaves the active incident of every other key alone |
| `Operations.AlertsNeverCloseFailing` | netpulse/operations.py:246-255 | no batch of alerts closes the incident of a router with failures on record |
| `Operations.OutcomeAddsUp` | netpulse/operations.py:231-256 | every alert of a completed batch is counted once, every opening is a new row, every count has its notification |
| `Operations.FailuresAreStreak` | netpulse/operations.py:182-190 | over any serial run the stored failures are the trailing streak of failed polls, and the invariant holds |
| `Operations.SerialSafety` | netpulse/operations.py:179-202 | after any serial run the next poll keeps these promises, stated by the streak of the run itself |
| `Operations.SerialAlerts` | netpulse/operations.py:246-255 | after any serial run no batch closes the incident of a router whose streak is positive |
| `AlertBatches.CheckedIff` | netpulse/operations.py:214-228 | exactly which alerts are well formed; what is passed on has the status, the stripped labels each under its own name, and the summary or the name for a title |
| `AlertBatches.AcceptedIff` | netpulse/operations.py:211-228 | exactly which batches are accepted; one that is not changes nothing |
| `AlertBatches.FiringInWindow` | netpulse/operations.py:239-240 | a firing alert inside the window of its device is ignored |
| `AlertBatches.FiringOpens` | netpulse/operations.py:232-245 | outside it, it opens an incident with the device, key and title its labels and summary say, reports it and notifies; or counts once more under the active one |
| `AlertBatches.ResolvedCloses` | netpulse/operations.py:246-255 | a resolved alert never adds a row; it closes the active incident of its key, unless polls of its router are failing, and is counted accordingly |
| `AlertBatches.BatchBounds` | netpulse/operations.py:229-256 | in a completed batch no more are opened than are firing and no more resolved than say so; every alert is counted, every opening is a row |
| `AlertBatches.BatchConcat` | netpulse/operations.py:231-256 | a batch is handled in its order: its first part, and then the rest, unless the first part raises |
| `OperationsService.Service.OpenIncident` | netpulse/operations.py:124-142 | the method on the tables does what the transaction says and keeps the invariant |
| `OperationsService.Service.ChangeIncident` | netpulse/operations.py:152-177 | the same for a change, branch by branch |
| `OperationsService.Service.RecordHealth` | netpulse/operations.py:182-190 | the health row of a poll, and whether the device is in its window |
| `OperationsService.Service.ObserveRouter` | netpulse/operations.py:179-202 | health, lookup, then open or resolve, as the serial operation says |
| `OperationsService.Service.HandleAlert` | netpulse/operations.py:232-255 | one alert of a batch: ignored in a window, opened, resolved, or ignored while the router fails |
| `OperationsService.Service.ReceiveAlerts` | netpulse/operations.py:210-256 | a batch that is refused changes nothing; one that is accepted is handled alert by alert, and an alert that raises keeps what came before |
| `OperationsService.FirstBad` | netpulse/operations.py:214-228 | the alert reported is the first that is not well formed |
| `IncidentRuns.CommitSafe` | netpulse/operations.py:130-201 | every single transaction keeps the invariant, the counts of every key, and resolved incidents resolved |
| `IncidentRuns.EveryRun` | netpulse/operations.py:124-202 | in every interleaving: one active incident per key, status and owner the replay of the timeline, occurrences the completed calls, creations less resolutions 0 or 1 and the number of active incidents |
| `IncidentRuns.IndexNeverFires` | netpulse/operations.py:30-31 | whoever opens next after any interleaving, the unique index does not fire |
| `IncidentRuns.ResolvedIsFinal` | netpulse/operations.py:166-169 | whatever runs later, a resolved incident stays resolved |
| `IncidentRuns.PollRefinesSerial` | netpulse/operations.py:182-201 | the transactions of one poll run back to back are the serial poll |
| `IncidentRuns.AlertRefinesSerial` | netpulse/operations.py:232-255 | the transactions of one alert, firing or resolved, run back to back are the serial alert; one that raises ends its batch |
| `IncidentRuns.BatchRefinesSerial` | netpulse/operations.py:229-256 | a whole batch run back to back is the serial batch, up to and including an alert that raises |
| `IncidentRaces.SuccessClearsIff` | netpulse/operations.py:192-197 | in every reachable world a poll that answered ends without an active incident exactly when none is active or the active one is the one its lookup found |
| `IncidentRaces.AlertKeepsOpenIff` | netpulse/operations.py:246-255 | in every reachable world the end of a resolved alert leaves the active incident of its key open exactly when a failing streak was read or its lookup found another one |
| `IncidentRaces.ActiveAfterSuccess` | netpulse/operations.py:192-197 | from any world without an active incident, an opening between lookup and end leaves one after a poll that answered |
| `IncidentRaces.ActiveAfterSuccessHappens` | netpulse/operations.py:179-202 | such a run from the empty store |
| `IncidentRaces.ClosedWhileFailing` | netpulse/operations.py:247-255 | a failed poll between the reading of the health row and the change lets the Alertmanager close a failing router's incident |
| `IncidentRaces.ClosedWhileFailingHappens` | netpulse/operations.py:246-255 | such a run from the empty store |
| `IncidentRaces.RacingClose` | netpulse/operations.py:246-255 | a change decided on an old reading of the health row closes the incident and leaves the new failure on record |
| `IncidentRaces.PollCreatesIff` | netpulse/operations.py:187-201 | in every reachable world the end of a failed poll creates an incident exactly when the window and the streak read with its health row allow it, none is active now, and the arguments and the id are valid |
| `IncidentRaces.AlertCreatesIff` | netpulse/operations.py:229-245 | the same for a firing alert, by the windows read before its batch |
| `IncidentRaces.InsideWindowMeans` | netpulse/operations.py:187-201 | a failed poll creates inside a window in force only when that window was saved after its health transaction, or the clock stepped back |
| `IncidentRaces.AlertInsideWindowMeans` | netpulse/operations.py:229-245 | a firing alert does so only when the window is not the one its batch read |
| `IncidentRaces.LateWindowMeans` | netpulse/operations.py:229-245 | in every interleaving that window was saved after the batch began |
| `IncidentRaces.CollectorInsideWindowHappens` | netpulse/operations.py:187-201 | such a run of the collector from the empty store |
| `IncidentRaces.AlertInsideWindowHappens` | netpulse/operations.py:229-245 | such a run of the Alertmanager from the empty store |
| `IncidentRaces.AnsweredPollRaisesIff` | netpulse/operations.py:192-197 | in every reachable world the end of a poll that answered raises exactly when the incident its lookup found is resolved by then |
| `IncidentRaces.AnsweredPollRaisesHappens` | netpulse/operations.py:166-197 | such a run from the empty store |
| `IncidentRaces.StreakHolds` | netpulse/operations.py:182-201 | when no other poll of the router comes between, its failures on record at the end are none after an answer and one more than before otherwise, and two or more when it creates |
| `OidText.PrefixIsUnder` | netpulse/l2map.py:100-105 | the string prefix test with the trailing dot is the arc prefix test |
| `OidText.TextInjective` | netpulse/infra.py:95-106 | distinct identifiers have distinct dotted texts |
| `SnmpWalk.CollectPairs` | netpulse/l2map.py:104-110 | the pairs kept from one response are those under the prefix, in order, up to the limit |
| `SnmpWalk.Walk` | netpulse/l2map.py:91-112 | against any agent: at most `limit` requests, at most `limit` pairs, all of them under the base |
| `SnmpWalk.AsksForLast` | netpulse/l2map.py:94-112 | the next request is for the last identifier of a response that stays under the base |
| `SnmpWalk.SubtreeIsRun` | netpulse/l2map.py:101-107 | in a sorted table the entries strictly under a base are the run that starts right after it |
| `SnmpWalk.WalkExactIff` | netpulse/l2map.py:91-112 | the walk returns exactly the first min(m, limit) of the m entries strictly under the base, in order, unless the agent repeats at its end and the stated case holds; an equivalence |
| `Ber.LenEnc` | netpulse/infra.py:35-42 | the loop leaves the count octet and the base 128 digits of the length |
| `Ber.LenIsStandardIff` | netpulse/infra.py:35-42 | these are length octets of section 8.1.3 of X.690 exactly below 128 |
| `Ber.ParsesStandard` | netpulse/infra.py:83-92 | every definite-length encoding is parsed, at any position of a buffer |
| `Ber.TlvRoundTripIff` | netpulse/infra.py:35-92 | content and next position come back exactly when the content is shorter than 128 bytes |
| `Ber.LongTlvParse` | netpulse/infra.py:83-92 | from 128 bytes on the length read is strictly too large, and what follows is taken for content |
| `Ber.ContentRecoveredIff` | netpulse/infra.py:83-92 | the content alone also comes back when nothing follows it |
| `Ber.IntEnc` | netpulse/infra.py:49-58 | the loop writes the INTEGER of a non-negative number |
| `Ber.IntRoundTrip` | netpulse/infra.py:49-58 | a non-negative number comes back, and its content is minimal (section 8.3.2 of X.690) |
| `Ber.MinimalFormUnique` | netpulse/infra.py:49-58 | every minimal content of a non-negative number is the one written |
| `Ber.ValConvert` | netpulse/infra.py:109-119 | an integer is read as unsigned octets |
| `Ber.ConvertIsSignedIff` | netpulse/infra.py:109-119 | that is the value of section 8.3.3 of X.690 exactly when it is not negative |
| `Ber.OidEnc` | netpulse/infra.py:61-74 | the loop over arcs writes the content, or refuses what it cannot write |
| `Ber.OidDec` | netpulse/infra.py:95-106 | the loop reads content back as dotted text, `?` when there is none |
| `Ber.OidRoundTripIff` | netpulse/infra.py:61-106 | an identifier that can be encoded comes back exactly when its second arc is below 40, whatever the size of the rest |
| `Ber.OidRefusedIff` | netpulse/infra.py:61-64 | exactly which identifiers are refused |
| `SnmpResponse.ReadVarbinds` | netpulse/l2map.py:77-84 | the loop over the varbind list |
| `SnmpResponse.VarbindsParse` | netpulse/l2map.py:77-84 | an encoded list of varbinds is read back item by item, in order |
| `SnmpResponse.ListEnds` | netpulse/l2map.py:78-80 | a list ends at the first item that is no SEQUENCE, with what came before |
| `SnmpResponse.ListBreaks` | netpulse/l2map.py:77-88 | a list cut off within an item, or with an item of no content, raises |
| `SnmpResponse.PduParses` | netpulse/l2map.py:70-84 | a PDU with error status zero gives its varbinds, one with another status none |
| `SnmpResponse.ResponseParses` | netpulse/l2map.py:64-85 | a whole response in any definite-length encoding gives what its PDU gives |
| `SnmpResponse.NoListNoVarbinds` | netpulse/l2map.py:74-76 | a PDU whose fourth field is no SEQUENCE gives nothing |
| `SnmpResponse.BrokenGivesNothing` | netpulse/l2map.py:62-88 | a response whose PDU raises gives nothing |
| `SnmpAgent.EntryParses` | netpulse/l2map.py:64-85 | a standard response that carries one table entry gives exactly the pair GETNEXT is to give |
| `SnmpAgent.AnswerIsGetNext` | netpulse/l2map.py:45-88 | so does every answer of an agent with a table: the next entry, an error status, or endOfMibView |
| `SnmpAgent.RequestIsStandardIff` | netpulse/l2map.py:45-51 | the packet is a GetNextRequest of the identifier, in some definite-length encoding, exactly when its content is shorter than 128 octets |
| `SnmpAgent.WalkOnWireIff` | netpulse/l2map.py:45-112 | from the octets of the requests and of the responses to the result: against an agent that answers standard requests, a walk whose requests are that short is exact in the same cases |
| `Json.DeepMerge` | netpulse/config.py:343-348 | the loop gives the merged tree: dicts key by key, all else replaced whole |
| `Json.MergeAbsorbs` | netpulse/config.py:343-348 | merging into the defaults twice is merging once |
| `Json.MergeIdempotent` | netpulse/config.py:343-348 | the same override merged again changes nothing |
| `Json.MergeCovers` | netpulse/config.py:343-348 | a merge loses no key of the base, at any depth |
| `Json.CoveredMerge` | netpulse/config.py:343-348 | a tree that has every key of the defaults is what merging it into them gives |
| `JsonPaths.MergeTakes` | netpulse/config.py:343-348 | a value of the tree merged in is there afterwards, at its path |
| `JsonPaths.MergeKeeps` | netpulse/config.py:343-348 | a value of the base stays where the tree merged in says nothing |
| `JsonPaths.MergeInvents` | netpulse/config.py:343-348 | and no other value is there |
| `Secrets.DecryptEncryptIff` | core/secrets.py:60-105 | decrypting what was encrypted gives the tree back, even where encryption fails, exactly when no text already looks encrypted and decrypts to another |
| `Secrets.EncryptCovers` | core/secrets.py:84-90 | encryption keeps the shape a merge looks at |
| `Secrets.DecryptMerge` | core/secrets.py:93-105 | decryption distributes over the merge |
| `Secrets.EncryptAt` | core/secrets.py:74-90 | at every path: a text that is not empty and has no prefix, under one of the two secret names, is replaced by the prefix and what protecting it gave, where that works; no other value changes |
| `Secrets.DecryptAt` | core/secrets.py:93-105 | at every path: what is there is what decrypting the value there gives |
| `ConfigLeaves.NoSecretInPlain` | core/secrets.py:74-90 | while protecting works no text under `web_token` or `token`, through lists too, is stored without the prefix unless it is empty |
| `ConfigLeaves.OthersAreStored` | core/secrets.py:74-90 | every other value is stored as it is |
| `ConfigLeaves.SecretsComeBack` | core/secrets.py:60-90 | what is stored of a secret can be decrypted to it, or is the secret itself |
| `Config.FixFields` | netpulse/config.py:191-234 | the inner loop sets the bad numeric fields of a section back to the defaults, and no other |
| `Config.FixRow` | netpulse/config.py:191-234 | one row of the table, over a section, a missing or spoiled one, or a plain number |
| `Config.Validate` | netpulse/config.py:191-234 | the loops leave under every checked key its fixed value and everything else alone |
| `ConfigLeaves.SectionFixed` | netpulse/config.py:191-234 | of a section the bad numbers of the table give way to the defaults and nothing else does; a section that is no dict is the default one |
| `ConfigLeaves.ScalarsFixed` | netpulse/config.py:191-234 | the port, the host and the plain numbers are kept exactly when they are in order |
| `ConfigLeaves.ValidationIff` | netpulse/config.py:191-234 | every checked value is in order afterwards, and validation changes a configuration exactly when one was not |
| `ConfigDefaults.DefaultsAreGood` | netpulse/config.py:18-188 | the shipped defaults pass their own validation, whatever they hold under keys it does not look at |
| `ConfigFile.EnvNeverHasUnderscores` | netpulse/config.py:257-270 | no environment variable sets a top-level key with an underscore |
| `EnvLeaves.VariableSets` | netpulse/config.py:253-270 | a variable of the prefix sets its value where its lower-cased name, split at the underscores, leads, unless a dict stands there |
| `EnvLeaves.OthersStay` | netpulse/config.py:253-270 | and nothing on any other path |
| `EnvLeaves.ForeignSetsNothing` | netpulse/config.py:255-256 | a variable without the prefix sets nothing |
| `EnvLeaves.RaisesIff` | netpulse/config.py:258-269 | a variable cannot be set exactly when a value that is no dict stands on its way |
| `ConfigFile.ConfigFile.SaveConfig` | netpulse/config.py:313-335 | after each of its operations the file is the old one or the whole new one, on the disk and with the old permissions; the new one exactly when nothing failed; a temporary file is left only when removing it failed too |
| `ConfigFile.ConfigFile.LoadConfig` | netpulse/config.py:274-290 | defaults, file, environment, decryption, validation, token, in that order; the file is rewritten exactly when a token was wanted and the save succeeds |
| `ConfigLeaves.LoadPrecedence` | netpulse/config.py:274-290 | a value of the environment goes before one of the file and that before the default; the value taken is decrypted if it can be |
| `ConfigLeaves.TokenIsThere` | netpulse/config.py:287-289 | where a token is asked for there is one after a load: the one held, or a new one if there was none |
| `ConfigFile.ValidateIdempotent` | netpulse/config.py:191-234 | validating twice is validating once |
| `ConfigFile.LoadSettles` | netpulse/config.py:274-310 | a loaded configuration overridden by the same environment and validated again is itself |
| `ConfigFile.SaveLoadIff` | netpulse/config.py:274-340 | under one environment save then load is the identity on a loaded configuration, none of whose texts looks encrypted and decrypts to another, exactly when it has every key of the defaults |
| `ConfigFile.SaveLoadStableIff` | netpulse/config.py:274-340 | without overrides save then load is the identity on a loaded configuration exactly when none of its texts looks encrypted and decrypts to another |
| `ConfigFile.SaveLoadIdentity` | netpulse/config.py:274-340 | so every such configuration that can be loaded without overrides comes back, whatever token a later load draws |
| `ConfigFile.OverrideCanLoseDefaults` | netpulse/config.py:237-310 | the case in which a loaded configuration lacks keys of the defaults |
| `Settings.UnchangedIffClean` | netpulse/server.py:243-258 | redacting and discarding leaves a value alone exactly when no dict in it has a secret-named key or a masked value |
| `Settings.MergeBackIff` | netpulse/server.py:243-258 | merge(c, discard(redact(c))) is c exactly when every list outside secrets is clean |
| `Settings.UnmaskedIsWhole` | netpulse/server.py:1075-1076 | a user list whose dump shows no mask was not redacted and comes back whole |
| `SettingsPosts.DumpHasMaskIff` | netpulse/server.py:1075-1076 | the dump of a value holds a mask exactly when a text or a key of it does, at any depth |
| `SettingsPosts.SensitiveIff` | netpulse/server.py:243-248 | a key is sensitive exactly when one of the five words stands in it, in whatever case |
| `SettingsPosts.SecretsAreHidden` | netpulse/server.py:243-251 | nothing under a sensitive key is shown but a mask, at any depth |
| `SettingsPosts.UrlShown` | netpulse/server.py:1059-1061 | nor a url of a webhook |
| `Settings.MonitorService.ApplySettings` | netpulse/services.py:1402-1411 | copy, merge, save, then commit; a failed save leaves the settings as they were |
| `Settings.MonitorService.SettingsPost` | netpulse/server.py:1066-1082 | what a posted form merges into the settings, or leaves them when the save fails |
| `SettingsPosts.TokenRotates` | netpulse/server.py:1066-1074 | a new token is set exactly when one is asked for |
| `SettingsPosts.UnreachedStays` | netpulse/server.py:1066-1077 | protected keys, masks, user lists with a mask and keys not named keep what was stored |
| `SettingsPosts.PostTakes` | netpulse/server.py:1066-1082 | every other value posted is taken, wherever it stands among dicts |
| `SettingsPosts.MaskedStays` | netpulse/server.py:254-259 | a mask never takes the place of a stored value, at any depth |
| `Settings.PostBackIff` | netpulse/server.py:1059-1082 | posting back what is shown keeps every setting, up to the added flag, exactly when every list other than `web_users` is clean |
| `Settings.AdminsLoseTokens` | netpulse/server.py:1066-1082 | a `web_admins` list posted back loses its tokens |
| `Availability.Collect` | netpulse/sysadmin.py:6-14 | the transitions taken from the events |
| `Availability.LatestIsLast` | netpulse/sysadmin.py:6-14 | the latest transition at an instant is that of the last event that tells a state, `ONLINE` and `WATCH_ONLINE` online, `OFFLINE` and `WATCH_OFFLINE` offline |
| `Availability.OtherEventsCountNothing` | netpulse/sysadmin.py:8-13 | an event without a time or of another kind changes no count |
| `Availability.Sweep` | netpulse/sysadmin.py:16-24 | the loop counts exactly the instants whose latest transition is online, and those whose latest is offline |
| `Availability.Summarize` | netpulse/sysadmin.py:25-30 | up, down and unknown add up to the window; the percentages are those of the counts |
| `Availability.Availability` | netpulse/sysadmin.py:5-30 | for events in any order up and down are the instants at which the last event tells online, and offline; the share of up is given as the sla exactly when at least 95 per cent of the window are known |
| `Availability.SortInstants` | netpulse/sysadmin.py:15-15 | sorting changes the state of no instant, ties included |
| `Availability.InstantsPartition` | netpulse/sysadmin.py:25-30 | every instant of the window is online, offline or unknown |
| `Availability.OrderIsIrrelevant` | netpulse/sysadmin.py:5-30 | transitions at distinct times count the same in any order |
| `Availability.OrderMattersIff` | netpulse/sysadmin.py:5-30 | every permutation of the transitions gives a window the same counts exactly when at no instant of it the latest time is shared by two opposite transitions |
| `Availability.UntiedCounts` | netpulse/sysadmin.py:15-24 | without such a tie any list with the same members gives the same counts |
| `Availability.TieCounts` | netpulse/sysadmin.py:15-24 | with one, listing the online transitions last gives more time online than listing the offline ones last |
| `Availability.TiesDependOnOrder` | netpulse/sysadmin.py:15-15 | the smallest case: of two opposite transitions at one time the later listed wins |
| `RamTrend.RamTrend` | netpulse/sysadmin.py:33-55 | the report is that of the usable points, sorted |
| `RamTrend.LeastSquares` | netpulse/sysadmin.py:44-47 | no line a + b x has a smaller squared error than the fitted one |
| `RamTrend.LinearSlope` | netpulse/sysadmin.py:44-47 | points on a line give back its slope |
| `RamTrend.TrendIsLeastSquares` | netpulse/sysadmin.py:33-55 | both hold of every report, which is made from three points or more over thirty seconds or more |
| `RamTrend.ForecastIsBounded` | netpulse/sysadmin.py:48-55 | a forecast is made only for a rising trend, is when the trend meets 95, and lies within min(86400, 5 span) |
| `RamTrend.ForecastIff` | netpulse/sysadmin.py:48-55 | it is made exactly when the trend rises and meets 95 within the horizon |
| `RamTrend.ReportOf` | netpulse/sysadmin.py:41-55 | which points make a report, and its figures |
| `RamTrend.UsedPoints` | netpulse/sysadmin.py:34-40 | what is used: the pairs that are numbers with a percentage, each as often as given |
| `RamTrend.ShiftChangesNothing` | netpulse/sysadmin.py:33-55 | shifting all times changes nothing in the report |
| `RouterFraming.LengthInverts` | netpulse/routeros.py:147-191 | reading an encoded length gives it back, whatever follows |
| `RouterFraming.PrefixFree` | netpulse/routeros.py:147-156 | no encoded length begins another |
| `RouterFraming.ExchangeBounded` | netpulse/routeros.py:193-225 | on any bytes the loop begins at most 16385 words and never returns more than 256 rows |
| `RouterFraming.ReplyParses` | netpulse/routeros.py:193-225 | a reply of `!re` sentences and a `!done` within the limits gives exactly its rows in order, and leaves what follows |
| `RouterReplies.TrapDenies` | netpulse/routeros.py:215-219 | a reply with a `!trap` in it is refused at its `!done`, whatever rows it has |
| `RouterReplies.FatalRejects` | netpulse/routeros.py:213-214 | a `!fatal` breaks a reply off, whatever comes before or after |
| `RouterReplies.RowsExceed` | netpulse/routeros.py:220-223 | the 257th row is an error |
| `RouterReplies.OtherKindsAddNothing` | netpulse/routeros.py:212-225 | without `!trap` and `!fatal` a reply gives its `!re` rows in order and the attributes of its `!done`; sentences of other kinds add nothing |
| `RouterReplies.WordsExceed` | netpulse/routeros.py:200-205 | words of more than 2 MiB in all, or more than 16384 of them, are an error |
| `RouterReplies.FiveOctets` | netpulse/routeros.py:189-190 | a length in five octets is read |
| `RouterReplies.ControlRefused` | netpulse/routeros.py:191-191 | a control byte over 0xF0 is refused |
| `RouterFraming.AttributesParse` | netpulse/routeros.py:211-213 | attributes written as `=key=value` are read back, whatever their values contain |
| `RouterReplies.AttributeAdds` | netpulse/routeros.py:211-212 | an attribute adds its value under its key, in place of an earlier one |
| `RouterReplies.OtherWordsAddNothing` | netpulse/routeros.py:211-212 | any other word adds nothing |
| `RouterClient.ApiClient.RecvAll` | netpulse/routeros.py:166-177 | exactly `size` bytes from chunks of any size, or the connection was closed |
| `RouterClient.ApiClient.ReadLength` | netpulse/routeros.py:179-191 | the length at the head of the stream, and nothing more consumed |
| `RouterClient.ApiClient.ReadReply` | netpulse/routeros.py:193-225 | the loop on the socket ends, with the rows, the attributes and the stream the framing says |
| `WebSocket.MaskTwice` | netpulse/mesh.py:212-213 | masking with one key twice gives the payload back |
| `WebSocket.SendPayload` | netpulse/mesh.py:200-213 | the loop builds the client frame of opcode, payload and key |
| `WebSocket.SentFrameDecodes` | netpulse/mesh.py:200-213 | every frame sent decodes, as in sections 5.2 and 5.3 of RFC 6455, to its opcode and payload, in minimal length form |
| `WebSocket.RecvAgreesUnmasked` | netpulse/mesh.py:215-235 | recv_frame gives back every well-formed frame without a mask |
| `WebSocket.RecvInvertsServer` | netpulse/mesh.py:215-235 | it inverts the server's encoding and consumes exactly one frame |
| `WebSocket.RecvLeavesMask` | netpulse/mesh.py:215-235 | a masked frame is read with the key at the head of its payload and the end left over |
| `MeshRpc.Provenance` | netpulse/mesh.py:322-352 | in every interleaving the slot and the outcome of a call come from packets with its own label after it registered, or from the loss of the link |
| `MeshRpc.EndedIsNotPending` | netpulse/mesh.py:339-349 | the label of a call that is over is not in `_pending` |
| `MeshRpc.EndedIsFinal` | netpulse/mesh.py:339-352 | it never comes back, and the outcome stays |
| `MeshRpc.WokenEnds` | netpulse/mesh.py:349-352 | a woken call ends by its own error or data while its slot is there, and with nothing exactly when the loss of the link cleared it |
| `MeshRpc.PacketDecides` | netpulse/mesh.py:349-352 | the packet a waiting call is woken by decides: its error, or its data unless an error came before |
| `MeshRpc.AdmittedWhileUp` | netpulse/mesh.py:322-330 | calls are admitted, and packets come, only while the link is up |
| `MeshRpc.PacketTouchesOne` | netpulse/mesh.py:482-501 | a packet touches the call it names and no other, and a late one nothing at all |
| `MeshRpc.NeverStuck` | netpulse/mesh.py:322-352 | a call that is not over can always take a step of its own |
| `MeshRpc.EveryCallEnds` | netpulse/mesh.py:322-352 | five steps of its own thread end a call by result, error, failed send or timeout, whatever the others do |
| `MeshRpc.LossHasTwoEnds` | netpulse/mesh.py:349-352 | a call pending when the link drops can raise, and can return nothing |
| `MeshRpc.MeshClient.OnPacket` | netpulse/mesh.py:482-501 | the method does what the step says |
| `MeshRpc.MeshClient.ResolveAll` | netpulse/mesh.py:503-508 | undisturbed, it wakes every pending call and leaves none |
| `MeshRpc.MeshClient.Collect` | netpulse/mesh.py:349-352 | the end of `call` pops the slot and turns it into an outcome |
| `Pool.EveryRun` | core/database.py:57-103 | in every interleaving each connection created is pooled, borrowed by one thread or closed, and only one of these; the pool never exceeds its size |
| `Pool.StepKeepsInv` | core/database.py:57-103 | every step of borrowing, replacing a dead connection, returning and closing keeps that |
| `Pool.ClosedAndQuiet` | core/database.py:385-401 | once `close` is done the pool is empty, and without borrowers every connection is closed |
| `Pool.DrainShrinks` | core/database.py:385-401 | while `close` drains nobody adds to the pool, and each round takes one away |
| `Pool.BorrowersProgress` | core/database.py:57-103 | a thread inside can go on unless it waits for `close` to let go of the lock |
| `Pool.GoesBackIff` | core/database.py:88-103 | a connection goes back exactly when the pool is open and has room, and is closed otherwise |
| `Pool.DeadIsClosed` | core/database.py:74-83 | a dead connection is closed and not lent |
| `Pool.RollbackDecides` | core/database.py:89-103 | so is one whose rollback failed |
| `Pool.ClosedLetsNobodyIn` | core/database.py:57-60 | once closing has begun nobody comes in |
| `Pool.DatabaseManager.constructor` | core/database.py:27-45 | the pool holds the connections whose opening succeeded |
| `Pool.DatabaseManager.Release` | core/database.py:88-103 | nothing goes back to a pool that is closed or full, or after a failed rollback |
| `Pool.DatabaseManager.Close` | core/database.py:385-401 | what was pooled is closed, and a second `close` does nothing |
| `Jobs.JobTable.Prune` | netpulse/server.py:231-240 | the expired go, then the oldest that ended, down to 1024 entries or until only running ones are left |
| `Jobs.SortByEnd` | netpulse/server.py:237-238 | the finished jobs, each once, in the order of their ends |
| `Jobs.PruningBounds` | netpulse/server.py:231-240 | pruning keeps every running job, and at most 1024 entries unless more than that run |
| `Jobs.PruningTakes` | netpulse/server.py:231-240 | every job that ended before the cutoff goes, and of the others only finished ones, only while more than 1024 entries are left |
| `Jobs.JobTable.SubmitJob` | netpulse/server.py:202-228 | a job that is refused for want of a slot changes nothing; one the pool refuses leaves neither entry nor slot |
| `Jobs.EveryRun` | netpulse/server.py:202-240 | in every interleaving running jobs never exceed held slots, slots never exceed 64, the table never exceeds 1025 entries |
| `Jobs.SlotsReleasedOnce` | netpulse/server.py:203-226 | each slot taken is given back once, after the job was reported over or withdrawn, once |
| `Jobs.TableIsExplained` | netpulse/server.py:206-220 | what the table says of a job is what its own steps said: when it was listed, when and how it ended |
| `Jobs.JobsProgress` | netpulse/server.py:211-226 | a listed job can always go on to give its slot back |
| `Jobs.EvictionIsFair` | netpulse/server.py:231-240 | only finished jobs are evicted, and none before one that ended earlier and stays |
| `Notifications.MoveKeepsFacts` | netpulse/notifications.py:43-122 | every statement of a delivery keeps what its phase says of its row and its history |
| `Notifications.HeldIsInFlight` | netpulse/notifications.py:43-66 | in every interleaving held slots are the deliveries in flight, and never more than 32 |
| `Notifications.Attempts` | netpulse/notifications.py:101-122 | at most three attempts; `failed` only after the third; no more than one success beyond those whose `sent` was not written |
| `Notifications.EndsTruthfully` | netpulse/notifications.py:101-122 | with no write lost and no process killed the row says `sent` exactly when one send got through, is never left queued or sending, and tells the number of attempts |
| `Notifications.NothingPendingAfterRestart` | netpulse/notifications.py:30-31 | after a start no row is queued or sending |
| `Notifications.RetentionKeeps` | netpulse/notifications.py:55-60 | storing a delivery keeps 2000 of the final rows, or all, and every other row |
| `Notifications.StoppedBeginsNothing` | netpulse/notifications.py:102-105 | a process that is stopping begins no send |
| `Notifications.DeliveriesEnd` | netpulse/notifications.py:101-122 | every statement brings a delivery nearer the release of its slot |
| `Notifications.SentAgainIff` | netpulse/notifications.py:101-122 | an ended delivery got through more than once exactly when two `sent` writes were lost, or one was and another was not |
| `Notifications.LeftBehindIff` | netpulse/notifications.py:43-122 | its row is left `queued` exactly when the pool refused it or its worker's first write was lost, and `sending` exactly when the write of `failed`, or the beginning of a later attempt, was lost |
| `Notifications.LostMarkSendsAgain` | netpulse/notifications.py:107-118 | a run from the start in which a success whose `sent` is not written is sent again |
| `Notifications.RefusedStaysQueued` | netpulse/notifications.py:52-65 | a run in which a delivery the pool refuses gives its slot back and stays queued |
| `Notifications.Notifications.Deliver` | netpulse/notifications.py:101-122 | the retry loop: one slot released, no other row touched, and the row tells what the sends and stops did |
| `RateLimit.AcceptedSpaced` | netpulse/healing.py:43-50 | checks made one at a time let a pair through at readings a period apart or more, even if the clock steps back |
| `RateLimit.WindowLimit` | netpulse/healing.py:43-50 | and so at most max(1, max_per_hour) times in any half-open window of 3600 seconds |
| `RateLimit.SpacedIsAccepted` | netpulse/healing.py:43-50 | and no more is refused than that takes: requests a period apart are all let through |
| `RateRace.SpacedIff` | netpulse/healing.py:43-50 | in every interleaving of threads the starts of a pair are a period apart exactly when each write comes while its comparison still holds of the table |
| `RateRace.UnsharedIsLimited` | netpulse/healing.py:43-50 | where no other check of a pair writes between the comparison and the write of one, it is started at most max(1, max_per_hour) times in any half-open window of 3600 seconds |
| `RateRace.BriefIsExact` | netpulse/healing.py:43-50 | where every check takes less than a period, that is exactly when the starts are a period apart |
| `RateRace.AloneIsLimited` | netpulse/healing.py:43-50 | where checks of a pair never overlap it is started at most max(1, max_per_hour) times in any such window |
| `RateRace.RaceExceeds` | netpulse/healing.py:43-50 | two threads that compare before either writes are both let through at one reading, more often than once an hour |
| `EventTime.DatesGrow` | netpulse/inventory.py:122-128 | later days have later dates |
| `EventTime.DateOfNumber` | netpulse/inventory.py:122-128 | the n-th day is the date whose number is n in the Gregorian calendar, in closed form |
| `EventTime.OneFormCompares` | netpulse/inventory.py:122-128 | had both times the form of the cutoff the order of the texts would be that of the times, to the second |
| `EventTime.TextsCompareDays` | netpulse/inventory.py:122-128 | an ISO time is greater, as a text, than a cutoff with a space exactly when its day is not before the cutoff's |
| `Dedup.DuplicateMeans` | netpulse/inventory.py:119-130 | the query finds an event of the key in the window, or on the cutoff's day at or before it |
| `Dedup.DedupIff` | netpulse/inventory.py:119-130 | it agrees with the window of hours exactly when an event of the key lies in it or none lies on the cutoff's day at or before it |
| `Dedup.OldEventIsDuplicate` | netpulse/inventory.py:119-130 | an event nineteen hours old is a duplicate under a window of twelve |
| `Healing.ValidateParams` | netpulse/runbooks.py:121-136 | which parameters are accepted, exactly, what is handed on, and what each error says |
| `Healing.AcceptedAreInert` | netpulse/runbooks.py:121-136 | an accepted parameter holds no quote, space, bracket, separator or operator, and at most 64 characters |
| `Healing.Service.RateOk` | netpulse/healing.py:43-50 | the rate check and its table |
| `Healing.Service.Check` | netpulse/healing.py:43-67 | what a check lets through is put on record with its reading |
| `Healing.Service.StartsAreLimited` | netpulse/healing.py:43-67 | over the whole life of the service a rule is started for a host at most max(1, max_per_hour) times in any hour, whatever the clock does |
| `Healing.Service.ResolveHost` | netpulse/inventory.py:69-78 | a host by name or address, or a new one; no other row changes |
| `Healing.Service.NoteEvent` | netpulse/inventory.py:115-157 | a duplicate changes nothing; any other event is recorded with its severity, and every matching rule is tried |
| `Healing.Service.OnEvent` | netpulse/healing.py:52-81 | every rule that matches is started or refused by the clock, and no other is |
| `Healing.Service.MatchesIff` | netpulse/healing.py:58-66 | which rules match: those for the kind that need no confirmation, unless the event is LOW |
| `Healing.Service.RunsOnly` | netpulse/runbooks.py:138-163 | nothing runs that is switched off, unknown, unsupported or lacks a value, and nothing remote without a host |
| `Healing.Service.ProgramsMean` | netpulse/healing.py:67-74 | the programs of some starts are the runbooks of their rules that can be run for their hosts |
| `Healing.Service.FollowUp` | netpulse/runbooks.py:224-233 | the event a run leaves on the row of its host, LOW when it succeeded and MEDIUM when it did not, unless it is a duplicate; a run that succeeded starts nothing |
| `Healing.Service.Execute` | netpulse/runbooks.py:138-235 | exactly when a program runs, what it returns, and that it leaves one event at most of its own |
| `Healing.Service.Cascade` | netpulse/inventory.py:115-157 | while the clock advances less than any rule's period the cascade ends within a stated number of readings, starts each (rule, host) pair at most once and only for rules of its kind or of runs, runs exactly the programs of what it starts, in their order, leaves no event but its first and those of runs, and tries every rule that matches its first event |

## Left out

- `Healing.Service.Cascade`: asks for a calm clock over as many readings as a cascade can make; when the clock advances by a period meanwhile a pair can be taken again, and whether the cascade ends then depends on the programs it runs. It runs in one thread: the source calls note_event from several, and `RateRace` says what that does to the rate limiter both rest on.
- `Healing.Service.StartsAreLimited`: holds under any clock, but is about one thread; `RateRace.UnsharedIsLimited` and `RateRace.SpacedIff` cover several.
- `Healing.Service.NoteEvent`: takes local time and the time of the rate limiter from one clock; the offset between them and its changes are not modelled.
- `SnmpAgent.WalkOnWireIff`: is about walks whose every request is shorter than 128 octets inside, since what an agent does with a malformed one is its own affair; requests that cannot be encoded raise in the source and are not sent; the conversion of values is a parameter.
- `SnmpAgent.RequestIsStandardIff`: takes requests whose parts have less than 2^32 octets.
- `ConfigFile.ConfigFile.SaveConfig`: the copy of the old file made in backups/config before a save is absent, as it leaves config.json alone; a machine that dies between two operations can leave a temporary file.
- `Ber.IntEnc`: takes non-negative numbers only, because for a negative one the loop of `_int_enc` does not end; contents of 2^63 octets or more are not considered.
- `Config.Validate`: works on values, as `Json.DeepMerge` does; the model does not capture that the source changes nested dicts in place, nor aliasing between the defaults and the result.
- `Availability.Summarize`: gives the figures before the source rounds them; `RamTrend.RamTrend` likewise, and over the reals, so NaN and infinities do not arise.
- `RouterClient.ApiClient.ReadReply`: works on octets; the decoding of words as UTF-8, the deadline and the sending of the request are not modelled.
- `MeshRpc.MeshClient.ResolveAll`: covers the undisturbed run of the method; the steps `Mark`, `EndOfDict`, `Abort` and `Clear` cover calls that come and go meanwhile, `Abort` being the error Python raises when a dict changes size under iteration.
- `Pool.DatabaseManager.Close`: covers the undisturbed run; the steps of `Pool` cover borrowers that come and go meanwhile. Exceptions other than those of sqlite are not modelled.
- The retention of deliveries: the query keeps 2000 final rows; which of them are the newest is not modelled.
- `Jobs.EveryRun`: takes a job to end by a result or by an Exception, which is all that `wrap` catches (netpulse/server.py:212-221); one that raises SystemExit gives its slot back and stays "running", and there running jobs can exceed held slots and `Jobs.SlotsReleasedOnce` fails of its report.
- `Jobs.JobTable.SubmitJob`: job identifiers are taken to be unused; a collision of twelve random hex digits is not modelled.
- `SnmpWalk.WalkExactIff`: the `check_first` argument has no effect in the source and is absent.
- The health of a transaction that is rolled back half-way by SQLite itself, the SQL text and the engine; tables are sequences and maps.
- The parallel collection of router state, `last_success_at` and the texts of notifications in netpulse/mikrotik.py: only the serial calls of observe_router are used.
- Site, owner and tags of a device in save_context: only its maintenance window matters to incidents.
- Request bodies whose fields have an unexpected JSON type, where the source raises.
- sha256, which is an abstract digest of the labels; DPAPI, which is an oracle.
- Parsing of the dotted text an OID comes in as, and of the text of environment variables; an override that runs into a value that is no dict raises in the source and gives no tree here.
- Lower-casing outside ASCII.
- Logging, printed messages, alerts pushed to the interface, the journal.
- L2Map.port_map and lldp_neighbors, netpulse/recovery.py, netpulse/p2p_core/, the interface, the web pages and the ai/ wrappers.
