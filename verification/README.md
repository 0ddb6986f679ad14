# exchange-simulator-front, client core in Dafny

This project models the client side of the exchange simulator's dashboard. The dashboard is a Next.js and React front end that creates replay sessions over stored market data, streams a running session's candles over a WebSocket, and registers and ingests datasets. The model covers:

- **The replay stream**:
  - where the socket connects (`WsEnv`, `WsRequest`, with the URL form encoding in `FormEncoding`);
  - how its frames decode (`WsEnvelope`);
  - the connection state machines of the session panel and of the stand-alone hook (`StreamSession`, over the socket world of `Sockets`);
  - the page-level stream controls (`WsControls`);
  - the candle buffer of the session details page (`KlineBuffer`, `DetailsPage`).
- **Sessions**:
  - the status flags, guarded handlers and button predicates (`SessionRules`);
  - the creation form with its clamp, resets and schema (`SessionForm`). `src/components/sessions/SessionsForm.tsx` and the sessions page `src/app/sessions/page.tsx` each carry a copy of this form with the same branches, so `SessionForm` models both.
- **Datasets**:
  - the registration form, row actions, list merge, refetch rule and selection (`DatasetRules`);
  - the ingest watcher, which combines server-sent events with a polling fallback (`IngestWatcher`).
- **Query cache and REST client**:
  - the query keys invalidated after dataset changes (`QueryInvalidation`);
  - error unwrapping, the kline query, decoding and ordering (`RestApi`, `Ordering`).

Every operation is a pure function. A React component is a record of state, refs and the browser objects it holds. User actions, prop changes, unmounting and transport events are inputs to a step function that returns the next record and what the component emits. Each effect is folded into the input that triggers it, with one exception: the details page's default-descriptor effect (see `DetailsPage.Step` under "## Left out").

**JavaScript values and built-ins.**
- `JsValues` models a JavaScript value.
- Finite numbers are idealised as reals; IEEE rounding is not modelled.
- Built-ins whose behaviour is the platform's own business are fields of a `Runtime` record, and every property holds for every choice of them. These are JSON.parse, TextDecoder, `Number(string)`, number printing and time formatting.
- Date-time text conversion is a `SessionForm.DateCodec` in the same way.

**Where the code and its description differ, the model follows the code:**
- `src/lib/ws.ts` imports `WS_BASE_URL` from `src/lib/env.ts`, which does not export it. `WsRequest.BuildWsRequest` therefore takes the base URL as a parameter; `WsEnv.ResolveWsBase` models what it was evidently meant to be.
- The ready-set tracking in `src/lib/hooks.ts` compares the status with the lower-case `"ready"`. The rest of the dashboard uses `"Ready"`, but the model keeps the comparison exactly as written.
- That tracking keys a dataset as `symbol::interval` and reads it back with `split("::")`. That round trip only works for colon-free symbols and intervals. `QueryInvalidation.TrailingColonSplitsEarly` shows what happens otherwise, and the coverage lemmas assume `ColonFree`.
- zod 3 runs an object's refinement only when no field has a type error. `SessionForm.SchemaIssues` and `DatasetRules.DatasetIssues` report the order of the times only in that case.

## Model

| member | source | states |
|---|---|---|
| WsEnv.WsPath | src/lib/env.ts:1-4 | the configured path when set and non-empty, "/ws" otherwise |
| WsEnv.RemoveTrailingSlash | src/lib/env.ts:6-8 | the result is a prefix of the input that does not end in "/", and only slashes were removed |
| WsEnv.RemoveTrailingSlashIdempotent | src/lib/env.ts:6-8 | removing trailing slashes twice is removing them once |
| WsEnv.SocketOrigin | src/lib/env.ts:17-19 | the ws or wss scheme that matches the URL's protocol, then "://" and the host when the host is non-empty and does not end in "/"; an all-slash host leaves just the scheme and ":"; never ends in "/" |
| WsEnv.SocketOriginReadsBack | src/lib/env.ts:17-19 | for a host that is non-empty and does not end in "/", the origin splits back into the scheme for the protocol and exactly that host |
| WsEnv.ResolveFromApiBase | src/lib/env.ts:10-23 | nothing for an unset, blank or unparseable API base; otherwise its socket origin, secure exactly when the API is served over HTTPS |
| WsEnv.ResolveWsBase | src/lib/env.ts:25-43 | a configured non-blank base wins, without trailing slashes; then the API-derived origin; then, in a browser only, the page's origin; otherwise "" |
| WsEnv.NormalizePath | src/lib/env.ts:45-55 | a blank or all-slash path is "/ws"; otherwise the result is the trimmed path with a leading "/" added when missing and only its trailing slashes removed, so it starts with "/" and never ends with one |
| WsEnv.StripEmptyIffSlashes | src/lib/env.ts:51-53 | adding a leading slash and stripping trailing ones leaves nothing exactly when the trimmed path is all slashes |
| WsEnv.NormalizePathFixedPoint | src/lib/env.ts:45-55 | a trimmed path that starts with "/" and does not end with one is left unchanged |
| WsEnv.NormalizePathLeadingSlash | src/lib/env.ts:51 | a path normalises to the same value with or without a leading "/" |
| WsEnv.NormalizePathNotIdempotent | src/lib/env.ts:46-53 | whitespace uncovered by stripping slashes survives one pass, so normalising twice can differ from normalising once |
| WsRequest.BuildWsRequest | src/lib/ws.ts:23-34 | the URL is base, path, "?" and the query, and the form parser reads the query back as exactly the session id and the descriptor, for any strings of Unicode scalar values |
| WsRequest.QueryStaysInQueryComponent | src/lib/ws.ts:26-32 | the query holds no "?" or "#", so it is the URL's whole query component and the URL has no fragment |
| FormEncoding.Utf8RoundTrip | src/lib/ws.ts:26 | strict UTF-8 decoding inverts the encoding the form serialiser applies |
| FormEncoding.EncodeRoundTrip | src/lib/ws.ts:26 | parsing the serialisation of a string gives the string back |
| FormEncoding.SerializeRoundTrip | src/lib/ws.ts:26 | parsing URLSearchParams#toString of a pair list gives the same list back, names and values alike |
| FormEncoding.SerializeAlphabet | src/lib/ws.ts:26 | a serialised pair list uses only letters, digits, `*-._+%=&` |
| WsEnvelope.ParseKline | src/lib/ws.ts:50-88 | a candle is accepted exactly when it is well formed, and each field of the result is the converted payload field |
| WsEnvelope.TextualPricesKept | src/lib/ws.ts:40-48 | prices already given as non-empty strings are kept verbatim |
| WsEnvelope.ParseStats | src/lib/ws.ts:90-99 | accepted exactly when the connection count converts to a finite number, which is the result |
| WsEnvelope.ParseWarning | src/lib/ws.ts:101-120 | accepted exactly when the type is a non-empty string; the skipped count is kept exactly when it converts to a finite number, so a missing count stays absent while null counts as zero |
| WsEnvelope.ParseEnvelope | src/lib/ws.ts:122-148 | accepted exactly for an object naming kline, stats or warning whose data that event's parser accepts; the stream name is kept exactly when it is a string; stats and warning events carry exactly what their parsers return for the data |
| WsEnvelope.ParseText | src/lib/ws.ts:153-158 | nothing when JSON.parse throws, otherwise the envelope reading of the parsed value |
| WsEnvelope.ParseEventData | src/lib/ws.ts:150-177 | text parses as is, bytes decode as UTF-8 first, a view reads exactly its own window, and any other data decodes to nothing |
| Sockets.Construct | src/components/sessions/SessionStreamPanel.tsx:160 | a new socket gets the next handle, is CONNECTING, and leaves every other socket as it was |
| Sockets.Close | src/components/sessions/SessionStreamPanel.tsx:97-103 | close moves a CONNECTING or OPEN socket to CLOSING and leaves a CLOSING or CLOSED one and every other socket unchanged |
| Sockets.Advance | src/components/sessions/SessionStreamPanel.tsx:252-257 | transport events change only their own socket, following the WebSocket ready-state transitions |
| Sockets.AdvanceNeverRevives | src/components/sessions/SessionStreamPanel.tsx:97-99 | a socket that is CLOSING or CLOSED never becomes live again |
| StreamSession.Dispose | src/components/sessions/SessionStreamPanel.tsx:282-297 | unmounting closes the held socket unless it is CLOSED and drops the refs and listeners |
| StreamSession.MountInv | src/components/sessions/SessionStreamPanel.tsx:41-53 | a freshly mounted panel or hook satisfies the connection invariant |
| StreamSession.AtMostOneLive | src/components/sessions/SessionStreamPanel.tsx:113-162 | under the invariant at most one socket is live, it is the held one, and none is live once unmounted |
| StreamSession.ReadyStateGuardSubsumed | src/components/sessions/SessionStreamPanel.tsx:121-125 | under the invariant the readyState guard of connect refuses nothing the state guards do not already refuse |
| StreamSession.ConstructOnlyLive | src/components/sessions/SessionStreamPanel.tsx:160 | a socket built when none is live is the only live one |
| StreamSession.ConnectKeepsInv | src/components/sessions/SessionStreamPanel.tsx:113-280 | connect keeps the invariant |
| StreamSession.DisconnectKeepsInv | src/components/sessions/SessionStreamPanel.tsx:76-111 | disconnect keeps the invariant |
| StreamSession.DisposeKeepsInv | src/components/sessions/SessionStreamPanel.tsx:282-297 | the unmount cleanup keeps the invariant |
| StreamSession.UnheardKeepsInv | src/components/sessions/SessionStreamPanel.tsx:57-68 | an event on a socket whose listeners were removed changes only the socket world, and revives nothing |
| StreamSession.HeardKeepsInv | src/components/sessions/SessionStreamPanel.tsx:164-250 | the open, message, close and error handlers keep the invariant |
| StreamSession.TransportKeepsInv | src/components/sessions/SessionStreamPanel.tsx:164-257 | every transport event keeps the invariant |
| StreamSession.StepKeepsInv | src/components/sessions/SessionStreamPanel.tsx:76-307 | every input keeps the invariant, in both the panel and the hook |
| StreamSession.RunKeepsInv | src/components/sessions/stream/useSessionStream.ts:124-308 | for any input sequence from mount: at most one live socket, it is the held one, and none after unmount |
| StreamSession.ConnectOpensIffCanConnect | src/components/sessions/SessionStreamPanel.tsx:341-348 | under the invariant a connect builds a socket exactly when the button's canConnect holds |
| StreamSession.ConnectStarts | src/components/sessions/SessionStreamPanel.tsx:143-162 | a connect past the guards holds a new CONNECTING socket with listeners, shows connecting, resets the counters, and records the builder's URL for the trimmed descriptor |
| StreamSession.ConnectGuards | src/components/sessions/SessionStreamPanel.tsx:121-141 | a connect while connecting, connected or holding a live socket changes nothing; a blank descriptor or a disabled session only shows an error |
| StreamSession.ConnectThrows | src/components/sessions/SessionStreamPanel.tsx:258-270 | when the socket cannot be built, the view shows an error with the thrown message and the refs and sockets stay as they were |
| StreamSession.RetryCanConnect | src/components/sessions/SessionStreamPanel.tsx:350-354 | under the invariant a visible retry button always leads to a socket |
| StreamSession.CloseClassified | src/components/sessions/SessionStreamPanel.tsx:213-241 | a close clears the refs; code 1000 means closed, with a message saying whether the user asked for it; any other code is an error naming the code and reason |
| StreamSession.OpenConnects | src/components/sessions/SessionStreamPanel.tsx:164-171 | opening the held socket means connected and no longer connecting |
| StreamSession.DisconnectCases | src/components/sessions/stream/useSessionStream.ts:87-122 | with no socket, settle on closed (the hook also forgets the stream); with a closing or closed socket, do nothing; otherwise mark the close as the user's and start closing |
| StreamSession.DisableDisconnects | src/components/sessions/SessionStreamPanel.tsx:299-307 | the session turning disabled while a live socket is held starts a user close |
| StreamSession.UnmountReleases | src/components/sessions/SessionStreamPanel.tsx:282-297 | after unmount only the transport acts, and it never reaches the component's handlers |
| StreamSession.MessageRouting | src/components/sessions/SessionStreamPanel.tsx:173-211 | the whole next state and output per event: a candle becomes the last candle and reaches the page only from the panel, stats set only the connection count, a warning shows a toast, unparseable data changes nothing |
| StreamSession.SessionChangeWhileConnecting | src/components/sessions/SessionStreamPanel.tsx:84-94 | a session change during a connect leaves connecting set with no socket, so the panel stays refused while the hook's disconnect clears it |
| KlineBuffer.Take | src/components/sessions/SessionDetailsPage.tsx:78 | slice(0, n) is the first min(n, length) rows |
| KlineBuffer.MapSetUnique | src/components/sessions/SessionDetailsPage.tsx:75-76 | on rows with unique close times, Map#set keeps them unique, and each row is the new candle or an untouched row with another close time |
| KlineBuffer.HandleKlineShape | src/components/sessions/SessionDetailsPage.tsx:72-80 | whatever the current rows, the update is strictly newest first, at most 200 rows, made of the new candle and current rows, and no other row has the candle's close time |
| KlineBuffer.FullSpec | src/components/sessions/SessionDetailsPage.tsx:72-80 | the uncapped reference buffer is strictly newest first, and its rows are exactly the latest candle of each close time that arrived |
| KlineBuffer.HandleKlineIsCappedIns | src/components/sessions/SessionDetailsPage.tsx:74-79 | on newest-first rows the page's map, sort and slice equal one in-place insertion followed by the cap |
| KlineBuffer.ReplayIsCappedFull | src/components/sessions/SessionDetailsPage.tsx:72-80 | after any arrivals the page's buffer is the first 200 rows of the uncapped reference |
| KlineBuffer.CapHidesOnlyOlder | src/components/sessions/SessionDetailsPage.tsx:78 | a row dropped by the cap is older than every row kept |
| KlineBuffer.ReplaySpec | src/components/sessions/SessionDetailsPage.tsx:72-80 | the shown rows are newest first, each the latest of its close time; an arrived close time is missing only when 200 newer rows are shown |
| KlineBuffer.HandleKlineReplaces | src/components/sessions/SessionDetailsPage.tsx:75-76 | a candle whose close time is present replaces that row in place |
| KlineBuffer.HandleKlineInserts | src/components/sessions/SessionDetailsPage.tsx:74-79 | a candle with a new close time goes in at its position; a full buffer drops its oldest row, or the candle itself when it is oldest |
| DetailsPage.DefaultStreamRoundTrip | src/components/sessions/SessionDetailsPage.tsx:186-190 | the default descriptor is empty exactly without a usable first symbol, and otherwise reads back as the interval and first symbol |
| DetailsPage.SetStreams | src/components/sessions/SessionDetailsPage.tsx:67-70 | a new descriptor empties the rows and the count; the same one changes nothing |
| DetailsPage.QueryParam | src/components/sessions/SessionDetailsPage.tsx:44-56 | the URL parameter is set to a non-empty descriptor and deleted for an empty one |
| DetailsPage.MountInSync | src/components/sessions/SessionDetailsPage.tsx:35 | on mount the URL parameter and the descriptor agree |
| DetailsPage.StepKeepsSync | src/components/sessions/SessionDetailsPage.tsx:39-92 | every event keeps the URL parameter and the descriptor in agreement |
| DetailsPage.StepShows | src/components/sessions/SessionDetailsPage.tsx:35-92 | each event keeps the page equal to what the event history alone determines |
| DetailsPage.RunShows | src/components/sessions/SessionDetailsPage.tsx:35-92 | after any events, the rows replay the candles since the descriptor changed, and the counter counts arrivals since the descriptor changed or was reset |
| DetailsPage.RowsAlwaysValid | src/components/sessions/SessionDetailsPage.tsx:72-80 | after any events the rows are strictly newest first, at most 200, and each is the latest candle with its close time |
| DetailsPage.KlineCountsOnce | src/components/sessions/SessionDetailsPage.tsx:73 | every candle adds exactly one to the counter, even one that only replaces a row |
| DetailsPage.ResetKeepsRows | src/components/sessions/SessionDetailsPage.tsx:82-84 | resetting the counters zeroes the count and leaves the rows and the descriptor alone |
| DetailsPage.StreamsChangeResets | src/components/sessions/SessionDetailsPage.tsx:86-92 | changing the descriptor empties the rows and count and updates the URL; re-entering the same one changes nothing |
| DetailsPage.DefaultOnlyWhenEmpty | src/components/sessions/SessionDetailsPage.tsx:58-65 | a loaded session fills an empty descriptor with its default and never overrides a chosen one |
| WsControls.CloseTable | src/components/WsControls.tsx:165-197 | closed exactly for 1000, 1001 and for clean closes other than 1006 and 1011; error otherwise; the toast's level follows the outcome |
| WsControls.ConsumedRequest | src/components/WsControls.tsx:119-122 | the request shown is the builder's request for the descriptor the last attempt captured |
| WsControls.ToggleCases | src/components/WsControls.tsx:101-110 | toggling while connected disconnects; a blank descriptor only shows an error and builds nothing |
| WsControls.EnsureComesFirst | src/components/WsControls.tsx:112-117 | with ensureSessionRunning given, nothing is built before it settles, and a rejection leaves an error and no socket |
| WsControls.ToggleRecordsRequest | src/components/WsControls.tsx:119-128 | a toggle that reaches the builder records the captured session id and trimmed descriptor, whether or not construction throws |
| WsControls.MessageEffects | src/components/WsControls.tsx:139-163 | each candle counts once and re-arms the no-data timer; stats are recorded and passed on |
| WsControls.CloseResets | src/components/WsControls.tsx:165-197 | every close resets the socket ref, flags and counters and records the table's state |
| WsControls.DescriptorChangeDisconnects | src/components/WsControls.tsx:232-248 | while connected, a session or descriptor change starts a user close of the held socket |
| WsControls.DescriptorChangeRecorded | src/components/WsControls.tsx:232-248 | while disconnected, a descriptor change is only recorded |
| WsControls.DisableDisconnects | src/components/WsControls.tsx:226-230 | the session turning disabled while connected starts a user close of the held socket |
| WsControls.UnmountClosesHeld | src/components/WsControls.tsx:250-254 | unmounting starts a user close of the held socket and of no other |
| WsControls.OpenedOpens | src/components/WsControls.tsx:130-137 | a connecting socket still opens the view after unmount, since its listeners are never removed |
| WsControls.RetryOnlyWhenDisconnected | src/components/WsControls.tsx:272-276 | the retry button shows only when the toggle would connect rather than disconnect |
| WsControls.EffectsQuiet | src/components/WsControls.tsx:226-248 | with no dependency changed, no effect runs |
| WsControls.AsWrittenToggleBuilds | src/components/WsControls.tsx:209-211 | as written, once the toggle has built a socket the button is enabled again while that socket is still connecting |
| WsControls.TwoTogglesTwoSockets | src/components/WsControls.tsx:101-211 | as written, two clicks build two sockets that are live together, and only the second is held |
| WsControls.MountReady | src/components/WsControls.tsx:35-51 | a freshly mounted component with a usable descriptor is ready to toggle |
| WsControls.CorrectedSecondToggleRefused | src/components/WsControls.tsx:264-265 | corrected, the toggle is refused while its socket is connecting |
| WsControls.ToggleWaits | src/components/WsControls.tsx:112-117 | with ensureSessionRunning, the toggle only records the waiting attempt |
| WsControls.UnmountWithoutSocket | src/components/WsControls.tsx:250-254 | unmounting with no socket builds and closes nothing |
| WsControls.SettleAfterUnmount | src/components/WsControls.tsx:115-128 | an attempt settling after unmount builds a held socket as written and does nothing when corrected |
| WsControls.SocketAfterUnmount | src/components/WsControls.tsx:115-117 | as written, a toggle waiting on ensureSessionRunning that settles after unmount builds a socket nothing will close |
| WsControls.CorrectedNoSocketAfterUnmount | src/components/WsControls.tsx:250-254 | corrected, unmounting discards the waiting toggle and no socket is built |
| WsControls.MountCInv | src/components/WsControls.tsx:35-51 | a fresh corrected component satisfies the one-socket invariant |
| WsControls.CInvOneLive | src/components/WsControls.tsx:67-99 | under the invariant at most one socket is live, and none after unmount |
| WsControls.StepKeepsCInv | src/components/WsControls.tsx:86-254 | every input keeps the corrected component's invariant |
| WsControls.CorrectedRunOneLive | src/components/WsControls.tsx:86-254 | corrected, for any inputs after mount, at most one socket is live, and none once unmounted |
| SessionRules.NormalizeSessionStatus | src/components/sessions/SessionControls.tsx:261-269 | each flag is a case-insensitive match of its status names; running excludes paused and terminal, and ended implies terminal |
| SessionRules.LowerEqualsIff | src/components/sessions/SessionControls.tsx:262 | lower-casing then comparing is exactly the case-insensitive comparison |
| SessionRules.StatusCaseInsensitive | src/components/sessions/SessionControls.tsx:261-269 | the flags depend only on the letters of the status, not their case |
| SessionRules.HandleStart | src/components/sessions/SessionControls.tsx:56-75 | a start is sent exactly for an enabled, non-running session; a disabled one shows the disabled message |
| SessionRules.HandlePause | src/components/sessions/SessionControls.tsx:77-95 | a pause is sent exactly for an enabled, running session |
| SessionRules.HandleResume | src/components/sessions/SessionControls.tsx:97-115 | a resume is sent exactly for an enabled, paused session |
| SessionRules.HandleSeek | src/components/sessions/SessionControls.tsx:117-149 | a seek goes out exactly for a typed numeric value on an enabled running session, carrying that number; each failed check shows its own message, in order |
| SessionRules.SeekTerminalGuardUnreachable | src/components/sessions/SessionControls.tsx:117-149 | the seek handler's terminal check never fires |
| SessionRules.HandleToggleEnabled | src/components/sessions/SessionControls.tsx:151-171 | the toggle disables an enabled session and enables a disabled one |
| SessionRules.HandleDelete | src/components/sessions/SessionControls.tsx:173-187 | a delete goes out exactly after confirmation |
| SessionRules.ControlButtonsMatchHandlers | src/components/sessions/SessionControls.tsx:196-255 | each card button is clickable exactly when nothing of its kind is pending and its handler would send |
| SessionRules.RowButtonsReduce | src/components/sessions/SessionRowActions.tsx:162-177 | a row's pause and resume depend only on pending and running or paused; start is refused while pending, running or finished |
| SessionRules.RowAndCardStart | src/app/sessions/page.tsx:616-629 | a clickable row start means a clickable card start; an enabled ended session starts from the card but not from a row |
| SessionForm.ClearErrors | src/components/sessions/SessionsForm.tsx:57-69 | the same map when no key has an error, otherwise the map minus exactly those keys; the same holds for the sessions page's copy (src/app/sessions/page.tsx:72-84) |
| SessionForm.ClearErrorsClears | src/components/sessions/SessionsForm.tsx:57-69 | afterwards none of the keys has an error, others keep theirs, and clearing again changes nothing |
| SessionForm.ParseDatetimeLocal | src/lib/datetime.ts:5-9 | the empty text is NaN, any other text is the instant it denotes |
| SessionForm.ClampToRange | src/components/sessions/SessionsForm.tsx:81-108 | each time that is empty, unparseable or out of range becomes the range bound, and the state is kept when both are valid; the same holds for the sessions page's copy (src/app/sessions/page.tsx:86-124) |
| SessionForm.ClampSettles | src/components/sessions/SessionsForm.tsx:71-109 | when the bounds' texts parse back inside the range, one clamp settles and a second keeps the state |
| SessionForm.OnRange | src/components/sessions/SessionsForm.tsx:71-109 | with a range, the range and time errors are cleared, others kept, and the times clamped; without one nothing changes |
| SessionForm.OnFieldChange | src/components/sessions/SessionsForm.tsx:204-358 | a new symbol empties the interval and times; a new interval empties the times; other edits touch their own field; the edited and emptied fields lose their errors |
| SessionForm.SymbolChangeDisablesSubmit | src/components/sessions/SessionsForm.tsx:120-121 | after a symbol change the form cannot be submitted until an interval is chosen again |
| SessionForm.SchemaIssues | src/components/sessions/schema.ts:3-15 | the issue fields: empty symbol or interval, unparsed times, non-positive speed, non-integer seed, and an end not after the start when the refinement runs; the same holds for the sessions page's copy (src/app/sessions/page.tsx:29-41) |
| SessionForm.ParseSession | src/components/sessions/schema.ts:3-15 | parse succeeds exactly without issues and yields the given values; failure reports the issues |
| SessionForm.RangeIssues | src/components/sessions/SessionsForm.tsx:146-169 | exactly the times outside the dataset's range |
| SessionForm.Submit | src/components/sessions/SessionsForm.tsx:123-188 | schema issues first, then a missing range, then exactly the out-of-range times as errors; only then the request, with the chosen symbol as the only symbol and the parsed times, interval, speed and seed; the same holds for the sessions page's copy (src/app/sessions/page.tsx:321-385) |
| SessionForm.CreatedSessionIsValid | src/components/sessions/SessionsForm.tsx:172-179 | every creation request has one non-empty symbol, an interval, start before end inside the range, positive speed and an integer seed |
| DatasetRules.ToMs | src/app/datasets/page.tsx:145 | 0 for the empty text, otherwise the instant it denotes |
| DatasetRules.InputOf | src/app/datasets/page.tsx:310-316 | the name is always symbol-interval; a non-empty start or end time is parsed as the form holds it; an empty one falls back to the range's first open or last close time, rendered and parsed back, or 0 without a range |
| DatasetRules.DatasetIssues | src/app/datasets/page.tsx:54-65 | issues on an empty symbol, an unknown interval, a time that is not a non-negative integer, and an end not after the start when the refinement runs |
| DatasetRules.SubmitDataset | src/app/datasets/page.tsx:308-329 | refused with exactly the schema's issues, otherwise a registration request carrying the form's symbol and interval and the parsed start and end times |
| DatasetRules.RegisteredDatasetIsValid | src/app/datasets/page.tsx:308-329 | a registration always has a name symbol-interval, a non-empty symbol, one of the fifteen intervals, and non-negative times with start before end |
| DatasetRules.NoRangeNoTimesRefused | src/app/datasets/page.tsx:313-314 | without a range, leaving both times empty is refused on the end time |
| DatasetRules.OnSymbolChosen | src/app/datasets/page.tsx:386-392 | a new symbol empties both times and keeps the interval |
| DatasetRules.OnIntervalChosen | src/app/datasets/page.tsx:408-415 | a new interval empties both times and keeps the symbol |
| DatasetRules.AskDelete | src/app/datasets/page.tsx:278-290 | the delete asks to confirm a deletion that is forced exactly when the dataset is being ingested |
| DatasetRules.RowActionsExclusive | src/app/datasets/page.tsx:252-277 | ingest and cancel are never both offered, a ready dataset offers neither, and a forced deletion never goes with ingest |
| DatasetRules.MergeIngestData | src/app/datasets/page.tsx:167-177 | the entry with the data's id takes the data's properties over its own, every other entry stays, an uncached list stays uncached |
| DatasetRules.MergeOnlyMatching | src/app/datasets/page.tsx:167-177 | only matching entries change, each then shows every property of the data, and merging again changes nothing |
| DatasetRules.StatusStep | src/app/datasets/page.tsx:179-188 | a falsy status is skipped; a final status different from the previous refetches once; the status is remembered |
| DatasetRules.NoFinalNoRefetch | src/app/datasets/page.tsx:179-188 | statuses that never reach a final one never refetch |
| DatasetRules.RepeatedFinalRefetchesOnce | src/app/datasets/page.tsx:179-188 | a repeated final status refetches once, or not at all when it was already the previous one |
| DatasetRules.OnPage | src/app/datasets/page.tsx:101-134 | starting an ingest or Logs selects the dataset; a deletion clears the confirmation and the selection if it was the deleted one; closing the drawer clears it |
| DatasetRules.WatcherFollowsSelection | src/app/datasets/page.tsx:157-159 | the ingest watcher runs exactly while a non-empty id is selected: deleting the selected dataset or closing the drawer stops it, and a started ingest starts it |
| IngestWatcher.Last200 | src/hooks/useDatasetIngest.ts:71-74 | slice(-200) keeps exactly the newest min(200, length) lines, in order |
| IngestWatcher.AppendKeepsNewest | src/hooks/useDatasetIngest.ts:73-74 | appending a line keeps every line while there is room, else drops exactly the oldest |
| IngestWatcher.ApplyPatch | src/hooks/useDatasetIngest.ts:63-87 | a patch applies only to held data, and the log stays within 200 lines when the patch touches it |
| IngestWatcher.PatchKeepsAbsentFields | src/hooks/useDatasetIngest.ts:63-87 | nullish patch fields keep the previous value (progress defaults to 0), set ones replace it, and an appended line lands last |
| IngestWatcher.MergeFetched | src/hooks/useDatasetIngest.ts:97-105 | a fetched detail's log is always within 200 lines |
| IngestWatcher.FetchedWins | src/hooks/useDatasetIngest.ts:97-105 | the server's status and update time always win; its logs, progress and message win when present, else the held ones (progress 0) |
| IngestWatcher.MountInv | src/hooks/useDatasetIngest.ts:29-41 | the watcher as first rendered satisfies the invariant |
| IngestWatcher.InvExclusive | src/hooks/useDatasetIngest.ts:134-142 | under the invariant the event channel and polling are never both active, at most one channel is open, and a disabled watcher runs neither |
| IngestWatcher.StopBothStops | src/hooks/useDatasetIngest.ts:47-61 | stopping leaves no channel open and no timer |
| IngestWatcher.StepKeepsInv | src/hooks/useDatasetIngest.ts:122-244 | every input keeps the invariant |
| IngestWatcher.RunExclusive | src/hooks/useDatasetIngest.ts:122-234 | for any inputs after mount, the event channel and polling are never active together and a disabled watcher runs neither |
| IngestWatcher.DisableStopsAll | src/hooks/useDatasetIngest.ts:122-130 | disabling or clearing the id stops both and clears the data, error and loading |
| IngestWatcher.ConnectionLostFallsBack | src/hooks/useDatasetIngest.ts:215-221 | a channel failure closes it and polls exactly when the rendered status is not final |
| IngestWatcher.DoneStopsBoth | src/hooks/useDatasetIngest.ts:177-185 | a done event sets the status and progress 100 and stops both |
| IngestWatcher.IgnoredEvents | src/hooks/useDatasetIngest.ts:145-200 | unparseable payloads, events without a type, and log events without a line change nothing besides the last event type |
| IngestWatcher.LogAppends | src/hooks/useDatasetIngest.ts:166-176 | a log event appends its line, prefixed by the formatted time when one is given |
| IngestWatcher.PollingOutlivesFinalStatus | src/hooks/useDatasetIngest.ts:139-141 | a poll returning a final status does not stop polling |
| IngestWatcher.LateFetchRefills | src/hooks/useDatasetIngest.ts:89-120 | a request in flight when the watcher is disabled fills the data again when it settles |
| IngestWatcher.CancelRefetches | src/hooks/useDatasetIngest.ts:236-240 | a successful cancel is followed by a detail request that shows loading |
| IngestWatcher.ErrorEventStartsPolling | src/hooks/useDatasetIngest.ts:186-194 | as written, an error event with a non-final rendered status stops both and then starts polling that never stops by itself |
| IngestWatcher.CorrectedTerminalEventsStopBoth | src/hooks/useDatasetIngest.ts:215-221 | corrected, done and error events leave neither the channel nor polling running |
| QueryInvalidation.InvalidateDatasetDependent | src/lib/hooks.ts:39-50 | symbols, intervals and ranges always; the list exactly when not skipped; nothing else |
| QueryInvalidation.RefetchSkipsList | src/lib/hooks.ts:39-50 | a list refetch invalidates everything a mutation does except the list itself |
| QueryInvalidation.FindSep | src/lib/hooks.ts:103 | the first "::" at or after the start, or the end of the text |
| QueryInvalidation.SplitJoin | src/lib/hooks.ts:73 | splitting a joined key gives back colon-free parts |
| QueryInvalidation.TrailingColonSplitsEarly | src/lib/hooks.ts:103 | a symbol ending in ":" loses it to the interval when split |
| QueryInvalidation.ReadySet | src/lib/hooks.ts:70-75 | every dataset whose status is exactly "ready" contributes its key |
| QueryInvalidation.ReadyKeyOrigin | src/lib/hooks.ts:70-75 | every ready key comes from a listed dataset whose status is "ready" |
| QueryInvalidation.HasChangesIff | src/lib/hooks.ts:80-88 | the size-and-membership test holds exactly on the first observation or when the ready set differs |
| QueryInvalidation.ChangeInvalidations | src/lib/hooks.ts:97-123 | a change always invalidates the symbol list, and otherwise only interval and range queries, never the dataset list |
| QueryInvalidation.ChangeInvalidationsCover | src/lib/hooks.ts:99-123 | every key ready before or after has its intervals and range invalidated |
| QueryInvalidation.ChangeInvalidationsOnly | src/lib/hooks.ts:97-123 | nothing invalidated is the dataset list; every interval query invalidated is that of the symbol of a key ready before or after, and every range query that of such a key |
| QueryInvalidation.ReadyEffect | src/lib/hooks.ts:68-124 | no data or an unchanged set does nothing and keeps the memory; otherwise the new set is remembered and the change's keys invalidated |
| QueryInvalidation.ChangedReadyCovers | src/lib/hooks.ts:97-123 | on a change, every dataset ready before or after has its range and its symbol's intervals invalidated |
| QueryInvalidation.ChangedReadyOnlyAffected | src/lib/hooks.ts:97-123 | on a change, every invalidated query is the symbol list, the intervals of the symbol of a dataset ready before or after, or the range of such a dataset |
| QueryInvalidation.RangeOfJoin | src/lib/hooks.ts:103-121 | a colon-free key yields its own symbol and range |
| QueryInvalidation.SameListQuiet | src/lib/hooks.ts:90-92 | a second observation of the same list invalidates nothing |
| RestApi.ErrorMessage | src/lib/api.ts:40-42 | the body's error, else its message, else the error's own message, and never nullish |
| RestApi.Unwrap | src/lib/api.ts:35-46 | a success passes through, an HTTP failure becomes an error with the extracted message, other failures are rethrown unchanged |
| RestApi.UnwrapIdempotent | src/lib/api.ts:35-46 | unwrapping twice is unwrapping once |
| RestApi.Lookup | src/lib/api.ts:94-99 | finds a value exactly when the name is among the pairs |
| RestApi.KlineQuery | src/lib/api.ts:94-99 | symbol and interval first; each optional parameter is present exactly when it is set and non-zero, with its printed value; no name repeats and the optional ones follow in a fixed order |
| RestApi.ZeroOmitted | src/lib/api.ts:97-99 | a zero start, end or limit is left out of the query |
| RestApi.KlineQueryReadBack | src/lib/api.ts:94-103 | the serialised query parses back to the same parameters |
| RestApi.DecodeEntries | src/lib/api.ts:105-119 | succeeds exactly when every entry is an array, keeps the order and length, and reads each row positionally |
| RestApi.GetKlines | src/lib/api.ts:93-120 | a failed request surfaces as its unwrapped failure and a non-list as a shape error; a list succeeds exactly when every entry is an array, with row i decoded from entry i, and otherwise fails with the unexpected-shape message |
| RestApi.DecodeEncodedEntry | src/lib/api.ts:109-118 | reading a row back from its seven positions gives the same row |
| RestApi.ExtraPositionsIgnored | src/lib/api.ts:109-118 | positions past the seventh do not affect the row |
| RestApi.KlineTableData | src/lib/hooks.ts:233-237 | a permutation of the rows, newest close time first, keeping rows with equal close times in their original order |
| RestApi.KlineTableIdempotent | src/lib/hooks.ts:233-237 | sorting already sorted rows changes nothing |
| Ordering.SortDesc | src/lib/hooks.ts:234 | a permutation of the input whose keys never increase, and elements with equal keys keep their relative order (a stable sort) |
| Ordering.StableSortUnique | src/lib/hooks.ts:234 | two orderings with non-increasing keys that keep the same equal-key subsequences are the same sequence |
| Ordering.StableSortIsSortDesc | src/lib/hooks.ts:234 | any stable non-increasing reordering of the input is exactly SortDesc's result, so SortDesc is the stable sort the comparator describes |
| Ordering.SortDescStrict | src/lib/hooks.ts:234 | with distinct keys the result is strictly decreasing |
| Ordering.SortDescOfSorted | src/lib/hooks.ts:234 | an already ordered input is returned unchanged |
| Text.TrimSpec | src/components/sessions/SessionStreamPanel.tsx:55 | trim keeps a contiguous middle, drops only whitespace, and leaves none at either end |
| Text.TrimEmptyIffBlank | src/components/sessions/SessionStreamPanel.tsx:55 | a descriptor trims to empty exactly when it is all whitespace |
| Text.TrimIdempotent | src/lib/env.ts:46 | trimming twice is trimming once |

## Left out

- Rendering, styling, toasts' layout, console logging and the debug panels: view code that decides nothing.
- Timers: the 2-second polling cadence of the ingest watcher and the 10-second no-data hint of the stream controls. The model records whether a timer is armed, and a tick is an input.
- `src/components/sessions/stream/SessionStreamPanel.tsx`: a second shell around the hook that only passes props to view components.
- The hook's trade branch (`src/components/sessions/stream/useSessionStream.ts:187-195`): the envelope parser yields only kline, stats and warning events, so the branch cannot be taken. The trade card and `onTrade` are left out with it.
- The other REST endpoint wrappers of `src/lib/api.ts` and `src/api/datasets.ts`. They are single ky calls through `unwrap`, which is modelled. The ky transport and React Query's cache internals are left out too.
- Date, `Intl` and number printing: these are parameters of the model (`Runtime`, `DateCodec`), not re-implementations.
- The forms' reset and invalidation after a successful registration or creation, the `onCreated` callback, and the drawer's cancel button: follow-up calls with no rule of their own.
- zod's message texts: only which fields carry an issue is modelled.
- Infinity passing `positive()` follows zod 3; zod 4 would refuse it.
- StreamSession.OnDisconnect: the catch around `close(1000, …)` is not modelled, because that call cannot throw with a valid code and a short reason. The same applies to WsControls.HandleDisconnect.
- StreamSession.OnTransport: a failing socket's `error` and `close` events are one transport step, as the WebSocket standard dispatches them in one task.
- StreamSession.SessionChangeWhileConnecting: documents the panel's `isConnecting` staying set after a session change mid-connect. No corrected variant of the panel is modelled.
- IngestWatcher.EventPatch: a truthy log line that is not a string is treated as absent, where the source would print it through a template string. Every other payload field is taken as the value it holds, as the source's unchecked casts do.
- RestApi.KlineTableData: requires finite close times, because a NaN comparator result leaves Array#sort's order implementation-defined. It also returns a new sequence where the source sorts the cached array in place.
- RestApi.Unwrap: the rethrown error keeps the extracted message as a value; the conversion of a non-string message by `new Error(...)` is not modelled.
- WsRequest.BuildWsRequest: strings are sequences of Unicode scalar values. A JavaScript string may hold a lone UTF-16 surrogate, which URLSearchParams replaces by U+FFFD, so such an id or descriptor would not read back unchanged. The model cannot express such a string.
- Text.ToLower: folds ASCII letters only, where String#toLowerCase (`src/components/sessions/SessionControls.tsx:262`, `src/components/sessions/SessionRowActions.tsx:163-171`) folds all of Unicode. Outside ASCII, only the Kelvin sign U+212A lower-cases to a single ASCII letter ("k"), and none of the status names compared against contains a "k". The two should therefore give the same status flags, but the model does not prove this.
- IngestWatcher.Refs: the hook returns `lastEventRef.current` from a `useMemo` whose dependencies leave it out, so the returned `lastEvent` is a snapshot from the last render that changed another returned field. The model keeps only the ref, which no caller reads, and not that snapshot.
- DetailsPage.Step: the default-descriptor effect (`src/components/sessions/SessionDetailsPage.tsx:58-65`) runs only on a `SessionLoaded` input. In the source it also reruns whenever the descriptor changes, so clearing the descriptor of a loaded session with a default refills it at once. In the model the descriptor stays empty, and the URL parameter stays deleted, until the next `SessionLoaded` input. The page's behaviour is reproduced by following the edit or navigation with a `SessionLoaded` input for the same session, so the page's one step becomes two in the model.
- WsControls.Handle: the callback-identity changes that re-create `handleDisconnect` are folded into one `always` flag of the effects.

## Findings

| source | as written | input that shows it | evidently intended | confidence | as-written member | corrected member |
|---|---|---|---|---|---|---|
| src/components/WsControls.tsx:209-211 | the `finally` clears `isConnecting` as soon as the socket is built, before it opens | click the toggle, then click again before the first socket opens | the toggle stays disabled until the socket opens or closes | not executed | WsControls.TwoTogglesTwoSockets | WsControls.CorrectedSecondToggleRefused |
| src/components/WsControls.tsx:115-117 | the toggle resumes after awaiting `ensureSessionRunning` even when the component has unmounted meanwhile | click the toggle with `ensureSessionRunning` given, unmount, then let it resolve | a connect that resumes after unmount builds nothing | not executed | WsControls.SocketAfterUnmount | WsControls.CorrectedNoSocketAfterUnmount |
| src/hooks/useDatasetIngest.ts:186-194 | a server `error` event stops both channels, but the EventSource `onerror` (215-221) then starts polling from the last render's non-final status | an ingest that fails with status still "Ingesting" on screen when the `error` event arrives | a terminal event leaves neither the channel nor polling running | not executed | IngestWatcher.ErrorEventStartsPolling | IngestWatcher.CorrectedTerminalEventsStopBoth |
