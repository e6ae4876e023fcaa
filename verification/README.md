# Verified models of the client, worker and account protocols

Dafny 4.11 models of the parts of Quest Engineering whose correctness spans many steps, with proofs about
every run, every input or every reachable state. `dafny verify dfyconfig.toml` checks all of them.

**Native observation** (`Lifecycle`, `LifecycleProperties`, `LifecycleOutcomes`, `Observation`, `ObservationProtocol`,
`ObservationOutcomes`). The attach
launcher supervises its child through a loop over received events and deadlines; the desktop keeps a status
per observation, which concurrent closes and a monitor thread change under a mutex. The loops and the status
methods are modelled as they stand, proved equal to transition functions, and composed with the child and the
two streams into one system whose steps are the atomic sections. Time is a number that steps carry. The two modules of
outcomes read the result of a run off its receipts, or its steps, without the transition functions.

**Run tracking** (`RunTracking`, `RunTrackingProperties`, `RunInvalidations`, `RunResults`, `RunTracker`). Each
synchronous segment of the active run tracker and the realtime client is a transition, and a method of a class with
the source's fields is proved to make that transition. Beside the fields, a history counts the uses of each release
handle and the `getRun` calls begun and outstanding.

**Fencing authorities** (`ExecutionAuthority`, `AuthorityProperties`, `AuthoritySessions`, `AccountCell`,
`AccountHistory`). Bindings, native sessions, the provider process, the two-phase logout and reconstruction from
disk; and the promise chain that serialises credential mutations.

**Codecs and maps** (`PngCodec`, `PngRejections`, `PngCompositor`, `TileRle`, `TileGid`, `TileMap`, `RoomImport`,
`ReferenceMap`, `CatalogLayout`). The PNG reader and writer (sections 3, 4.1 and 6 of RFC 2083) against an encoder
with filters of its own, GameMaker's run-length tiles, the translation of tile transforms, the placement of tile
layers, the reference map against its validator, and the layout of the asset catalogs.

**Durable commands** (`CanonicalJson`, `CanonicalIdentity`, `JsonReading`, `SetupStore`, `SetupHistory`). The canonical
serialiser that decides whether a redelivered command is the same one, a reading of JSON text by the grammar of
RFC 8259 that tells what a stored text means, and the two tables that the serialiser guards.

## Where the code falls short of the plain statement

- Selecting a run while the empty id is selected leaves the channel of the empty id open: line 37 of
  `client/src/realtime/client.ts` takes `""` for no selection. `RunTrackingProperties.ChannelsExactly` shows that
  this is the one case, `RunTrackingProperties.EmptySelectionLeaks` that it occurs.
- An invalidation that arrives between the exit of the refresh loop (line 125 of
  `client/src/state/active-run-tracker.ts`) and its `finally` (line 126) is lost: it marks a refresher that is
  already over. JavaScript runs the two in separate microtasks, so the model keeps them apart. Per call and per
  run, `RunInvalidations.AnsweredExactly` shows that this is the one case, whatever other runs do and whatever
  comes later, and `RunInvalidations.GapIsReached` that the gap is reached. It is an interleaving of the class:
  the two callers in `client/src/state/app-store.ts` (lines 195 and 208) are socket callbacks, and nothing in the
  repository shows one running between those microtasks. If each `finally` runs at once,
  `RunInvalidations.EveryInvalidationIsAnswered` holds of every run from the start without exception.
- For the same reason a run that leaves and re-enters the tracked set in that gap is tracked and idle with nothing
  fetched (`RunInvalidations.NewRunsAreFetchedExactly`, `RunInvalidations.TrackedInTheGap`); so does a run untracked
  while its getRun is outstanding and tracked again in the gap (`RunInvalidations.RetrackedInTheGap`).
  Product updates, unlike invalidations, do come from a promise continuation (line 332 of `app-store.ts`).
- A restart while a logout waits for the provider process loses the logout: the account stays
  `revocation_requested`, bindings stay unretired, and no other logout can be requested.
  `AuthorityProperties.LogoutCompletes` shows that a pending logout completes exactly when no restart comes first,
  `AuthorityProperties.LogoutIsLostByRestart` is a run that loses it.
- The account cell's `use` leaves its provider usable after the operation has ended, so the credential can change
  outside the lock: `AccountCell.OnlyTheHolderMutates` gives the exact condition, and
  `AccountCell.KeptProviderOutlivesDisconnect` a run that writes to a disconnected account.
- `read_png` accepts scanline data that is cut short by up to four bytes in its last row when that row's filter
  type leaves bytes as they are, and then returns a short row. `PngCodec.AcceptedRows` states exactly when, and
  `PngCompositor.CutRowIsRead` is a file of one pixel that is read as an image with an empty row.

## Model

| member | source | states |
|---|---|---|
| Lifecycle.RequestChildExit | client/src-tauri/src/main.rs:1209-1229 | SIGTERM is attempted, and the deadline set, only on the first request; a refused signal ends the lifecycle as unavailable |
| Lifecycle.WaitForForcedExit | client/src-tauri/src/main.rs:1232-1260 | after SIGKILL the loop returns exactly the outcome of the transition system, and blocks only when nothing more arrives |
| Lifecycle.RunAttachmentLifecycle | client/src-tauri/src/main.rs:1263-1371 | the supervision loop returns the outcome and the signals of the transition system on the consumed receipts, and blocks exactly when it has not ended |
| LifecycleProperties.EndedIsFinal | client/src-tauri/src/main.rs:1263-1371 | nothing that arrives after the end changes the outcome |
| LifecycleProperties.DetachedExactly | client/src-tauri/src/main.rs:1310-1366 | the outcome is `detached` if and only if a successful child exit arrives before any expiry, with an authenticated detach or a terminal close as the latest shutdown cause |
| LifecycleProperties.SignalsSoFar | client/src-tauri/src/main.rs:1209-1303 | SIGTERM is attempted at most once, at the first shutdown cause; SIGKILL at most once, only after it and only when the deadline has expired |
| LifecycleProperties.MismatchedMessagesAreInvisible | client/src-tauri/src/main.rs:1311-1368 | deleting every mismatched control message changes neither outcome nor signals nor their instants |
| LifecycleProperties.LifecycleIsBounded | client/src-tauri/src/main.rs:1217-1303 | for any event queue the lifecycle is over within detach timeout plus force timeout of the first cause, plus what the scheduler adds |
| LifecycleProperties.LifecycleReturns | client/src-tauri/src/main.rs:1232-1371 | it does return: the second receive that yields no event always ends it |
| LifecycleOutcomes.OutcomesExactly | client/src-tauri/src/main.rs:1209-1371 | a run ends at a given receipt with a given outcome if and only if the receipts say so: the first child exit, failed wait, refused signal or hang-up before the expiry, else a refused SIGKILL at the expiry, else the first deciding receipt after it |
| LifecycleOutcomes.EndedExactly | client/src-tauri/src/main.rs:1263-1371 | a run has ended with an outcome if and only if one of its receipts ends it so |
| LifecycleOutcomes.ForcedExactly | client/src-tauri/src/main.rs:1232-1260 | the outcome is the term timeout with an exit status if and only if that exit is the first deciding receipt after the expiry, and unreaped if and only if that receipt is a timeout or a hang-up |
| Observation.TokenIdentifiesAttachment | client/src-tauri/src/main.rs:758-768 | two attachments have the same control token if and only if they agree in the three identities it is made from |
| Observation.ObservationEntry.Close | client/src-tauri/src/main.rs:980-1017 | one close under the mutex: who is refused, when the one frame is written, what state and reason it leaves |
| Observation.ObservationEntry.Wake | client/src-tauri/src/main.rs:1016-1036 | a woken close returns the settled status, keeps waiting, or times out; it writes nothing |
| Observation.ObservationEntry.ApplyVerdict | client/src-tauri/src/main.rs:909-944 | which launcher frame gives which status; every other frame and a lost stream give `unavailable` |
| Observation.ObservationRegistry.Close | client/src-tauri/src/main.rs:968-988 | only the named entry can change, and an unknown id is refused |
| ObservationProtocol.Invariant | client/src-tauri/src/main.rs:907-1036 | what desktop and launcher keep over every interleaving of closes, monitor, streams, child and clock |
| ObservationProtocol.DetachedIsTruthful | client/src-tauri/src/main.rs:907-947 | a status of `detached` implies that this launcher reported it, that its child exited successfully after an authenticated detach or a terminal close as the last cause, and that SIGTERM alone was sent |
| ObservationProtocol.OneAuthenticDetach | client/src-tauri/src/main.rs:992-1036 | under any concurrent closes at most one frame is written, it is the one its launcher accepts, and every close that returns, returns a settled status |
| ObservationProtocol.StatusIsMonotone | client/src-tauri/src/main.rs:936-1036 | the state never returns to `attached`, a settled status stays settled, and after the monitor's verdict nothing changes it |
| ObservationProtocol.NoAckTimeout | client/src-tauri/src/main.rs:520-526 | with the shipped constants no close ends in `detach_ack_timeout` while the transit of request and verdict and the lags of all the launcher's receives add up to less than a second |
| ObservationOutcomes.VerdictExactly | client/src-tauri/src/main.rs:909-935 | each reason that the monitor gives has exactly its kind of frame as source: an own final report is taken over, an own failure keeps its message, any other frame is a mismatch, no frame a lost launcher |
| ObservationOutcomes.StatusFollows | client/src-tauri/src/main.rs:907-1036 | over every interleaving the status is exactly what the first close for this attachment, a close that waited seven seconds and the monitor's reading make it, and the one frame is written exactly for that close |
| ObservationOutcomes.ClosesFollow | client/src-tauri/src/main.rs:980-1038 | a close that names another attachment is refused and changes nothing; any other returns the status of its last turn, and waits until seven seconds after its call exactly while that is `detaching` |
| RunTrackingProperties.StepKeeps | client/src/state/active-run-tracker.ts:34-149 | every event keeps watching, channels, release handles, cache, tombstones, single flight and the account of unanswered invalidations |
| RunTrackingProperties.TrackerAndClientAgree | client/src/state/active-run-tracker.ts:34-149 | in every reachable state tracked, watched and handle domain agree, the channels are those of tracked and selected runs apart from the empty id, the cache holds nonterminal tracked runs only, tombstones are disjoint, a handle is used once or still held, and at most one getRun is outstanding per run |
| RunTrackingProperties.ChannelsExactly | client/src/realtime/client.ts:33-50 | the open channels stay exactly those of the tracked and the selected runs, except when a run is selected after the empty id |
| RunTrackingProperties.ChannelsStayExact | client/src/realtime/client.ts:33-124 | over every run without that exception and without a disconnect the open channels are exactly those of the tracked and the selected runs |
| RunTrackingProperties.EmptySelectionLeaks | client/src/realtime/client.ts:35-39 | a run in which that exception leaves a channel open |
| RunTrackingProperties.TrackedExactly | client/src/state/active-run-tracker.ts:34-57 | after a product update a run is tracked if and only if it is listed as nonterminal and is not a finished run that the product still lists as nonterminal only; when a tombstone survives |
| RunInvalidations.AnsweredExactly | client/src/state/active-run-tracker.ts:66-126 | in every continuation that keeps the run tracked, a getRun has begun since its invalidation or its refresher goes round once more, if and only if the refresher was not between loop exit and `finally` at the call |
| RunInvalidations.EveryInvalidationIsAnswered | client/src/state/active-run-tracker.ts:66-129 | from the start, if loop exit and `finally` are one step, every invalidation of a run that stays tracked is answered before the run is idle, across failures, reconnects and coalesced invalidations |
| RunInvalidations.LostInTheGap | client/src/state/active-run-tracker.ts:125-126 | an invalidation between loop exit and `finally`, by a channel or by a reconnect, leaves the run idle with nothing fetched |
| RunInvalidations.GapIsReached | client/src/state/active-run-tracker.ts:52-126 | a run's first fetch leads into that gap |
| RunInvalidations.NewRunsAreFetchedExactly | client/src/state/active-run-tracker.ts:52-57 | a run that enters the tracked set has a getRun outstanding if and only if its old refresher is not in that gap, and a new one begins if and only if there is no refresher |
| RunInvalidations.TrackedInTheGap | client/src/state/active-run-tracker.ts:52-57 | a run that enters the tracked set in that gap ends up idle with nothing fetched and nothing cached |
| RunInvalidations.RetrackedInTheGap | client/src/state/active-run-tracker.ts:109-126 | so does a run that is untracked while its getRun is outstanding and tracked again in the gap |
| RunResults.ResultsExactly | client/src/state/active-run-tracker.ts:109-149 | of a tracked run a nonterminal result is cached, a terminal one retires the run, a failure empties its entry; of an untracked run it is dropped; no other run is touched |
| RunResults.SeedsExactly | client/src/state/active-run-tracker.ts:61-64 | a projection handed in is taken in like a result exactly if its run is tracked |
| RunResults.CacheFollows | client/src/state/active-run-tracker.ts:61-149 | over every run the cache entry is the last projection delivered since the run was last tracked, failed, suspended or disconnected, and absent if there is none |
| RunResults.DisposedForGood | client/src/state/active-run-tracker.ts:100-107 | a disposed tracker never tracks or caches anything again |
| RunResults.ClientFollows | client/src/realtime/client.ts:33-92 | over every run the selection is the run selected last, and the product channel is open exactly if the socket has opened, since the last disconnect |
| RunResults.ConnectionFollows | client/src/realtime/client.ts:29-77 | over every run there is a socket exactly if the client was started, selected a run or began to watch one since the last disconnect, and no channel is open without it |
| RunResults.InvalidationExactly | client/src/state/active-run-tracker.ts:66-73 | outside the gap an invalidation of a tracked run makes one more round due if one is under way, and else begins one |
| RunResults.ConnectionFetchesTwice | client/src/realtime/client.ts:67-72 | a connection fetches every tracked run outside the gap and marks it for one more round, since store and client both invalidate it |
| RunTracker.RealtimeClient.SelectRun | client/src/realtime/client.ts:33-40 | the whole new state of the client after a selection |
| RunTracker.RealtimeClient.WatchRun | client/src/realtime/client.ts:42-45 | the whole new state of the client after a run is watched |
| RunTracker.RealtimeClient.Release | client/src/realtime/client.ts:46-49 | the whole new state after a release handle is used |
| RunTracker.RealtimeClient.Disconnect | client/src/realtime/client.ts:52-61 | the whole new state after disconnecting |
| RunTracker.StopOneMore | client/src/state/active-run-tracker.ts:51 | stopping runs one after another is stopping them together, whatever the order, with each handle used once |
| RunTracker.InvalidateOneMore | client/src/state/active-run-tracker.ts:80-82 | invalidating runs one after another is invalidating them together |
| RunTracker.ActiveRunTracker.UpdateSummaries | client/src/state/active-run-tracker.ts:34-59 | the loops over tombstones, tracked and desired runs make the update transition |
| RunTracker.ActiveRunTracker.Invalidate | client/src/state/active-run-tracker.ts:66-73 | an untracked run is ignored, one in flight is marked, another is fetched |
| RunTracker.ActiveRunTracker.OnOpen | client/src/realtime/client.ts:67-72 | a connection invalidates every tracked run and then every run of interest, and joins the product channel |
| RunTracker.ActiveRunTracker.Resume | client/src/state/active-run-tracker.ts:116-125 | the refresher's segment after its await makes the resume transition |
| RunTracker.ActiveRunTracker.Dispose | client/src/state/active-run-tracker.ts:100-107 | disposal uses every handle still held once and empties the tracker |
| ExecutionAuthority.FakeExecutionAuthority.constructor | spikes/claude-account-cell-feasibility/proof.ts:126-132 | reconstruction from disk continues above every binding id ever stored |
| ExecutionAuthority.FakeExecutionAuthority.CreateNativeSession | spikes/claude-account-cell-feasibility/proof.ts:181-206 | the checks in their order and the whole new disk, as the transition characterised by `AuthoritySessions.CreateExactly` |
| ExecutionAuthority.FakeExecutionAuthority.ResumeNativeSession | spikes/claude-account-cell-feasibility/proof.ts:208-228 | the checks in their order and the session, as characterised by `AuthorityProperties.ResumeExactly` and `AuthoritySessions.ResumesUntilEnded` |
| ExecutionAuthority.FakeExecutionAuthority.CleanupRun | spikes/claude-account-cell-feasibility/proof.ts:284-291 | the two loops retire exactly the run's bindings and sessions |
| ExecutionAuthority.FakeExecutionAuthority.RequestLogout | spikes/claude-account-cell-feasibility/proof.ts:254-265 | a logout request fences the account, then completes or waits |
| AuthorityProperties.StepSound | spikes/claude-account-cell-feasibility/proof.ts:126-291 | each operation keeps the invariant and undoes no retirement, no binding, no session and no fence |
| AuthorityProperties.Invariant | spikes/claude-account-cell-feasibility/proof.ts:152-291 | in every reachable state an unretired binding has the current worker, incarnation, generation and run epoch |
| AuthorityProperties.CurrentExactly | spikes/claude-account-cell-feasibility/proof.ts:168-179 | the four checks of currentBinding succeed if and only if the binding exists unretired and the account is authenticated |
| AuthorityProperties.ResumeExactly | spikes/claude-account-cell-feasibility/proof.ts:208-228 | a session resumes if and only if it is unretired and presented with the still current binding that created it |
| AuthorityProperties.BindingIdsAreFresh | spikes/claude-account-cell-feasibility/proof.ts:126-166 | a binding id is never reused, restarts included |
| AuthorityProperties.RetirementIsFinal | spikes/claude-account-cell-feasibility/proof.ts:168-228 | a retired binding is never current again and its sessions never resume again |
| AuthorityProperties.RunsAreIsolated | spikes/claude-account-cell-feasibility/proof.ts:168-291 | over any run of operations, restarts included, a binding in use and a session that resumes with it stay usable if and only if no logout is requested, no rollover succeeds and its own run is neither replaced nor cleaned; operations on other runs never matter |
| AuthorityProperties.ProcessHoldsTheAccount | spikes/claude-account-cell-feasibility/proof.ts:234-274 | while a provider process is active the generation stands still, no second one starts, and only its own handle ends it |
| AuthorityProperties.ReleaseIsIdempotent | spikes/claude-account-cell-feasibility/proof.ts:243-251 | a release handle is idempotent, and one whose process has ended changes nothing |
| AuthorityProperties.FencedForGood | spikes/claude-account-cell-feasibility/proof.ts:152-265 | once logout has been requested no process starts and no binding is made again, restarts included |
| AuthorityProperties.LogoutCompletes | spikes/claude-account-cell-feasibility/proof.ts:254-265 | over every run that follows a logout request: requested while idle it is completed at once; requested while a process runs it is pending, or has continued with no restart before, or a restart came first and it is lost for good; completed means a later generation and every binding retired |
| AuthorityProperties.PendingCanComplete | spikes/claude-account-cell-feasibility/proof.ts:243-265 | the "did not quiesce" error is unreachable: a pending logout completes once the active handle, if any, is released |
| AuthorityProperties.LogoutIsLostByRestart | spikes/claude-account-cell-feasibility/proof.ts:126-132 | a run in which a restart loses the logout, with the binding still unretired |
| AuthoritySessions.BindExactly | spikes/claude-account-cell-feasibility/proof.ts:152-166 | binding succeeds if and only if worker, incarnation and generation are the present ones and the account is authenticated; the new binding is current under its run's epoch, and no other changes |
| AuthoritySessions.CreateExactly | spikes/claude-account-cell-feasibility/proof.ts:181-206 | a session is created if and only if its id is a UUID and new, the project name is valid and the binding is current; its record carries the project and the binding's identities and it resumes at once |
| AuthoritySessions.BeginExactly | spikes/claude-account-cell-feasibility/proof.ts:234-252 | a process starts if and only if the binding is current and no process runs; it is then active until its own handle is released |
| AuthoritySessions.BoundUntilEnded | spikes/claude-account-cell-feasibility/proof.ts:152-291 | from its creation a binding is current exactly until a logout request, a rollover, or a replacement or cleanup of its run, restarts included |
| AuthoritySessions.ResumesUntilEnded | spikes/claude-account-cell-feasibility/proof.ts:181-291 | from its creation a session resumes with its binding exactly as long, and what resumes is the record that was created |
| AuthoritySessions.FirstSession | spikes/claude-account-cell-feasibility/proof.ts:134-228 | from the initial state: an input is bound and a session created that resumes, if and only if the input is of the account's context |
| AuthoritySessions.CountersExactly | spikes/claude-account-cell-feasibility/proof.ts:241-274 | over every run the generation counts the successful rollovers and completed logouts, the process starts count the successful begins, and the account is authenticated exactly until a logout is requested |
| AuthoritySessions.EpochExactly | spikes/claude-account-cell-feasibility/proof.ts:156-157 | over every run a run's recovery epoch is its number of replacements, and one more if it was bound before the first |
| AuthoritySessions.UuidShape | spikes/claude-account-cell-feasibility/proof.ts:357-364 | the accepted session ids are exactly the five hexadecimal groups with version and variant digit |
| AuthoritySessions.ProjectNameShape | spikes/claude-account-cell-feasibility/proof.ts:187-188 | the accepted project names have 1 to 64 letters, digits, underscores and hyphens |
| AccountCell.FakeProviderAccountCell.Exclusive | spikes/provider-credential-context/proof.ts:172-177 | a call queues behind the last promise of the chain and becomes the last itself |
| AccountCell.FakeProviderAccountCell.Enter | spikes/provider-credential-context/proof.ts:98-148 | the section admits or refuses a use, or swaps the account |
| AccountCell.LockIsFair | spikes/provider-credential-context/proof.ts:172-184 | mutual exclusion in call order, released also when an operation throws, never stuck; the revision equals the length of the mutation log |
| AccountCell.AdmittedExactly | spikes/provider-credential-context/proof.ts:98-170 | a use runs if and only if the account was ready when its reference was taken and no replacement or disconnection ran between then and its entry |
| AccountCell.OnlyTheHolderMutates | spikes/provider-credential-context/proof.ts:98-148 | the credential changes outside the turn if and only if a provider kept from a finished, admitted use refreshes it under a valid label |
| AccountCell.KeptProviderOutlivesDisconnect | spikes/provider-credential-context/proof.ts:110-147 | a run in which such a provider writes to the disconnected account |
| AccountHistory.ContentsFollow | spikes/provider-credential-context/proof.ts:98-148 | after every run the credential is what the last swap left with the later refresh labels appended, the log names all mutations in order, revision and generation count mutations and swaps, and the account is signed in unless the last swap disconnected it |
| AccountHistory.AdmissionExactly | spikes/provider-credential-context/proof.ts:98-170 | a use is admitted if and only if its reference is the one to the present account, environment and generation and the account is signed in |
| AccountHistory.LabelShape | spikes/provider-credential-context/proof.ts:115-116 | the accepted labels have 1 to 64 small letters, digits and hyphens |
| PngCodec.ScanChunks | client/scripts/composite-png.py:6-11 | the chunk loop finds the header and the concatenated compressed data |
| PngCodec.ReconstructRow | client/scripts/composite-png.py:15-23 | the in-place loop computes the reconstruction of the row, or fails where the source's index does |
| PngCodec.ReconstructRows | client/scripts/composite-png.py:13-24 | the row loop reconstructs each scanline from the one before |
| PngCodec.ReadPng | client/scripts/composite-png.py:5-25 | the reader as a whole, with its five rejections |
| PngCodec.PaethIsNearest | client/scripts/composite-png.py:21-23 | the predictor of filter type 4 is the one neighbour nearest to left + above - corner, ties going to the left, then to the one above |
| PngRejections.ReadExactly | client/scripts/composite-png.py:5-25 | of any file of whole chunks: which of the five errors is reported, by the last header and the inflated data, or what the row loop makes of them |
| PngRejections.OtherFiltersKeep | client/scripts/composite-png.py:16-23 | a row under any other filter type stays as it is, cut short or not |
| PngCodec.FilterInverts | client/scripts/composite-png.py:16-23 | reconstruction undoes the five filters of section 6 of RFC 2083, which the encoder defines by predictors of its own |
| PngCodec.ReadInvertsEncoding | client/scripts/composite-png.py:5-25 | for every image, every choice of that encoder's filters, every split of the stream and any unknown chunks between, the reader returns the image |
| PngCompositor.Composite | client/scripts/composite-png.py:30-39 | the size check, the pixel loop with its index failures, and the file: signature, header, one data chunk of unfiltered scanlines, end |
| PngCompositor.ComposeFiles | client/scripts/composite-png.py:28-39 | the whole of main: which file fails to be read, or the composition of the two |
| PngCompositor.ReadInvertsWrite | client/scripts/composite-png.py:5-39 | the reader inverts the writer |
| PngCompositor.FileConforms | client/scripts/composite-png.py:27-40 | the file is the signature and three chunks with their lengths and the CRC of kind and body |
| PngCompositor.CompositionReadsBack | client/scripts/composite-png.py:28-39 | two complete screenshots of one size are always composed, reading the file returns the composition, and each of its pixels is the blend of three colours under full opacity |
| PngCodec.AcceptedRows | client/scripts/composite-png.py:13-24 | exactly which scanline data is accepted, and the shape of the rows that come out |
| PngCompositor.CutRowIsRead | client/scripts/composite-png.py:13-24 | a file whose only scanline is cut off after its filter byte is read as an image with an empty row |
| TileRle.DecodeTileData | client/scripts/sunnyside-example-importer.ts:118-149 | the decoding loop yields the expansion of the parsed runs, or the matching error |
| TileRle.DecodesExactly | client/scripts/sunnyside-example-importer.ts:118-149 | the decoder accepts exactly the serialisations of valid run lists, which are unique, so no cell is misread as a count |
| TileRle.EveryArrayHasAnEncoding | client/scripts/sunnyside-example-importer.ts:118-149 | for every cell array there is an encoding that decodes to it |
| TileGid.MapGameMakerTile | client/scripts/sunnyside-example-importer.ts:152-176 | the bit operations in the source's order, or the unknown tile |
| TileGid.TranslationPreservesMeaning | client/scripts/sunnyside-example-importer.ts:11-18 | the Tiled flags denote the same symmetry of the square as mirror, flip, then clockwise turn, and masking recovers firstgid plus local id |
| TileGid.TranslationIsInjective | client/scripts/sunnyside-example-importer.ts:152-176 | two cells translate alike if and only if their low 31 bits agree |
| TileGid.KnownExactly | client/scripts/sunnyside-example-importer.ts:157-163 | exactly the empty cell and cells whose local id the tileset has are translated, the empty cell alone to 0; the error names the missing tile |
| TileMap.PlacementIsInjective | client/scripts/sunnyside-example-importer.ts:198-214 | distinct source cells land on distinct indices inside the map, for either sheet |
| TileMap.NeighboursStayNeighbours | client/scripts/sunnyside-example-importer.ts:200-214 | cells are read row by row and neighbours in the source are one scaled step apart in the map |
| TileMap.CellsExactly | client/scripts/sunnyside-example-importer.ts:187-195 | a layer's cells are those decoded, or those stored, exactly if there are as many as its size asks for |
| TileMap.PlaceCells | client/scripts/sunnyside-example-importer.ts:200-221 | the nested loops fill the layer, or stop at the first cell whose tile is unknown |
| TileMap.TileLayerData | client/scripts/sunnyside-example-importer.ts:178-222 | a layer succeeds if and only if it decodes and every tile is known; then it has one entry per map tile, each cell at its place and 0 elsewhere |
| RoomImport.DrawingOrder | client/scripts/sunnyside-example-importer.ts:511-512 | the layers are drawn deepest first, none lost, those of one depth in the room's order |
| RoomImport.MapSize | client/scripts/sunnyside-example-importer.ts:483-496 | the least size that holds every layer |
| RoomImport.ObjectGidMeans | client/scripts/sunnyside-example-importer.ts:424-429 | an object's gid names its tile, mirrored and flipped as the signs of its scales say |
| RoomImport.ImportMap | client/scripts/sunnyside-example-importer.ts:483-637 | the import succeeds if and only if every tile layer is importable; then each drawn layer stands in drawing order with its name, position id, visibility, offsets and placed cells or objects, followed by the notes |
| RoomImport.IdsAreDistinct | client/scripts/sunnyside-example-importer.ts:510-614 | layer ids and object ids are distinct and below the map's next ids |
| ReferenceMap.ValidateMap | client/scripts/validate-reference-map.ts:42-111 | the check succeeds if and only if the properties, the layer names in their order, the files, every tile layer's cell count and every gid are right, and it counts the gids that are not 0 |
| ReferenceMap.RangesAreDisjoint | client/scripts/validate-reference-map.ts:79-94 | a gid of one tileset lies in that tileset's range and no other |
| ReferenceMap.JoinedNamesTell | client/scripts/validate-reference-map.ts:51 | comparing joined names compares the lists of names, as long as no name contains the separator |
| ReferenceMap.ImportedMapIsAccepted | client/scripts/validate-reference-map.ts:88-111 | every imported map has the right cell counts and gids, each nonzero gid naming exactly one tileset; so it is accepted if and only if the files are there and its drawn layers have the expected names |
| CatalogLayout.CatalogMap | client/scripts/import-sunnyside-assets.ts:303-416 | the layout loops draw the bands of the nonempty categories one below the other and size the map to hold them |
| CatalogLayout.ObjectsApart | client/scripts/import-sunnyside-assets.ts:337-374 | within a band any two image or label rectangles are disjoint |
| CatalogLayout.BandsInOrder | client/scripts/import-sunnyside-assets.ts:324-388 | each band begins below the one before, and its object ids after it |
| CatalogLayout.NothingOverlaps | client/scripts/import-sunnyside-assets.ts:303-416 | all rectangles are pairwise disjoint and inside the map; object ids are distinct and below nextobjectid |
| CatalogLayout.GidIdentifiesAsset | client/scripts/import-sunnyside-assets.ts:308-318 | a gid identifies exactly one category position and asset |
| CatalogLayout.ImageGidIsUnambiguous | client/scripts/import-sunnyside-assets.ts:336-354 | each emitted gid names one asset and no other, and the object has that asset's name and size |
| CatalogLayout.CellsInOrder | client/scripts/import-sunnyside-assets.ts:337-370 | assets stand in rows from left to right, each with its label below it |
| CatalogLayout.BandFits | client/scripts/import-sunnyside-assets.ts:325-335 | cells are as wide and as high as the largest asset needs, there are as many columns as fit, and the least number of rows |
| CatalogLayout.CountsAndSize | client/scripts/import-sunnyside-assets.ts:303-402 | every asset is drawn once, ids have no gaps, and the map is the smallest that holds the bands and its margins |
| CanonicalIdentity.PrintUnique | workers/bun/src/harness-setup-store.ts:277-285 | a printed document can be read in one way only, whatever follows it |
| CanonicalIdentity.SortSorts | workers/bun/src/harness-setup-store.ts:280-281 | sorting keeps the fields and orders the keys |
| CanonicalIdentity.NormalUnique | workers/bun/src/harness-setup-store.ts:278-283 | documents of the same value have the same normal form |
| CanonicalIdentity.CanonicalExactly | workers/bun/src/harness-setup-store.ts:277-285 | canonical texts are equal if and only if the documents are the same value up to key order |
| JsonReading.PrintReads | workers/bun/src/harness-setup-store.ts:277-285 | read by the grammar, a printed document is that document |
| JsonReading.CanonicalDenotes | workers/bun/src/harness-setup-store.ts:277-285 | the canonical text denotes the value of the document |
| SetupStore.DigestExactly | workers/bun/src/harness-setup-store.ts:105-110 | digests agree if and only if the commands agree apart from key order and connection generation |
| SetupStore.HarnessSetupStore.Accept | workers/bun/src/harness-setup-store.ts:104-142 | the whole new table and answer: first delivery, redelivery, conflict |
| SetupStore.HarnessSetupStore.Transition | workers/bun/src/harness-setup-store.ts:207-250 | the whole new table and answer; an absent member keeps its column |
| SetupStore.HarnessSetupStore.ClaimResponse | workers/bun/src/harness-setup-store.ts:174-205 | the whole new table and answer: granted, recognised, conflicting, stale |
| SetupStore.ClaimedExactly | workers/bun/src/harness-setup-store.ts:158-205 | over every run of the store, a response counts as claimed if and only if this pair was granted before, conflicts if and only if the request was granted another attention, and is free if and only if it was granted none |
| SetupStore.IdentityPersists | workers/bun/src/harness-setup-store.ts:104-250 | no run of operations changes a setup's identity or a recorded response |
| SetupStore.RedeliveryExactly | workers/bun/src/harness-setup-store.ts:104-142 | after a first delivery, whatever happens, a command is accepted if and only if it is the same command; accepting it leaves all progress alone, and the stored text then denotes that command |
| SetupStore.ResponsesStayOneToOne | workers/bun/src/harness-setup-store.ts:174-205 | within a setup generation no two requests ever share an attention |
| SetupStore.ClaimedAtMostOnce | workers/bun/src/harness-setup-store.ts:174-205 | a granted claim is never granted again; the same pair is recognised, a half-matching one conflicts |
| SetupHistory.FirstDelivery | workers/bun/src/harness-setup-store.ts:128-141 | a first delivery is stored as authorized and not requested, with nothing else to show, and its text denotes the command |
| SetupHistory.ProgressFollows | workers/bun/src/harness-setup-store.ts:207-250 | over every run each column of a setup's progress holds what a transition of its generation last put into it |
| SetupHistory.TransitionsExactly | workers/bun/src/harness-setup-store.ts:218-220 | a transition succeeds exactly for a known setup in its own generation, and else changes nothing |
| SetupHistory.TextFollows | workers/bun/src/harness-setup-store.ts:104-142 | over every run the stored text denotes the command accepted last |
| SetupHistory.ClaimsExactly | workers/bun/src/harness-setup-store.ts:174-205 | over every run a claim is granted exactly if neither its request nor its attention was granted before in this generation, recognised exactly if this pair was, and else refused |

## Left out

- TokenIdentifiesAttachment: the token is represented by the text that is digested, so SHA-256 counts as injective; ids contain no NUL, as the session validators and the id generator see to.
- DetachedIsTruthful: the launcher's event receiver never hangs up in the composed system, because its control-signal handler keeps a sender; `Lifecycle` alone does treat the hang-up.
- NoAckTimeout: the delays are parameters of the run; nothing is said about what a real scheduler adds.
- MonitorReadsStray: that a status was reported by the observation's own launcher rests on the control stream being private to it; the monitor (lines 909-920 of `main.rs`) checks the session id of a `closed` frame, not the token, so the model lets no other party write one with that id.
- Sockets, process spawning, launch directories and string validators of `main.rs`; the child is a source of exit events, a frame is written whole or not at all, and no mutex is poisoned.
- Removal of registry entries, and the Tauri event that reports a status.
- ReadInvertsWrite: holds for any inflate that inverts deflate on the written scanlines; zlib, CRC-32 and file access are not modelled, and the reader, like the source, checks neither signature nor checksum.
- Composite: the blend of one colour byte is a parameter that yields a byte; its floating-point rounding is not modelled.
- MapSize: for no tile layer at all the source takes the maximum of nothing (minus infinity); the model gives 0.
- TileLayerData: the misalignment error cannot occur with the 16 and 32 pixel sheets, and is not modelled.
- ImportMap: of an imported object the id, the name and the gid are modelled, not its geometry, rotation and properties; the constant header fields of the map and the descriptive text properties are left out.
- ValidateMap: file paths and the text of the errors are not modelled; whether a file is there is an input.
- CatalogMap: text attributes, properties and display names; the deduplication loop that selects the assets.
- CanonicalExactly: documents have no lone surrogates and no undefined members, and number texts are those JavaScript prints; `localeCompare` is any strict total order on keys.
- CanonicalDenotes: the grammar is that of texts without white space, with the two-character escapes and `\u` escapes of single code units; surrogate pairs are not combined.
- CountersExactly: the numbers of bindings and sessions that `projection` reports are not modelled, nor `uncertainReplays`.
- RedeliveryExactly: the document is taken to hold the identity fields that the command is addressed by; SQLite durability is not modelled, the tables are maps.
- Bind: binding ids are unbounded numbers, where the source stops counting at the largest safe integer.
- RunsAreIsolated: one authority object is live per disk at a time; the account cell's bridge, workspace broker and network boundary are not modelled.
- UpdateSummaries: the callbacks for activities, projections and errors are outputs without a model, and do not throw; `getRun(id)` returns run `id`.
- TrackerAndClientAgree: channel payloads and join replies enter as the events that they cause; after a disconnect nothing is said about channels.
- HTTP decoding, rendering, town world, camera, fixtures, preflight and capture scripts, capability predicates and the Mod's hooks: flat or presentation code.
