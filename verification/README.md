# electron-go, modelled and proved in Dafny

electron-go emulates Electron in Go with a C shim over CEF. This project models its
codecs, protocols and pointer structures and proves what they keep. A component that
changes fields in place is a class whose methods are tied, by their `ensures`, to
functions on values; the promises are lemmas about those functions, for all inputs,
runs or interleavings.

| module | component |
|---|---|
| `AsarPickle`, `AsarPaths`, `AsarHeader`, `Asar`, `AsarRoundTrip`, `AsarNames`, `AsarSpellings` | the ASAR archive: frames, paths, header tree, writing and opening, when opening restores what was written, and which spelling of a path reaches which entry |
| `Dispatcher` | the bounded queue, its worker and concurrent shutdowns, as interleaved steps |
| `ProcessTree`, `ProcessTreeBfs` | the two process-tree traversals, on any parent table |
| `CefShim`, `CefHistory`, `CefArgv` | the globals of the C shim under any order of calls and callbacks; which step has which effect; its argv copies |
| `Lifecycle`, `Windows`, `MainRunner` | app, window and main runner: the fast path against the interpreter, quitting once |
| `Views` | the view tree with parent pointers |
| `MessagePort`, `MessagePortRace`, `IpcRouter` | a message port in sequence and under races; handle-once registrations |
| `CookieStore` | cookies and their change journal |
| `History` | slice-and-index navigation against a two-stack history |
| `CommandLine`, `Accelerators`, `Versions`, `Switches` | tokenizer, accelerator syntax and registry, version order and release check, switch merging |
| `Text`, `Sequences`, `Wrappers` | strings, numbers and sorted keys as Go has them, over ASCII; sequences without repetition; `Option` and `Result` |

`dafny verify dfyconfig.toml` checks everything.

## What the proofs found

- **Archive.** When Write succeeds, opening restores what was written exactly when the
  names are canonical and none is a folder of another, there is at least one file, none is
  empty and no path component ends in white space (`AsarNames.OpenRestoresWrite`).
  On canonical names Write panics exactly when a packed name is a folder of a packed one,
  or any name is a folder of an unpacked one (`WritePanicsExactly`). The remaining clash
  passes unnoticed: packed `a/b` with unpacked `a` is written, and `a/b` is gone
  (`FolderReplacedByFile`). A path reaches an entry exactly when it spells its name, up to
  blanks around, one slash in front and pieces that lead nowhere (`StatFindsExactly`).
- **Dispatcher.** One Shutdown call can return nil while the drain of another still holds
  an unanswered item (`TwoShutdownsLeaveAnItem`); every drain leaves everything answered
  exactly when none sees the queue empty while another call holds an item
  (`DrainsAnsweredExactly`). A late send can stay behind
  (`ALateSendIsLost`). Once every Shutdown call has drained, an item is answered exactly
  when some drain ended after it was enqueued (`AnsweredExactly`); any other stays in the
  queue until Shutdown is called again (`LostExactly`, `AnotherShutdownRescues`).
  Nothing gets stuck: a living worker can always handle all that is queued
  (`QueuedIsHandled`), and every Shutdown call can return nil (`ShutdownCanReturn`).
- **CEF shim.** A console result for a script that outlived its load is a second
  load-end report; nothing else is (`ReportedOnceExactly`, `LateScriptReportsTwice`).
  Between two resets close_browser is called twice exactly when a step asks for it after
  a load has cleared the flag of the first (`AtMostOneCloseExactly`). That nothing but
  another load can lead to a second close, or to STOPPED after a load error, holds
  throughout a run exactly when no load was started after a close, or after an error
  (`ClosedOnceExactly`, `ErrorsStayExactly`). The flag that would quit the loop on a
  finished load is never set, so the loop is told to quit by before-close and failed loads
  only (`QuitsExactly`).
- **Views.** AddChild has no cycle check: the forest stays acyclic exactly when the
  child is not an ancestor of its new parent or the parent itself (`Views.View.AddChild`,
  `TwoViewCycle`).
- **Main runner.** Without a window-all-closed handler quit is emitted twice exactly when
  the first close comes after an app.quit and succeeds (`UnhandledQuitsExactly`,
  `QuitThenCloseQuitsTwice`).
- **Message port.** A message posted while Start hands over its batch can overtake a
  queued one (`BatchCanBeOvertaken`). The batch comes first and in queue order exactly
  when none is handed over meanwhile (`QueueOrderExactly`); deliveries follow arrivals
  exactly when each is also handed over in turn (`ArrivalOrderExactly`). Posting to a
  closed peer reports success.
- **Cookies.** A domain of blanks only does not survive normalizing twice
  (`NormalizeTwice`). A key stands for one domain, path and name exactly when none of them
  holds a NUL (`KeyStandsForOnePlaceExactly`); a cookie with one can be overwritten by
  another (`NulMakesKeysCollide`). A delete at a cookie's own URL reaches it unless that
  host begins with a dot (`OwnDeleteReaches`).

## Model

| member | source | states |
|---|---|---|
| `AsarPickle.WordRoundTrip` | internal/asar/archive.go:298-303 | four little-endian bytes read back as the word written |
| `AsarPickle.SizeRoundTrip` | internal/asar/archive.go:272-303 | the size frame, followed by anything, reads back as the size |
| `AsarPickle.StringRoundTrip` | internal/asar/archive.go:283-319 | the aligned string frame reads back as the string if and only if its padded payload fits 32 bits |
| `AsarPickle.Align4` | internal/asar/archive.go:314-319 | the least multiple of four that is not smaller |
| `AsarPaths.NormalizeJoin` | internal/asar/archive.go:262-270 | joined plain components are already normal, so normalizing is the identity on canonical names |
| `AsarPaths.NormalizeSteady` | internal/asar/archive.go:262-270 | a path of which at most the last component ends in white space normalizes to one in which none does |
| `AsarPaths.EntryPathSteady` | internal/asar/archive.go:357-393 | below a directory free of trailing white space, no path built while flattening ends a component in white space |
| `AsarPaths.GoodIsNormal` | internal/asar/archive.go:262-270 | a clean relative path that ends in no white space is left alone by normalizing |
| `AsarHeader.LookInsert` | internal/asar/archive.go:395-416 | after inserting a file in the header tree a path leads to what it led to before, to the file, or to a folder made on its way |
| `AsarHeader.InsertThroughFilePanics` | internal/asar/archive.go:395-416 | a path that goes through a file makes the insertion write to a nil map |
| `AsarHeader.AppendHeaderEntry` | internal/asar/archive.go:357-393 | flattening succeeds exactly when no node is malformed, and yields exactly the entries of the subtree, in any map order |
| `AsarHeader.FlatOfTidy` | internal/asar/archive.go:357-393 | flattening a tree of plain names lists exactly the nodes reachable by a path, each under that path |
| `AsarHeader.EmptyFileFails` | internal/asar/archive.go:321-338 | a file of size 0 loses its size in JSON and is refused when the header is flattened |
| `Asar.PackFiles` | internal/asar/archive.go:124-135 | the first loop lays the contents end to end, each node holding the offset at which its content starts |
| `Asar.AddUnpacked` | internal/asar/archive.go:136-146 | the second loop adds header nodes without content and writes each unpacked file beside the archive |
| `Asar.Write` | internal/asar/archive.go:117-156 | the bytes are the two frames around the encoded tree and then the contents, whatever the map order |
| `Asar.ParseHeaderEntries` | internal/asar/archive.go:340-355 | succeeds exactly when no top-level entry fails, listing the entries of all of them |
| `Asar.IndexEntries` | internal/asar/archive.go:97-114 | succeeds exactly when every entry normalizes, keeping one entry per normalized path and no others |
| `Asar.Open` | internal/asar/archive.go:60-115 | succeeds exactly on openable files and indexes exactly their entries |
| `AsarNames.OpenRestoresWrite` | internal/asar/archive.go:60-156 | for all files, whatever their names: when Write succeeds, opening restores every file byte for byte, exactly the folders above them, and extents that tile the content, if and only if the names are canonical, none is a folder of another, there is a file, none is empty and no component ends in white space |
| `AsarNames.WritePanicsExactly` | internal/asar/archive.go:117-156 | for canonical names Write fails exactly when a packed name is a folder of a packed one or any name is a folder of an unpacked one, and then by writing to a nil map |
| `AsarNames.BelowUnpackedIsLost` | internal/asar/archive.go:136-146 | a packed file below an unpacked one is never restored, even when Write succeeds |
| `AsarNames.FolderReplacedByFile` | internal/asar/archive.go:395-416 | packed a/b with unpacked a: Write succeeds and opening does not restore a/b |
| `AsarNames.KeyIsGood` | internal/asar/archive.go:97-114 | every key of an opened archive is normal, so names that are not canonical cannot come back |
| `AsarRoundTrip.WellNamedIsRestored` | internal/asar/archive.go:60-156 | on well-named files Write succeeds, and what opening needs is one file at least, none empty, no component ending in white space |
| `AsarRoundTrip.SomeCodecCarries` | internal/asar/archive.go:147-156 | the premise about the JSON layer can be met for every set of files |
| `AsarRoundTrip.ContentAt` | internal/asar/archive.go:117-156 | the content from a file's offset, as long as the file, is the file |
| `AsarRoundTrip.ExtentsTile` | internal/asar/archive.go:117-156 | the packed extents lie in the content area and cover each position exactly once |
| `AsarSpellings.NormalizesExactly` | internal/asar/archive.go:262-270 | a path normalizes to a clean relative name if and only if it is blanks, perhaps one slash, pieces that come down to those of the name by erasing empty ones, "." and a name with the ".." behind it, and blanks |
| `AsarSpellings.StatFindsExactly` | internal/asar/archive.go:178-185 | in an archive that holds what was written a path finds an entry if and only if it spells its name, and then that one |
| `AsarSpellings.ReadsUnderEverySpelling` | internal/asar/archive.go:221-246 | every file reads back byte for byte under every spelling of its name |
| `AsarSpellings.BlanksAndSlashSpell` | internal/asar/archive.go:262-264 | blanks around a name and a slash in front of it spell the name |
| `AsarSpellings.DotSpells` | internal/asar/archive.go:265 | so does "./" in front |
| `AsarSpellings.BackSpells` | internal/asar/archive.go:265 | and a folder that is left at once |
| `AsarSpellings.AddsUnderEverySpelling` | internal/asar/archive.go:395-416 | a spelling inserts a file in the header tree where its name does |
| `AsarSpellings.WritesSlashedTheSame` | internal/asar/archive.go:117-156 | writing every file under its name with a slash in front gives the same bytes, files beside them and errors |
| `Dispatcher.ReachableInv` | internal/native/dispatcher.go:230-409 | the invariant of the dispatcher holds in every reachable state |
| `Dispatcher.ExactlyOnePlace` | internal/native/dispatcher.go:251-409 | every accepted item is in exactly one of queue, worker, drain or answered, and is answered at most once |
| `Dispatcher.ReplyNeverBlocks` | internal/native/dispatcher.go:333-359 | a reply always finds the item's one-slot result channel empty |
| `Dispatcher.FirstInFirstOut` | internal/native/dispatcher.go:321-331 | items are taken in the order in which they entered the queue, which never exceeds its capacity |
| `Dispatcher.QueuedIsHandled` | internal/native/dispatcher.go:321-359 | from every reachable state with a living worker its takes and replies alone lead to a state in which all that was enqueued is answered, and the handler of each queued item has run |
| `Dispatcher.RoomDecides` | internal/native/dispatcher.go:268-290 | a pending call can enter the queue exactly while fewer than capacity items wait, is refused for lack of room exactly when that many do and done is open, and as closed exactly when done is closed |
| `Dispatcher.ShutdownCanReturn` | internal/native/dispatcher.go:230-249 | from every reachable state every Shutdown call can return nil by steps of the worker and of Shutdown calls alone |
| `Dispatcher.HandlersNeverOverlap` | internal/native/dispatcher.go:321-359 | between the starts of two handlers the first one finishes |
| `Dispatcher.NoHandlerAfterShutdown` | internal/native/dispatcher.go:230-249 | once some Shutdown returned nil the worker is gone and no handler starts in any continuation |
| `Dispatcher.AnsweredExactly` | internal/native/dispatcher.go:230-409 | in every reachable state in which Shutdown was called and all calls have drained, an enqueued item is answered if and only if some drain ended after it was enqueued, and is in the queue otherwise |
| `Dispatcher.AllReturned` | internal/native/dispatcher.go:230-249 | when all Shutdown calls have returned nil, all have drained |
| `Dispatcher.DrainedItemsAreAnswered` | internal/native/dispatcher.go:392-409 | at every moment after a drain saw the queue empty, each item enqueued before is answered or held by the drain of another call |
| `Dispatcher.DrainsAnsweredExactly` | internal/native/dispatcher.go:392-409 | throughout a run every ended drain left all items enqueued before it answered, if and only if no drain saw the queue empty while another call held an item |
| `Dispatcher.SingleShutdownAnswersAll` | internal/native/dispatcher.go:230-249 | with a single Shutdown call that returned nil, the answered items are exactly those enqueued before its drain ended |
| `Dispatcher.LateItemsPassedEarly` | internal/native/dispatcher.go:251-290 | an item enqueued or pending after the close was sent by a caller that passed the closed check before it |
| `Dispatcher.DoneIsClosedOnce` | internal/native/dispatcher.go:230-249 | no step closes the done channel a second time |
| `Dispatcher.TwoShutdownsLeaveAnItem` | internal/native/dispatcher.go:230-249 | a reachable state in which one Shutdown returned nil and the other holds an unanswered item |
| `Dispatcher.ALateSendIsLost` | internal/native/dispatcher.go:251-290 | a reachable state with an item queued behind the last drain |
| `Dispatcher.LostStaysLost` | internal/native/dispatcher.go:251-290 | an item queued once all calls have drained stays queued and unanswered, whatever happens next, while no further Shutdown is called |
| `Dispatcher.LostExactly` | internal/native/dispatcher.go:251-290 | once all calls have drained, an item gets a reply without another Shutdown, now or ever, if and only if some drain ended after it was enqueued |
| `Dispatcher.AnotherShutdownRescues` | internal/native/dispatcher.go:392-409 | one more Shutdown call can answer the item at the front of the queue |
| `ProcessTree.Walker.Walk` | internal/native/process_model_linux.go:97-115 | the recursive walk with its shared seen map ends on cyclic tables; it marks only pids reachable from the parent, and leaves the parent and everything newly marked with all their children marked |
| `ProcessTree.SortedObservedProcesses` | internal/native/process_model_linux.go:120-129 | the observed processes of a map, each once, in increasing pid order |
| `ProcessTree.ListDescendantProcesses` | internal/native/process_model_linux.go:87-118 | exactly the pids reachable from the root by one or more child edges, each once, in increasing order, on any parent table, each with its parent, arguments and kind |
| `ProcessTreeBfs.ProcessTreePids` | tools/benchmarks/main.go:610-632 | without duplicates and root first, exactly the pids reachable from the root through existing pids |
| `ProcessTreeBfs.Enqueue` | tools/benchmarks/main.go:624-629 | the inner loop appends the unseen children in order |
| `CefShim.EveryRunKeepsInv` | native/cef_shim.c:150-361 | every run of calls and callbacks keeps references and script blocks balanced, closes at most once per restart and keeps each flag telling what was reported |
| `CefShim.RunFromStart` | native/cef_shim.c:150-188 | from the start: add_ref minus release is one for the stored browser and zero for others, each block is allocated once and freed once when dropped, close_browser is called at most once between restarts |
| `CefShim.VerdictTells` | native/cef_shim.c:826-855 | the loop returns STOPPED exactly when, since the last restart, a load end and no load error was reported and the browser has closed since the last reset |
| `CefShim.SecondReport` | native/cef_shim.c:232-361 | a step reports a second load end exactly when it is a console result for a script still installed after completion |
| `CefShim.ReportedOnceExactly` | native/cef_shim.c:232-361 | load end is reported at most once throughout a run if and only if no such console result occurs in it |
| `CefShim.OrderlyReportsOnce` | native/cef_shim.c:232-361 | with scripts installed before completion and convertible, every run reports at most once |
| `CefShim.LateScriptReportsTwice` | native/cef_shim.c:328-361 | a run with a late script that reports twice |
| `CefShim.AtMostOneCloseExactly` | native/cef_shim.c:172-188 | between two resets close_browser is called at most once throughout a run if and only if no step asks for a close when one was made and a load has cleared the flag since |
| `CefShim.CloseCounts` | native/cef_shim.c:172-188 | a step calls close_browser, once, exactly when it asks for it and the flag is clear |
| `CefShim.ClosedOnceExactly` | native/cef_shim.c:743-776 | at every moment of a run at most one close since the reset, and none but a continuation with another load makes it two, if and only if no load was started after a close |
| `CefShim.SecondClose` | native/cef_shim.c:743-794 | after a close and then a load, close_browser reaches the same browser a second time |
| `CefShim.ErrorsStayExactly` | native/cef_shim.c:826-855 | at every moment of a run a load error since the reset keeps the verdict from STOPPED, and none but a continuation with another load changes that, if and only if no load was started after an error |
| `CefShim.StoppedAfterError` | native/cef_shim.c:743-776 | after such a load, a load end and the close give STOPPED |
| `CefHistory.StepTells` | native/cef_shim.c:150-361 | every step adds to the history exactly the effects it causes, each once: which browser is referenced, released or closed, which block allocated, freed or run, which id and status each report carries, when the loop is told to quit; reports first, old references before new ones, quitting last |
| `CefHistory.RunCounts` | native/cef_shim.c:150-361 | in every run each effect has happened as often as a step caused it |
| `CefHistory.QuitsExactly` | native/cef_shim.c:221-310 | in every run the loop is told to quit once for every before-close and every main-frame load error other than -3, and for nothing else |
| `CefHistory.IdFollows` | native/cef_shim.c:214-219 | the browser id after each step: zero after a reset, the one of the browser the step heeds, else as before |
| `CefHistory.InitializedFollows` | native/cef_shim.c:624-677 | the API is initialized from a successful initialize until the shutdown |
| `CefHistory.UntilLoadCloses` | native/cef_shim.c:840-855 | inside the until-load loop a finished load asks for the close whatever create asked for, and that setting is restored |
| `CefHistory.PlainLoopKeepsAutoClose` | native/cef_shim.c:826-838 | in the plain loop it asks for it exactly when create did |
| `CefShim.Shim.constructor` | native/cef_shim.c:29-38 | the initial globals satisfy the invariant |
| `CefShim.Shim.DropBrowserRef` | native/cef_shim.c:150-156 | releases the stored browser once and forgets it |
| `CefShim.Shim.FreeScript` | native/cef_shim.c:158-161 | frees the script block once and forgets it |
| `CefShim.Shim.KeepBrowserRef` | native/cef_shim.c:163-170 | swaps the stored reference: release the old, add one to the new, nothing for the same |
| `CefShim.Shim.AskToClose` | native/cef_shim.c:172-188 | closes the host once, for the given or the stored browser |
| `CefShim.Shim.HandleAfterCreated` | native/cef_shim.c:194-203 | the callback's whole effect on the globals and the history |
| `CefShim.Shim.HandleBeforeClose` | native/cef_shim.c:221-230 | the same for before-close |
| `CefShim.Shim.HandleLoadEnd` | native/cef_shim.c:232-264 | the same for load end, running the script instead of reporting when there is one |
| `CefShim.Shim.HandleLoadError` | native/cef_shim.c:266-287 | the same for load error; subframes and code -3 are ignored |
| `CefShim.Shim.HandleLoadingStateChange` | native/cef_shim.c:289-310 | the same for the loading state |
| `CefShim.Shim.HandleConsoleMessage` | native/cef_shim.c:328-361 | the same for a console result |
| `CefShim.Shim.Reset` | native/cef_shim.c:572-582 | all per-browser state starts afresh; script and reference are given back |
| `CefShim.Shim.Initialize` | native/cef_shim.c:624-677 | RUNNING at once when initialized; otherwise FAILED for an unknown API version, INVALID_REQUEST exactly when the arguments or a settings string cannot be copied, FAILED when there is no app or CEF refuses, and only then RUNNING and initialized; no argument block outlives the call |
| `CefShim.Shim.CreateBrowserSync` | native/cef_shim.c:679-741 | an empty URL or a size that is not positive is refused before anything changes; otherwise reset, the callbacks CEF fires, then the identifier; a URL that does not convert leaves the reset state |
| `CefShim.Shim.LoadUrl` | native/cef_shim.c:743-776 | RUNNING exactly when the load was started, otherwise nothing changes; FAILED when there is no browser or frame to ask, INVALID_REQUEST for a bad URL or identifier |
| `CefShim.Shim.CloseBrowser` | native/cef_shim.c:778-794 | RUNNING exactly when the identifier addresses the stored browser; FAILED when there is none to ask, INVALID_REQUEST when the identifier is wrong |
| `CefShim.Shim.SetLoadEndScript` | native/cef_shim.c:796-824 | replaces the script, the old block freed first; when addressed, RUNNING exactly when stored or cleared, INVALID_REQUEST when too long, FAILED when there is no memory |
| `CefShim.Shim.RunMessageLoop` | native/cef_shim.c:826-855 | both loops: the callbacks inside, the auto-close flag restored, and the verdict on what they left |
| `CefShim.Shim.ShutDown` | native/cef_shim.c:857-866 | nothing is held afterwards |
| `CefArgv.Storage.MakeMainArgs` | native/cef_shim.c:499-529 | succeeds exactly when the count fits an int, every text fits and every allocation is granted; then every argument is copied, terminated, into its own new block; otherwise nothing stays allocated |
| `CefArgv.Storage.FreeArgv` | native/cef_shim.c:465-475 | frees exactly the filled slots and the table, each once |
| `CefArgv.Storage.CopyStringView` | native/cef_shim.c:477-497 | one new block with the text and its terminator exactly when the text fits and the allocation is granted, else none |
| `CefArgv.ExecuteProcess` | native/cef_shim.c:584-622 | CEF is called exactly when the API is known, the arguments can be copied and there is an app; the status of each case; no allocation outlives the call |
| `Lifecycle.EveryRun` | internal/applifecycle/lifecycle.go:66-170 | in every run quitting holds exactly once a quit was emitted, ready is emitted once, and every waiter runs exactly once, in registration order |
| `Lifecycle.WaitersRunAfterReady` | internal/applifecycle/lifecycle.go:66-98 | in every run no waiter is called before the ready event has been emitted |
| `Lifecycle.QuitsAreAnnounced` | internal/applifecycle/lifecycle.go:100-134 | without Exit every quit comes right after before-quit and will-quit, whatever handlers prevent |
| `Lifecycle.EveryLogIsOk` | internal/applifecycle/lifecycle.go:100-126 | in every run a quit goes from before-quit to will-quit to quit exactly where no handler prevents it, and window-all-closed asks by itself without a handler |
| `Lifecycle.CallsBegin` | internal/applifecycle/lifecycle.go:100-134 | each request begins with its event; the guarded one does nothing while quitting |
| `Lifecycle.CodeFollows` | internal/applifecycle/lifecycle.go:111-134 | the exit code is the one of the call that last emitted a quit |
| `Lifecycle.CodeIsZeroBefore` | internal/applifecycle/lifecycle.go:111-134 | until a quit is emitted the exit code is zero |
| `Lifecycle.ClosedWhileQuitting` | internal/applifecycle/lifecycle.go:100-109 | once quitting, another window-all-closed adds a quit exactly when no handler is installed |
| `Lifecycle.App.MarkReady` | internal/applifecycle/lifecycle.go:81-98 | succeeds once and emits both events; the waiters run in order, each behind both events |
| `Lifecycle.App.WhenReady` | internal/applifecycle/lifecycle.go:66-79 | runs the waiter at once or queues it |
| `Lifecycle.App.Quit` | internal/applifecycle/lifecycle.go:111-126 | the log and flags after a quit that handlers may cancel at either event; true exactly when all three events were emitted |
| `Lifecycle.App.QuitOnce` | internal/mainrunner/execute.go:256-260 | quits unless already quitting |
| `Lifecycle.App.WindowAllClosed` | internal/applifecycle/lifecycle.go:100-109 | the handlers in order, then the default quit when there is none |
| `Lifecycle.App.Exit` | internal/applifecycle/lifecycle.go:128-134 | quits without asking |
| `Windows.EveryRunKeepsInv` | internal/browserwindow/window.go:64-284 | in every run the event log replays to the window's flags, holds no event that changed nothing, and bounds equal normal bounds outside maximized and full screen |
| `Windows.EveryRunIsTold` | internal/browserwindow/window.go:64-284 | in every run the window is what its calls before the close tell: each switch as last asked, the bounds as last set or gone back to, normal ones as last set outside maximized and full screen, and an event for every change |
| `Windows.ModeRoundTrip` | internal/browserwindow/window.go:107-226 | whatever bounds are set in between, leaving maximized or full screen restores the bounds from before |
| `Windows.ClosedForGood` | internal/browserwindow/window.go:252-275 | after closed nothing changes any more |
| `Windows.Window.SetBounds` | internal/browserwindow/window.go:107-127 | new bounds, kept as normal ones outside maximized and full screen; refused when invalid or closed |
| `Windows.Window.SetVisible` | internal/browserwindow/window.go:136-156 | show or hide with its event only on a change |
| `Windows.Window.SetMinimized` | internal/browserwindow/window.go:166-186 | minimize or restore with its event only on a change |
| `Windows.Window.Maximize` | internal/browserwindow/window.go:188-197 | maximize with its event only on a change |
| `Windows.Window.Unmaximize` | internal/browserwindow/window.go:199-209 | back to the normal bounds |
| `Windows.Window.SetFullScreen` | internal/browserwindow/window.go:211-226 | leaving full screen goes back to the normal bounds |
| `Windows.Window.Close` | internal/browserwindow/window.go:252-264 | closes once, unless prevented |
| `MainRunner.FastAgrees` | internal/mainrunner/execute.go:164-215 | for every driver and options the fast path and the interpreter give the same result or error, browser id, exit code, trace keys and calls, on every plan without script whose actions are replaceable |
| `MainRunner.AgreesOnlyIfReplaceable` | internal/mainrunner/execute.go:47-215 | one driver tells the two apart on every other action list, so replaceable is the exact condition |
| `MainRunner.BenchmarkPlanAgrees` | internal/mainrunner/plan.go:48-58 | the benchmark plan is replaceable, so the fast path stands for it |
| `MainRunner.HandledPlanQuitsOnce` | internal/mainrunner/execute.go:68-75 | with a window-all-closed quit handler every action list and driver gives at most one quit |
| `MainRunner.UnhandledQuitsExactly` | internal/mainrunner/execute.go:231-260 | without one, quit is emitted twice exactly when the first close comes after an app.quit and the driver closes; never more |
| `MainRunner.QuitThenCloseQuitsTwice` | internal/mainrunner/execute.go:231-260 | the list app.quit, close with a willing driver emits quit twice |
| `MainRunner.ClosesOnce` | internal/mainrunner/execute.go:239-246 | the driver is asked to close at most once |
| `MainRunner.QuitsAreAnnounced` | internal/mainrunner/execute.go:231-260 | every quit comes right after before-quit and will-quit |
| `MainRunner.PlanClosesOnce` | internal/mainrunner/execute.go:47-162 | for every plan that starts, the driver is asked to close at most once and every quit is announced |
| `MainRunner.ParseDidFinishLoadActions` | internal/mainrunner/plan.go:352-381 | on the source text from the handler's name to the first load-start mark: marks, then set-immediate, emit-trace, close, quit, each exactly when its call is in that text; a missing handler and an empty list are refused |
| `MainRunner.FindsWhatIsWritten` | internal/mainrunner/plan.go:352-391 | each action is found exactly when its call occurs in the text from the first did-finish-load to the first load-start mark |
| `MainRunner.TailExactly` | internal/mainrunner/plan.go:364-376 | behind the marks come exactly the calls found, each once, in the fixed order |
| `MainRunner.TrimAfterLoadStartMark` | internal/mainrunner/plan.go:383-391 | the loop cuts at the least position of any marker |
| `MainRunner.TrimmedHasNoMark` | internal/mainrunner/plan.go:383-391 | no marker is left in what the cut keeps, and the cut is the end of the text or the first place of a marker |
| `MainRunner.ParsedQuitsOnce` | internal/mainrunner/plan.go:352-381 | every parsed plan quits at most once, with or without a handler |
| `MainRunner.ExecuteAction` | internal/mainrunner/execute.go:231-254 | one action's effect on app, window, calls and trace |
| `MainRunner.Execute` | internal/mainrunner/execute.go:47-162 | the interpreter on app and window objects gives the outcome of the plan, and when it succeeds exactly the calls of the plan's script |
| `MainRunner.SucceedsExactly` | internal/mainrunner/execute.go:47-162 | a run succeeds if and only if URL and window resolve, the driver can and does carry out every call and no action is unknown; it has then made exactly these calls: create of the page and a wait, or of a blank page, the script and the load of the page, then the close if asked for and the trace |
| `MainRunner.FailureTells` | internal/mainrunner/execute.go:47-162 | a failed run names what could not be resolved or done, or the error of its last, refused call |
| `MainRunner.ExecuteFastBenchmark` | internal/mainrunner/execute.go:164-215 | the fast path as it runs returns what the interpreter would |
| `Views.View.RemoveChildRef` | internal/view/view.go:214-223 | removes the first occurrence and says whether there was one |
| `Views.View.RemoveChild` | internal/view/view.go:180-187 | the child leaves the list and loses its parent; a view that is not in the list is left alone |
| `Views.View.AddChild` | internal/view/view.go:155-178 | the old children without the child, then the child at the index clamped after removal; every child sits in its parent's list once and nowhere else, other views are untouched, and the forest stays acyclic exactly when the child is no ancestor of the new parent |
| `Views.TwoViewCycle` | internal/view/view.go:155-178 | a view added to its own child: each is the other's parent and the forest is not acyclic |
| `Views.ReparentAcyclic` | internal/view/view.go:155-178 | giving a view a new parent keeps the forest acyclic if and only if the view is not above that parent |
| `Views.DetachAcyclic` | internal/view/view.go:180-187 | taking a parent away keeps the forest acyclic |
| `Views.WithoutInsertAt` | internal/view/view.go:155-178 | removing what was inserted gives the list back |
| `Views.InsertedAsAsked` | internal/view/view.go:155-178 | without an index or past the end the child goes last, with a negative one first, else to that place, the others in order |
| `MessagePort.EveryRunIsValid` | internal/ipc/router.go:136-202 | in every sequential run the accepted messages are the delivered, then the queued or dropped ones, in order; started means an empty queue; a handler heard what was delivered since it was added |
| `MessagePort.OpenPortLosesNothing` | internal/ipc/router.go:136-202 | until it is closed a port delivers or queues every message posted, in order |
| `MessagePort.EveryMessageIsPlaced` | internal/ipc/router.go:136-202 | in every run the messages that arrive before the first Close are delivered if Start came before it, else queued, and dropped by the Close; later ones are ignored |
| `MessagePort.ListenersAreListens` | internal/ipc/router.go:155-183 | in every run there is one handler for each OnMessage since the last Close |
| `MessagePort.ListenerHears` | internal/ipc/router.go:136-202 | the handler added by such a call is in its place and has heard exactly what was delivered since |
| `MessagePort.MessagePort.Start` | internal/ipc/router.go:136-153 | the queue goes to the handlers once |
| `MessagePort.MessagePort.OnMessage` | internal/ipc/router.go:155-162 | the new handler hears what is delivered from now on |
| `MessagePort.MessagePort.PostMessage` | internal/ipc/router.go:164-175 | succeeds exactly when this end is open; arrives exactly when the other end is |
| `MessagePort.MessagePort.Deliver` | internal/ipc/router.go:185-202 | dropped, queued or handed over |
| `MessagePort.MessagePort.Close` | internal/ipc/router.go:177-183 | the queue is dropped and the handlers are gone |
| `MessagePort.NewMessageChannel` | internal/ipc/router.go:58-64 | two new ports, each the other's peer |
| `MessagePortRace.EveryReachableState` | internal/ipc/router.go:136-202 | in every interleaving each posted message is in exactly one place: in transit, queued, in Start's batch, being delivered, delivered or dropped |
| `MessagePortRace.TakenIsDelivered` | internal/ipc/router.go:136-202 | a message past the lock is never dropped, even by a later Close |
| `MessagePortRace.NothingLeftBehind` | internal/ipc/router.go:136-202 | when nothing is under way, delivered and dropped are exactly the posted messages |
| `MessagePortRace.QueueOrderExactly` | internal/ipc/router.go:136-202 | in every interleaving what Start took is delivered first and in queue order if and only if no message is handed over directly while the batch lasts |
| `MessagePortRace.ArrivalOrderExactly` | internal/ipc/router.go:136-202 | in every interleaving messages are delivered in the order in which they got past the lock if and only if each is handed over in turn |
| `MessagePortRace.BatchCanBeOvertaken` | internal/ipc/router.go:136-153 | a run in which a later message is delivered before a queued one |
| `IpcRouter.OnceMeansOnce` | internal/ipc/router.go:91-134 | in every run a handle-once registration is handed out at most once |
| `IpcRouter.ChannelsAreIndependent` | internal/ipc/router.go:66-134 | in every run each channel is bound to the handler and the once flag that the calls on it alone say |
| `IpcRouter.HandsOutTheBound` | internal/ipc/router.go:109-134 | the handlers handed out are the bound ones, in the order of the calls |
| `IpcRouter.RefusedExactly` | internal/ipc/router.go:91-134 | what each call is refused for, from the calls before it |
| `IpcRouter.Router.HandleWith` | internal/ipc/router.go:91-107 | registers on a free channel; an empty channel, a missing handler or a taken channel is refused |
| `IpcRouter.Router.RemoveHandler` | internal/ipc/router.go:78-82 | the channel is free afterwards |
| `IpcRouter.Router.TakeHandler` | internal/ipc/router.go:109-134 | the handler of the channel, removed when registered once |
| `CookieStore.JournalRebuildsCookies` | internal/session/session.go:157-227 | after any run of set, delete and clear, in any iteration order, replaying the journal from nothing gives the cookie map; every removal names the cookie then present; every key is the key of its cookie |
| `CookieStore.OrderDoesNotMatter` | internal/session/session.go:185-190 | removing in any order leaves the same cookies |
| `CookieStore.KeyIsInjective` | internal/session/session.go:261-263 | without NUL in domains and paths, keys agree exactly when domain, path and name do |
| `CookieStore.KeyStandsForOnePlaceExactly` | internal/session/session.go:261-263 | only cookies of the same domain, path and name share a cookie's key, if and only if none of the three holds a NUL |
| `CookieStore.OverwrittenExactly` | internal/session/session.go:157-169 | a stored cookie free of NUL is overwritten by exactly the cookies of its own domain, path and name |
| `CookieStore.NulMakesKeysCollide` | internal/session/session.go:157-169 | two cookies that SetCookie accepts, of different names and paths, the second of which overwrites the first |
| `CookieStore.NormalizeTwice` | internal/session/session.go:237-259 | a normalized cookie normalizes to itself exactly when its domain was not blanks only |
| `CookieStore.AcceptsExactly` | internal/session/session.go:237-259 | a cookie is accepted exactly with a name that is not blank and holds no separator, a URL with a host, and https when secure; what it becomes |
| `CookieStore.DeletesExactly` | internal/session/session.go:179-192 | a delete reaches exactly the cookies of its name whose domain is its host, or a dot and its host, up to case |
| `CookieStore.ClearsExactly` | internal/session/session.go:206-220 | a clear reaches every cookie, or those whose domain stands for the host of some origin |
| `CookieStore.DeleteNeeds` | internal/session/session.go:179-184 | a delete needs a URL with a host and a name that is not blank, and addresses that host in lower case |
| `CookieStore.OriginsNeed` | internal/session/session.go:206-214 | every origin must parse, with a scheme and a host |
| `CookieStore.WantsExactly` | internal/session/session.go:272-283 | cookies are meant when nothing is named or the word cookies is, in any case and with blanks around |
| `CookieStore.OwnDeleteReaches` | internal/session/session.go:157-192 | a cookie set for the host of its URL is reached by a delete there exactly when that host does not begin with a dot |
| `CookieStore.SetThenDelete` | internal/session/session.go:157-192 | after setting and deleting it, exactly the cookies of other keys and of other names or hosts are left, as they were |
| `CookieStore.Session.SetCookie` | internal/session/session.go:157-169 | stores the normalized cookie and records the overwritten one first; fails exactly when it does not normalize |
| `CookieStore.Session.DeleteCookie` | internal/session/session.go:179-192 | exactly the cookies of that name and host go |
| `CookieStore.Session.ClearStorageData` | internal/session/session.go:206-227 | cookies go when asked for, those of the origins if any are given, and the options are recorded without quotas; an invalid origin changes nothing |
| `History.RunRefines` | internal/webcontents/webcontents.go:94-192 | in every run history and index are a two-stack browser history with the same event log |
| `History.RunsFromBlank` | internal/webcontents/webcontents.go:66-72 | from a new webContents every run is that of an empty browser; the page shown is the one at the index, none before the first; it is never left loading |
| `History.BackAndForwardAgain` | internal/webcontents/webcontents.go:149-167 | any number of steps back and as many forward is the identity |
| `History.ForwardAndBackAgain` | internal/webcontents/webcontents.go:149-167 | as many forward as pages are ahead, and as many back, is the identity too |
| `History.EveryLogIsOk` | internal/webcontents/webcontents.go:94-139 | in every run a load goes on exactly where no handler prevents it, and then through all its events in order |
| `History.LogCountsMoves` | internal/webcontents/webcontents.go:94-167 | in every run the log counts what happened to the pages: loads, navigations, in-page ones, failures |
| `History.WebContents.LoadURL` | internal/webcontents/webcontents.go:94-115 | the whole new state, for every choice of the handlers |
| `History.WebContents.NavigateWithin` | internal/webcontents/webcontents.go:117-126 | commits without the cancellable events |
| `History.WebContents.Fail` | internal/webcontents/webcontents.go:128-139 | three events and no navigation |
| `History.WebContents.GoBack` | internal/webcontents/webcontents.go:149-157 | succeeds exactly when a page is behind |
| `History.WebContents.GoForward` | internal/webcontents/webcontents.go:159-167 | succeeds exactly when a page is ahead |
| `History.WebContents.CommitNavigation` | internal/webcontents/webcontents.go:185-192 | cuts the forward part and appends |
| `CommandLine.Tokenize` | tools/benchmarks/main.go:803-854 | the loop computes the split the lemmas are about |
| `CommandLine.SplitUndoesPrint` | tools/benchmarks/main.go:803-854 | quoting every argument and joining with spaces splits back to the list, empty arguments included |
| `CommandLine.SplitsAsWritten` | tools/benchmarks/main.go:803-854 | arguments written with any mixture of plain, escaped and quoted parts, with any blanks between, before and behind them, split to what they mean |
| `CommandLine.SplitOfTwo` | tools/benchmarks/main.go:803-854 | a command that splits, a space and another: both lists, or the second's error |
| `CommandLine.FailsExactly` | tools/benchmarks/main.go:841-848 | fails exactly when the input ends in an odd number of backslashes or leaves a quote open once escapes are taken out |
| `Versions.ZeroMeansSame` | internal/upstream/releasecheck.go:304-348 | compare is zero exactly when the zero-padded parts agree |
| `Versions.Transitive` | internal/upstream/releasecheck.go:304-327 | the order is transitive, strictly if either step is |
| `Versions.PreReleaseIsEqual` | internal/upstream/releasecheck.go:329-348 | a pre-release compares equal to its release |
| `Versions.ReadUndoesPrint` | internal/upstream/releasecheck.go:329-348 | printed numbers read back, with blanks around, a v in front or a tag behind |
| `Versions.ComparesNumbers` | internal/upstream/releasecheck.go:304-327 | printed versions compare as their numbers do |
| `Versions.ComparesAsWritten` | internal/upstream/releasecheck.go:304-327 | versions that agree before a number compare as that number does; zeros at the end make no difference |
| `Versions.WithoutDigitsIsZero` | internal/upstream/releasecheck.go:334-346 | a part without a digit counts as zero |
| `Versions.StableExactly` | internal/upstream/releasecheck.go:268-285 | a version without a tag is stable exactly when it has three parts and each is a number |
| `Versions.TaggedIsNotStable` | internal/upstream/releasecheck.go:268-285 | with a tag it is not |
| `Versions.CompleteExactly` | internal/upstream/releasecheck.go:255-266 | the core versions are complete when each holds something other than blanks |
| `Versions.CompareVersions` | internal/upstream/releasecheck.go:304-327 | the loop decides the lexicographic order of the zero-padded parts |
| `Versions.ReadParts` | internal/upstream/releasecheck.go:329-348 | the parts, with 0 for what is empty or not a 64-bit number |
| `Versions.ParseLatestStable` | internal/upstream/releasecheck.go:103-138 | the first of the greatest stable records; no candidate exactly when none is stable |
| `Versions.CompareReleases` | internal/upstream/releasecheck.go:140-176 | lists exactly the components that differ, in order; stale exactly when some component of the target is older |
| `Switches.AppendCEFBrowserProcessSwitches` | internal/native/cef_linux.go:368-393 | the given arguments stay in front, every default is named afterwards, and a second call adds nothing |
| `Switches.AppendSwitches` | internal/native/cef_linux.go:368-393 | with the shortcut for no known switch, the same result as the general loop on every input |
| `Switches.MergeCompletes` | internal/native/cef_linux.go:368-393 | nothing is added that was named before, and no command line becomes a subprocess one |
| `Switches.AddsFromTable` | internal/native/cef_linux.go:368-393 | what is added comes from the table, or is the path switch with the given executable, last |
| `Switches.MergeIsIdempotent` | internal/native/cef_linux.go:368-393 | merging twice is merging once, for every separated table |
| `Switches.DefaultsAreSeparated` | internal/native/cef_linux.go:41-58 | no default is read as another one, as the path switch or as a process type |
| `Switches.CefSwitchName` | internal/native/cef_linux.go:414-424 | the path switch, else the first switch of the table that the argument names |
| `Switches.PresentCEFSwitches` | internal/native/cef_linux.go:399-412 | exactly the known switches that some argument names |
| `Switches.IsCEFSubprocessArgs` | internal/native/bridge.go:167-174 | whether some argument names the process type |
| `Accelerators.ParseAccelerator` | internal/globalshortcut/accelerator.go:13-50 | the loop computes the parse the lemmas are about |
| `Accelerators.ParsesToExactly` | internal/globalshortcut/accelerator.go:13-50 | parsing produces exactly the well-formed accelerators |
| `Accelerators.ParseUndoesPrint` | internal/globalshortcut/accelerator.go:52-60 | parsing what String prints gives the accelerator back |
| `Accelerators.ParseIsStable` | internal/globalshortcut/accelerator.go:13-60 | the canonical spelling of any accepted spelling parses to the same accelerator |
| `Accelerators.PrintIsInjective` | internal/globalshortcut/accelerator.go:52-60 | different accelerators print differently |
| `Accelerators.SpellingsShare` | internal/globalshortcut/registry.go:136-142 | two spellings share a registration exactly when modifier sequence and key agree |
| `Accelerators.ModifierIsItself` | internal/globalshortcut/accelerator.go:62-81 | each canonical modifier name is read as that modifier |
| `Accelerators.ReadsWordsExactly` | internal/globalshortcut/accelerator.go:62-81 | a token is a modifier exactly when it is one of its words, in any case and with spaces anywhere |
| `Accelerators.SpacesAndCase` | internal/globalshortcut/accelerator.go:62-63 | a space anywhere in a token changes nothing about the word it is read as |
| `Accelerators.KeysFoldLetters` | internal/globalshortcut/accelerator.go:83-88 | a letter is the same key in either case, a longer key is kept as it is |
| `Accelerators.MissingExactly` | internal/globalshortcut/accelerator.go:13-17 | nothing but blanks is refused as missing, whatever else does not parse as invalid |
| `Accelerators.Registry.Register` | internal/globalshortcut/registry.go:28-45 | only the parsed accelerator changes, and only if it was free |
| `Accelerators.Registry.IsRegistered` | internal/globalshortcut/registry.go:64-73 | whether the accelerator has a callback |
| `Accelerators.Registry.Unregister` | internal/globalshortcut/registry.go:75-83 | only the parsed accelerator loses its callback |
| `Accelerators.Registry.UnregisterAll` | internal/globalshortcut/registry.go:85-89 | none is left |
| `Accelerators.Registry.Trigger` | internal/globalshortcut/registry.go:103-124 | handled exactly when registered; the callback runs unless suspended |
| `Text.SplitJoin` | internal/globalshortcut/accelerator.go:19-60 | splitting at a separator undoes joining pieces without it |
| `Text.ParseIntSigned` | internal/upstream/releasecheck.go:341-346 | a printed number with a sign in front is read with that sign |

## Left out

- AsarNames.OpenRestoresWrite: takes the JSON layer as a codec that carries the written tree; JSON text itself is not modelled, nor are file errors and the ".asar" suffix check.
- AsarHeader.LookInsert: the header tree is a value, while the source changes it through pointers; aliasing inside the tree does not arise there and is not captured.
- Asar: ResolveModule, CopyFileSource, Split and NewArchive, and entry modes, which Write never sets.
- Dispatcher.ReachableInv: goroutines and channels are interleaved atomic steps, not Go objects; policies, payload limits, the handlers map, Invoke's context errors and time are not part of it.
- CefShim.EveryRunKeepsInv: references that CEF hands back from create, get_host and get_main_frame are not counted, and a callback that CEF fires inside close_browser is a later event.
- CefShim: null pointers in requests, ABI revisions, the contents of the settings and the static handler structures; Darwin code and the stubs.
- ProcessTree: reading /proc, the sampler's clock and the classification of a CEF process, which is a parameter.
- Lifecycle: handlers that call back into the app, except quitApp; registering handlers during a run.
- Windows: enabled and title, which nothing else depends on.
- MainRunner.ParseDidFinishLoadActions: the regular expression for mark calls is a parameter; the other parts of a plan are not read from source text.
- MainRunner: durations in the trace, and the collected event list of a report; driver answers do not depend on AutoCloseOnLoad.
- Views: bounds, blur, colour and events of a view.
- MessagePort.MessagePort.PostMessage: transferred ports are data.
- MessagePortRace: which handlers hear a message; that is in MessagePort.
- CookieStore: url.Parse is a parameter; permissions, partitions and expiry.
- History: DevTools targets and printing.
- Versions: JSON, HTTP and the release URL template; isVersionLike.
- Switches.AppendCEFBrowserProcessSwitches: the executable path is a parameter, empty when it cannot be found.
- Accelerators: Unicode case mapping; RegisterAll, which only calls Register, and the trigger hook.
- Benchmark tool: alternatingSchedule, the medians and the report, which would add easy members only.
- Packages that only validate options or toggle a flag.
