# Selenium IDE in-page recorder: event capture, frame address, record messages

This project models the core of `packages/selenium-ide/src/content/record-api.js`.
That file is the part of the Selenium IDE content script that runs inside a page. It has three pieces:

- **The event-handler table and the `Recorder`.** `Recorder.addEventHandler` files each handler in a
  static table. The key is the event name, prefixed with `C_` for a capture-phase handler.
  `parseEventKey` decodes a key back into an event name and a capture flag.
  A `Recorder` has an `attached` flag and an `eventListeners` map. `attach` installs every handler of
  the table on the window's document and remembers what it installed. `detach` removes exactly that
  and resets the recorder.
- **The frame address.** When the script loads, `getframeLocation` walks from the window up through
  `parent` to `top`. It builds `root`, followed by one `:idx` per nesting level, where `idx` is the
  window's position in its parent's `frames`.
- **The record channel.** `record` builds the message sent to the coordinator: the frame address
  defaults to the cached one, and the tab id is always -1. Three inbound handlers act only on a truthy
  `showElement`, `attachRecorder` or `detachRecorder` field. Which handlers are registered depends on
  the window's `_recordListener` marker.

The model has these modules:

- `EventKeys` holds the key codec, as pure functions.
- `Dom` holds handler objects and a document whose listener registry is a set of
  (type, handler, capture) triples.
- `Recorders` holds the table as a class with a map field, and `Recorder` as a class with `modifies`
  methods and the source's loops.
- `FrameLocator` holds the window tree as a value. It has a fuel-indexed reference walk, `WalkUp`,
  and the walk method `GetFrameLocation` with the source's `while` and `for` loops.
- `RecordingChannel` holds the payload.
- `MessageHandlers` holds the guards, registration by marker, and delivery.

A window missing from its parent's non-empty `frames` is never found, so `currentWindow` never changes
and the `while` loop never ends. `ScanFrames`, the model of the `for` loop, leaves the window and the
suffix unchanged in that case. `WalkUp` returns `Spins` for it (`MissingFrameSpins`), and
`GetFrameLocation` requires a walk that ends.

## Model

| member | source | states |
|---|---|---|
| `EventKeys.EventKey` | packages/selenium-ide/src/content/record-api.js:33-34 | a capturing handler's key is `C_` followed by the event name; any other handler's key is the event name itself |
| `EventKeys.ParseEventKey` | packages/selenium-ide/src/content/record-api.js:41-47 | the capture flag is true exactly when the key starts with `C_`; re-encoding the decoded name and flag gives back the key, for every key |
| `EventKeys.ParseEventKeyInvertsEventKey` | packages/selenium-ide/src/content/record-api.js:34-47 | decoding the key built at line 34 gives back (eventName, capture) if and only if the handler is capturing or its event name does not start with `C_` |
| `EventKeys.CapturePrefixCollision` | packages/selenium-ide/src/content/record-api.js:34-43 | a bubbling handler for `C_x` gets the same key as a capturing handler for `x`, and its key decodes as (`x`, capture) |
| `Dom.Document.AddEventListener` | packages/selenium-ide/src/content/record-api.js:59 | installing a triple adds it to the document's listener set; adding one already there changes nothing |
| `Dom.Document.RemoveEventListener` | packages/selenium-ide/src/content/record-api.js:73 | removing a triple takes exactly that (type, handler, capture) out of the set; removing an absent one changes nothing |
| `Recorders.EventHandlerTable.constructor` | packages/selenium-ide/src/content/record-api.js:30 | the static table starts empty |
| `Recorders.EventHandlerTable.AddEventHandler` | packages/selenium-ide/src/content/record-api.js:31-39 | tags the handler with its name, then appends it at the end of the list under `C_`+eventName when options is truthy and under eventName otherwise, creating the list when absent; every other key and every earlier entry is unchanged |
| `Recorders.InstalledMembers` | packages/selenium-ide/src/content/record-api.js:51-59 | a triple is installed from a table exactly when some key's list holds its handler and the key decodes to its name and capture flag |
| `Recorders.RegisteredHandlerIsInstalled` | packages/selenium-ide/src/content/record-api.js:34-59 | a handler filed for (eventName, capture) is installed as exactly that triple, unless it is a bubbling handler for a `C_` name |
| `Recorders.Recorder.constructor` | packages/selenium-ide/src/content/record-api.js:24-28 | a new recorder is detached and tracks no listeners |
| `Recorders.Recorder.InstallTable` | packages/selenium-ide/src/content/record-api.js:51-62 | the loop over the table's keys installs exactly the triples decoded from the table and tracks every key's list, leaving `attached` alone |
| `Recorders.Recorder.InstallKey` | packages/selenium-ide/src/content/record-api.js:56-61 | installs every handler under one key with the decoded name and capture flag, and tracks the same list under that key |
| `Recorders.Recorder.Attach` | packages/selenium-ide/src/content/record-api.js:49-65 | on an attached recorder it changes nothing, neither the recorder nor the document; otherwise `eventListeners[k]` equals the table's list for every table key, the document gains exactly the triples decoded from the table, and the recorder is attached |
| `Recorders.Recorder.Detach` | packages/selenium-ide/src/content/record-api.js:67-78 | removes from the document exactly the triples decoded from `eventListeners`, with the capture flag used at install time; afterwards `eventListeners` is empty and the recorder is detached |
| `Recorders.AttachTwice` | packages/selenium-ide/src/content/record-api.js:49-64 | attaching twice installs each handler once: the same state as a single attach |
| `Recorders.AttachThenDetach` | packages/selenium-ide/src/content/record-api.js:49-78 | attach followed by detach takes off exactly what attach put on; if none of the table's triples was registered before, the document is back to its original listeners |
| `Recorders.DetachWhenDetached` | packages/selenium-ide/src/content/record-api.js:67-78 | detach on a detached recorder, initially or a second time, leaves the document unchanged |
| `FrameLocator.WalkUp` | packages/selenium-ide/src/content/record-api.js:111-125 | the reference walk: from `top` it collects nothing; a walk that ends collects at most one index per parent step allowed |
| `FrameLocator.WalkUpStep` | packages/selenium-ide/src/content/record-api.js:114-124 | a walk that ends and goes on past a window below `top` finds that window in its parent's non-empty frames, and its indices are the parent's followed by the window's first position |
| `FrameLocator.ScanFrames` | packages/selenium-ide/src/content/record-api.js:119-124 | the `for` loop: at the first position holding the window it prepends `:idx` and moves to the parent; when the window is missing it falls through with the window and the suffix unchanged |
| `FrameLocator.IndexOf` | packages/selenium-ide/src/content/record-api.js:119-124 | the index found is the first position at which the window appears in its parent's `frames` |
| `FrameLocator.GetFrameLocation` | packages/selenium-ide/src/content/record-api.js:111-127 | when the walk ends, the address is `"root"` followed by one `:idx` per step of the reference walk `WalkUp`, ordered top-down |
| `FrameLocator.NatToStringValue` | packages/selenium-ide/src/content/record-api.js:121 | the decimal text that `":" + idx` produces denotes idx |
| `FrameLocator.NatToString` | packages/selenium-ide/src/content/record-api.js:121 | the decimal text is non-empty, all digits, and starts with `0` only for 0 (no leading zero) |
| `FrameLocator.AddressRoundTrip` | packages/selenium-ide/src/content/record-api.js:121-126 | every rendered address has the form `root(:digits)*` and spells exactly its list of indices |
| `FrameLocator.WalkCollects` | packages/selenium-ide/src/content/record-api.js:114-125 | a walk that takes k steps, finding the window in each parent's frames, and stops at `top` or at a parent without frames, collects k indices; read from the end, the j-th is the j-th ancestor's position in its parent's frames |
| `FrameLocator.NestedAddress` | packages/selenium-ide/src/content/record-api.js:111-127 | on a well-formed tree of depth d (the chain reaches `top`, and every window is in its parent's frames) the address has exactly d index segments, each the window's position in its parent's frames, top-down |
| `FrameLocator.TopIsRoot` | packages/selenium-ide/src/content/record-api.js:114-126 | the top window's address is `"root"` |
| `FrameLocator.EarlyBreakKeepsSuffix` | packages/selenium-ide/src/content/record-api.js:116-118 | when the walk meets a parent with no frames after k steps, it stops and keeps exactly the k indices already accumulated (`WalkCollects` for a walk that stops below `top`) |
| `FrameLocator.MissingFrameSpins` | packages/selenium-ide/src/content/record-api.js:119-125 | a window missing from its parent's non-empty frames makes the source loop forever, whatever fuel is given |
| `FrameLocator.SecondChildOfTop` | packages/selenium-ide/src/content/record-api.js:111-127 | a frame at index 1 of the top window's frames has address `"root:1"` |
| `RecordingChannel.Record` | packages/selenium-ide/src/content/record-api.js:137-146 | the payload echoes command, target, value and insertBeforeLastCommand; it uses the override unless that is null or undefined, and the cached `frameLocation` otherwise; `commandSideexTabId` is always -1 |
| `RecordingChannel.RecordReportsOwnFrame` | packages/selenium-ide/src/content/record-api.js:126-145 | with no override, the recorded frame address parses back to the frame's own index path |
| `RecordingChannel.EmptyOverrideWins` | packages/selenium-ide/src/content/record-api.js:143 | an empty-string override is used, because the loose `!= undefined` test lets it through |
| `MessageHandlers.StartShowElement` | packages/selenium-ide/src/content/record-api.js:81-86 | replies exactly when `showElement` is truthy, and the reply carries the highlight capability's result for `targetValue` |
| `MessageHandlers.AttachRecorderHandler` | packages/selenium-ide/src/content/record-api.js:88-92 | calls attach exactly when `attachRecorder` is truthy |
| `MessageHandlers.DetachRecorderHandler` | packages/selenium-ide/src/content/record-api.js:94-98 | calls detach exactly when `detachRecorder` is truthy |
| `MessageHandlers.RegisteredListeners` | packages/selenium-ide/src/content/record-api.js:100-108 | without the `_recordListener` marker only the show-element listener is registered; with it, exactly the attach and detach listeners, in that order |
| `MessageHandlers.Dispatch` | packages/selenium-ide/src/content/record-api.js:103-107 | a reply comes exactly when a show-element listener is registered and `showElement` is truthy, and it is that listener's reply; attach or detach is called exactly when its listener is registered and its flag is truthy |
| `MessageHandlers.InjectorWindowOnlyHighlights` | packages/selenium-ide/src/content/record-api.js:100-103 | in a window without the `_recordListener` marker, no message reaches the recorder, and a reply comes exactly for `showElement` messages, carrying the highlight result |
| `MessageHandlers.RecorderWindowOnlyAttachesAndDetaches` | packages/selenium-ide/src/content/record-api.js:104-108 | in a window with the marker, no message gets a reply, and the recorder sees attach, then detach, according to the two flags |
| `MessageHandlers.ShowElementNeverAttaches` | packages/selenium-ide/src/content/record-api.js:81-108 | a message without the attach or detach flags causes no recorder call in either kind of window |
| `MessageHandlers.OnRecorderMessage` | packages/selenium-ide/src/content/record-api.js:88-108 | an attach message attaches a detached recorder and is a no-op on an attached one; a detach message removes the tracked triples and clears it; with both flags, attach runs and then detach, so the document loses the table's triples (or the tracked ones, if already attached) and the map is empty; any other message changes nothing |

## Left out

- Message transport: `browser.runtime.sendMessage` and `onMessage.addListener` (lines 103, 106-107, 129, 138) are fire-and-forget I/O. `Record` builds the payload but does not send it. The one-shot `{frameLocation}` announcement at line 129 is not modelled.
- `selenium["doShowElement"]` lives in `./commands-api`, which is not part of this model. It is a function parameter of `StartShowElement`. The `Promise` wrapping of its reply is left out.
- Globals: the assignments to `window` (lines 102, 132-134, 148) are left out. The `_recordListener` marker is a boolean that chooses the registered listeners.
- The Recorder keeps only `window.document` (as `document`). The window object itself is not modelled.
- `options` in `addEventHandler` is modelled by its truthiness. Any truthy value, even an object such as `{capture: false}`, selects the `C_` key, just as in the source.
- Object property lookup: the table is a plain map. Keys inherited from `Object.prototype`, such as `"constructor"`, which would make `!this.eventHandlers[key]` false, are not modelled.
- Order: `for...in` key order is an arbitrary choice of the next key. The document's registry is a set, so the order in which the DOM calls listeners is not modelled.
- A detached or missing document is not modelled: every install and removal takes effect.
- Message-handler call order: `OnRecorderMessage` and `Dispatch` assume the transport calls its listeners in registration order.
- GetFrameLocation: its termination is a precondition. The walk must end within the ghost fuel, and the window must be found in every non-empty parent frame list. The case where the source loops forever is exposed by `WalkUp` returning `Spins`, and is excluded from `GetFrameLocation` by its precondition. A parent chain that never reaches `top` shows up only as `OutOfFuel`.
- Window identity (`===`) is modelled as equality of window ids.
