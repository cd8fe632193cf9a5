# Display-unit presenter of the iosNative demo app

The demo app's `ViewController` receives "display units" from the CleverTap SDK. A display unit is a remotely delivered record with an optional identifier and optional contents, and each content item has an optional media URL. The controller collects the image URLs of the units that carry an identifier into `imageURLs`. It remembers the latest unit and the tracked identifier. It then queues one main-queue task per identified unit. When a task runs, it shows the single image view for one URL or the horizontal carousel for more, leaves both views as they are when there is none, and reports one impression for its unit. The carousel's data source serves `imageURLs`. Two handlers report clicks: selecting a carousel item and tapping the single image.

The model has three files:

- `display_units.dfy`, module `DisplayUnits`. The data model: `DisplayUnit`, `Content`, the analytics `Event` (`Viewed` / `Clicked`) and the `Visibility` of the two image views. It also holds the specification functions and the lemmas about them:
  - `CollectedUrls`: the URL list a delivery leaves.
  - `ImpressionIDs`: the identifiers of the queued tasks.
  - `LatestUnit`, `LastUnitID`: the two remembered fields.
  - `TaskVisibility`, `AfterTasks`: what one task, and k tasks, do to the views.
  - `SelectClick`, `TapClick`: what each click handler reports.
- `presenter.dfy`, module `Presenter`. The class `ViewController` with the three source fields (`latestDisplayUnit`, `imageURLs`, `displayUnitID`) and the observable effects:
  - `mainQueue`: the main dispatch queue, as the identifiers captured by the tasks not yet run, oldest first.
  - `events`: the analytics log.
  - the two `isHidden` flags.
  - the URLs the single image view was asked to load.
  - the number of carousel reloads.

  Each operation is a method whose `ensures` gives the new state as a function of the old state and the input. `DrainMainQueue` runs the queued tasks in order, each against the state as it is when it runs, so every task of a delivery reads the final `imageURLs`. The body of the delivery loop (`for unit in displayUnits`) is the separate method `ReceiveUnit`. Its inner loop (`for content in contents`) is the method `AppendMediaUrls`. A reused carousel cell is the class `Cell`.
- `scenarios.dfy`, module `Scenarios`. Client methods that replay concrete deliveries, task runs and clicks using only the contracts.

The class predicate `TracksLatest()` says that whenever the latest unit has an identifier, it is the tracked identifier. The constructor sets it up and every delivery keeps it, so whenever the tap reports a click, it is the click a carousel selection would report.

The model keeps these details of the code:

- The tracked `displayUnitID` is the identifier of the last unit that has one, whether or not that unit has images. It is never cleared.
- Only absent (`nil`) media URLs are skipped. An empty string is appended like any other URL.
- URLs are collected only from units that carry an identifier.
- A URL count of 0 has no branch, so it leaves both views as they were. The code has no explicit "none" mode.
- Impressions are not reported during the delivery. They are reported by the queued main-queue tasks, one per identified unit, in input order.
- Each task with one URL asks the single image view to load `imageURLs[0]` again. Each task with more URLs reloads the carousel again.
- The single-image tap reports a click for `latestDisplayUnit.unitID`, while a carousel selection reports `displayUnitID`. Whenever the latest unit has an identifier, the two are the same. If the last delivered unit has no identifier, the tap reports nothing while a carousel selection still reports the older tracked identifier.
- A cell request for an index past the end of `imageURLs` is allowed. The code guards it and loads nothing.

## Model

| member | source | states |
|---|---|---|
| `Presenter.ViewController.constructor` | ios_int2/ViewController.swift:24-67 | nothing delivered yet (no latest unit, no URLs, no tracked ID), nothing queued or reported, carousel hidden; the latest unit's ID, if any, is the tracked ID |
| `Presenter.ViewController.DisplayUnitsUpdated` | ios_int2/ViewController.swift:80-122 | the URL list becomes `CollectedUrls(units)`, with earlier URLs discarded; the latest unit becomes the last unit (unchanged for an empty delivery); the tracked ID becomes `LastUnitID`; one task per identified unit is appended to the main queue in input order; no other field changes; afterwards the latest unit's ID, when it has one, is the tracked ID (for an empty delivery, if it was before) |
| `Presenter.ViewController.ReceiveUnit` | ios_int2/ViewController.swift:87-120 | the unit becomes the latest; when it has an ID, that ID is tracked, the unit's present media URLs are appended and one task is queued for it; a unit without an ID changes nothing else |
| `Presenter.ViewController.AppendMediaUrls` | ios_int2/ViewController.swift:95-100 | appends exactly the present media URLs of the contents, in order, and changes nothing else |
| `Presenter.ViewController.RunMainQueueTask` | ios_int2/ViewController.swift:103-119 | with one URL: single view shown, carousel hidden, `imageURLs[0]` loaded; with more: carousel shown, single view hidden, one reload; with none: views unchanged; then exactly one impression for the captured ID |
| `Presenter.ViewController.DrainMainQueue` | ios_int2/ViewController.swift:103-119 | the queue empties; one impression per queued ID in FIFO order; visibility is `AfterTasks` over the current URL count; one single-image load of `imageURLs[0]` per task when the count is 1, one reload per task when it is above 1 |
| `Presenter.ViewController.NumberOfItemsInSection` | ios_int2/ViewController.swift:128-130 | the carousel's item count is the length of the URL list |
| `Presenter.ViewController.CellForItemAt` | ios_int2/ViewController.swift:143-161 | the cell's old image views are replaced by exactly one, which requests `imageURLs[item]` if and only if `item` is in range and requests nothing otherwise |
| `Presenter.ViewController.DidSelectItemAt` | ios_int2/ViewController.swift:172-178 | exactly one click for the tracked ID when it is set, nothing otherwise; the item does not affect which ID is reported |
| `Presenter.ViewController.NativeDisplayTapped` | ios_int2/ViewController.swift:186-194 | exactly one click for the latest unit's own ID when both exist, nothing otherwise |
| `DisplayUnits.MediaUrlsAppend` | ios_int2/ViewController.swift:95-100 | collecting the media URLs of two runs of content items gives the first run's URLs followed by the second's |
| `DisplayUnits.MediaUrlsMembership` | ios_int2/ViewController.swift:95-99 | a URL (the empty string included) is collected if and only if some content item has it as its present media URL |
| `DisplayUnits.MediaUrlsLength` | ios_int2/ViewController.swift:95-99 | each item contributes at most one URL; the count equals the item count if and only if no media URL is absent |
| `DisplayUnits.CollectedUrlsAppend` | ios_int2/ViewController.swift:84-100 | the URL list of a concatenated delivery is the concatenation of the two lists, so the units contribute in input order |
| `DisplayUnits.CollectedUrlsSnoc` | ios_int2/ViewController.swift:86-100 | one more unit extends the list by exactly that unit's URLs |
| `DisplayUnits.CollectedUrlsMembership` | ios_int2/ViewController.swift:84-100 | a URL is in the final list if and only if some identified unit has a content item carrying it; absent contents count as empty |
| `DisplayUnits.CollectedUrlsSkipsAnonymous` | ios_int2/ViewController.swift:89-100 | inserting a unit without an ID anywhere in a delivery leaves the URL list unchanged |
| `DisplayUnits.ImpressionIDsAppend` | ios_int2/ViewController.swift:89-119 | the queued IDs of a concatenated delivery are the two deliveries' IDs in order |
| `DisplayUnits.ImpressionIDsSnoc` | ios_int2/ViewController.swift:89-103 | one more unit queues exactly one ID when it has one and none otherwise |
| `DisplayUnits.ImpressionIDsMembership` | ios_int2/ViewController.swift:89-117 | an ID gets an impression if and only if some delivered unit carries it |
| `DisplayUnits.ImpressionIDsIgnoreContents` | ios_int2/ViewController.swift:89-117 | impressions depend only on the units' IDs, not on whether the units have images |
| `DisplayUnits.LastUnitIDSnoc` | ios_int2/ViewController.swift:89-90 | one more unit replaces the tracked ID with its own when it has one and keeps it otherwise |
| `DisplayUnits.LastUnitIDWithoutIdentified` | ios_int2/ViewController.swift:89-90 | when no delivered unit has an ID, the tracked ID keeps its prior value |
| `DisplayUnits.LastUnitIDIsLastIdentified` | ios_int2/ViewController.swift:86-90 | when unit k has an ID and every later unit has none, the tracked ID is unit k's |
| `DisplayUnits.LastUnitIDNeverCleared` | ios_int2/ViewController.swift:89-90 | once set, no delivery clears the tracked ID |
| `DisplayUnits.LastUnitIDFromImpressions` | ios_int2/ViewController.swift:89-117 | the tracked ID is the last queued impression ID of the delivery, and the prior value when none is queued |
| `DisplayUnits.AfterTasksByCount` | ios_int2/ViewController.swift:103-114 | after k >= 1 tasks: count 1 shows only the single view, count above 1 shows only the carousel; count 0, or no task, leaves visibility unchanged |
| `DisplayUnits.AfterTasksSameAsOne` | ios_int2/ViewController.swift:103-114 | running the task k >= 1 times has the same visibility effect as running it once |
| `DisplayUnits.ClickHandlersAgree` | ios_int2/ViewController.swift:172-193 | after a non-empty delivery, the two handlers report the same clicks if and only if the last unit has an ID or no ID is tracked; an anonymous last unit silences the tap |
| `DisplayUnits.DeliveryTracksLatest` | ios_int2/ViewController.swift:86-90 | after a non-empty delivery, and after an empty one that starts from such a state, the latest unit's ID, when it has one, is the tracked ID |
| `DisplayUnits.TapClickIsSelectClick` | ios_int2/ViewController.swift:172-193 | in such a state, a tap that reports a click reports the same click as a carousel selection; the handlers differ only when the tap reports nothing and an ID is tracked |

## Left out

- `ios_int2/AppDelegate.swift` is not part of this model. It only initialises the SDK, requests push permission, registers for notifications and forwards payloads to the SDK.
- `NotificationService/NotificationService.swift` is not part of this model. It passes notification requests straight to the SDK's service extension.
- The event buttons (`Native_Button`, `inApp`, `event`, `pushevent`) are left out. Each only records a constant event name with the SDK.
- The inbox button's style configuration and presentation are left out. They are UI configuration and SDK calls.
- The fixed `onUserLogin` profile is left out.
- `viewDidLoad`'s delegate registration and the collection-view layout are left out. The layout is UIKit geometry. Only its effect on the initial state, a hidden carousel, is in the constructor.
- Image loading and caching by SDWebImage, and `URL(string:)` parsing, are left out. A load is modelled as the URL string that was requested.
- `print` logging is left out.
- Real threading and GCD are left out. The main queue is a FIFO of pending tasks that runs only when `DrainMainQueue` is called, so no task interleaves with a delivery.
- The optional SDK instance (`CleverTap.sharedInstance()?`) is assumed present. With no instance, the events would be dropped.
- The `section` parameter of the item count is ignored, as in the code. The collection view's own reaction to `reloadData` (asking for cells again) belongs to UIKit; each such request is a separate `CellForItemAt` call.
- `Presenter.ViewController.CellForItemAt`: the item index is a `nat`. UIKit never passes a negative item, and the code would trap on one.
