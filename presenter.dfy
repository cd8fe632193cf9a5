/**
 * The display-unit presenter of the demo app's view controller: the three
 * state fields it updates when units are delivered, the main-queue tasks that
 * switch between the single image view and the carousel, the carousel's data
 * source, and the two click handlers.
 *
 * The analytics SDK is represented by the `events` log (impressions and
 * clicks, in the order they are reported); the image loader by the URL
 * strings it is asked to load; the main dispatch queue by `mainQueue`, the
 * identifiers captured by the tasks still waiting to run, oldest first.
 */
module Presenter {
  import opened DisplayUnits

  /** A reusable carousel cell: the image views in its content view, each with
      the URL it was asked to load (None when no load was issued). */
  class Cell {
    var imageViews: seq<Option<string>>

    constructor (imageViews: seq<Option<string>>)
      ensures this.imageViews == imageViews
    {
      this.imageViews := imageViews;
    }
  }

  class ViewController {
    var latestDisplayUnit: Option<DisplayUnit>
    var imageURLs: seq<string>
    var displayUnitID: Option<string>

    /** Identifiers captured by the main-queue tasks not yet run, oldest first. */
    var mainQueue: seq<string>
    /** Analytics events reported so far. */
    var events: seq<Event>
    var nativeDisplayHidden: bool
    var collectionViewHidden: bool
    /** URLs the single image view was asked to load, in order. */
    var nativeDisplayLoads: seq<string>
    /** How many times the carousel was told to reload its items. */
    var reloadCount: nat

    function Visible(): Visibility
      reads this
    {
      Visibility(nativeDisplayHidden, collectionViewHidden)
    }

    /** Whenever the latest unit has an identifier, it is the tracked identifier. */
    predicate TracksLatest()
      reads this
    {
      DisplayUnits.TracksLatest(latestDisplayUnit, displayUnitID)
    }

    /** The state once the view has loaded: nothing delivered yet and the carousel
        hidden; the single image view's initial visibility comes from the storyboard. */
    constructor (nativeDisplayHidden: bool)
      ensures latestDisplayUnit == None && imageURLs == [] && displayUnitID == None
      ensures mainQueue == [] && events == []
      ensures this.nativeDisplayHidden == nativeDisplayHidden && collectionViewHidden
      ensures nativeDisplayLoads == [] && reloadCount == 0
      ensures TracksLatest()
    {
      latestDisplayUnit := None;
      imageURLs := [];
      displayUnitID := None;
      mainQueue := [];
      events := [];
      this.nativeDisplayHidden := nativeDisplayHidden;
      collectionViewHidden := true;
      nativeDisplayLoads := [];
      reloadCount := 0;
    }

    /** Delivery of display units by the SDK. Earlier URLs are discarded; each
        identified unit becomes the tracked one, adds its media URLs and queues one
        main-queue task; every unit, identified or not, becomes the latest. */
    method DisplayUnitsUpdated(displayUnits: seq<DisplayUnit>)
      modifies this`imageURLs, this`latestDisplayUnit, this`displayUnitID, this`mainQueue
      ensures imageURLs == CollectedUrls(displayUnits)
      ensures latestDisplayUnit == LatestUnit(displayUnits, old(latestDisplayUnit))
      ensures displayUnitID == LastUnitID(displayUnits, old(displayUnitID))
      ensures mainQueue == old(mainQueue) + ImpressionIDs(displayUnits)
      ensures displayUnits != [] || old(TracksLatest()) ==> TracksLatest()
    {
      ghost var latest0, tracked0, queued0 := latestDisplayUnit, displayUnitID, mainQueue;
      ghost var delivered: seq<DisplayUnit> := [];
      imageURLs := [];
      for i := 0 to |displayUnits|
        invariant delivered == displayUnits[..i]
        invariant imageURLs == CollectedUrls(delivered)
        invariant latestDisplayUnit == LatestUnit(delivered, latest0)
        invariant displayUnitID == LastUnitID(delivered, tracked0)
        invariant mainQueue == queued0 + ImpressionIDs(delivered)
      {
        var unit := displayUnits[i];
        PrefixSnoc(displayUnits, i);
        CollectedUrlsSnoc(delivered, unit);
        ImpressionIDsSnoc(delivered, unit);
        AppendAssoc(queued0, ImpressionIDs(delivered), if unit.unitID.Some? then [unit.unitID.value] else []);
        LastUnitIDSnoc(delivered, unit, tracked0);
        ReceiveUnit(unit);
        delivered := delivered + [unit];
      }
      assert displayUnits[..|displayUnits|] == displayUnits;
      DeliveryTracksLatest(displayUnits, latest0, tracked0);
    }

    /** The body of the delivery loop for one unit: it becomes the latest; when it has
        an identifier, that identifier is tracked, the unit's media URLs are appended
        and one main-queue task is queued for it. */
    method ReceiveUnit(unit: DisplayUnit)
      modifies this`imageURLs, this`latestDisplayUnit, this`displayUnitID, this`mainQueue
      ensures latestDisplayUnit == Some(unit)
      ensures imageURLs == old(imageURLs) + UnitUrls(unit)
      ensures displayUnitID == if unit.unitID.Some? then unit.unitID else old(displayUnitID)
      ensures mainQueue == old(mainQueue) + (if unit.unitID.Some? then [unit.unitID.value] else [])
    {
      latestDisplayUnit := Some(unit);
      if unit.unitID.Some? {
        var unitID := unit.unitID.value;
        displayUnitID := Some(unitID);
        var contents := if unit.contents.Some? then unit.contents.value else [];
        AppendMediaUrls(contents);
        mainQueue := mainQueue + [unitID];
      }
    }

    /** The inner loop of a delivery: appends the present media URLs of `contents`. */
    method AppendMediaUrls(contents: seq<Content>)
      modifies this`imageURLs
      ensures imageURLs == old(imageURLs) + MediaUrls(contents)
    {
      for j := 0 to |contents|
        invariant imageURLs == old(imageURLs) + MediaUrls(contents[..j])
      {
        assert contents[..j + 1] == contents[..j] + [contents[j]];
        MediaUrlsAppend(contents[..j], [contents[j]]);
        assert [contents[j]][1..] == [];
        if contents[j].mediaUrl.Some? {
          imageURLs := imageURLs + [contents[j].mediaUrl.value];
        }
      }
      assert contents[..|contents|] == contents;
    }

    /** One queued main-queue task, run against the current URL list: one URL shows
        the single image view and loads that URL, more than one shows the carousel
        and reloads it, none leaves both views as they are; then the impression for
        the captured identifier is reported. */
    method RunMainQueueTask(unitID: string)
      modifies this`nativeDisplayHidden, this`collectionViewHidden, this`nativeDisplayLoads,
               this`reloadCount, this`events
      ensures Visible() == TaskVisibility(|imageURLs|, old(Visible()))
      ensures nativeDisplayLoads == old(nativeDisplayLoads) + (if |imageURLs| == 1 then [imageURLs[0]] else [])
      ensures reloadCount == old(reloadCount) + (if |imageURLs| > 1 then 1 else 0)
      ensures events == old(events) + [Viewed(unitID)]
    {
      if |imageURLs| == 1 {
        collectionViewHidden := true;
        nativeDisplayHidden := false;
        nativeDisplayLoads := nativeDisplayLoads + [imageURLs[0]];
      } else if |imageURLs| > 1 {
        nativeDisplayHidden := true;
        collectionViewHidden := false;
        reloadCount := reloadCount + 1;
      }
      events := events + [Viewed(unitID)];
    }

    /** Runs every queued task in order, each reading the URL list as it is now. */
    method DrainMainQueue()
      modifies this`mainQueue, this`nativeDisplayHidden, this`collectionViewHidden,
               this`nativeDisplayLoads, this`reloadCount, this`events
      ensures mainQueue == []
      ensures events == old(events) + ViewedEvents(old(mainQueue))
      ensures Visible() == AfterTasks(|old(mainQueue)|, |imageURLs|, old(Visible()))
      ensures nativeDisplayLoads == old(nativeDisplayLoads) +
                (if |imageURLs| == 1 then Repeat(imageURLs[0], |old(mainQueue)|) else [])
      ensures reloadCount == old(reloadCount) + (if |imageURLs| > 1 then |old(mainQueue)| else 0)
    {
      ghost var tasks, events0, visible0, loads0, reloads0 :=
        mainQueue, events, Visible(), nativeDisplayLoads, reloadCount;
      ghost var n := 0;
      while mainQueue != []
        invariant n <= |tasks| && mainQueue == tasks[n..]
        invariant events == events0 + ViewedEvents(tasks[..n])
        invariant Visible() == AfterTasks(n, |imageURLs|, visible0)
        invariant nativeDisplayLoads == loads0 + (if |imageURLs| == 1 then Repeat(imageURLs[0], n) else [])
        invariant reloadCount == reloads0 + (if |imageURLs| > 1 then n else 0)
        decreases |mainQueue|
      {
        var unitID := mainQueue[0];
        mainQueue := mainQueue[1..];
        RunMainQueueTask(unitID);
        assert ViewedEvents(tasks[..n + 1]) == ViewedEvents(tasks[..n]) + [Viewed(unitID)];
        if |imageURLs| == 1 {
          assert Repeat(imageURLs[0], n + 1) == Repeat(imageURLs[0], n) + [imageURLs[0]];
        }
        n := n + 1;
      }
      assert tasks[..n] == tasks;
    }

    /** The carousel's item count. */
    method NumberOfItemsInSection(section: int) returns (count: int)
      ensures count == |imageURLs|
    {
      count := |imageURLs|;
    }

    /** Fills a reused cell for `item`: its old image views are removed and one new
        image view is added, loading the item's URL when the item is in range and
        nothing otherwise. */
    method CellForItemAt(cell: Cell, item: nat) returns (requested: Option<string>)
      modifies cell
      ensures requested.Some? <==> item < |imageURLs|
      ensures requested.Some? ==> requested.value == imageURLs[item]
      ensures cell.imageViews == [requested]
    {
      cell.imageViews := [];
      requested := None;
      if item < |imageURLs| {
        requested := Some(imageURLs[item]);
      }
      cell.imageViews := cell.imageViews + [requested];
    }

    /** Selecting a carousel item reports a click for the tracked identifier, whatever the item. */
    method DidSelectItemAt(item: int)
      modifies this`events
      ensures events == old(events) + SelectClick(displayUnitID)
    {
      if displayUnitID.Some? {
        events := events + [Clicked(displayUnitID.value)];
      }
    }

    /** Tapping the single image reports a click for the latest unit's own identifier. */
    method NativeDisplayTapped()
      modifies this`events
      ensures events == old(events) + TapClick(latestDisplayUnit)
    {
      if latestDisplayUnit.Some? && latestDisplayUnit.value.unitID.Some? {
        events := events + [Clicked(latestDisplayUnit.value.unitID.value)];
      }
    }
  }
}
