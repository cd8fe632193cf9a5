/**
 * Clients of the presenter: concrete deliveries followed by the main-queue
 * tasks and clicks, showing what callers can conclude from the contracts of
 * `Presenter.ViewController` alone.
 */
module Scenarios {
  import opened DisplayUnits
  import opened Presenter

  function Url(s: string): Content { Content(Some(s)) }

  /** An identified unit without images still queues one impression and changes no view. */
  method IdentifiedUnitWithoutImages() {
    var vc := new ViewController(true);
    var a := DisplayUnit(Some("A"), Some([]));
    vc.DisplayUnitsUpdated([a]);
    assert vc.imageURLs == [];
    assert vc.mainQueue == ["A"];
    vc.DrainMainQueue();
    assert vc.events == [Viewed("A")];
    assert vc.nativeDisplayHidden && vc.collectionViewHidden;
  }

  /** Two images switch to the carousel and size it to two items. */
  method TwoImagesShowCarousel() {
    var vc := new ViewController(false);
    var a := DisplayUnit(Some("A"), Some([Url("img1"), Url("img2")]));
    vc.DisplayUnitsUpdated([a]);
    assert vc.imageURLs == ["img1", "img2"];
    vc.DrainMainQueue();
    AfterTasksByCount(1, 2, Visibility(false, true));
    assert ShowsCarousel(vc.Visible()) && vc.reloadCount == 1;
    var count := vc.NumberOfItemsInSection(0);
    assert count == 2;
    assert vc.events == [Viewed("A")];
  }

  /** Cells of the carousel: a reused cell ends with one image view, loading the item's
      URL in range and nothing past the end; any selected item clicks the tracked unit. */
  method CarouselCellsThenSelect(vc: ViewController)
    requires vc.imageURLs == ["img1", "img2"] && vc.displayUnitID == Some("A")
    modifies vc
  {
    var cell := new Cell([Some("stale"), None]);
    var requested := vc.CellForItemAt(cell, 1);
    assert requested == Some("img2") && cell.imageViews == [Some("img2")];
    requested := vc.CellForItemAt(cell, 2);
    assert requested == None && cell.imageViews == [None];
    var before := vc.events;
    vc.DidSelectItemAt(7);
    assert vc.events == before + [Clicked("A")];
  }

  /** A later identified unit without images is tracked and viewed, while the list keeps
      the earlier unit's image; the single image view is loaded once per task. */
  method LaterEmptyUnitKeepsEarlierImage() {
    var vc := new ViewController(true);
    var a := DisplayUnit(Some("A"), Some([Url("img1")]));
    var b := DisplayUnit(Some("B"), None);
    assert [a, b] == [a] + [b];
    CollectedUrlsSnoc([a], b);
    ImpressionIDsSnoc([a], b);
    vc.DisplayUnitsUpdated([a, b]);
    assert vc.imageURLs == ["img1"];
    assert vc.displayUnitID == Some("B");
    vc.DrainMainQueue();
    AfterTasksByCount(2, 1, Visibility(true, true));
    assert ShowsSingle(vc.Visible());
    assert Repeat("img1", 2) == ["img1", "img1"];
    assert vc.nativeDisplayLoads == ["img1", "img1"];
    assert vc.events == [Viewed("A"), Viewed("B")];
  }

  /** Only absent media URLs are skipped, and units without an identifier add nothing. */
  method EmptyStringKeptAnonymousSkipped() {
    var vc := new ViewController(true);
    var a := DisplayUnit(Some("A"), Some([Url(""), Content(None), Url("x")]));
    var anon := DisplayUnit(None, Some([Url("y")]));
    assert [a, anon] == [a] + [anon];
    CollectedUrlsSnoc([a], anon);
    ImpressionIDsSnoc([a], anon);
    vc.DisplayUnitsUpdated([a, anon]);
    assert vc.imageURLs == ["", "x"];
    assert vc.mainQueue == ["A"];
    assert vc.latestDisplayUnit == Some(anon);
  }

  /** After an anonymous last unit the two click handlers disagree: the carousel still
      reports the tracked identifier, the single-image tap reports nothing. */
  method HandlersDisagreeAfterAnonymousUnit() {
    var vc := new ViewController(true);
    var a := DisplayUnit(Some("A"), Some([Url("img1")]));
    var anon := DisplayUnit(None, None);
    assert [a, anon] == [a] + [anon];
    ImpressionIDsSnoc([a], anon);
    vc.DisplayUnitsUpdated([a, anon]);
    vc.DrainMainQueue();
    vc.NativeDisplayTapped();
    assert vc.events == [Viewed("A")];
    vc.DidSelectItemAt(0);
    assert vc.events == [Viewed("A"), Clicked("A")];
  }

  /** Delivering the same units twice gives the same URL list and twice the impressions. */
  method RedeliveryRepeatsImpressions(vc: ViewController, us: seq<DisplayUnit>)
    requires vc.mainQueue == []
    modifies vc
  {
    vc.DisplayUnitsUpdated(us);
    vc.DrainMainQueue();
    var first := vc.imageURLs;
    var afterFirst := vc.events;
    vc.DisplayUnitsUpdated(us);
    vc.DrainMainQueue();
    assert vc.imageURLs == first;
    assert vc.events == afterFirst + ViewedEvents(ImpressionIDs(us));
  }

  /** Every state the presenter reaches keeps `TracksLatest`: the constructor sets it up and
      each delivery keeps it, so a tap that reports a click agrees with a carousel selection. */
  method DeliveryKeepsTapConsistent(vc: ViewController, us: seq<DisplayUnit>)
    requires vc.TracksLatest()
    modifies vc
  {
    vc.DisplayUnitsUpdated(us);
    assert vc.TracksLatest();
    TapClickIsSelectClick(vc.latestDisplayUnit, vc.displayUnitID);
    var before := vc.events;
    vc.NativeDisplayTapped();
    assert vc.events != before ==> vc.events == before + SelectClick(vc.displayUnitID);
  }
}
