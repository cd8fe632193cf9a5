/**
 * Display units as the view controller receives them from the analytics SDK,
 * and the specification functions that say what the presenter's state becomes
 * after a delivery, after its main-queue tasks run, and after a click.
 */
module DisplayUnits {

  datatype Option<+T> = None | Some(value: T)

  /** One content item of a display unit; only its optional media URL matters here. */
  datatype Content = Content(mediaUrl: Option<string>)

  /** A delivered display unit: an optional identifier and optional contents. */
  datatype DisplayUnit = DisplayUnit(unitID: Option<string>, contents: Option<seq<Content>>)

  /** Analytics events reported to the SDK, each keyed by a unit identifier. */
  datatype Event = Viewed(id: string) | Clicked(id: string)

  /** Which of the two image surfaces are hidden: the single image view and the carousel. */
  datatype Visibility = Visibility(singleHidden: bool, carouselHidden: bool)

  predicate ShowsSingle(v: Visibility) { !v.singleHidden && v.carouselHidden }

  predicate ShowsCarousel(v: Visibility) { v.singleHidden && !v.carouselHidden }

  // ---------------------------------------------------------------------------
  // Image URLs collected by a delivery
  // ---------------------------------------------------------------------------

  /** The contents of a unit, absent contents read as empty. */
  function ContentsOf(u: DisplayUnit): seq<Content>
  {
    if u.contents.Some? then u.contents.value else []
  }

  /** What one content item adds to the URL list: its media URL unless that is absent. */
  function ItemUrls(c: Content): seq<string>
  {
    if c.mediaUrl.Some? then [c.mediaUrl.value] else []
  }

  /** The media URLs of `cs` in order, skipping only absent ones. */
  function MediaUrls(cs: seq<Content>): seq<string>
  {
    if cs == [] then [] else ItemUrls(cs[0]) + MediaUrls(cs[1..])
  }

  /** What one unit adds to the URL list: nothing unless it carries an identifier. */
  function UnitUrls(u: DisplayUnit): seq<string>
  {
    if u.unitID.Some? then MediaUrls(ContentsOf(u)) else []
  }

  /** The URL list a delivery of `us` leaves behind. */
  function CollectedUrls(us: seq<DisplayUnit>): seq<string>
  {
    if us == [] then [] else UnitUrls(us[0]) + CollectedUrls(us[1..])
  }

  // ---------------------------------------------------------------------------
  // Identifiers: the pending impressions and the tracked unit ID
  // ---------------------------------------------------------------------------

  /** The identifiers of the identified units of `us`, in input order. */
  function ImpressionIDs(us: seq<DisplayUnit>): seq<string>
  {
    if us == [] then []
    else (if us[0].unitID.Some? then [us[0].unitID.value] else []) + ImpressionIDs(us[1..])
  }

  /** The latest unit after a delivery of `us`, starting from `prior`. */
  function LatestUnit(us: seq<DisplayUnit>, prior: Option<DisplayUnit>): Option<DisplayUnit>
  {
    if us == [] then prior else Some(us[|us| - 1])
  }

  /** The tracked identifier after a delivery of `us`, starting from `prior`:
      the identifier of the last identified unit, else `prior`. */
  function LastUnitID(us: seq<DisplayUnit>, prior: Option<string>): Option<string>
  {
    if us == [] then prior
    else if us[|us| - 1].unitID.Some? then us[|us| - 1].unitID
    else LastUnitID(us[..|us| - 1], prior)
  }

  // ---------------------------------------------------------------------------
  // Main-queue tasks and clicks
  // ---------------------------------------------------------------------------

  /** The visibility one main-queue task leaves, given the URL count it reads. */
  function TaskVisibility(count: nat, v: Visibility): Visibility
  {
    if count == 1 then Visibility(false, true)
    else if count > 1 then Visibility(true, false)
    else v
  }

  /** The visibility after `k` tasks that all read the same URL count. */
  function AfterTasks(k: nat, count: nat, v: Visibility): Visibility
  {
    if k == 0 then v else TaskVisibility(count, AfterTasks(k - 1, count, v))
  }

  /** One impression event per identifier, in order. */
  function ViewedEvents(ids: seq<string>): seq<Event>
  {
    seq(|ids|, i requires 0 <= i < |ids| => Viewed(ids[i]))
  }

  /** `n` copies of `x`. */
  function Repeat<T>(x: T, n: nat): seq<T>
  {
    seq(n, _ => x)
  }

  /** The events a carousel selection emits: a click for the tracked identifier, if any. */
  function SelectClick(displayUnitID: Option<string>): seq<Event>
  {
    if displayUnitID.Some? then [Clicked(displayUnitID.value)] else []
  }

  /** The events a tap on the single image emits: a click for the latest unit's identifier, if any. */
  function TapClick(latest: Option<DisplayUnit>): seq<Event>
  {
    if latest.Some? && latest.value.unitID.Some? then [Clicked(latest.value.unitID.value)] else []
  }

  // ---------------------------------------------------------------------------
  // Sequence facts used by the loops
  // ---------------------------------------------------------------------------

  lemma PrefixSnoc<T>(s: seq<T>, i: nat)
    requires i < |s|
    ensures s[..i + 1] == s[..i] + [s[i]]
  {
  }

  lemma AppendAssoc<T>(a: seq<T>, b: seq<T>, c: seq<T>)
    ensures (a + b) + c == a + (b + c)
  {
  }

  // ---------------------------------------------------------------------------
  // Lemmas: URL collection
  // ---------------------------------------------------------------------------

  lemma {:induction false} MediaUrlsAppend(a: seq<Content>, b: seq<Content>)
    ensures MediaUrls(a + b) == MediaUrls(a) + MediaUrls(b)
  {
    if a == [] {
      assert a + b == b;
    } else {
      assert (a + b)[1..] == a[1..] + b;
      MediaUrlsAppend(a[1..], b);
    }
  }

  /** A URL is collected from `cs` exactly when some item has it as its (present) media URL;
      an empty string is a present URL like any other. */
  lemma {:induction false} MediaUrlsMembership(cs: seq<Content>, url: string)
    ensures url in MediaUrls(cs) <==> exists j :: 0 <= j < |cs| && cs[j].mediaUrl == Some(url)
  {
    if cs != [] {
      MediaUrlsMembership(cs[1..], url);
      if url in MediaUrls(cs[1..]) {
        var j :| 0 <= j < |cs[1..]| && cs[1..][j].mediaUrl == Some(url);
        assert cs[j + 1].mediaUrl == Some(url);
      }
      if j :| 0 <= j < |cs| && cs[j].mediaUrl == Some(url) {
        if j > 0 {
          assert cs[1..][j - 1].mediaUrl == Some(url);
        }
      }
    }
  }

  /** At most one URL per content item, and exactly one per item when none is absent. */
  lemma {:induction false} MediaUrlsLength(cs: seq<Content>)
    ensures |MediaUrls(cs)| <= |cs|
    ensures |MediaUrls(cs)| == |cs| <==> forall j :: 0 <= j < |cs| ==> cs[j].mediaUrl.Some?
  {
    if cs != [] {
      MediaUrlsLength(cs[1..]);
      assert forall j :: 1 <= j < |cs| ==> cs[j] == cs[1..][j - 1];
    }
  }

  lemma {:induction false} CollectedUrlsAppend(a: seq<DisplayUnit>, b: seq<DisplayUnit>)
    ensures CollectedUrls(a + b) == CollectedUrls(a) + CollectedUrls(b)
  {
    if a == [] {
      assert a + b == b;
    } else {
      assert (a + b)[1..] == a[1..] + b;
      CollectedUrlsAppend(a[1..], b);
    }
  }

  /** Delivering one more unit extends the URL list by that unit's URLs. */
  lemma CollectedUrlsSnoc(us: seq<DisplayUnit>, u: DisplayUnit)
    ensures CollectedUrls(us + [u]) == CollectedUrls(us) + UnitUrls(u)
  {
    CollectedUrlsAppend(us, [u]);
    assert [u][1..] == [];
  }

  /** A URL ends up in the list exactly when an identified unit has a content item with it. */
  lemma {:induction false} CollectedUrlsMembership(us: seq<DisplayUnit>, url: string)
    ensures url in CollectedUrls(us) <==>
      exists i, j :: 0 <= i < |us| && us[i].unitID.Some? &&
                     0 <= j < |ContentsOf(us[i])| && ContentsOf(us[i])[j].mediaUrl == Some(url)
  {
    if us != [] {
      CollectedUrlsMembership(us[1..], url);
      MediaUrlsMembership(ContentsOf(us[0]), url);
      if url in CollectedUrls(us[1..]) {
        var i, j :| 0 <= i < |us[1..]| && us[1..][i].unitID.Some? &&
                    0 <= j < |ContentsOf(us[1..][i])| && ContentsOf(us[1..][i])[j].mediaUrl == Some(url);
        assert us[i + 1] == us[1..][i];
      }
      if i, j :| 0 <= i < |us| && us[i].unitID.Some? &&
                 0 <= j < |ContentsOf(us[i])| && ContentsOf(us[i])[j].mediaUrl == Some(url) {
        if i > 0 {
          assert us[1..][i - 1] == us[i];
        }
      }
    }
  }

  /** A unit without an identifier contributes nothing, wherever it stands. */
  lemma CollectedUrlsSkipsAnonymous(a: seq<DisplayUnit>, u: DisplayUnit, b: seq<DisplayUnit>)
    requires u.unitID.None?
    ensures CollectedUrls(a + [u] + b) == CollectedUrls(a + b)
  {
    CollectedUrlsAppend(a + [u], b);
    CollectedUrlsSnoc(a, u);
    CollectedUrlsAppend(a, b);
  }

  // ---------------------------------------------------------------------------
  // Lemmas: identifiers
  // ---------------------------------------------------------------------------

  lemma {:induction false} ImpressionIDsAppend(a: seq<DisplayUnit>, b: seq<DisplayUnit>)
    ensures ImpressionIDs(a + b) == ImpressionIDs(a) + ImpressionIDs(b)
  {
    if a == [] {
      assert a + b == b;
    } else {
      assert (a + b)[1..] == a[1..] + b;
      ImpressionIDsAppend(a[1..], b);
    }
  }

  /** Delivering one more unit adds one pending impression when it is identified, none otherwise. */
  lemma ImpressionIDsSnoc(us: seq<DisplayUnit>, u: DisplayUnit)
    ensures ImpressionIDs(us + [u]) == ImpressionIDs(us) + (if u.unitID.Some? then [u.unitID.value] else [])
  {
    ImpressionIDsAppend(us, [u]);
    assert [u][1..] == [];
  }

  /** An identifier is pending exactly when some delivered unit carries it. */
  lemma {:induction false} ImpressionIDsMembership(us: seq<DisplayUnit>, id: string)
    ensures id in ImpressionIDs(us) <==> exists i :: 0 <= i < |us| && us[i].unitID == Some(id)
  {
    if us != [] {
      ImpressionIDsMembership(us[1..], id);
      if id in ImpressionIDs(us[1..]) {
        var i :| 0 <= i < |us[1..]| && us[1..][i].unitID == Some(id);
        assert us[i + 1].unitID == Some(id);
      }
      if i :| 0 <= i < |us| && us[i].unitID == Some(id) {
        if i > 0 {
          assert us[1..][i - 1].unitID == Some(id);
        }
      }
    }
  }

  /** Impressions depend on the identifiers only, not on how many images a unit has. */
  lemma {:induction false} ImpressionIDsIgnoreContents(us: seq<DisplayUnit>, vs: seq<DisplayUnit>)
    requires |us| == |vs|
    requires forall i :: 0 <= i < |us| ==> us[i].unitID == vs[i].unitID
    ensures ImpressionIDs(us) == ImpressionIDs(vs)
  {
    if us != [] {
      assert forall i :: 0 <= i < |us[1..]| ==> us[1..][i] == us[i + 1] && vs[1..][i] == vs[i + 1];
      ImpressionIDsIgnoreContents(us[1..], vs[1..]);
    }
  }

  /** Delivering one more unit tracks its identifier when it has one, else keeps the old one. */
  lemma LastUnitIDSnoc(us: seq<DisplayUnit>, u: DisplayUnit, prior: Option<string>)
    ensures LastUnitID(us + [u], prior) == if u.unitID.Some? then u.unitID else LastUnitID(us, prior)
  {
    assert (us + [u])[..|us|] == us;
  }

  /** With no identified unit, the tracked identifier keeps its prior value. */
  lemma {:induction false} LastUnitIDWithoutIdentified(us: seq<DisplayUnit>, prior: Option<string>)
    requires forall i :: 0 <= i < |us| ==> us[i].unitID.None?
    ensures LastUnitID(us, prior) == prior
  {
    if us != [] {
      var init := us[..|us| - 1];
      assert forall i :: 0 <= i < |init| ==> init[i] == us[i];
      LastUnitIDWithoutIdentified(init, prior);
    }
  }

  /** The tracked identifier is that of the identified unit `k` when every later unit is anonymous. */
  lemma {:induction false} LastUnitIDIsLastIdentified(us: seq<DisplayUnit>, prior: Option<string>, k: nat)
    requires k < |us| && us[k].unitID.Some?
    requires forall i :: k < i < |us| ==> us[i].unitID.None?
    ensures LastUnitID(us, prior) == us[k].unitID
  {
    if k < |us| - 1 {
      var init := us[..|us| - 1];
      assert forall i :: 0 <= i < |init| ==> init[i] == us[i];
      LastUnitIDIsLastIdentified(init, prior, k);
    }
  }

  /** Once set, the tracked identifier is never cleared by a delivery. */
  lemma {:induction false} LastUnitIDNeverCleared(us: seq<DisplayUnit>, prior: Option<string>)
    requires prior.Some?
    ensures LastUnitID(us, prior).Some?
  {
    if us != [] && us[|us| - 1].unitID.None? {
      LastUnitIDNeverCleared(us[..|us| - 1], prior);
    }
  }

  /** The tracked identifier is the last pending impression of the delivery, when there is one. */
  lemma {:induction false} LastUnitIDFromImpressions(us: seq<DisplayUnit>, prior: Option<string>)
    ensures var ids := ImpressionIDs(us);
            LastUnitID(us, prior) == if ids == [] then prior else Some(ids[|ids| - 1])
  {
    if us != [] {
      var n := |us| - 1;
      assert us == us[..n] + [us[n]];
      ImpressionIDsSnoc(us[..n], us[n]);
      LastUnitIDFromImpressions(us[..n], prior);
    }
  }

  // ---------------------------------------------------------------------------
  // Lemmas: main-queue tasks and clicks
  // ---------------------------------------------------------------------------

  /** Running the tasks of a delivery: with one URL the single image shows and the carousel
      is hidden, with more the carousel shows and the single image is hidden, and with none
      nothing changes; with no task nothing changes either. */
  lemma {:induction false} AfterTasksByCount(k: nat, count: nat, v: Visibility)
    ensures k == 0 || count == 0 ==> AfterTasks(k, count, v) == v
    ensures k >= 1 && count == 1 ==> ShowsSingle(AfterTasks(k, count, v))
    ensures k >= 1 && count > 1 ==> ShowsCarousel(AfterTasks(k, count, v))
  {
    if k > 0 {
      AfterTasksByCount(k - 1, count, v);
    }
  }

  /** Running the same task k >= 1 times has the visibility effect of running it once. */
  lemma {:induction false} AfterTasksSameAsOne(k: nat, count: nat, v: Visibility)
    requires k >= 1
    ensures AfterTasks(k, count, v) == TaskVisibility(count, v)
  {
    if k > 1 {
      AfterTasksSameAsOne(k - 1, count, v);
    }
  }

  /** The two click handlers report the same clicks after a non-empty delivery exactly when
      its last unit is identified or no identifier was ever tracked; in particular an
      anonymous last unit silences the tap while the carousel still reports an older ID. */
  lemma ClickHandlersAgree(us: seq<DisplayUnit>, latest: Option<DisplayUnit>, tracked: Option<string>)
    requires us != []
    ensures TapClick(LatestUnit(us, latest)) == SelectClick(LastUnitID(us, tracked)) <==>
            us[|us| - 1].unitID.Some? || LastUnitID(us, tracked).None?
    ensures us[|us| - 1].unitID.None? ==> TapClick(LatestUnit(us, latest)) == []
  {
  }

  /** The tap's unit is covered by the tracked identifier: whenever the latest unit has
      an identifier, that identifier is the tracked one. */
  predicate TracksLatest(latest: Option<DisplayUnit>, tracked: Option<string>)
  {
    latest.Some? && latest.value.unitID.Some? ==> tracked == latest.value.unitID
  }

  /** A non-empty delivery establishes `TracksLatest`, and an empty one keeps it. */
  lemma DeliveryTracksLatest(us: seq<DisplayUnit>, latest: Option<DisplayUnit>, tracked: Option<string>)
    ensures us != [] || TracksLatest(latest, tracked) ==>
            TracksLatest(LatestUnit(us, latest), LastUnitID(us, tracked))
  {
  }

  /** Under `TracksLatest`, a tap that reports a click reports the same click as a
      carousel selection would; the handlers differ only when the tap reports nothing. */
  lemma TapClickIsSelectClick(latest: Option<DisplayUnit>, tracked: Option<string>)
    requires TracksLatest(latest, tracked)
    ensures TapClick(latest) != [] ==> TapClick(latest) == SelectClick(tracked)
    ensures TapClick(latest) != SelectClick(tracked) ==> TapClick(latest) == [] && tracked.Some?
  {
  }
}
