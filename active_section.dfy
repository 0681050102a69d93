/**
 * The active-section tracker (components/active-section-context.tsx): a provider holding
 * the name of the section the navigation highlights and the time of the last navigation
 * click. On scroll -- unless a click happened less than a second ago -- it looks up the
 * six section elements, drops the missing ones, and scans the rest from the bottom for the
 * first whose top lies above a third of the viewport.
 */
module ActiveSection {
  import opened Wrappers

  /** The names the scroll handler looks up, in page order. */
  const Sections: seq<string> := ["home", "projects", "about", "skills", "testimonials", "contact"]

  /** Clicks suppress the scroll handler for this many milliseconds. */
  const ClickQuietMillis: int := 1000

  /**
   * The element lookups, one per entry of `Sections`: `Some(offsetTop)` when an element
   * with that id exists, `None` when `getElementById` returns null. `.filter(Boolean)`
   * keeps the present ones, in order.
   */
  function PresentOffsets(lookups: seq<Option<real>>): (r: seq<real>)
    ensures |r| <= |lookups|
    decreases |lookups|
  {
    if lookups == [] then []
    else
      var last := lookups[|lookups| - 1];
      PresentOffsets(lookups[..|lookups| - 1]) + (if last.Some? then [last.value] else [])
  }

  /** The positions in `lookups` of the present elements, in order. */
  function PresentIndices(lookups: seq<Option<real>>): (r: seq<nat>)
    ensures |r| == |PresentOffsets(lookups)|
    ensures forall k :: 0 <= k < |r| ==> r[k] < |lookups|
    decreases |lookups|
  {
    if lookups == [] then []
    else
      var last := lookups[|lookups| - 1];
      PresentIndices(lookups[..|lookups| - 1]) + (if last.Some? then [|lookups| - 1] else [])
  }

  /**
   * The filter drops exactly the missing elements and keeps the rest in their relative
   * order: the k-th present offset is the lookup at the k-th present index, those indices
   * increase, and every present lookup is among them.
   */
  lemma {:induction false} FilterKeepsOrder(lookups: seq<Option<real>>)
    ensures var idx := PresentIndices(lookups);
      && (forall k :: 0 <= k < |idx| ==> lookups[idx[k]] == Some(PresentOffsets(lookups)[k]))
      && (forall k, m :: 0 <= k < m < |idx| ==> idx[k] < idx[m])
      && (forall j :: 0 <= j < |lookups| && lookups[j].Some? ==> j in idx)
    decreases |lookups|
  {
    if lookups != [] {
      var init := lookups[..|lookups| - 1];
      FilterKeepsOrder(init);
      forall j | 0 <= j < |init| ensures init[j] == lookups[j] { }
    }
  }

  /** With no element missing, nothing is dropped: the k-th present index is k. */
  lemma {:induction false} NoneMissing(lookups: seq<Option<real>>)
    requires forall k :: 0 <= k < |lookups| ==> lookups[k].Some?
    ensures |PresentIndices(lookups)| == |lookups|
    ensures forall k :: 0 <= k < |lookups| ==> PresentIndices(lookups)[k] == k
    decreases |lookups|
  {
    if lookups != [] {
      NoneMissing(lookups[..|lookups| - 1]);
    }
  }

  /**
   * The index the backward scan stops at: the last offset not below the reference
   * position, or None when every offset lies below it.
   */
  function LastReached(offsets: seq<real>, position: real): (r: Option<nat>)
    ensures r.Some? ==> r.value < |offsets| && offsets[r.value] <= position
    ensures r.Some? ==> forall j :: r.value < j < |offsets| ==> offsets[j] > position
    ensures r.None? <==> forall j :: 0 <= j < |offsets| ==> offsets[j] > position
    decreases |offsets|
  {
    if offsets == [] then None
    else if offsets[|offsets| - 1] <= position then Some(|offsets| - 1)
    else LastReached(offsets[..|offsets| - 1], position)
  }

  /**
   * `for (let i = sectionElements.length - 1; i >= 0; i--)` with `break` at the first
   * element whose `offsetTop` is at most the reference position.
   */
  method ScanBackwards(offsets: seq<real>, position: real) returns (found: Option<nat>)
    ensures found == LastReached(offsets, position)
  {
    found := None;
    var i := |offsets| - 1;
    while i >= 0
      invariant -1 <= i < |offsets|
      invariant forall j :: i < j < |offsets| ==> offsets[j] > position
      decreases i + 1
    {
      if offsets[i] <= position {
        found := Some(i);
        break;
      }
      i := i - 1;
    }
  }

  /** `window.scrollY + window.innerHeight / 3`. */
  function ReferencePosition(scrollY: real, innerHeight: real): real
  {
    scrollY + innerHeight / 3.0
  }

  /**
   * The section named after a scroll, as written: the scan's index into the list of
   * PRESENT elements is used to index the full `Sections` list. Unchanged when no
   * present element has been reached.
   */
  function NameAfterScroll(active: string, lookups: seq<Option<real>>, position: real): (name: string)
    requires |lookups| == |Sections|
    ensures name == active || name in Sections
    ensures (forall j :: 0 <= j < |lookups| && lookups[j].Some? ==> lookups[j].value > position) ==> name == active
    ensures (exists j :: 0 <= j < |lookups| && lookups[j].Some? && lookups[j].value <= position) ==> name in Sections
  {
    NothingReached(lookups, position);
    match LastReached(PresentOffsets(lookups), position)
    case None => active
    case Some(i) => Sections[i]
  }

  /** The scan finds nothing exactly when every present element lies below the reference position. */
  lemma NothingReached(lookups: seq<Option<real>>, position: real)
    ensures LastReached(PresentOffsets(lookups), position).None?
      <==> forall j :: 0 <= j < |lookups| && lookups[j].Some? ==> lookups[j].value > position
  {
    var offsets := PresentOffsets(lookups);
    var idx := PresentIndices(lookups);
    FilterKeepsOrder(lookups);
    if forall j :: 0 <= j < |lookups| && lookups[j].Some? ==> lookups[j].value > position {
      forall k | 0 <= k < |offsets| ensures offsets[k] > position {
        assert lookups[idx[k]] == Some(offsets[k]);
      }
    } else {
      var j :| 0 <= j < |lookups| && lookups[j].Some? && lookups[j].value <= position;
      var k :| 0 <= k < |idx| && idx[k] == j;
      assert offsets[k] <= position;
    }
  }

  /**
   * The section evidently intended: the name of the element the scan stopped at.
   */
  function IntendedNameAfterScroll(active: string, lookups: seq<Option<real>>, position: real): (name: string)
    requires |lookups| == |Sections|
    ensures name == active || name in Sections
  {
    match LastReached(PresentOffsets(lookups), position)
    case None => active
    case Some(i) => Sections[PresentIndices(lookups)[i]]
  }

  /**
   * The intended rule names the lowest present section whose top has been scrolled past,
   * and keeps the old name exactly when no present section has been.
   */
  lemma IntendedNameIsLastReachedSection(active: string, lookups: seq<Option<real>>, position: real)
    requires |lookups| == |Sections|
    ensures var name := IntendedNameAfterScroll(active, lookups, position);
      || (name == active && forall j :: 0 <= j < |lookups| && lookups[j].Some? ==> lookups[j].value > position)
      || exists j :: 0 <= j < |lookups| && name == Sections[j] && lookups[j].Some? && lookups[j].value <= position
           && forall m :: j < m < |lookups| && lookups[m].Some? ==> lookups[m].value > position
  {
    var offsets := PresentOffsets(lookups);
    var idx := PresentIndices(lookups);
    FilterKeepsOrder(lookups);
    match LastReached(offsets, position)
    case None =>
      forall j | 0 <= j < |lookups| && lookups[j].Some? ensures lookups[j].value > position {
        var k :| 0 <= k < |idx| && idx[k] == j;
        assert offsets[k] == lookups[j].value;
      }
    case Some(i) =>
      var j := idx[i];
      forall m | j < m < |lookups| && lookups[m].Some? ensures lookups[m].value > position {
        var k :| 0 <= k < |idx| && idx[k] == m;
        assert offsets[k] == lookups[m].value;
      }
  }

  /** With every section element present, the as-written rule names the matched element. */
  lemma AllPresentNamesMatch(active: string, lookups: seq<Option<real>>, position: real)
    requires |lookups| == |Sections|
    requires forall k :: 0 <= k < |lookups| ==> lookups[k].Some?
    ensures NameAfterScroll(active, lookups, position) == IntendedNameAfterScroll(active, lookups, position)
  {
    NoneMissing(lookups);
  }

  /**
   * On the site's own page there is no "testimonials" element. Scrolled to the contact
   * section, the as-written rule names "testimonials", the intended one "contact".
   */
  lemma ContactNamedTestimonials()
    ensures var lookups := [Some(0.0), Some(800.0), Some(1600.0), Some(2400.0), None, Some(3200.0)];
      && NameAfterScroll("skills", lookups, 3300.0) == "testimonials"
      && IntendedNameAfterScroll("skills", lookups, 3300.0) == "contact"
  {
    var lookups := [Some(0.0), Some(800.0), Some(1600.0), Some(2400.0), None, Some(3200.0)];
    assert lookups[..0] == [];
    assert lookups[..1][..0] == lookups[..0];
    assert lookups[..2][..1] == lookups[..1];
    assert lookups[..3][..2] == lookups[..2];
    assert lookups[..4][..3] == lookups[..3];
    assert lookups[..5][..4] == lookups[..4];
    assert lookups[..6][..5] == lookups[..5] && lookups[..6] == lookups;
    assert PresentOffsets(lookups[..1]) == [0.0];
    assert PresentOffsets(lookups[..2]) == [0.0, 800.0];
    assert PresentOffsets(lookups[..3]) == [0.0, 800.0, 1600.0];
    assert PresentOffsets(lookups[..4]) == [0.0, 800.0, 1600.0, 2400.0];
    assert PresentIndices(lookups[..1]) == [0];
    assert PresentIndices(lookups[..2]) == [0, 1];
    assert PresentIndices(lookups[..3]) == [0, 1, 2];
    assert PresentIndices(lookups[..4]) == [0, 1, 2, 3];
    assert PresentOffsets(lookups) == [0.0, 800.0, 1600.0, 2400.0, 3200.0];
    assert PresentIndices(lookups) == [0, 1, 2, 3, 5];
  }

  /** The context provider's two state cells. */
  class Provider {
    var activeSection: string
    var timeOfLastClick: int

    constructor ()
      ensures activeSection == "home" && timeOfLastClick == 0
    {
      activeSection := "home";
      timeOfLastClick := 0;
    }

    /** `setActiveSection`, exposed to the navigation through the context. */
    method SetActiveSection(name: string)
      modifies this
      ensures activeSection == name && timeOfLastClick == old(timeOfLastClick)
    {
      activeSection := name;
    }

    /** `setTimeOfLastClick`, exposed to the navigation through the context. */
    method SetTimeOfLastClick(time: int)
      modifies this
      ensures timeOfLastClick == time && activeSection == old(activeSection)
    {
      timeOfLastClick := time;
    }

    /**
     * The scroll listener at time `now`, given the element lookups, `window.scrollY` and
     * `window.innerHeight`. Within a second of the last click it does nothing.
     */
    method HandleScroll(now: int, lookups: seq<Option<real>>, scrollY: real, innerHeight: real)
      requires |lookups| == |Sections|
      modifies this
      ensures timeOfLastClick == old(timeOfLastClick)
      ensures now - old(timeOfLastClick) < ClickQuietMillis ==> activeSection == old(activeSection)
      ensures now - old(timeOfLastClick) >= ClickQuietMillis ==>
        activeSection == NameAfterScroll(old(activeSection), lookups, ReferencePosition(scrollY, innerHeight))
    {
      if now - timeOfLastClick < ClickQuietMillis {
        return;
      }
      var sectionElements := PresentOffsets(lookups);
      var currentPosition := scrollY + innerHeight / 3.0;
      var found := ScanBackwards(sectionElements, currentPosition);
      if found.Some? {
        activeSection := Sections[found.value];
      }
    }
  }

  /** The message `useActiveSectionContext` throws outside a provider. */
  const OutsideProviderError: string := "useActiveSectionContext must be used within an ActiveSectionContextProvider"

  /** Reading the context: the provider's value, or an error when there is no provider. */
  function UseActiveSectionContext<T>(context: Option<T>): (r: Result<T, string>)
    ensures r.Err? <==> context.None?
    ensures r.Err? ==> r.error == OutsideProviderError
    ensures r.Ok? ==> r.value == context.value
  {
    match context
    case None => Err(OutsideProviderError)
    case Some(c) => Ok(c)
  }
}
