/**
 * Scroll-driven navigation: the back-to-top button's visibility and the
 * scrollspy that marks the navigation link of the most visible section.
 */
module Scroll {
  import opened Wrappers

  /** The scroll offset past which the back-to-top button is shown. */
  const ToTopThreshold := 600

  class ToTop {
    var show: bool  // the button carries the class "show"

    constructor (show0: bool)
      ensures show == show0
    {
      show := show0;
    }

    /** `updateToTop`, run once at load and on every scroll event. */
    method Update(scrollY: int)
      modifies this
      ensures show <==> scrollY > ToTopThreshold
    {
      if scrollY > ToTopThreshold {
        show := true;
      } else {
        show := false;
      }
    }
  }

  /**
   * One intersection-observer entry for an observed section: its id, whether
   * it intersects, and its intersection ratio as an abstract ordered value.
   */
  datatype Entry = Entry(targetId: string, isIntersecting: bool, ratio: int)

  /** Some entry intersects. */
  predicate AnyIntersecting(entries: seq<Entry>) {
    exists i :: 0 <= i < |entries| && entries[i].isIntersecting
  }

  /**
   * The entry the scrollspy picks: filtering the intersecting entries and
   * sorting them by descending ratio with a stable sort, the first one; that is
   * the earliest intersecting entry of highest ratio, or none.
   */
  function MostVisible(entries: seq<Entry>): (r: Option<nat>)
    ensures r.None? <==> !AnyIntersecting(entries)
    ensures r.Some? ==> r.value < |entries| && entries[r.value].isIntersecting
    ensures r.Some? ==> forall j :: 0 <= j < |entries| && entries[j].isIntersecting ==>
      entries[j].ratio <= entries[r.value].ratio
    ensures r.Some? ==> forall j :: 0 <= j < r.value && entries[j].isIntersecting ==>
      entries[j].ratio < entries[r.value].ratio
  {
    if entries == [] then None
    else
      var n := |entries| - 1;
      var best := MostVisible(entries[..n]);
      if !entries[n].isIntersecting then best
      else if best.None? || entries[best.value].ratio < entries[n].ratio then Some(n)
      else best
  }

  /** The pick is unique: any intersecting entry with those two properties is it. */
  lemma MostVisibleUnique(entries: seq<Entry>, k: nat)
    requires k < |entries| && entries[k].isIntersecting
    requires forall j :: 0 <= j < |entries| && entries[j].isIntersecting ==> entries[j].ratio <= entries[k].ratio
    requires forall j :: 0 <= j < k && entries[j].isIntersecting ==> entries[j].ratio < entries[k].ratio
    ensures MostVisible(entries) == Some(k)
  {
  }

  /** The navigation links, each with its href ("" when it has none) and its `active` class. */
  class Scrollspy {
    const hrefs: seq<string>
    const active: array<bool>

    ghost predicate Valid()
      reads this
    {
      active.Length == |hrefs|
    }

    constructor (hrefs0: seq<string>, active0: seq<bool>)
      requires |active0| == |hrefs0|
      ensures Valid() && hrefs == hrefs0 && active[..] == active0 && fresh(active)
    {
      hrefs := hrefs0;
      active := new bool[|active0|](i requires 0 <= i < |active0| => active0[i]);
    }

    /**
     * The observer callback: with no intersecting entry nothing changes;
     * otherwise exactly the links whose href is `#` + the picked section's id
     * become active.
     */
    method OnEntries(entries: seq<Entry>)
      requires Valid()
      modifies active
      ensures MostVisible(entries).None? ==> active[..] == old(active[..])
      ensures MostVisible(entries).Some? ==>
        forall i :: 0 <= i < active.Length ==>
          active[i] == (hrefs[i] == "#" + entries[MostVisible(entries).value].targetId)
      ensures MostVisible(entries).Some? && DistinctHrefs(hrefs) ==>
        forall i, j :: 0 <= i < j < active.Length && active[i] ==> !active[j]
    {
      var visible := MostVisible(entries);
      if visible.None? {
        return;
      }
      var activeId := "#" + entries[visible.value].targetId;
      for i := 0 to active.Length
        invariant forall j :: 0 <= j < i ==> active[j] == (hrefs[j] == activeId)
      {
        active[i] := hrefs[i] == activeId;
      }
      if DistinctHrefs(hrefs) {
        AtMostOneActive(hrefs, active[..], activeId);
      }
    }
  }

  /** No two navigation links share an href. */
  predicate DistinctHrefs(hrefs: seq<string>) {
    forall i, j :: 0 <= i < j < |hrefs| ==> hrefs[i] != hrefs[j]
  }

  /** With distinct hrefs, marking the links that equal one id marks at most one. */
  lemma AtMostOneActive(hrefs: seq<string>, active: seq<bool>, activeId: string)
    requires |active| == |hrefs|
    requires DistinctHrefs(hrefs)
    requires forall i :: 0 <= i < |active| ==> active[i] == (hrefs[i] == activeId)
    ensures forall i, j :: 0 <= i < j < |active| && active[i] ==> !active[j]
  {
  }
}
