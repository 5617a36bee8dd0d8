/** The list controller: the tag toggle, the plural of the result count,
    the displayed order with its ranks, and the handlers with the analytics
    events they emit. */
module OffersList {
  import opened Types
  import Api
  import Text

  // ------------------------------------------------------------- tag toggle

  /** `selectedTags.filter((t) => t !== tag)`. */
  function RemoveAll(s: seq<string>, tag: string): (r: seq<string>)
    ensures tag !in r
    ensures forall u :: u != tag ==> multiset(r)[u] == multiset(s)[u]
    ensures Api.IsSubsequence(r, s)
    decreases |s|
  {
    if s == [] then []
    else
      var rest := RemoveAll(s[1..], tag);
      assert s == [s[0]] + s[1..];
      if s[0] == tag then rest else [s[0]] + rest
  }

  /** Removing a tag that does not occur changes nothing. */
  lemma {:induction false} RemoveAllAbsent(s: seq<string>, tag: string)
    requires tag !in s
    ensures RemoveAll(s, tag) == s
    decreases |s|
  {
    if s != [] {
      RemoveAllAbsent(s[1..], tag);
    }
  }

  /** Removing after appending the same tag is removing alone. */
  lemma {:induction false} RemoveAllAppended(s: seq<string>, tag: string)
    ensures RemoveAll(s + [tag], tag) == RemoveAll(s, tag)
    decreases |s|
  {
    if s == [] {
      assert RemoveAll([tag], tag) == RemoveAll([], tag) by {
        assert [tag][1..] == [];
      }
    } else {
      assert (s + [tag])[1..] == s[1..] + [tag];
      RemoveAllAppended(s[1..], tag);
    }
  }

  /** `handleTagToggle`'s new list: a selected tag is removed wherever it
      occurs, an unselected one is appended at the end. */
  function ToggleTag(selectedTags: seq<string>, tag: string): (r: seq<string>)
    ensures tag in r <==> tag !in selectedTags
    ensures forall u :: u != tag ==> (u in r <==> u in selectedTags)
    ensures RemoveAll(r, tag) == RemoveAll(selectedTags, tag)
    ensures tag !in selectedTags ==> r == selectedTags + [tag]
    ensures tag in selectedTags ==> tag !in r && Api.IsSubsequence(r, selectedTags)
  {
    if tag in selectedTags then
      var r := RemoveAll(selectedTags, tag);
      RemoveAllAbsent(r, tag);
      forall u | u != tag
        ensures u in r <==> u in selectedTags
      {
        assert u in r <==> u in multiset(r);
      }
      r
    else
      RemoveAllAppended(selectedTags, tag);
      selectedTags + [tag]
  }

  /** Toggling an unselected tag twice restores the selection. */
  lemma ToggleTwiceAbsent(selectedTags: seq<string>, tag: string)
    requires tag !in selectedTags
    ensures ToggleTag(ToggleTag(selectedTags, tag), tag) == selectedTags
  {
    RemoveAllAppended(selectedTags, tag);
    RemoveAllAbsent(selectedTags, tag);
  }

  /** Toggling a selected tag twice moves it, once, to the end. */
  lemma ToggleTwicePresent(selectedTags: seq<string>, tag: string)
    requires tag in selectedTags
    ensures ToggleTag(ToggleTag(selectedTags, tag), tag) == RemoveAll(selectedTags, tag) + [tag]
  {
  }

  // --------------------------------------------------------- result count

  /** The Polish noun after the number of offers found. */
  function PluralWord(count: nat): (w: string)
    ensures w == "ofertę" <==> count == 1
    ensures w == "oferty" <==> count == 0 || 2 <= count <= 4
    ensures w == "ofert" <==> count >= 5
  {
    if count == 1 then "ofertę"
    else if count < 5 then "oferty"
    else "ofert"
  }

  /** The badge on the filter button, `Filtry (n)`. */
  function FilterBadge(selectedTags: seq<string>): (badge: string)
    ensures |badge| >= 10 && badge[..8] == "Filtry (" && badge[|badge| - 1] == ')'
    ensures Text.AllDigits(badge[8..|badge| - 1])
    ensures Text.DecimalValue(badge[8..|badge| - 1]) == |selectedTags|
  {
    var digits := Text.NatToDecimal(|selectedTags|);
    var badge := "Filtry (" + digits + ")";
    assert badge[8..|badge| - 1] == digits;
    Text.NatToDecimalRoundTrip(|selectedTags|);
    badge
  }

  // --------------------------------------------------------- display order

  /** An offer card with the rank it is shown with. */
  datatype RankedOffer = RankedOffer(rank: nat, offer: Offer)

  /** `sortedOffers.map((offer, index) => ... rank={index + 1})`. */
  function Ranked(s: seq<Offer>): (r: seq<RankedOffer>)
    ensures |r| == |s|
    ensures forall i :: 0 <= i < |r| ==> r[i].rank == i + 1 && r[i].offer == s[i]
    decreases |s|
  {
    if s == [] then []
    else Ranked(s[..|s| - 1]) + [RankedOffer(|s|, s[|s| - 1])]
  }

  /** The offers of a ranked list, in display order. */
  function OffersOf(r: seq<RankedOffer>): (s: seq<Offer>)
    ensures |s| == |r|
    ensures forall i :: 0 <= i < |s| ==> s[i] == r[i].offer
    decreases |r|
  {
    if r == [] then [] else OffersOf(r[..|r| - 1]) + [r[|r| - 1].offer]
  }

  /** Ranking and then dropping the ranks gives the list back. */
  lemma RankedRoundTrip(s: seq<Offer>)
    ensures OffersOf(Ranked(s)) == s
  {
  }

  // ------------------------------------------------------------ component

  /** One mounted `OffersList`: its props (which only the parent replaces),
      its own `sortBy` and `showTagFilter` state, the lists it has passed
      to `onTagsChange`, and the analytics log. */
  class ListView {
    var offers: seq<Offer>
    var availableTags: seq<string>
    var selectedTags: seq<string>
    var sortBy: SortOption
    var showTagFilter: bool
    var tagChanges: seq<seq<string>>
    const log: EventLog

    /** First render: sorted by rating, tag panel closed. */
    constructor (offers: seq<Offer>, availableTags: seq<string>, selectedTags: seq<string>, log: EventLog)
      ensures this.offers == offers && this.availableTags == availableTags
      ensures this.selectedTags == selectedTags && this.log == log
      ensures sortBy == RatingDesc && !showTagFilter && tagChanges == []
    {
      this.offers := offers;
      this.availableTags := availableTags;
      this.selectedTags := selectedTags;
      this.log := log;
      sortBy := RatingDesc;
      showTagFilter := false;
      tagChanges := [];
    }

    /** A re-render with new props keeps the component's own state. */
    method Rerender(offers: seq<Offer>, availableTags: seq<string>, selectedTags: seq<string>)
      modifies this
      ensures this.offers == offers && this.availableTags == availableTags
      ensures this.selectedTags == selectedTags
      ensures sortBy == old(sortBy) && showTagFilter == old(showTagFilter)
      ensures tagChanges == old(tagChanges)
    {
      this.offers := offers;
      this.availableTags := availableTags;
      this.selectedTags := selectedTags;
    }

    /** `handleSortChange`. */
    method HandleSortChange(newSortBy: SortOption)
      modifies this, log
      ensures sortBy == newSortBy
      ensures log.events == old(log.events) + [SortChangeEvent(newSortBy)]
      ensures offers == old(offers) && availableTags == old(availableTags)
      ensures selectedTags == old(selectedTags) && showTagFilter == old(showTagFilter)
      ensures tagChanges == old(tagChanges)
    {
      sortBy := newSortBy;
      log.LogEvent(SortChangeEvent(newSortBy));
    }

    /** `handleTagToggle`: hands the new list to the parent and logs it with
        zero amount and period; the `selectedTags` prop itself changes only
        when the parent re-renders. */
    method HandleTagToggle(tag: string) returns (newTags: seq<string>)
      modifies this, log
      ensures newTags == ToggleTag(old(selectedTags), tag)
      ensures tagChanges == old(tagChanges) + [newTags]
      ensures log.events == old(log.events) + [FilterChangeEvent(0, 0, Some(newTags))]
      ensures offers == old(offers) && availableTags == old(availableTags)
      ensures selectedTags == old(selectedTags)
      ensures sortBy == old(sortBy) && showTagFilter == old(showTagFilter)
    {
      newTags := ToggleTag(selectedTags, tag);
      tagChanges := tagChanges + [newTags];
      log.LogEvent(FilterChangeEvent(0, 0, Some(newTags)));
    }

    /** "Wyczyść filtry": asks the parent for the empty selection; nothing
        is logged. The button is rendered only while the tag panel is open
        and some tag is selected. */
    method ClearFilters()
      modifies this
      ensures tagChanges == old(tagChanges) + [[]]
      ensures offers == old(offers) && availableTags == old(availableTags)
      ensures selectedTags == old(selectedTags)
      ensures sortBy == old(sortBy) && showTagFilter == old(showTagFilter)
    {
      tagChanges := tagChanges + [[]];
    }

    /** The "Filtry" button opens or closes the tag panel. */
    method ToggleTagFilter()
      modifies this
      ensures showTagFilter == !old(showTagFilter)
      ensures offers == old(offers) && availableTags == old(availableTags)
      ensures selectedTags == old(selectedTags) && sortBy == old(sortBy)
      ensures tagChanges == old(tagChanges)
    {
      showTagFilter := !showTagFilter;
    }

    /** The cards as rendered: a sorted copy of `offers`, ranked from 1. */
    method DisplayedOffers() returns (cards: seq<RankedOffer>)
      ensures |cards| == |offers|
      ensures forall i :: 0 <= i < |cards| ==> cards[i].rank == i + 1
      ensures OffersOf(cards) == Api.StableSort(offers, sortBy)
      ensures multiset(OffersOf(cards)) == multiset(offers)
      ensures Api.SortedBy(OffersOf(cards), sortBy)
      ensures Api.StableWrt(OffersOf(cards), offers, sortBy)
    {
      var sorted := Api.SortOffers(offers, sortBy);
      cards := Ranked(sorted);
      RankedRoundTrip(sorted);
    }
  }
}
