/** The offer-ranking engine: filtering by amount, period and tags, the
    stable sort by rate or rating, and the sorted universe of tags. */
module Api {
  import opened Types
  import Text

  // ---------------------------------------------------------------- filter

  /** `r` is obtained from `s` by deleting elements: either the first
      elements line up, or the first element of `s` is dropped. */
  ghost predicate IsSubsequence<T>(r: seq<T>, s: seq<T>)
    decreases |s|
  {
    if r == [] then true
    else if s == [] then false
    else (r[0] == s[0] && IsSubsequence(r[1..], s[1..])) || IsSubsequence(r, s[1..])
  }

  predicate AmountMatch(offer: Offer, amount: int) {
    amount >= offer.minAmount && amount <= offer.maxAmount
  }

  predicate PeriodMatch(offer: Offer, period: int) {
    period >= offer.minPeriod && period <= offer.maxPeriod
  }

  /** No selection filters nothing; otherwise one shared tag suffices. */
  predicate TagMatch(offer: Offer, selectedTags: seq<string>) {
    |selectedTags| == 0 || exists tag :: tag in selectedTags && tag in offer.tags
  }

  predicate Matches(offer: Offer, amount: int, period: int, selectedTags: seq<string>) {
    AmountMatch(offer, amount) && PeriodMatch(offer, period) && TagMatch(offer, selectedTags)
  }

  /** `offers.filter(...)`: the matching offers, in their input order. */
  function FilterOffers(offers: seq<Offer>, amount: int, period: int, selectedTags: seq<string>): (r: seq<Offer>)
    ensures forall o :: o in r <==> o in offers && Matches(o, amount, period, selectedTags)
    ensures forall o :: multiset(r)[o] == if Matches(o, amount, period, selectedTags) then multiset(offers)[o] else 0
    ensures IsSubsequence(r, offers)
    decreases |offers|
  {
    if offers == [] then []
    else
      assert offers == [offers[0]] + offers[1..];
      var rest := FilterOffers(offers[1..], amount, period, selectedTags);
      if Matches(offers[0], amount, period, selectedTags) then [offers[0]] + rest else rest
  }

  /** An offer whose amount or period range is inverted never matches, and
      filtering is still defined. */
  lemma InvertedRangeNeverMatches(offers: seq<Offer>, amount: int, period: int, selectedTags: seq<string>, o: Offer)
    requires o.minAmount > o.maxAmount || o.minPeriod > o.maxPeriod
    ensures o !in FilterOffers(offers, amount, period, selectedTags)
  {
  }

  /** With no tag selected, the result is exactly the amount and period matches. */
  lemma EmptySelectionIgnoresTags(offers: seq<Offer>, amount: int, period: int)
    ensures forall o :: o in FilterOffers(offers, amount, period, []) <==>
      o in offers && AmountMatch(o, amount) && PeriodMatch(o, period)
  {
  }

  /** Selecting more tags widens the result (OR semantics): an offer passes
      a combined non-empty selection iff it passes one of the parts. */
  lemma SelectionIsDisjunction(offers: seq<Offer>, amount: int, period: int, tags1: seq<string>, tags2: seq<string>)
    requires tags1 != [] && tags2 != []
    ensures forall o :: o in FilterOffers(offers, amount, period, tags1 + tags2) <==>
      o in FilterOffers(offers, amount, period, tags1) || o in FilterOffers(offers, amount, period, tags2)
  {
    forall o
      ensures TagMatch(o, tags1 + tags2) <==> TagMatch(o, tags1) || TagMatch(o, tags2)
    {
      if TagMatch(o, tags1 + tags2) {
        var tag :| tag in tags1 + tags2 && tag in o.tags;
        assert tag in tags1 || tag in tags2;
      }
      if TagMatch(o, tags1) {
        var tag :| tag in tags1 && tag in o.tags;
        assert tag in tags1 + tags2;
      }
      if TagMatch(o, tags2) {
        var tag :| tag in tags2 && tag in o.tags;
        assert tag in tags1 + tags2;
      }
    }
  }

  /** Only the set of selected tags matters: order and repetition do not. */
  lemma {:induction false} SelectionOrderIrrelevant(offers: seq<Offer>, amount: int, period: int, tags1: seq<string>, tags2: seq<string>)
    requires forall t :: t in tags1 <==> t in tags2
    ensures FilterOffers(offers, amount, period, tags1) == FilterOffers(offers, amount, period, tags2)
    decreases |offers|
  {
    if offers != [] {
      SelectionOrderIrrelevant(offers[1..], amount, period, tags1, tags2);
      assert |tags1| == 0 <==> |tags2| == 0 by {
        if tags1 != [] { assert tags1[0] in tags2; }
        if tags2 != [] { assert tags2[0] in tags1; }
      }
      assert TagMatch(offers[0], tags1) == TagMatch(offers[0], tags2);
    }
  }

  /** Filtering twice with the same criteria changes nothing more. */
  lemma {:induction false} FilterIdempotent(offers: seq<Offer>, amount: int, period: int, selectedTags: seq<string>)
    ensures var once := FilterOffers(offers, amount, period, selectedTags);
      FilterOffers(once, amount, period, selectedTags) == once
    decreases |offers|
  {
    if offers != [] {
      FilterIdempotent(offers[1..], amount, period, selectedTags);
      var rest := FilterOffers(offers[1..], amount, period, selectedTags);
      if Matches(offers[0], amount, period, selectedTags) {
        assert ([offers[0]] + rest)[1..] == rest;
      }
    }
  }

  // ------------------------------------------------------------------ sort

  /** The sort key: ascending rate, or ascending negated rating. */
  function Key(o: Offer, sortBy: SortOption): real {
    match sortBy
    case AprAsc => o.apr
    case RatingDesc => -(o.rating as real)
  }

  /** The comparator handed to `sort`, `a.apr - b.apr` or
      `b.rating - a.rating`: its sign is the order of the two keys, so
      sorting by the comparator is sorting by `Key`. */
  function Comparator(a: Offer, b: Offer, sortBy: SortOption): (c: real)
    ensures c < 0.0 <==> Key(a, sortBy) < Key(b, sortBy)
    ensures c == 0.0 <==> Key(a, sortBy) == Key(b, sortBy)
    ensures c > 0.0 <==> Key(a, sortBy) > Key(b, sortBy)
  {
    match sortBy
    case AprAsc => a.apr - b.apr
    case RatingDesc => (b.rating - a.rating) as real
  }

  ghost predicate SortedBy(s: seq<Offer>, sortBy: SortOption) {
    forall i, j :: 0 <= i < j < |s| ==> Key(s[i], sortBy) <= Key(s[j], sortBy)
  }

  /** Ordered by the key means ascending rate, or descending rating. */
  lemma SortedByMeaning(s: seq<Offer>)
    ensures SortedBy(s, AprAsc) <==> forall i, j :: 0 <= i < j < |s| ==> s[i].apr <= s[j].apr
    ensures SortedBy(s, RatingDesc) <==> forall i, j :: 0 <= i < j < |s| ==> s[i].rating >= s[j].rating
    ensures forall sortBy :: SortedBy(s, sortBy) <==>
              forall i, j :: 0 <= i < j < |s| ==> Comparator(s[i], s[j], sortBy) <= 0.0
  {
  }

  /** The elements of `s` whose key is `k`, in their order in `s`. */
  function WithKey(s: seq<Offer>, sortBy: SortOption, k: real): seq<Offer>
    decreases |s|
  {
    if s == [] then []
    else WithKey(s[..|s| - 1], sortBy, k) + (if Key(s[|s| - 1], sortBy) == k then [s[|s| - 1]] else [])
  }

  /** `r` keeps the relative order of every group of equal-key elements of `s`. */
  ghost predicate StableWrt(r: seq<Offer>, s: seq<Offer>, sortBy: SortOption) {
    forall k :: WithKey(r, sortBy, k) == WithKey(s, sortBy, k)
  }

  /** Inserts `x` behind every element of `t` whose key is not greater:
      the step an insertion sort makes for the next element. */
  function Insert(t: seq<Offer>, x: Offer, sortBy: SortOption): (r: seq<Offer>)
    ensures multiset(r) == multiset(t) + multiset{x}
    decreases |t|
  {
    if t == [] then [x]
    else if Key(t[|t| - 1], sortBy) > Key(x, sortBy) then
      assert t == t[..|t| - 1] + [t[|t| - 1]];
      Insert(t[..|t| - 1], x, sortBy) + [t[|t| - 1]]
    else
      t + [x]
  }

  /** The stable sort `sortOffers` performs, written as an insertion sort. */
  function StableSort(s: seq<Offer>, sortBy: SortOption): (r: seq<Offer>)
    ensures multiset(r) == multiset(s)
    decreases |s|
  {
    if s == [] then []
    else
      assert s == s[..|s| - 1] + [s[|s| - 1]];
      Insert(StableSort(s[..|s| - 1], sortBy), s[|s| - 1], sortBy)
  }

  lemma {:induction false} InsertSorted(t: seq<Offer>, x: Offer, sortBy: SortOption)
    requires SortedBy(t, sortBy)
    ensures SortedBy(Insert(t, x, sortBy), sortBy)
    decreases |t|
  {
    if t != [] {
      var last := t[|t| - 1];
      var init := t[..|t| - 1];
      if Key(last, sortBy) > Key(x, sortBy) {
        InsertSorted(init, x, sortBy);
        var r0 := Insert(init, x, sortBy);
        forall i | 0 <= i < |r0|
          ensures Key(r0[i], sortBy) <= Key(last, sortBy)
        {
          assert r0[i] in multiset(r0);
          if r0[i] != x {
            assert r0[i] in init;
            var k :| 0 <= k < |init| && init[k] == r0[i];
            assert t[k] == r0[i];
          }
        }
        SortedSnoc(r0, last, sortBy);
      } else {
        SortedSnoc(t, x, sortBy);
      }
    }
  }

  /** Appending an element whose key bounds every key keeps a sequence ordered. */
  lemma SortedSnoc(r: seq<Offer>, o: Offer, sortBy: SortOption)
    requires SortedBy(r, sortBy)
    requires forall i :: 0 <= i < |r| ==> Key(r[i], sortBy) <= Key(o, sortBy)
    ensures SortedBy(r + [o], sortBy)
  {
    forall i, j | 0 <= i < j < |r| + 1
      ensures Key((r + [o])[i], sortBy) <= Key((r + [o])[j], sortBy)
    {
      if j == |r| {
        assert (r + [o])[j] == o;
      }
    }
  }

  /** The sort's output is ordered by the chosen key. */
  lemma {:induction false} StableSortSorted(s: seq<Offer>, sortBy: SortOption)
    ensures SortedBy(StableSort(s, sortBy), sortBy)
    decreases |s|
  {
    if s != [] {
      StableSortSorted(s[..|s| - 1], sortBy);
      InsertSorted(StableSort(s[..|s| - 1], sortBy), s[|s| - 1], sortBy);
    }
  }

  function KeyPart(o: Offer, sortBy: SortOption, k: real): seq<Offer> {
    if Key(o, sortBy) == k then [o] else []
  }

  lemma WithKeySnoc(s: seq<Offer>, o: Offer, sortBy: SortOption, k: real)
    ensures WithKey(s + [o], sortBy, k) == WithKey(s, sortBy, k) + KeyPart(o, sortBy, k)
  {
    assert (s + [o])[..|s|] == s;
  }

  lemma SwapEmpty<T>(w: seq<T>, p: seq<T>, q: seq<T>)
    requires p == [] || q == []
    ensures (w + p) + q == (w + q) + p
  {
    if p == [] {
      assert w + p == w;
    } else {
      assert w + q == w;
    }
  }

  lemma {:induction false} InsertWithKey(t: seq<Offer>, x: Offer, sortBy: SortOption, k: real)
    ensures WithKey(Insert(t, x, sortBy), sortBy, k) == WithKey(t, sortBy, k) + KeyPart(x, sortBy, k)
    decreases |t|
  {
    if t == [] {
      WithKeySnoc([], x, sortBy, k);
      assert [] + [x] == [x];
    } else {
      var last := t[|t| - 1];
      var init := t[..|t| - 1];
      if Key(last, sortBy) > Key(x, sortBy) {
        var r0 := Insert(init, x, sortBy);
        assert Insert(t, x, sortBy) == r0 + [last];
        InsertWithKey(init, x, sortBy, k);
        WithKeySnoc(r0, last, sortBy, k);
        assert WithKey(t, sortBy, k) == WithKey(init, sortBy, k) + KeyPart(last, sortBy, k);
        SwapEmpty(WithKey(init, sortBy, k), KeyPart(x, sortBy, k), KeyPart(last, sortBy, k));
      } else {
        WithKeySnoc(t, x, sortBy, k);
      }
    }
  }

  /** Offers with equal keys come out in their input order. */
  lemma {:induction false} StableSortStable(s: seq<Offer>, sortBy: SortOption)
    ensures StableWrt(StableSort(s, sortBy), s, sortBy)
    decreases |s|
  {
    if s != [] {
      var init := s[..|s| - 1];
      StableSortStable(init, sortBy);
      forall k
        ensures WithKey(StableSort(s, sortBy), sortBy, k) == WithKey(s, sortBy, k)
      {
        InsertWithKey(StableSort(init, sortBy), s[|s| - 1], sortBy, k);
      }
    }
  }

  lemma {:induction false} WithKeyMembers(s: seq<Offer>, sortBy: SortOption, k: real, o: Offer)
    ensures o in WithKey(s, sortBy, k) <==> o in s && Key(o, sortBy) == k
    decreases |s|
  {
    if s != [] {
      WithKeyMembers(s[..|s| - 1], sortBy, k, o);
      assert s == s[..|s| - 1] + [s[|s| - 1]];
    }
  }

  lemma WithKeyLast(s: seq<Offer>, sortBy: SortOption, k: real)
    requires s != []
    ensures WithKey(s, sortBy, k) == WithKey(s[..|s| - 1], sortBy, k) + KeyPart(s[|s| - 1], sortBy, k)
  {
  }

  lemma SnocCancel<T>(w1: seq<T>, p1: seq<T>, w2: seq<T>, p2: seq<T>)
    requires w1 + p1 == w2 + p2 && |p1| == |p2|
    ensures w1 == w2 && p1 == p2
  {
    assert w1 == (w1 + p1)[..|w1|];
    assert w2 == (w2 + p2)[..|w2|];
    assert p1 == (w1 + p1)[|w1|..];
    assert p2 == (w2 + p2)[|w2|..];
  }

  /** In a sorted sequence no element has a larger key than the last one. */
  lemma LastKeyIsMax(s: seq<Offer>, sortBy: SortOption, o: Offer)
    requires SortedBy(s, sortBy) && o in s
    ensures Key(o, sortBy) <= Key(s[|s| - 1], sortBy)
  {
    var i :| 0 <= i < |s| && s[i] == o;
    if i < |s| - 1 {
      assert Key(s[i], sortBy) <= Key(s[|s| - 1], sortBy);
    }
  }

  /** If `a` is not empty, the group of the key of its last element is not
      empty in `b` either; that element's key is at most `b`'s largest. */
  lemma GroupOfLastInOther(a: seq<Offer>, b: seq<Offer>, sortBy: SortOption)
    requires SortedBy(b, sortBy) && a != []
    requires forall k :: WithKey(a, sortBy, k) == WithKey(b, sortBy, k)
    ensures b != [] && Key(a[|a| - 1], sortBy) <= Key(b[|b| - 1], sortBy)
  {
    var ka := Key(a[|a| - 1], sortBy);
    WithKeyMembers(a, sortBy, ka, a[|a| - 1]);
    assert a[|a| - 1] in a;
    var group := WithKey(b, sortBy, ka);
    assert group != [];
    WithKeyMembers(b, sortBy, ka, group[0]);
    LastKeyIsMax(b, sortBy, group[0]);
  }

  /** Any ordering of the input that is sorted and stable is this one: so any
      stable sort gives the same result as the insertion sort written here. */
  lemma {:induction false} SortedStableUnique(a: seq<Offer>, b: seq<Offer>, sortBy: SortOption)
    requires SortedBy(a, sortBy) && SortedBy(b, sortBy)
    requires forall k :: WithKey(a, sortBy, k) == WithKey(b, sortBy, k)
    ensures a == b
    decreases |a|
  {
    if a != [] {
      GroupOfLastInOther(a, b, sortBy);
    }
    if b != [] {
      GroupOfLastInOther(b, a, sortBy);
    }
    if a != [] && b != [] {
      var la, lb := a[|a| - 1], b[|b| - 1];
      var a0, b0 := a[..|a| - 1], b[..|b| - 1];
      var ka := Key(la, sortBy);
      assert Key(lb, sortBy) == ka;
      WithKeyLast(a, sortBy, ka);
      WithKeyLast(b, sortBy, ka);
      SnocCancel(WithKey(a0, sortBy, ka), [la], WithKey(b0, sortBy, ka), [lb]);
      forall k
        ensures WithKey(a0, sortBy, k) == WithKey(b0, sortBy, k)
      {
        WithKeyLast(a, sortBy, k);
        WithKeyLast(b, sortBy, k);
        SnocCancel(WithKey(a0, sortBy, k), KeyPart(la, sortBy, k), WithKey(b0, sortBy, k), KeyPart(lb, sortBy, k));
      }
      assert SortedBy(a0, sortBy) && SortedBy(b0, sortBy);
      SortedStableUnique(a0, b0, sortBy);
      assert a == a0 + [la] && b == b0 + [lb];
    }
  }

  /** `r` is the sort of `s` exactly when `r` is ordered by the key and keeps
      every group of equal keys in input order. */
  lemma StableSortCharacterized(s: seq<Offer>, r: seq<Offer>, sortBy: SortOption)
    ensures r == StableSort(s, sortBy) <==> SortedBy(r, sortBy) && StableWrt(r, s, sortBy)
  {
    StableSortSorted(s, sortBy);
    StableSortStable(s, sortBy);
    if SortedBy(r, sortBy) && StableWrt(r, s, sortBy) {
      SortedStableUnique(r, StableSort(s, sortBy), sortBy);
    }
  }

  lemma StableSortSnoc(s: seq<Offer>, x: Offer, sortBy: SortOption)
    ensures StableSort(s + [x], sortBy) == Insert(StableSort(s, sortBy), x, sortBy)
  {
    assert (s + [x])[..|s|] == s;
  }

  lemma Assoc<T>(u: seq<T>, v: seq<T>, w: seq<T>)
    ensures (u + v) + w == u + (v + w)
  {
  }

  /** Splitting before `j` commutes with dropping the last element. */
  lemma SplitInit<T>(d: seq<T>, j: nat)
    requires j < |d|
    ensures d[..|d| - 1][..j] == d[..j]
    ensures d[..|d| - 1][j..] + [d[|d| - 1]] == d[j..]
  {
  }

  /** A sequence that agrees pointwise with `d` with `x` slipped in at `j`. */
  lemma SlippedIn<T>(d: seq<T>, x: T, j: nat, s: seq<T>)
    requires j <= |d| && |s| == |d| + 1
    requires forall k :: 0 <= k < j ==> s[k] == d[k]
    requires s[j] == x
    requires forall k :: j < k < |s| ==> s[k] == d[k - 1]
    ensures s == d[..j] + [x] + d[j..]
  {
    var want := d[..j] + [x] + d[j..];
    assert forall k :: 0 <= k < |s| ==> s[k] == want[k];
  }

  /** Where the inner loop of `InsertNext` stops: `x` goes after the last
      element of `done` whose key does not exceed its own. */
  lemma {:induction false} InsertAt(done: seq<Offer>, x: Offer, j: nat, sortBy: SortOption)
    requires j <= |done|
    requires forall k :: j <= k < |done| ==> Key(done[k], sortBy) > Key(x, sortBy)
    requires j == 0 || Key(done[j - 1], sortBy) <= Key(x, sortBy)
    ensures Insert(done, x, sortBy) == done[..j] + [x] + done[j..]
    decreases |done|
  {
    if j < |done| {
      var init := done[..|done| - 1];
      var last := done[|done| - 1];
      assert Key(last, sortBy) > Key(x, sortBy);
      assert Insert(done, x, sortBy) == Insert(init, x, sortBy) + [last];
      InsertAt(init, x, j, sortBy);
      SplitInit(done, j);
      Assoc(done[..j] + [x], init[j..], [last]);
    } else if j > 0 {
      assert Insert(done, x, sortBy) == done + [x];
      SplitAtEnd(done);
    }
  }

  lemma SplitAtEnd<T>(d: seq<T>)
    ensures d[..|d|] == d && d[|d|..] == []
  {
  }

  /** The array after one pass of `InsertNext`, as a sequence. */
  lemma PlacedIsInsert(done: seq<Offer>, x: Offer, j: nat, s: seq<Offer>, sortBy: SortOption)
    requires j <= |done| && |s| == |done| + 1
    requires forall k :: 0 <= k < j ==> s[k] == done[k]
    requires s[j] == x
    requires forall k :: j < k < |s| ==> s[k] == done[k - 1]
    requires forall k :: j <= k < |done| ==> Key(done[k], sortBy) > Key(x, sortBy)
    requires j == 0 || Key(done[j - 1], sortBy) <= Key(x, sortBy)
    ensures s == Insert(done, x, sortBy)
  {
    InsertAt(done, x, j, sortBy);
    SlippedIn(done, x, j, s);
  }

  lemma PrefixStep(s: seq<Offer>, i: nat, sortBy: SortOption)
    requires i < |s|
    ensures StableSort(s[..i + 1], sortBy) == Insert(StableSort(s[..i], sortBy), s[i], sortBy)
  {
    assert s[..i + 1] == s[..i] + [s[i]];
    StableSortSnoc(s[..i], s[i], sortBy);
  }

  method SortInPlace(a: array<Offer>, sortBy: SortOption)
    modifies a
    ensures a[..] == StableSort(old(a[..]), sortBy)
  {
    ghost var input := a[..];
    for i := 0 to a.Length
      invariant a[..i] == StableSort(input[..i], sortBy)
      invariant forall k :: i <= k < a.Length ==> a[k] == input[k]
    {
      PrefixStep(input, i, sortBy);
      InsertNext(a, i, sortBy);
    }
    assert input[..a.Length] == input && a[..a.Length] == a[..];
  }

  /** One pass of the insertion sort: moves `a[i]` left past every
      larger-key element of the sorted prefix `a[..i]`. */
  method InsertNext(a: array<Offer>, i: nat, sortBy: SortOption)
    requires i < a.Length
    modifies a
    ensures a[..i + 1] == Insert(old(a[..i]), old(a[i]), sortBy)
    ensures forall k :: i < k < a.Length ==> a[k] == old(a[k])
  {
    var x := a[i];
    var j := OpenGap(a, i, sortBy);
    a[j] := x;
    PlacedIsInsert(old(a[..i]), x, j, a[..i + 1], sortBy);
  }

  /** Shifts right, by one place, the elements at the end of `a[..i]` whose
      key exceeds that of `a[i]`, and returns the index of the gap left in
      front of them. */
  method OpenGap(a: array<Offer>, i: nat, sortBy: SortOption) returns (j: nat)
    requires i < a.Length
    modifies a
    ensures j <= i
    ensures forall k :: 0 <= k <= j ==> a[k] == old(a[k])
    ensures forall k :: j < k <= i ==> a[k] == old(a[k - 1])
    ensures forall k :: i < k < a.Length ==> a[k] == old(a[k])
    ensures forall k :: j <= k < i ==> Key(old(a[k]), sortBy) > Key(old(a[i]), sortBy)
    ensures j == 0 || Key(old(a[j - 1]), sortBy) <= Key(old(a[i]), sortBy)
  {
    var x := a[i];
    j := i;
    while j > 0 && Key(a[j - 1], sortBy) > Key(x, sortBy)
      invariant 0 <= j <= i
      invariant forall k :: 0 <= k <= j ==> a[k] == old(a[k])
      invariant forall k :: j < k <= i ==> a[k] == old(a[k - 1])
      invariant forall k :: i < k < a.Length ==> a[k] == old(a[k])
      invariant forall k :: j <= k < i ==> Key(old(a[k]), sortBy) > Key(x, sortBy)
    {
      a[j] := a[j - 1];
      j := j - 1;
    }
  }

  /** `sortOffers`: sorts a copy, so the caller's sequence is untouched. */
  method SortOffers(offers: seq<Offer>, sortBy: SortOption) returns (sorted: seq<Offer>)
    ensures sorted == StableSort(offers, sortBy)
    ensures multiset(sorted) == multiset(offers)
    ensures SortedBy(sorted, sortBy) && StableWrt(sorted, offers, sortBy)
  {
    var copy := new Offer[|offers|](i requires 0 <= i < |offers| => offers[i]);
    assert copy[..] == offers;
    SortInPlace(copy, sortBy);
    sorted := copy[..];
    StableSortCharacterized(offers, sorted, sortBy);
  }

  // ------------------------------------------------------------------ tags

  /** Every tag occurrence, offer by offer. */
  function Flatten(offers: seq<Offer>): seq<string>
    decreases |offers|
  {
    if offers == [] then []
    else Flatten(offers[..|offers| - 1]) + offers[|offers| - 1].tags
  }

  lemma {:induction false} FlattenMembers(offers: seq<Offer>, t: string)
    ensures t in Flatten(offers) <==> CarriesTag(offers, t)
    decreases |offers|
  {
    if offers != [] {
      var init := offers[..|offers| - 1];
      FlattenMembers(init, t);
      assert offers == init + [offers[|offers| - 1]];
      if t in Flatten(offers) && t !in Flatten(init) {
        assert offers[|offers| - 1] in offers;
      }
    }
  }

  /** Some offer carries `tag`. */
  ghost predicate CarriesTag(offers: seq<Offer>, tag: string) {
    exists o :: o in offers && tag in o.tags
  }

  /** `Set.add`: a tag not yet present is appended, so the set keeps
      insertion order, as `Array.from(set)` reports it. */
  function AddTag(tagsSet: seq<string>, tag: string): seq<string> {
    if tag in tagsSet then tagsSet else tagsSet + [tag]
  }

  /** The insertion-ordered set of the tags in `s`. */
  function Distinct(s: seq<string>): (r: seq<string>)
    ensures forall t :: t in r <==> t in s
    ensures Text.NoDuplicates(r)
    decreases |s|
  {
    if s == [] then []
    else
      assert s == s[..|s| - 1] + [s[|s| - 1]];
      AddTag(Distinct(s[..|s| - 1]), s[|s| - 1])
  }

  /** `getAllTags` as a value: the de-duplicated tags in default sort order.
      The list is strictly increasing (so sorted and duplicate-free), and a
      tag is listed iff some offer carries it (compared case-sensitively). */
  function AllTags(offers: seq<Offer>): (r: seq<string>)
    ensures Text.StrictlyIncreasing(r)
    ensures forall t :: t in r <==> CarriesTag(offers, t)
  {
    var d := Distinct(Flatten(offers));
    Text.SortStringsIncreasing(d);
    var r := Text.SortStrings(d);
    forall t
      ensures t in r <==> CarriesTag(offers, t)
    {
      assert t in r <==> t in multiset(d);
      FlattenMembers(offers, t);
    }
    r
  }

  /** No offers, or offers without tags, give no tags. */
  lemma AllTagsEmpty(offers: seq<Offer>)
    requires forall o :: o in offers ==> o.tags == []
    ensures AllTags(offers) == []
  {
    FlattenNoTags(offers);
  }

  lemma {:induction false} FlattenNoTags(offers: seq<Offer>)
    requires forall o :: o in offers ==> o.tags == []
    ensures Flatten(offers) == []
    decreases |offers|
  {
    if offers != [] {
      assert offers[|offers| - 1] in offers;
      FlattenNoTags(offers[..|offers| - 1]);
    }
  }

  /** The result depends only on which tags occur, not on offer order. */
  lemma AllTagsDependsOnlyOnTagSet(offers1: seq<Offer>, offers2: seq<Offer>)
    requires forall t :: CarriesTag(offers1, t) <==> CarriesTag(offers2, t)
    ensures AllTags(offers1) == AllTags(offers2)
  {
    Text.StrictlyIncreasingUnique(AllTags(offers1), AllTags(offers2));
  }

  /** `getAllTags`: two nested loops fill the set, which is then sorted. */
  method GetAllTags(offers: seq<Offer>) returns (tags: seq<string>)
    ensures tags == AllTags(offers)
    ensures Text.StrictlyIncreasing(tags)
    ensures forall t :: t in tags <==> CarriesTag(offers, t)
  {
    var tagsSet: seq<string> := [];
    for i := 0 to |offers|
      invariant tagsSet == Distinct(Flatten(offers[..i]))
    {
      assert offers[..i + 1][..i] == offers[..i];
      tagsSet := AddOfferTags(tagsSet, Flatten(offers[..i]), offers[i].tags);
    }
    assert offers[..|offers|] == offers;
    tags := Text.SortStrings(tagsSet);
  }

  /** The inner `forEach`: adds one offer's tags to the set in order. */
  method AddOfferTags(tagsSet: seq<string>, ghost before: seq<string>, offerTags: seq<string>)
    returns (r: seq<string>)
    requires tagsSet == Distinct(before)
    ensures r == Distinct(before + offerTags)
  {
    r := tagsSet;
    assert before + offerTags[..0] == before;
    for j := 0 to |offerTags|
      invariant r == Distinct(before + offerTags[..j])
    {
      assert before + offerTags[..j + 1] == (before + offerTags[..j]) + [offerTags[j]];
      DistinctSnoc(before + offerTags[..j], offerTags[j]);
      if offerTags[j] !in r {
        r := r + [offerTags[j]];
      }
    }
    assert offerTags[..|offerTags|] == offerTags;
  }

  /** One more tag is one more `add`. */
  lemma DistinctSnoc(s: seq<string>, tag: string)
    ensures Distinct(s + [tag]) == AddTag(Distinct(s), tag)
  {
    assert (s + [tag])[..|s|] == s;
  }
}
