# Loan-offer ranking: a Dafny model

This project models the logic of a single-page loan-offer ranking app. The user gives a loan
amount and a repayment period. The app loads a list of offers and keeps those whose amount and
period ranges contain the user's values and that carry at least one selected tag (or all of
them, when no tag is selected). It ranks them by rating or by annual rate, and shows each as a
card with a five-star rating and a call-to-action button.

The model has one module per source file:

- `Types` holds the records: offers, sort options, and analytics events with their payloads.
  The analytics log is an append-only sequence of events.
- `Api` covers `filterOffers`, `sortOffers` and `getAllTags`.
  - The filter is a recursive function.
  - The sort copies the input into an array and sorts that array in place with an insertion
    sort. That sort is proved equal to a functional stable sort `StableSort`.
  - `StableSort` is proved to be a permutation, ordered by the key, and stable. Its
    uniqueness lemma says any ordered, stable rearrangement equals it. So any stable sort the
    JavaScript engine uses gives the same result as this model.
  - The tag collection is a pair of nested loops filling an insertion-ordered, duplicate-free
    sequence (the `Set`), which is then sorted into lexicographic order on Dafny characters
    (code points). That order equals UTF-16 code-unit order for strings within the Basic
    Multilingual Plane.
- `Text` holds the string order used by the default `sort()` and the decimal rendering of
  integers in template strings.
- `OffersList` covers the tag toggle, the plural of the result count, the filter badge, and
  the displayed order with its ranks. The component is a class whose handlers record what they
  pass to the parent and what they log.
- `InputForm` covers the clamping steppers, the validation messages, and the change handlers.
  Validation is advisory, so every value is forwarded.
- `OfferCard` covers the star classification (a loop over five slots), the period label, and
  the call-to-action state machine. Its two timers are counted as pending callbacks that fire
  as separate events.
- `App` covers the load-state machine (`idle`, `loading`, `success`, `error`) and the
  normalised error message. It also covers the filtered offers and available tags, which are
  shown only on `success`.

Numbers: rates are `real`, because they are only compared. Amounts, periods and ratings are
`int`. JavaScript's truncating `%` is written out for the half-star test.
`Math.floor(rating / 20)` is Dafny's `/`, which floors for a positive divisor.

## Model

| member | source | states |
|---|---|---|
| Api.FilterOffers | src/utils/api.ts:30-49 | an offer is in the result iff it is in the input and its amount range, period range and tag test all pass; each kept offer keeps its multiplicity; the result is a subsequence of the input, in input order |
| Api.InvertedRangeNeverMatches | src/utils/api.ts:37-41 | an offer with `minAmount > maxAmount` or `minPeriod > maxPeriod` is never returned, and filtering is total |
| Api.EmptySelectionIgnoresTags | src/utils/api.ts:43-44 | with no selected tags, exactly the offers matching amount and period are kept |
| Api.SelectionIsDisjunction | src/utils/api.ts:43-45 | the tag test is an OR: an offer passes a combined non-empty selection iff it passes one of the two parts |
| Api.SelectionOrderIrrelevant | src/utils/api.ts:43-45 | two selections with the same set of tags filter identically |
| Api.FilterIdempotent | src/utils/api.ts:36-48 | filtering an already filtered list with the same criteria returns it unchanged |
| Api.Key | src/utils/api.ts:57-61 | the sort key of an offer: `apr` for `apr-asc`, the negated `rating` for `rating-desc`; its order is the comparator's sign (`Api.Comparator`) |
| Api.Comparator | src/utils/api.ts:57-61 | the comparator `a.apr - b.apr` or `b.rating - a.rating` is negative, zero or positive exactly when `a`'s key is below, equal to or above `b`'s |
| Api.SortedByMeaning | src/utils/api.ts:57-61 | ordered by the key means non-decreasing `apr` for `apr-asc`, non-increasing `rating` for `rating-desc`, and the comparator never positive on an earlier-later pair |
| Api.StableSort | src/utils/api.ts:55-61 | the sorted sequence is a permutation of the input |
| Api.StableSortSorted | src/utils/api.ts:57-61 | the sorted sequence is ordered by the chosen key |
| Api.StableSortStable | src/utils/api.ts:57-61 | offers with equal keys keep their input order (stability) |
| Api.SortedStableUnique | src/utils/api.ts:57-61 | two key-ordered sequences with the same equal-key groups in the same order are equal, so a stable sort has only one possible result |
| Api.StableSortCharacterized | src/utils/api.ts:55-61 | a sequence is the stable sort of the input iff it is key-ordered and stable with respect to the input |
| Api.InsertSorted | src/utils/api.ts:57-61 | inserting behind the last element with a key no greater keeps a key-ordered sequence ordered |
| Api.InsertWithKey | src/utils/api.ts:57-61 | that insertion appends the new offer to its own key group and leaves the other groups unchanged |
| Api.SortInPlace | src/utils/api.ts:57-61 | the in-place array sort leaves the array equal to the stable sort of its old contents |
| Api.InsertNext | src/utils/api.ts:57-61 | one pass of the in-place sort turns `a[..i+1]` into the insertion of `a[i]` into the sorted prefix and leaves the rest unchanged |
| Api.OpenGap | src/utils/api.ts:57-61 | the shifting loop moves exactly the trailing larger-key elements of the prefix one place right and stops at the first key no greater |
| Api.SortOffers | src/utils/api.ts:51-62 | `sortOffers` returns the stable sort of its argument (a permutation, key-ordered and stable) and, taking a sequence by value, cannot change the caller's one |
| Api.FlattenMembers | src/utils/api.ts:66-68 | a tag occurs among all the offers' tags iff some offer carries it |
| Api.Distinct | src/utils/api.ts:65-68 | the `Set` built in insertion order has the same members and no repeats |
| Api.AllTags | src/utils/api.ts:64-70 | the value `getAllTags` returns is strictly increasing in the default string order, so sorted and duplicate-free, and a tag is in it iff some offer carries it (case-sensitive) |
| Api.AllTagsEmpty | src/utils/api.ts:64-70 | no offers, or offers without tags, give the empty list |
| Api.AllTagsDependsOnlyOnTagSet | src/utils/api.ts:64-70 | the tag list depends only on which tags occur, not on offer order or repeats |
| Api.AddOfferTags | src/utils/api.ts:67 | the inner loop adds one offer's tags so that the set holds the distinct tags seen so far, in first-seen order |
| Api.GetAllTags | src/utils/api.ts:64-70 | the nested loops plus the sort compute the strictly increasing list of exactly the tags some offer carries |
| Text.Less | src/utils/api.ts:69 | the default string order: `a` is before `b` iff `a` is a proper prefix of `b` or, at the first position where they differ, `a` has the smaller character |
| Text.LessTransitive | src/utils/api.ts:69 | the default string order is transitive |
| Text.LessTotal | src/utils/api.ts:69 | any two different strings are ordered one way or the other |
| Text.SortStrings | src/utils/api.ts:69 | the default `sort()` of strings returns a permutation of its input |
| Text.SortStringsIncreasing | src/utils/api.ts:69 | sorting a duplicate-free list gives a strictly increasing one |
| Text.StrictlyIncreasingUnique | src/utils/api.ts:69 | a strictly increasing list of strings is determined by its members |
| Text.NatToDecimalRoundTrip | src/components/OfferCard.tsx:186-188 | the digits of `${n}` read back as `n` |
| OffersList.RemoveAll | src/components/OffersList.tsx:29 | removing a tag drops every occurrence of it, keeps every other tag's count, and keeps the rest in order |
| OffersList.ToggleTag | src/components/OffersList.tsx:27-30 | the toggled tag's membership flips; every other tag keeps its membership, its count and its relative order; an absent tag is appended at the end; a present one is removed everywhere |
| OffersList.ToggleTwiceAbsent | src/components/OffersList.tsx:28-30 | toggling an absent tag twice restores the original list |
| OffersList.ToggleTwicePresent | src/components/OffersList.tsx:28-30 | toggling a present tag twice leaves it once, at the end |
| OffersList.PluralWord | src/components/OffersList.tsx:59-63 | `ofertę` iff the count is 1; `oferty` iff it is 0 or 2 to 4; `ofert` iff it is 5 or more |
| OffersList.FilterBadge | src/components/OffersList.tsx:103 | the badge reads `Filtry (n)` where the digits read back as the number of selected tags |
| OffersList.Ranked | src/components/OffersList.tsx:171-173 | card `i` in display order gets rank `i + 1` and shows the `i`-th offer |
| OffersList.ListView.constructor | src/components/OffersList.tsx:19-20 | the list starts sorted by rating, descending, with the tag panel closed |
| OffersList.ListView.Rerender | src/components/OffersList.tsx:13-18 | new `offers`, `availableTags` and `selectedTags` props replace the old ones while the sort mode, the panel state and the recorded changes are kept |
| OffersList.ListView.HandleSortChange | src/components/OffersList.tsx:22-25 | the mode becomes the chosen one and one `sort_change` event with that mode is logged |
| OffersList.ListView.HandleTagToggle | src/components/OffersList.tsx:27-38 | the toggled list goes to the parent and one `filter_change` event with amount 0, period 0 and that list is logged |
| OffersList.ListView.ClearFilters | src/components/OffersList.tsx:134-136 | the parent is given the empty list and nothing is logged |
| OffersList.ListView.ToggleTagFilter | src/components/OffersList.tsx:97 | the tag panel opens or closes, nothing else changes |
| OffersList.ListView.DisplayedOffers | src/components/OffersList.tsx:40-46 | the cards are a permutation of the offers, ordered by the current mode, stable, and ranked 1 to n |
| InputForm.IncrementAmount | src/components/InputForm.tsx:95-98 | up 500 but never above 150000 |
| InputForm.DecrementAmount | src/components/InputForm.tsx:100-103 | down 500 but never below 200 |
| InputForm.IncrementPeriod | src/components/InputForm.tsx:105-108 | up one month but never above 60 |
| InputForm.DecrementPeriod | src/components/InputForm.tsx:110-113 | down one month but never below 1 |
| InputForm.SteppersKeepRange | src/components/InputForm.tsx:95-113 | from a value in range, every stepper gives a value in range, moving at most one step |
| InputForm.SteppersUndo | src/components/InputForm.tsx:95-113 | away from the bounds a step down undoes a step up and the other way round |
| InputForm.SteppersStickAtBounds | src/components/InputForm.tsx:95-113 | at a bound, the stepper towards it keeps the value |
| InputForm.AmountError | src/components/InputForm.tsx:65-73 | the minimum message iff below 200, the maximum message iff above 150000, empty iff in range |
| InputForm.PeriodError | src/components/InputForm.tsx:75-83 | the same three-way rule on 1 to 60 months |
| InputForm.Form.constructor | src/components/InputForm.tsx:22-83 | after mount, once the validation effects have run, each error message is the one the initial value calls for; nothing has been forwarded yet |
| InputForm.Form.Rerender | src/components/InputForm.tsx:65-83 | after new props the two error messages are the ones the new values call for |
| InputForm.Form.HandleAmountChange | src/components/InputForm.tsx:85-88 | the raw value is forwarded whatever its validity and logged with the current period |
| InputForm.Form.HandlePeriodChange | src/components/InputForm.tsx:90-93 | the raw value is forwarded and logged with the current amount |
| InputForm.Form.IncrementAmountClick | src/components/InputForm.tsx:95-98 | forwards and logs the clamped increment |
| InputForm.Form.DecrementAmountClick | src/components/InputForm.tsx:100-103 | forwards and logs the clamped decrement |
| InputForm.Form.IncrementPeriodClick | src/components/InputForm.tsx:105-108 | forwards and logs the clamped increment |
| InputForm.Form.DecrementPeriodClick | src/components/InputForm.tsx:110-113 | forwards and logs the clamped decrement |
| OfferCard.JsRem20 | src/components/OfferCard.tsx:34 | JavaScript's remainder by 20: same sign as the dividend, smaller than 20 in size, and differing from it by a multiple of 20 |
| OfferCard.FullStars | src/components/OfferCard.tsx:33 | the floor of `rating / 20` |
| OfferCard.RenderStars | src/components/OfferCard.tsx:31-82 | exactly five slots; slot `i` is full iff `i < floor(rating/20)`, and half iff `i == floor(rating/20)` and `rating % 20 >= 10` |
| OfferCard.AtMostOneHalf | src/components/OfferCard.tsx:34-49 | at most one slot is half, and every slot before it is full |
| OfferCard.StarsDescend | src/components/OfferCard.tsx:36-80 | full slots come first, then at most one half, then empty ones |
| OfferCard.StarsMeasureRating | src/components/OfferCard.tsx:33-80 | for ratings 0 to 100 the stars show `floor(rating/10)` half stars |
| OfferCard.ExtremeRatings | src/components/OfferCard.tsx:33-80 | rating 100 gives five full stars, rating 0 five empty ones |
| OfferCard.PeriodLabel | src/components/OfferCard.tsx:186-188 | the label ends in ` mies.`; for non-negative bounds it has a dash iff the bounds differ |
| OfferCard.PeriodLabelReadsBack | src/components/OfferCard.tsx:186-188 | the digits before the dash, or before the suffix, read back as `minPeriod`, and those after the dash as `maxPeriod` |
| OfferCard.Card.constructor | src/components/OfferCard.tsx:11-12 | a card starts idle with no message and no pending callbacks |
| OfferCard.Card.ButtonText | src/components/OfferCard.tsx:203 | the button says `Przekierowywanie...` iff redirecting, else `Sprawdź ofertę` |
| OfferCard.Card.CtaClick | src/components/OfferCard.tsx:14-29 | while redirecting, a click changes nothing and logs nothing; otherwise it logs one `cta_click` with id, name and rate, starts redirecting and schedules one redirect callback |
| OfferCard.Card.RedirectTimerFires | src/components/OfferCard.tsx:24-27 | the 600 ms callback shows `Przekierowano do partnera: <name>`, ends redirecting and schedules the clear |
| OfferCard.Card.ClearTimerFires | src/components/OfferCard.tsx:27 | the 3000 ms callback clears the message |
| OfferCard.CtaCycle | src/components/OfferCard.tsx:14-29 | click, click again while redirecting, redirect, clear: one event logged and the card back to its initial state |
| App.ErrorMessageOf | src/App.tsx:37-41 | an `Error`'s own message, else the fallback `Nie udało się pobrać ofert. Spróbuj ponownie.` |
| App.FilteredView | src/App.tsx:45-48 | empty unless the load succeeded; otherwise exactly the loaded offers that pass the filter, in order |
| App.TagsView | src/App.tsx:50-53 | empty unless the load succeeded; otherwise exactly the tags some loaded offer carries, independent of amount, period and selection |
| App.ListedTagsAreAvailable | src/App.tsx:45-53 | every tag on a listed offer is among the available tags |
| App.AppState.constructor | src/App.tsx:13-19 | amount 5000, period 12, no tags, no offers, `idle`, empty error |
| App.AppState.LoadOffers | src/App.tsx:25-27 | from any state: `loading`, error cleared, one more fetch outstanding |
| App.AppState.Mount | src/App.tsx:21-23 | mounting starts exactly one load |
| App.AppState.HandleRetry | src/App.tsx:55-57 | a retry starts a load from whatever state |
| App.AppState.LoadSettled | src/App.tsx:29-42 | success stores the offers, sets `success` and logs `view_list` with their count; failure keeps the old offers, sets `error` and shows the normalised message |
| App.AppState.SetAmount | src/App.tsx:86 | a new amount starts no fetch and changes nothing else |
| App.AppState.SetPeriod | src/App.tsx:87 | a new period starts no fetch and changes nothing else |
| App.AppState.SetSelectedTags | src/App.tsx:101 | a new selection starts no fetch and changes nothing else |
| App.AppState.Render | src/App.tsx:90-103 | nothing when idle, the skeleton when loading, the error panel with the message on error, the list with the filtered offers and all tags on success |
| App.FormChangesKeepTags | src/App.tsx:45-53 | changing amount, period and tags leaves the tag list unchanged, re-filters the same loaded offers, and starts no fetch |
| App.RetryAfterFailure | src/App.tsx:21-57 | a failed first load followed by a successful retry ends on the list of the fetched offers with one `view_list` event |

## Left out

- `fetchOffers` (src/utils/api.ts:6-28) uses timers, randomness, the network and JSON. The
  model takes its outcome as an input (`App.FetchOutcome`): a list of offers, an `Error` with
  a message, or some other thrown value.
- The analytics module's storage, console output and timestamps are left out. An event is a
  value appended to `Types.EventLog`.
- `ErrorState`, `LoadingSkeleton`, all markup, styling and aria attributes, and the
  screen-reader live regions of the input form (src/components/InputForm.tsx:29-63) are not
  modelled. The live regions rely on DOM refs, a 50 ms timer and a forced reflow.
- Locale and fixed-point number formatting (`toLocaleString`, `toFixed`) is left out.
- Floating-point behaviour is left out: NaN, rounding, and `Number('')` becoming 0 in the
  input fields. Amounts, periods and ratings are integers and rates are reals.
- Real time and React scheduling are left out. Timer callbacks are separate events
  (`RedirectTimerFires`, `ClearTimerFires`, `LoadSettled`), and derived views are recomputed
  from the state. Any interleaving of overlapping loads can be expressed through the pending
  count. Two clicks delivered before React re-renders (so that both see the stale
  `isRedirecting`) are not modelled.
- The `offers || []` and `offers?.length || 0` guards in src/components/OffersList.tsx only
  matter for a missing `offers` prop. The model's `offers` is always a sequence.
- Api.AllTags: tags with characters outside the Basic Multilingual Plane are ordered by code
  point, not by UTF-16 surrogate code unit as JavaScript's default `sort()` orders them,
  because a Dafny `char` is a whole Unicode scalar value, not a UTF-16 code unit.
- Text.SortStrings: orders strings by code point, not by UTF-16 code unit, for the same reason.
- Text.Less: compares code points, not UTF-16 code units, for the same reason.
- Api.SortOffers: JavaScript's own sorting algorithm is not modelled. The model sorts by
  insertion, and `Api.SortedStableUnique` shows that every stable sort gives the same result.
- OffersList.ListView.DisplayedOffers: the list's inline comparator is the same expression as
  `sortOffers`'s, so the model reuses `Api.SortOffers` for it.
- OffersList.ListView.HandleTagToggle: the `selectedTags` prop changes only when the parent
  re-renders the list (`Rerender`); the handler records what it passes to `onTagsChange`.
- App.AppState.LoadSettled: which outstanding fetch settles is not tracked, only how many are
  outstanding.
