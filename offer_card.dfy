/** One offer card: the five rating stars, the period label, and the
    call-to-action button with its redirect and clear-message timers. */
module OfferCard {
  import opened Types
  import Text

  // ----------------------------------------------------------------- stars

  datatype Star = Full | Half | Empty

  /** JavaScript's `rating % 20`: the remainder of division truncated
      toward zero, so it takes the sign of the dividend. */
  function JsRem20(a: int): (r: int)
    ensures a >= 0 ==> 0 <= r < 20
    ensures a < 0 ==> -20 < r <= 0
    ensures (a - r) % 20 == 0
  {
    if a >= 0 then a % 20 else -((-a) % 20)
  }

  /** `Math.floor(rating / 20)`: the number of whole stars. */
  function FullStars(rating: int): (n: int)
    ensures 20 * n <= rating < 20 * (n + 1)
  {
    rating / 20
  }

  /** `rating % 20 >= 10`: the remainder earns half a star. */
  predicate HasHalfStar(rating: int) {
    JsRem20(rating) >= 10
  }

  /** The classification of slot `i`, in the order the loop tests it. */
  function StarAt(rating: int, i: int): Star {
    if i < FullStars(rating) then Full
    else if i == FullStars(rating) && HasHalfStar(rating) then Half
    else Empty
  }

  /** The five slots as a value. */
  function Stars(rating: int): seq<Star> {
    [StarAt(rating, 0), StarAt(rating, 1), StarAt(rating, 2), StarAt(rating, 3), StarAt(rating, 4)]
  }

  /** `renderStars`: five pushes, one per slot. */
  method RenderStars(rating: int) returns (stars: seq<Star>)
    ensures |stars| == 5
    ensures forall i :: 0 <= i < 5 ==> (stars[i] == Full <==> i < FullStars(rating))
    ensures forall i :: 0 <= i < 5 ==> (stars[i] == Half <==> i == FullStars(rating) && HasHalfStar(rating))
    ensures stars == Stars(rating)
  {
    var fullStars := rating / 20;
    var hasHalfStar := JsRem20(rating) >= 10;
    stars := [];
    for i := 0 to 5
      invariant |stars| == i
      invariant forall k :: 0 <= k < i ==> stars[k] == StarAt(rating, k)
    {
      if i < fullStars {
        stars := stars + [Full];
      } else if i == fullStars && hasHalfStar {
        stars := stars + [Half];
      } else {
        stars := stars + [Empty];
      }
    }
  }

  /** At most one slot is a half star, and it follows the full ones. */
  lemma AtMostOneHalf(rating: int, i: int, j: int)
    requires 0 <= i < 5 && 0 <= j < 5
    requires Stars(rating)[i] == Half && Stars(rating)[j] == Half
    ensures i == j
    ensures forall k :: 0 <= k < i ==> Stars(rating)[k] == Full
  {
  }

  /** The stars never go back up: full, then at most one half, then empty. */
  lemma StarsDescend(rating: int, i: int, j: int)
    requires 0 <= i < j < 5
    ensures Stars(rating)[j] == Full ==> Stars(rating)[i] == Full
    ensures Stars(rating)[j] == Half ==> Stars(rating)[i] == Full
    ensures Stars(rating)[i] == Empty ==> Stars(rating)[j] == Empty
  {
  }

  /** For ratings in 0..100, the stars shown are the rating rounded down to
      a multiple of ten, counted in half stars. */
  lemma StarsMeasureRating(rating: int)
    requires 0 <= rating <= 100
    ensures HalfPoints(Stars(rating)) == rating / 10
  {
    var s := Stars(rating);
    assert HalfPoints(s) == HalfPoints(s[..4]) + Points(s[4]);
    assert HalfPoints(s[..4]) == HalfPoints(s[..3]) + Points(s[3]) by {
      assert s[..4][..3] == s[..3];
    }
    assert HalfPoints(s[..3]) == HalfPoints(s[..2]) + Points(s[2]) by {
      assert s[..3][..2] == s[..2];
    }
    assert HalfPoints(s[..2]) == HalfPoints(s[..1]) + Points(s[1]) by {
      assert s[..2][..1] == s[..1];
    }
    assert HalfPoints(s[..1]) == Points(s[0]) by {
      assert s[..1][..0] == [];
    }
  }

  function Points(s: Star): nat {
    match s
    case Full => 2
    case Half => 1
    case Empty => 0
  }

  /** The number of half stars a row of slots shows. */
  function HalfPoints(stars: seq<Star>): nat
    decreases |stars|
  {
    if stars == [] then 0 else HalfPoints(stars[..|stars| - 1]) + Points(stars[|stars| - 1])
  }

  lemma ExtremeRatings()
    ensures Stars(100) == [Full, Full, Full, Full, Full]
    ensures Stars(0) == [Empty, Empty, Empty, Empty, Empty]
  {
  }

  // ----------------------------------------------------------- period label

  const MonthsSuffix: string := " mies."

  /** `${minPeriod} mies.` when the bounds agree, else `${minPeriod}-${maxPeriod} mies.`. */
  function PeriodLabel(offer: Offer): (text: string)
    ensures |text| > |MonthsSuffix| && text[|text| - |MonthsSuffix|..] == MonthsSuffix
    ensures offer.minPeriod >= 0 && offer.maxPeriod >= 0 ==>
              ('-' in text <==> offer.minPeriod != offer.maxPeriod)
  {
    var lo := Text.IntToDecimal(offer.minPeriod);
    var text := if offer.minPeriod == offer.maxPeriod then lo + MonthsSuffix
                else lo + "-" + Text.IntToDecimal(offer.maxPeriod) + MonthsSuffix;
    if offer.minPeriod >= 0 && offer.maxPeriod >= 0 then
      if offer.minPeriod == offer.maxPeriod then
        assert forall k :: 0 <= k < |lo| ==> text[k] == lo[k];
        text
      else
        assert text[|lo|] == '-';
        text
    else text
  }

  /** For non-negative bounds the label reads back as the bounds: the digits
      before the dash (or before the suffix) are `minPeriod`, those after
      the dash are `maxPeriod`. */
  lemma PeriodLabelReadsBack(offer: Offer)
    requires offer.minPeriod >= 0 && offer.maxPeriod >= 0
    ensures var text := PeriodLabel(offer);
            var n := |Text.NatToDecimal(offer.minPeriod)|;
            var end := |text| - |MonthsSuffix|;
            n <= end &&
            Text.AllDigits(text[..n]) && Text.DecimalValue(text[..n]) == offer.minPeriod &&
            (offer.minPeriod == offer.maxPeriod <==> n == end) &&
            (n < end ==> text[n] == '-' && Text.AllDigits(text[n + 1..end]) &&
                         Text.DecimalValue(text[n + 1..end]) == offer.maxPeriod)
  {
    var text := PeriodLabel(offer);
    var lo := Text.NatToDecimal(offer.minPeriod);
    var hi := Text.NatToDecimal(offer.maxPeriod);
    Text.NatToDecimalRoundTrip(offer.minPeriod);
    Text.NatToDecimalRoundTrip(offer.maxPeriod);
    if offer.minPeriod == offer.maxPeriod {
      assert text == lo + MonthsSuffix;
      assert text[..|lo|] == lo;
    } else {
      assert text == lo + "-" + hi + MonthsSuffix;
      assert text[..|lo|] == lo;
      assert text[|lo| + 1..|text| - |MonthsSuffix|] == hi;
    }
  }

  // ------------------------------------------------------------ CTA button

  const RedirectPrefix: string := "Przekierowano do partnera: "

  /** One mounted `OfferCard`. The two `setTimeout` continuations are
      counted, not timed: `redirectTimers` 600 ms callbacks and
      `clearTimers` 3000 ms callbacks are scheduled and not yet run. */
  class Card {
    const offer: Offer
    const rank: int
    const log: EventLog
    var isRedirecting: bool
    var redirectMessage: string
    var redirectTimers: nat
    var clearTimers: nat

    /** While redirecting exactly one redirect callback is pending, and
        none otherwise: the guard keeps clicks from stacking them. */
    ghost predicate Valid()
      reads this
    {
      redirectTimers == if isRedirecting then 1 else 0
    }

    constructor (offer: Offer, rank: int, log: EventLog)
      ensures Valid()
      ensures this.offer == offer && this.rank == rank && this.log == log
      ensures !isRedirecting && redirectMessage == "" && clearTimers == 0
    {
      this.offer := offer;
      this.rank := rank;
      this.log := log;
      isRedirecting := false;
      redirectMessage := "";
      redirectTimers := 0;
      clearTimers := 0;
    }

    /** The button text; the button is disabled while it says so. */
    function ButtonText(): (text: string)
      reads this
      ensures isRedirecting <==> text == "Przekierowywanie..."
      ensures !isRedirecting <==> text == "Sprawdź ofertę"
    {
      if isRedirecting then "Przekierowywanie..." else "Sprawdź ofertę"
    }

    /** `handleCtaClick`: ignored while redirecting; otherwise logs the
        click once, marks the card as redirecting and schedules the
        redirect callback. */
    method CtaClick()
      requires Valid()
      modifies this, log
      ensures Valid()
      ensures old(isRedirecting) ==>
                log.events == old(log.events) && isRedirecting &&
                redirectMessage == old(redirectMessage) &&
                redirectTimers == old(redirectTimers) && clearTimers == old(clearTimers)
      ensures !old(isRedirecting) ==>
                log.events == old(log.events) + [CtaClickEvent(offer.id, offer.name, offer.apr)] &&
                isRedirecting && redirectMessage == old(redirectMessage) &&
                redirectTimers == old(redirectTimers) + 1 && clearTimers == old(clearTimers)
    {
      if isRedirecting {
        return;
      }
      log.LogEvent(CtaClickEvent(offer.id, offer.name, offer.apr));
      isRedirecting := true;
      redirectTimers := redirectTimers + 1;
    }

    /** The 600 ms callback: shows the message, ends redirecting and
        schedules the clear. */
    method RedirectTimerFires()
      requires Valid() && redirectTimers > 0
      modifies this
      ensures Valid()
      ensures redirectMessage == RedirectPrefix + offer.name
      ensures !isRedirecting
      ensures redirectTimers == old(redirectTimers) - 1
      ensures clearTimers == old(clearTimers) + 1
    {
      redirectMessage := RedirectPrefix + offer.name;
      isRedirecting := false;
      redirectTimers := redirectTimers - 1;
      clearTimers := clearTimers + 1;
    }

    /** The 3000 ms callback: clears whatever message is shown. */
    method ClearTimerFires()
      requires Valid() && clearTimers > 0
      modifies this
      ensures Valid()
      ensures redirectMessage == ""
      ensures isRedirecting == old(isRedirecting)
      ensures redirectTimers == old(redirectTimers)
      ensures clearTimers == old(clearTimers) - 1
    {
      redirectMessage := "";
      clearTimers := clearTimers - 1;
    }
  }

  /** A whole cycle on a fresh card: a click, a second click while
      redirecting, the redirect callback, then the clear callback. Exactly
      one click is logged and the card ends as it started. */
  method CtaCycle(offer: Offer, log: EventLog) returns (card: Card)
    modifies log
    ensures log.events == old(log.events) + [CtaClickEvent(offer.id, offer.name, offer.apr)]
    ensures card.Valid() && !card.isRedirecting && card.redirectMessage == ""
    ensures card.redirectTimers == 0 && card.clearTimers == 0
  {
    card := new Card(offer, 1, log);
    card.CtaClick();
    card.CtaClick();
    card.RedirectTimerFires();
    assert card.redirectMessage == RedirectPrefix + offer.name;
    card.ClearTimerFires();
  }
}
