/** The records shared by every component: offers, sort options and analytics events. */
module Types {

  datatype Option<+T> = None | Some(value: T)

  /** One loan offer as it arrives from the offer feed. The annual rate is
      compared only, so it is a `real`; amounts, periods and the rating are
      whole numbers in this model. Nothing here enforces `minAmount <= maxAmount`
      or `minPeriod <= maxPeriod`. */
  datatype Offer = Offer(
    id: string,
    name: string,
    logo: string,
    apr: real,
    minAmount: int,
    maxAmount: int,
    minPeriod: int,
    maxPeriod: int,
    decision: string,
    tags: seq<string>,
    rating: int
  )

  /** `'apr-asc'` and `'rating-desc'`. */
  datatype SortOption = AprAsc | RatingDesc

  /** The closed set of analytics event names. */
  datatype EventName = ViewList | FilterChange | SortChange | ExpandOffer | CtaClick

  /** An analytics event with its parameter payload; one constructor per name.
      The timestamp the logger adds is not modelled. */
  datatype Event =
    | ViewListEvent(count: nat)
    | FilterChangeEvent(amount: int, period: int, tags: Option<seq<string>>)
    | SortChangeEvent(sortBy: SortOption)
    | ExpandOfferEvent(offerId: string, offerName: string)
    | CtaClickEvent(offerId: string, offerName: string, apr: real)
  {
    function Name(): EventName {
      match this
      case ViewListEvent(_) => ViewList
      case FilterChangeEvent(_, _, _) => FilterChange
      case SortChangeEvent(_) => SortChange
      case ExpandOfferEvent(_, _) => ExpandOffer
      case CtaClickEvent(_, _, _) => CtaClick
    }
  }

  /** The append-only analytics log that `logEvent` writes to. */
  class EventLog {
    var events: seq<Event>

    constructor ()
      ensures events == []
    {
      events := [];
    }

    method LogEvent(e: Event)
      modifies this
      ensures events == old(events) + [e]
    {
      events := events + [e];
    }
  }
}
