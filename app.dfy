/** The application shell: the load-state machine around the offer fetch,
    the error message it shows, and the two views it derives from the
    loaded offers and the form state. */
module App {
  import opened Types
  import Api

  datatype LoadingState = Idle | Loading | Success | Error

  /** What a failed fetch threw: an `Error` with its message, or any other
      value. */
  datatype Thrown = ErrorValue(message: string) | OtherValue

  /** How one fetch ended. */
  datatype FetchOutcome = Fetched(offers: seq<Offer>) | Failed(thrown: Thrown)

  const FallbackMessage: string := "Nie udało się pobrać ofert. Spróbuj ponownie."

  /** `error instanceof Error ? error.message : <fallback>`. */
  function ErrorMessageOf(thrown: Thrown): (msg: string)
    ensures thrown.ErrorValue? ==> msg == thrown.message
    ensures thrown.OtherValue? ==> msg == FallbackMessage
  {
    match thrown
    case ErrorValue(m) => m
    case OtherValue => FallbackMessage
  }

  /** `filteredOffers`: nothing unless the load succeeded. */
  function FilteredView(state: LoadingState, allOffers: seq<Offer>, amount: int, period: int, selectedTags: seq<string>): (r: seq<Offer>)
    ensures state != Success ==> r == []
    ensures forall o :: o in r <==> state == Success && o in allOffers && Api.Matches(o, amount, period, selectedTags)
    ensures Api.IsSubsequence(r, allOffers)
  {
    if state != Success then [] else Api.FilterOffers(allOffers, amount, period, selectedTags)
  }

  /** `availableTags`: nothing unless the load succeeded; otherwise every tag
      of the unfiltered offers, sorted and without repeats. */
  function TagsView(state: LoadingState, allOffers: seq<Offer>): (r: seq<string>)
    ensures state != Success ==> r == []
    ensures forall t :: t in r <==> state == Success && Api.CarriesTag(allOffers, t)
  {
    if state != Success then []
    else Api.AllTags(allOffers)
  }

  /** Every tag on a listed offer is offered as a filter, whatever the form
      says: the tag list is built from the unfiltered offers. */
  lemma ListedTagsAreAvailable(state: LoadingState, allOffers: seq<Offer>, amount: int, period: int,
                               selectedTags: seq<string>, o: Offer, t: string)
    requires o in FilteredView(state, allOffers, amount, period, selectedTags) && t in o.tags
    ensures t in TagsView(state, allOffers)
  {
    assert Api.CarriesTag(allOffers, t);
  }

  /** What `App` renders below the form. */
  datatype Screen =
    | Blank
    | LoadingScreen
    | ErrorScreen(message: string)
    | ListScreen(offers: seq<Offer>, availableTags: seq<string>, selectedTags: seq<string>)

  /** The application state, with the fetches it has started and the ones
      whose outcome has not arrived yet. */
  class AppState {
    var amount: int
    var period: int
    var selectedTags: seq<string>
    var allOffers: seq<Offer>
    var loadingState: LoadingState
    var errorMessage: string
    var fetchesStarted: nat
    var fetchesPending: nat
    const log: EventLog

    /** `idle` only before the first fetch; `loading` only while some fetch
        is outstanding. */
    ghost predicate Valid()
      reads this
    {
      fetchesPending <= fetchesStarted &&
      (loadingState == Idle <==> fetchesStarted == 0) &&
      (loadingState == Loading ==> fetchesPending > 0)
    }

    /** The initial state, before the mount effect runs. */
    constructor (log: EventLog)
      ensures Valid()
      ensures amount == 5000 && period == 12 && selectedTags == []
      ensures allOffers == [] && loadingState == Idle && errorMessage == ""
      ensures fetchesStarted == 0 && fetchesPending == 0 && this.log == log
    {
      amount := 5000;
      period := 12;
      selectedTags := [];
      allOffers := [];
      loadingState := Idle;
      errorMessage := "";
      fetchesStarted := 0;
      fetchesPending := 0;
      this.log := log;
    }

    /** The synchronous part of `loadOffers`: whatever the current state,
        show the loading screen, clear the error and start a fetch. */
    method LoadOffers()
      requires Valid()
      modifies this
      ensures Valid()
      ensures loadingState == Loading && errorMessage == ""
      ensures fetchesStarted == old(fetchesStarted) + 1 && fetchesPending == old(fetchesPending) + 1
      ensures amount == old(amount) && period == old(period)
      ensures selectedTags == old(selectedTags) && allOffers == old(allOffers)
    {
      loadingState := Loading;
      errorMessage := "";
      fetchesStarted := fetchesStarted + 1;
      fetchesPending := fetchesPending + 1;
    }

    /** The mount effect: one load. */
    method Mount()
      requires Valid()
      modifies this
      ensures Valid()
      ensures loadingState == Loading && errorMessage == ""
      ensures fetchesStarted == old(fetchesStarted) + 1 && fetchesPending == old(fetchesPending) + 1
      ensures amount == old(amount) && period == old(period)
      ensures selectedTags == old(selectedTags) && allOffers == old(allOffers)
    {
      LoadOffers();
    }

    /** `handleRetry`: another load, from whatever state. */
    method HandleRetry()
      requires Valid()
      modifies this
      ensures Valid()
      ensures loadingState == Loading && errorMessage == ""
      ensures fetchesStarted == old(fetchesStarted) + 1 && fetchesPending == old(fetchesPending) + 1
      ensures amount == old(amount) && period == old(period)
      ensures selectedTags == old(selectedTags) && allOffers == old(allOffers)
    {
      LoadOffers();
    }

    /** The rest of `loadOffers`, when an outstanding fetch settles: on
        success store the offers and log how many; on failure keep the old
        offers and show the normalised message. */
    method LoadSettled(outcome: FetchOutcome)
      requires Valid() && fetchesPending > 0
      modifies this, log
      ensures Valid()
      ensures fetchesPending == old(fetchesPending) - 1 && fetchesStarted == old(fetchesStarted)
      ensures outcome.Fetched? ==>
                allOffers == outcome.offers && loadingState == Success &&
                errorMessage == old(errorMessage) &&
                log.events == old(log.events) + [ViewListEvent(|outcome.offers|)]
      ensures outcome.Failed? ==>
                allOffers == old(allOffers) && loadingState == Error &&
                errorMessage == ErrorMessageOf(outcome.thrown) &&
                log.events == old(log.events)
      ensures amount == old(amount) && period == old(period) && selectedTags == old(selectedTags)
    {
      fetchesPending := fetchesPending - 1;
      match outcome
      case Fetched(offers) =>
        allOffers := offers;
        loadingState := Success;
        log.LogEvent(ViewListEvent(|offers|));
      case Failed(thrown) =>
        loadingState := Error;
        errorMessage := ErrorMessageOf(thrown);
    }

    /** `onAmountChange`: a new amount, and no fetch. */
    method SetAmount(value: int)
      requires Valid()
      modifies this
      ensures Valid()
      ensures amount == value && period == old(period) && selectedTags == old(selectedTags)
      ensures allOffers == old(allOffers) && loadingState == old(loadingState)
      ensures errorMessage == old(errorMessage)
      ensures fetchesStarted == old(fetchesStarted) && fetchesPending == old(fetchesPending)
    {
      amount := value;
    }

    /** `onPeriodChange`: a new period, and no fetch. */
    method SetPeriod(value: int)
      requires Valid()
      modifies this
      ensures Valid()
      ensures period == value && amount == old(amount) && selectedTags == old(selectedTags)
      ensures allOffers == old(allOffers) && loadingState == old(loadingState)
      ensures errorMessage == old(errorMessage)
      ensures fetchesStarted == old(fetchesStarted) && fetchesPending == old(fetchesPending)
    {
      period := value;
    }

    /** `onTagsChange`: a new selection, and no fetch. */
    method SetSelectedTags(tags: seq<string>)
      requires Valid()
      modifies this
      ensures Valid()
      ensures selectedTags == tags && amount == old(amount) && period == old(period)
      ensures allOffers == old(allOffers) && loadingState == old(loadingState)
      ensures errorMessage == old(errorMessage)
      ensures fetchesStarted == old(fetchesStarted) && fetchesPending == old(fetchesPending)
    {
      selectedTags := tags;
    }

    function FilteredOffers(): seq<Offer>
      reads this
    {
      FilteredView(loadingState, allOffers, amount, period, selectedTags)
    }

    function AvailableTags(): seq<string>
      reads this
    {
      TagsView(loadingState, allOffers)
    }

    /** The loading skeleton, the error panel or the list, by state. */
    function Render(): (s: Screen)
      reads this
      ensures loadingState == Idle <==> s == Blank
      ensures loadingState == Loading <==> s == LoadingScreen
      ensures loadingState == Error <==> s == ErrorScreen(errorMessage)
      ensures loadingState == Success <==>
                s == ListScreen(FilteredOffers(), AvailableTags(), selectedTags)
    {
      match loadingState
      case Idle => Blank
      case Loading => LoadingScreen
      case Error => ErrorScreen(errorMessage)
      case Success => ListScreen(FilteredOffers(), AvailableTags(), selectedTags)
    }
  }

  /** Changing the form never changes the tag list, and changes the listed
      offers only through the filter. */
  method FormChangesKeepTags(app: AppState, amount: int, period: int, tags: seq<string>)
    requires app.Valid()
    modifies app
    ensures app.AvailableTags() == old(app.AvailableTags())
    ensures app.FilteredOffers() == FilteredView(old(app.loadingState), old(app.allOffers), amount, period, tags)
    ensures app.fetchesStarted == old(app.fetchesStarted)
  {
    app.SetAmount(amount);
    app.SetPeriod(period);
    app.SetSelectedTags(tags);
  }

  /** First load failing with a plain value, then a retry that succeeds:
      the error panel shows the fallback, then the list of what came back. */
  method RetryAfterFailure(log: EventLog, offers: seq<Offer>) returns (app: AppState)
    modifies log
    ensures app.Valid() && app.loadingState == Success && app.allOffers == offers
    ensures app.Render() == ListScreen(Api.FilterOffers(offers, 5000, 12, []), Api.AllTags(offers), [])
    ensures log.events == old(log.events) + [ViewListEvent(|offers|)]
  {
    app := new AppState(log);
    app.Mount();
    app.LoadSettled(Failed(OtherValue));
    assert app.Render() == ErrorScreen(FallbackMessage);
    app.HandleRetry();
    assert app.Render() == LoadingScreen;
    app.LoadSettled(Fetched(offers));
  }
}
