/** The events admin page (app/private/events/page.tsx): its `useState` variables as
    fields and its handlers as methods. loadData is split at its await:
    BeginLoad returns the request, FinishLoad takes what it resolved with.
    The effect that reloads after a change of page, search or country (after a
    500 ms debounce) is the caller's: it calls BeginLoad. */
module Events {
  import opened Js
  import opened AdminApi
  import opened ListPages

  class EventsPage {
    var events: Json
    var loading: bool
    var page: int
    var search: string
    var totalPages: Json
    var totalEvents: Option<Json>
    var selectedCountry: string

    ghost predicate Valid()
      reads this
    {
      page >= 1
    }

    /** The "none found" row. */
    predicate ShowsEmptyState()
      reads this
    {
      EmptyState(loading, events)
    }

    constructor()
      ensures Valid()
      ensures events == JArr([]) && loading && page == 1 && search == "" && totalPages == JNum(1)
      ensures totalEvents == Some(JNum(0)) && selectedCountry == ""
    {
      events := JArr([]);
      loading := true;
      page := 1;
      search := "";
      totalPages := JNum(1);
      totalEvents := Some(JNum(0));
      selectedCountry := "";
    }

    /** loadData up to its await: page `page` of 10 with the current search; the selected country is passed too, but the fetcher's signature drops it. */
    method BeginLoad() returns (call: Call)
      modifies this
      ensures call == FetchEvents(page, 10, search)
      ensures loading
      ensures events == old(events) && page == old(page) && search == old(search)
      ensures totalPages == old(totalPages) && totalEvents == old(totalEvents) && selectedCountry == old(selectedCountry)
    {
      loading := true;
      call := FetchEvents(page, 10, search);
    }

    /** The rest of loadData: the response is normalised, or the list is
        emptied when that throws; loading ends either way. */
    method FinishLoad(res: Json)
      modifies this
      ensures !loading
      ensures Normalise(res).Some? ==>
        && events == Normalise(res).value.items
        && totalPages == Normalise(res).value.totalPages
        && totalEvents == Normalise(res).value.total
      ensures Normalise(res).None? ==>
        events == JArr([]) && totalPages == old(totalPages) && totalEvents == old(totalEvents)
      ensures page == old(page) && search == old(search) && selectedCountry == old(selectedCountry)
    {
      var view := Normalise(res);
      if view.Some? {
        events := view.value.items;
        totalPages := view.value.totalPages;
        totalEvents := view.value.total;
      } else {
        events := JArr([]);
      }
      loading := false;
    }

    /** Typing in the search box: the text is kept and the page goes back to 1. */
    method SetSearch(value: string)
      modifies this
      ensures Valid()
      ensures search == value && page == 1
      ensures events == old(events) && loading == old(loading) && totalPages == old(totalPages)
      ensures totalEvents == old(totalEvents) && selectedCountry == old(selectedCountry)
    {
      search := value;
      page := 1;
    }

    /** Choosing a country: it is kept and the page goes back to 1. */
    method SelectCountry(country: string)
      modifies this
      ensures Valid()
      ensures selectedCountry == country && page == 1
      ensures events == old(events) && loading == old(loading) && search == old(search)
      ensures totalPages == old(totalPages) && totalEvents == old(totalEvents)
    {
      selectedCountry := country;
      page := 1;
    }

    /** The Previous button: a disabled button does nothing. */
    method PressPrevious()
      requires Valid()
      modifies this
      ensures Valid()
      ensures page == if PrevEnabled(old(page), old(loading)) then old(page) - 1 else old(page)
      ensures events == old(events) && loading == old(loading) && search == old(search)
      ensures totalPages == old(totalPages) && totalEvents == old(totalEvents) && selectedCountry == old(selectedCountry)
    {
      if PrevEnabled(page, loading) {
        page := page - 1;
      }
    }

    /** The Next button. */
    method PressNext()
      requires Valid()
      modifies this
      ensures Valid()
      ensures page == if NextEnabled(old(page), old(totalPages), old(loading)) then old(page) + 1 else old(page)
      ensures events == old(events) && loading == old(loading) && search == old(search)
      ensures totalPages == old(totalPages) && totalEvents == old(totalEvents) && selectedCountry == old(selectedCountry)
    {
      if NextEnabled(page, totalPages, loading) {
        page := page + 1;
      }
    }
  }
}
