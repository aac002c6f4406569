/** The posts admin page (app/private/posts/page.tsx): its `useState` variables as
    fields and its handlers as methods. loadData is split at its await:
    BeginLoad returns the request, FinishLoad takes what it resolved with.
    The effect that reloads after a change of page or search (after a
    500 ms debounce) is the caller's: it calls BeginLoad. */
module Posts {
  import opened Js
  import opened AdminApi
  import opened ListPages

  class PostsPage {
    var posts: Json
    var loading: bool
    var page: int
    var search: string
    var totalPages: Json
    var totalPosts: Option<Json>

    ghost predicate Valid()
      reads this
    {
      page >= 1
    }

    /** The "none found" row. */
    predicate ShowsEmptyState()
      reads this
    {
      EmptyState(loading, posts)
    }

    constructor()
      ensures Valid()
      ensures posts == JArr([]) && loading && page == 1 && search == "" && totalPages == JNum(1)
      ensures totalPosts == Some(JNum(0))
    {
      posts := JArr([]);
      loading := true;
      page := 1;
      search := "";
      totalPages := JNum(1);
      totalPosts := Some(JNum(0));
    }

    /** loadData up to its await: page `page` of 10 with the current search. */
    method BeginLoad() returns (call: Call)
      modifies this
      ensures call == FetchPosts(page, 10, search)
      ensures loading
      ensures posts == old(posts) && page == old(page) && search == old(search)
      ensures totalPages == old(totalPages) && totalPosts == old(totalPosts)
    {
      loading := true;
      call := FetchPosts(page, 10, search);
    }

    /** The rest of loadData: the response is normalised, or the list is
        emptied when that throws; loading ends either way. */
    method FinishLoad(res: Json)
      modifies this
      ensures !loading
      ensures Normalise(res).Some? ==>
        && posts == Normalise(res).value.items
        && totalPages == Normalise(res).value.totalPages
        && totalPosts == Normalise(res).value.total
      ensures Normalise(res).None? ==>
        posts == JArr([]) && totalPages == old(totalPages) && totalPosts == old(totalPosts)
      ensures page == old(page) && search == old(search)
    {
      var view := Normalise(res);
      if view.Some? {
        posts := view.value.items;
        totalPages := view.value.totalPages;
        totalPosts := view.value.total;
      } else {
        posts := JArr([]);
      }
      loading := false;
    }

    /** Typing in the search box: the text is kept and the page goes back to 1. */
    method SetSearch(value: string)
      modifies this
      ensures Valid()
      ensures search == value && page == 1
      ensures posts == old(posts) && loading == old(loading) && totalPages == old(totalPages)
      ensures totalPosts == old(totalPosts)
    {
      search := value;
      page := 1;
    }

    /** The Previous button: a disabled button does nothing. */
    method PressPrevious()
      requires Valid()
      modifies this
      ensures Valid()
      ensures page == if PrevEnabled(old(page), old(loading)) then old(page) - 1 else old(page)
      ensures posts == old(posts) && loading == old(loading) && search == old(search)
      ensures totalPages == old(totalPages) && totalPosts == old(totalPosts)
    {
      if PrevEnabled(page, loading) {
        page := page - 1;
      }
    }

    /** The Next button. */
    method PressNext()
      requires Valid()
      modifies this
      ensures Valid()
      ensures page == if NextEnabled(old(page), old(totalPages), old(loading)) then old(page) + 1 else old(page)
      ensures posts == old(posts) && loading == old(loading) && search == old(search)
      ensures totalPages == old(totalPages) && totalPosts == old(totalPosts)
    {
      if NextEnabled(page, totalPages, loading) {
        page := page + 1;
      }
    }
  }
}
