/** The browser Sentry setup (sentry.client.config.ts): initialisation is
    gated on NEXT_PUBLIC_SENTRY_DSN, and `beforeSend` removes the `token` and
    `code` query parameters from the page URL of every event. */
module SentryClient {
  import opened Js
  import opened SentryEvent

  /** Sentry.init runs exactly when the DSN is set. */
  predicate Initialises(publicDsn: Option<string>) {
    IsSet(publicDsn)
  }

  /** The query after both deletes. */
  function ScrubQuery(query: seq<(string, string)>): seq<(string, string)> {
    Without(Without(query, "token"), "code")
  }

  /** No `token` or `code` is left, every other parameter keeps its values
      in order, and a URL without either is left as it is. */
  lemma ScrubQueryProperties(query: seq<(string, string)>)
    ensures forall i :: 0 <= i < |ScrubQuery(query)| ==>
      ScrubQuery(query)[i].0 != "token" && ScrubQuery(query)[i].0 != "code"
    ensures forall other :: other != "token" && other != "code" ==> Only(ScrubQuery(query), other) == Only(query, other)
    ensures (forall i :: 0 <= i < |query| ==> query[i].0 != "token" && query[i].0 != "code") ==> ScrubQuery(query) == query
  {
    var once := Without(query, "token");
    WithoutRemoves(query, "token");
    WithoutRemoves(once, "code");
    WithoutMembers(once, "code");
    forall i | 0 <= i < |ScrubQuery(query)|
      ensures ScrubQuery(query)[i].0 != "token"
    {
      var p := ScrubQuery(query)[i];
      assert p in Without(once, "code");
      assert p in once;
      var j :| 0 <= j < |once| && once[j] == p;
    }
    forall other | other != "token" && other != "code"
      ensures Only(ScrubQuery(query), other) == Only(query, other)
    {
      WithoutKeepsOthers(once, "code", other);
      WithoutKeepsOthers(query, "token", other);
    }
    if forall i :: 0 <= i < |query| ==> query[i].0 != "token" && query[i].0 != "code" {
      WithoutAbsent(query, "token");
      WithoutAbsent(query, "code");
    }
  }

  /** The names beforeSend deletes. */
  const Scrubbed: set<string> := {"token", "code"}

  /** The scrubbed query is the original with every `token` and `code`
      pair dropped: the pairs it keeps sit in the original at strictly
      increasing positions, so the order across names is kept too, and
      every other pair of the original is among them. */
  lemma ScrubQueryKeepsOrder(query: seq<(string, string)>)
    ensures ScrubQuery(query) == WithoutAll(query, Scrubbed)
    ensures var at := KeptIndices(query, Scrubbed);
      && |at| == |ScrubQuery(query)|
      && (forall k :: 0 <= k < |at| ==> at[k] < |query| && query[at[k]] == ScrubQuery(query)[k])
      && (forall k, k' :: 0 <= k < k' < |at| ==> at[k] < at[k'])
      && (forall j :: 0 <= j < |query| && query[j].0 !in Scrubbed ==> j in at)
  {
    WithoutNone(query);
    WithoutAfterWithoutAll(query, {}, "token");
    WithoutAfterWithoutAll(query, {"token"}, "code");
    assert {} + {"token"} == {"token"};
    assert {"token"} + {"code"} == Scrubbed;
    KeptIndicesEmbed(query, Scrubbed);
  }

  lemma {:induction false} WithoutMembers(list: seq<(string, string)>, name: string)
    ensures forall p :: p in Without(list, name) ==> p in list
    decreases |list|
  {
    if list != [] {
      WithoutMembers(list[1..], name);
    }
  }

  /** beforeSend: an event with a page URL has it rewritten with the two
      parameters deleted; anything else about the event is left alone, and
      the event itself is always returned. */
  method BeforeSend(event: Event) returns (r: Event)
    modifies if event.request != null then {event.request} else {}
    ensures r == event && event.request == old(event.request)
    ensures event.request != null ==> event.request.headers == old(event.request.headers)
    ensures event.request != null && old(event.request.url).Some? ==>
      event.request.url == Some(old(event.request.url).value.(query := ScrubQuery(old(event.request.url).value.query)))
    ensures event.request != null && old(event.request.url).None? ==> event.request.url == None
  {
    var request := event.request;
    if request != null && request.url.Some? {
      var url := request.url.value;
      var params := new SearchParams(url.query);
      params.Delete("token");
      params.Delete("code");
      request.url := Some(url.(query := params.list));
    }
    return event;
  }
}
