/** The server Sentry setup (sentry.server.config.ts): the DSN is SENTRY_DSN
    or else NEXT_PUBLIC_SENTRY_DSN, and `beforeSend` deletes the
    `authorization` and `cookie` request headers of every event. */
module SentryServer {
  import opened Js
  import opened SentryEvent

  /** `process.env.SENTRY_DSN || process.env.NEXT_PUBLIC_SENTRY_DSN` */
  function ServerDsn(sentryDsn: Option<string>, publicDsn: Option<string>): (dsn: Option<string>)
    ensures IsSet(sentryDsn) ==> dsn == sentryDsn
    ensures !IsSet(sentryDsn) ==> dsn == publicDsn
  {
    if IsSet(sentryDsn) then sentryDsn else publicDsn
  }

  /** Sentry.init runs when either variable is set. */
  lemma InitialisesWithEither(sentryDsn: Option<string>, publicDsn: Option<string>)
    ensures IsSet(ServerDsn(sentryDsn, publicDsn)) <==> IsSet(sentryDsn) || IsSet(publicDsn)
  {
  }

  /** The headers after both deletes: the two keys are gone and every other
      key keeps its value. */
  function ScrubHeaders(headers: map<string, string>): (h: map<string, string>)
    ensures "authorization" !in h && "cookie" !in h
    ensures h.Keys <= headers.Keys
    ensures forall k :: k in headers && k != "authorization" && k != "cookie" ==> k in h && h[k] == headers[k]
  {
    headers - {"authorization", "cookie"}
  }

  /** `delete` matches the key exactly: a header spelled with capitals survives. */
  lemma DeleteIsCaseSensitive(headers: map<string, string>)
    requires "Authorization" in headers
    ensures "Authorization" in ScrubHeaders(headers)
  {
    assert "Authorization" != "authorization" by {
      assert "Authorization"[0] != "authorization"[0];
    }
    assert "Authorization" != "cookie" by {
      assert "Authorization"[0] != "cookie"[0];
    }
  }

  /** beforeSend: an event with request headers loses the two keys in
      place; anything else about the event is left alone, and the event
      itself is always returned. */
  method BeforeSend(event: Event) returns (r: Event)
    modifies if event.request != null then {event.request} else {}
    ensures r == event && event.request == old(event.request)
    ensures event.request != null ==> event.request.url == old(event.request.url)
    ensures event.request != null && old(event.request.headers).Some? ==>
      event.request.headers == Some(ScrubHeaders(old(event.request.headers).value))
    ensures event.request != null && old(event.request.headers).None? ==> event.request.headers == None
  {
    var request := event.request;
    if request != null && request.headers.Some? {
      var headers := request.headers.value;
      headers := headers - {"authorization"};
      headers := headers - {"cookie"};
      assert headers == ScrubHeaders(request.headers.value);
      request.headers := Some(headers);
    }
    return event;
  }
}
