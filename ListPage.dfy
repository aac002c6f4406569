/** What the admin list pages (garages, groups, events, posts) share: the
    normalisation of a list response, the pager guards, the empty-state
    test, and the garages page's comma-separated services field. */
module ListPages {
  import opened Js
  import AdminApi

  /** The three state variables loadData sets from a response: the rows,
      `totalPages` and the total count (which may be `undefined`). */
  datatype ListView = ListView(items: Json, totalPages: Json, total: Option<Json>)

  /** The body of loadData's `try`:
        data = Array.isArray(res) ? res : (res.data || [])
        meta = !Array.isArray(res) && res.meta ? res.meta : {totalPages: 1, total: data.length}
        totalPages = meta.totalPages || 1;  total = meta.total || data.length
      None when reading `res.data` throws, which happens for `null` only. */
  function Normalise(res: Json): (r: Option<ListView>)
    ensures r.None? <==> res == JNull
    ensures r.Some? ==> Truthy(Some(r.value.totalPages))
  {
    if res == JNull then None
    else
      var data := if res.JArr? then res else if Truthy(Get(res, "data")) then Get(res, "data").value else JArr([]);
      var meta := if !res.JArr? && Truthy(Get(res, "meta")) then Get(res, "meta") else None;
      var totalPages :=
        if meta.Some? && Truthy(Get(meta.value, "totalPages")) then Get(meta.value, "totalPages").value else JNum(1);
      var total := if meta.Some? then Or(Get(meta.value, "total"), Length(data)) else Length(data);
      Some(ListView(data, totalPages, total))
  }

  /** A bare array is the list itself, on one page, counted by its length. */
  lemma NormaliseArray(xs: seq<Json>)
    ensures Normalise(JArr(xs)) == Some(ListView(JArr(xs), JNum(1), Some(JNum(|xs|))))
  {
  }

  /** The paginated envelope is read field by field. */
  lemma NormaliseEnvelope(xs: seq<Json>, pages: int, total: int)
    requires pages != 0 && total != 0
    ensures var res := JObj(map["data" := JArr(xs), "meta" := JObj(map["totalPages" := JNum(pages), "total" := JNum(total)])]);
      Normalise(res) == Some(ListView(JArr(xs), JNum(pages), Some(JNum(total))))
  {
  }

  /** Zero counts in `meta` are falsy: one page, and the total is the number of rows. */
  lemma NormaliseZeroMeta(xs: seq<Json>)
    ensures var res := JObj(map["data" := JArr(xs), "meta" := JObj(map["totalPages" := JNum(0), "total" := JNum(0)])]);
      Normalise(res) == Some(ListView(JArr(xs), JNum(1), Some(JNum(|xs|))))
  {
  }

  /** A body without `data` gives no rows, and without `meta` one page. */
  lemma NormaliseMissingFields(fields: map<string, Json>)
    requires "data" !in fields && "meta" !in fields
    ensures Normalise(JObj(fields)) == Some(ListView(JArr([]), JNum(1), Some(JNum(0))))
  {
  }

  /** Any body that is an object: the rows are its `data` when truthy and
      `[]` otherwise; with a truthy `meta`, the page count is its truthy
      `totalPages` or 1 and the total is `meta.total || rows.length`;
      without one, one page and `rows.length`. */
  lemma NormaliseObject(fields: map<string, Json>)
    ensures var r := Normalise(JObj(fields));
      var items := if "data" in fields && Truthy(Some(fields["data"])) then fields["data"] else JArr([]);
      var hasMeta := "meta" in fields && Truthy(Some(fields["meta"]));
      && r.Some?
      && r.value.items == items
      && r.value.totalPages ==
           (if hasMeta && Truthy(Get(fields["meta"], "totalPages")) then Get(fields["meta"], "totalPages").value else JNum(1))
      && r.value.total == (if hasMeta then Or(Get(fields["meta"], "total"), Length(items)) else Length(items))
  {
  }

  /** A `{data: [...], meta: {...}}` body, for every `meta` object: the rows
      as sent, `totalPages` when truthy and 1 otherwise, `total` when truthy
      and the number of rows otherwise. */
  lemma NormaliseEnvelopeOf(xs: seq<Json>, meta: map<string, Json>)
    ensures var res := JObj(map["data" := JArr(xs), "meta" := JObj(meta)]);
      Normalise(res) == Some(ListView(
        JArr(xs),
        if "totalPages" in meta && Truthy(Some(meta["totalPages"])) then meta["totalPages"] else JNum(1),
        Some(if "total" in meta && Truthy(Some(meta["total"])) then meta["total"] else JNum(|xs|))))
  {
    var fields := map["data" := JArr(xs), "meta" := JObj(meta)];
    assert "data" != "meta";
    NormaliseObject(fields);
  }

  /** `{data: [...]}` without `meta`: one page, counted by its rows. */
  lemma NormaliseDataOnly(xs: seq<Json>)
    ensures Normalise(JObj(map["data" := JArr(xs)])) == Some(ListView(JArr(xs), JNum(1), Some(JNum(|xs|))))
  {
    NormaliseObject(map["data" := JArr(xs)]);
  }

  /** A page count without a total: the total is the number of rows. */
  lemma NormalisePagesOnly(xs: seq<Json>, pages: int)
    requires pages != 0
    ensures var res := JObj(map["data" := JArr(xs), "meta" := JObj(map["totalPages" := JNum(pages)])]);
      Normalise(res) == Some(ListView(JArr(xs), JNum(pages), Some(JNum(|xs|))))
  {
    NormaliseEnvelopeOf(xs, map["totalPages" := JNum(pages)]);
  }

  /** A number, string or boolean body has no `data` and no `meta`: an
      empty first page. */
  lemma NormaliseScalar(res: Json)
    requires res.JNum? || res.JStr? || res.JBool?
    ensures Normalise(res) == Some(ListView(JArr([]), JNum(1), Some(JNum(0))))
  {
  }

  /** The list fetchers' fallback shows as an empty first page, and no
      value a list fetcher resolves with makes loadData throw. */
  lemma FallbackNormalises(call: AdminApi.Call, outcome: AdminApi.Outcome)
    requires call.IsList()
    ensures Normalise(AdminApi.ListFallback) == Some(ListView(JArr([]), JNum(1), Some(JNum(0))))
    ensures Normalise(AdminApi.Resolve(call, outcome)).Some?
  {
    AdminApi.ListResultNotNull(call, outcome);
  }

  // ---------------------------------------------------------------------
  // Pager and empty state

  /** Previous is enabled unless `page <= 1 || loading`. */
  predicate PrevEnabled(page: int, loading: bool) {
    !(page <= 1 || loading)
  }

  /** Next is enabled unless `page >= totalPages || loading`. */
  predicate NextEnabled(page: int, totalPages: Json, loading: bool) {
    !(GreaterOrEqual(page, totalPages) || loading)
  }

  /** Enabled buttons keep the page at least 1 and never step past a
      numeric `totalPages`; nothing is enabled while loading. */
  lemma PagerStaysInRange(page: int, totalPages: Json, loading: bool)
    ensures PrevEnabled(page, loading) ==> page - 1 >= 1
    ensures NextEnabled(page, totalPages, loading) && ToNumber(totalPages).Some? ==>
      page + 1 <= ToNumber(totalPages).value
    ensures loading ==> !PrevEnabled(page, loading) && !NextEnabled(page, totalPages, loading)
    ensures totalPages == JNum(1) && page >= 1 ==> !NextEnabled(page, totalPages, loading)
  {
  }

  /** `!loading && items.length === 0` */
  predicate EmptyState(loading: bool, items: Json) {
    !loading && Length(items) == Some(JNum(0))
  }

  lemma EmptyStateOfArray(loading: bool, xs: seq<Json>)
    ensures EmptyState(loading, JArr(xs)) <==> !loading && xs == []
  {
  }

  // ---------------------------------------------------------------------
  // The services field of the garage editor

  /** `.map(s => s.trim()).filter(Boolean)` */
  function Clean(pieces: seq<string>): (r: seq<string>)
    ensures forall i :: 0 <= i < |r| ==> r[i] != "" && Trimmed(r[i])
    ensures |r| <= |pieces|
  {
    if pieces == [] then []
    else
      var t := Trim(pieces[0]);
      (if t != "" then [t] else []) + Clean(pieces[1..])
  }

  /** A trimmed piece has no character the piece did not have. */
  lemma TrimKeeps(s: string, c: char)
    requires c !in s
    ensures c !in Trim(s)
  {
    TrimIsSlice(s);
    var i := |s| - |TrimStart(s)|;
    NotInSlice(s, i, i + |Trim(s)|, c);
  }

  lemma NotInSlice(s: string, i: nat, j: nat, c: char)
    requires i <= j <= |s| && c !in s
    ensures c !in s[i..j]
  {
    forall k | i <= k < j ensures s[k] != c {
      assert s[k] in s;
    }
  }

  lemma {:induction false} CleanKeeps(pieces: seq<string>, c: char)
    requires forall i :: 0 <= i < |pieces| ==> c !in pieces[i]
    ensures forall i :: 0 <= i < |Clean(pieces)| ==> c !in Clean(pieces)[i]
    decreases |pieces|
  {
    if pieces != [] {
      TrimKeeps(pieces[0], c);
      CleanKeeps(pieces[1..], c);
    }
  }

  /** `editForm.services.split(",").map(s => s.trim()).filter(Boolean)`:
      only non-empty, trimmed service names without commas. */
  function ParseServices(s: string): (r: seq<string>)
    ensures forall i :: 0 <= i < |r| ==> r[i] != "" && Trimmed(r[i]) && ',' !in r[i]
  {
    var pieces := Split(s, ',');
    CleanKeeps(pieces, ',');
    Clean(pieces)
  }

  /** A space after the separator does not change the cleaned pieces. */
  lemma CleanLeadingSpace(t: string)
    ensures Clean(Split(" " + t, ',')) == Clean(Split(t, ','))
  {
    var s := " " + t;
    assert s[1..] == t;
    var rest := Split(t, ',');
    assert Split(s, ',') == [" " + rest[0]] + rest[1..];
    TrimLeadingSpace(rest[0]);
    assert rest == [rest[0]] + rest[1..];
  }

  lemma CleanCons(x: string, pieces: seq<string>)
    requires x != "" && Trimmed(x)
    ensures Clean([x] + pieces) == [x] + Clean(pieces)
  {
    TrimOfTrimmed(x);
    assert ([x] + pieces)[1..] == pieces;
  }

  /** One well-formed name, `, ` and the rest parse as that name first. */
  lemma ParseConsServices(x: string, tail: string)
    requires x != "" && Trimmed(x) && ',' !in x
    ensures ParseServices(x + ", " + tail) == [x] + ParseServices(tail)
  {
    assert x + ", " + tail == x + [','] + (" " + tail);
    SplitAfterPiece(x, ',', " " + tail);
    CleanCons(x, Split(" " + tail, ','));
    CleanLeadingSpace(tail);
  }

  /** What the editor shows, read back with ParseServices, is the list itself. */
  lemma {:induction false} ParseJoinedServices(xs: seq<string>)
    requires forall i :: 0 <= i < |xs| ==> xs[i] != "" && Trimmed(xs[i]) && ',' !in xs[i]
    ensures ParseServices(Join(xs, ", ")) == xs
    decreases |xs|
  {
    if |xs| == 0 {
      ParseEmptyServices();
    } else if |xs| == 1 {
      SplitWithout(xs[0], ',');
      TrimOfTrimmed(xs[0]);
      assert Clean([xs[0]]) == [xs[0]];
      assert ParseServices(xs[0]) == Clean(Split(xs[0], ','));
    } else {
      ParseConsServices(xs[0], Join(xs[1..], ", "));
      ParseJoinedServices(xs[1..]);
      assert [xs[0]] + xs[1..] == xs;
    }
  }

  lemma ParseEmptyServices()
    ensures ParseServices("") == []
  {
    var e: string := [];
    assert Split(e, ',') == [e] by {
      SplitWithout(e, ',');
    }
    assert Clean([e]) == [] by {
      assert |Trim(e)| == 0;
      assert [e][1..] == [];
    }
  }

  /** `garage.services?.join(", ") || ""`; None where `join` is not a
      function (a services value that is neither nullish nor an array). */
  function FormatServices(services: Option<Json>): Option<string> {
    match services
    case None => Some("")
    case Some(JNull) => Some("")
    case Some(JArr(items)) => Some(ArrayJoin(items, 0, ", "))
    case Some(_) => None
  }

  /** An array of strings joins like Join over the strings. */
  lemma {:induction false} ArrayJoinOfStrings(xs: seq<string>, i: nat)
    requires i <= |xs|
    ensures ArrayJoin(seq(|xs|, k requires 0 <= k < |xs| => JStr(xs[k])), i, ", ") == Join(xs[i..], ", ")
    decreases |xs| - i
  {
    var js := seq(|xs|, k requires 0 <= k < |xs| => JStr(xs[k]));
    if i < |xs| {
      ArrayJoinOfStrings(xs, i + 1);
      assert xs[i..][1..] == xs[i + 1..];
      assert (if js[i] == JNull then "" else JsonToString(js[i])) == xs[i];
    }
  }

  /** `services.join(", ")` on an array of strings. */
  lemma FormatStrings(xs: seq<string>)
    ensures FormatServices(Some(JArr(seq(|xs|, k requires 0 <= k < |xs| => JStr(xs[k])))))
      == Some(Join(xs, ", "))
  {
    ArrayJoinOfStrings(xs, 0);
    assert xs[0..] == xs;
  }

  /** Opening the editor and saving without touching the services field
      sends the garage's own service list back; missing services parse as
      an empty list. */
  lemma ServicesRoundTrip(xs: seq<string>)
    requires forall i :: 0 <= i < |xs| ==> xs[i] != "" && Trimmed(xs[i]) && ',' !in xs[i]
    ensures FormatServices(Some(JArr(seq(|xs|, k requires 0 <= k < |xs| => JStr(xs[k])))))
      == Some(Join(xs, ", "))
    ensures ParseServices(Join(xs, ", ")) == xs
    ensures FormatServices(None) == Some("") && ParseServices(FormatServices(None).value) == []
  {
    FormatStrings(xs);
    ParseJoinedServices(xs);
    ParseEmptyServices();
  }

}
