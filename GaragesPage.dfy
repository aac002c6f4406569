/** The garages admin page (app/private/garages/page.tsx): its `useState`
    variables as fields, and each handler as a method. A handler that
    awaits is split at the await: the first half returns the API call it
    makes, the second half takes what that call resolved with. The effect
    that reloads after a page change is the caller's: it calls BeginLoad. */
module Garages {
  import opened Js
  import opened AdminApi
  import opened ListPages

  /** The edit form; name and address are copied from the garage and may be `undefined`. */
  datatype EditForm = EditForm(name: Option<Json>, address: Option<Json>, services: string)

  /** The form startEdit fills in, or None when building it throws (`garage.name`
      on null, or `join` on a services value that is not an array). */
  function FormFor(garage: Json): (f: Option<EditForm>)
    ensures f.Some? <==> garage != JNull && FormatServices(Get(garage, "services")).Some?
    ensures f.Some? ==> f.value.name == Get(garage, "name") && f.value.address == Get(garage, "address")
  {
    if garage == JNull then None
    else
      match FormatServices(Get(garage, "services"))
      case None => None
      case Some(services) => Some(EditForm(Get(garage, "name"), Get(garage, "address"), services))
  }

  /** `garage._id || garage.id`, as it prints in the request path. */
  function GarageId(garage: Json): (id: string)
    ensures Truthy(Get(garage, "_id")) ==> id == ToJsString(Get(garage, "_id"))
    ensures !Truthy(Get(garage, "_id")) ==> id == ToJsString(Get(garage, "id"))
  {
    ToJsString(Or(Get(garage, "_id"), Get(garage, "id")))
  }

  /** A garage with a non-empty string `_id` is saved with a POST to
      `/garages/<_id>` carrying the body, and deleted with a POST to
      `/garages/<_id>/delete`. */
  lemma GarageTargetsItsId(client: Client, garage: Json, s: string, data: Json, enc: string -> string)
    requires Get(garage, "_id") == Some(JStr(s)) && s != ""
    ensures var save := RequestOf(client, UpdateGarage(GarageId(garage), data), enc);
      save.verb == HttpPost && save.url == ApiUrl(client.apiUrlEnv) + "/garages/" + s && save.body == Some(data)
    ensures var del := RequestOf(client, DeleteGarage(GarageId(garage)), enc);
      del.verb == HttpPost && del.url == ApiUrl(client.apiUrlEnv) + "/garages/" + s + "/delete"
  {
  }

  /** Without a truthy `_id` the string `id` is used instead; with neither,
      the path holds the text `undefined`. */
  lemma GarageFallsBackToId(garage: Json, t: string)
    requires !Truthy(Get(garage, "_id"))
    ensures Get(garage, "id") == Some(JStr(t)) ==> Path(DeleteGarage(GarageId(garage)), x => x) == "/garages/" + t + "/delete"
    ensures Get(garage, "id") == None ==> GarageId(garage) == "undefined"
  {
  }

  function Strings(xs: seq<string>): seq<Json> {
    seq(|xs|, k requires 0 <= k < |xs| => JStr(xs[k]))
  }

  /** The three keys of the update body are different strings. */
  lemma BodyKeysDistinct()
    ensures "name" != "address" && "name" != "services" && "address" != "services"
  {
    assert "name"[0] != "address"[0] && "name"[0] != "services"[0] && "address"[0] != "services"[0];
  }

  /** The fields of `{...editForm, services}`: the services always, name and
      address when they are defined. */
  function BodyFields(services: Json, name: Option<Json>, address: Option<Json>): (m: map<string, Json>)
    ensures "services" in m && m["services"] == services
    ensures "name" in m <==> name.Some?
    ensures "address" in m <==> address.Some?
  {
    BodyKeysDistinct();
    var named := if name.Some? then map["services" := services]["name" := name.value] else map["services" := services];
    if address.Some? then named["address" := address.value] else named
  }

  /** `{...editForm, services: servicesArray}` as JSON.stringify sends it:
      an `undefined` name or address is dropped. */
  function UpdateBody(form: EditForm): (body: Json)
    ensures body.JObj? && "services" in body.fields && body.fields["services"] == JArr(Strings(ParseServices(form.services)))
    ensures "name" in body.fields <==> form.name.Some?
    ensures "address" in body.fields <==> form.address.Some?
  {
    JObj(BodyFields(JArr(Strings(ParseServices(form.services))), form.name, form.address))
  }

  /** Saving an untouched editor sends the garage's own service list. */
  lemma UntouchedEditorKeepsServices(garage: Json, xs: seq<string>)
    requires garage.JObj? && Get(garage, "services") == Some(JArr(Strings(xs)))
    requires forall i :: 0 <= i < |xs| ==> xs[i] != "" && Trimmed(xs[i]) && ',' !in xs[i]
    ensures FormFor(garage).Some?
    ensures UpdateBody(FormFor(garage).value).fields["services"] == JArr(Strings(xs))
  {
    ServicesRoundTrip(xs);
    assert Strings(xs) == seq(|xs|, k requires 0 <= k < |xs| => JStr(xs[k]));
    assert FormatServices(Get(garage, "services")) == Some(Join(xs, ", "));
    var form := FormFor(garage).value;
    assert form.services == Join(xs, ", ");
    assert ParseServices(form.services) == xs;
  }

  class GaragesPage {
    var garages: Json
    var loading: bool
    var page: int
    var totalPages: Json
    var totalGarages: Option<Json>
    /** JNull while the editor is closed. */
    var editingGarage: Json
    var editForm: EditForm

    ghost predicate Valid()
      reads this
    {
      page >= 1
    }

    /** Is the editor open (`editingGarage &&`)? */
    predicate Editing()
      reads this
    {
      Truthy(Some(editingGarage))
    }

    constructor()
      ensures Valid()
      ensures garages == JArr([]) && loading && page == 1 && totalPages == JNum(1)
      ensures totalGarages == Some(JNum(0)) && editingGarage == JNull
      ensures editForm == EditForm(Some(JStr("")), Some(JStr("")), "")
    {
      garages := JArr([]);
      loading := true;
      page := 1;
      totalPages := JNum(1);
      totalGarages := Some(JNum(0));
      editingGarage := JNull;
      editForm := EditForm(Some(JStr("")), Some(JStr("")), "");
    }

    /** loadData up to its await: loading is set and page `page` of 10 is requested. */
    method BeginLoad() returns (call: Call)
      modifies this
      ensures call == FetchGarages(page, 10)
      ensures loading
      ensures garages == old(garages) && page == old(page) && totalPages == old(totalPages)
      ensures totalGarages == old(totalGarages) && editingGarage == old(editingGarage) && editForm == old(editForm)
    {
      loading := true;
      call := FetchGarages(page, 10);
    }

    /** The rest of loadData: the response is normalised, or the list is
        emptied when that throws; loading ends either way. */
    method FinishLoad(res: Json)
      modifies this
      ensures !loading
      ensures Normalise(res).Some? ==>
        && garages == Normalise(res).value.items
        && totalPages == Normalise(res).value.totalPages
        && totalGarages == Normalise(res).value.total
      ensures Normalise(res).None? ==>
        garages == JArr([]) && totalPages == old(totalPages) && totalGarages == old(totalGarages)
      ensures page == old(page) && editingGarage == old(editingGarage) && editForm == old(editForm)
    {
      var view := Normalise(res);
      if view.Some? {
        garages := view.value.items;
        totalPages := view.value.totalPages;
        totalGarages := view.value.total;
      } else {
        garages := JArr([]);
      }
      loading := false;
    }

    /** The Previous button: a disabled button does nothing. */
    method PressPrevious()
      requires Valid()
      modifies this
      ensures Valid()
      ensures page == if PrevEnabled(old(page), old(loading)) then old(page) - 1 else old(page)
      ensures garages == old(garages) && loading == old(loading) && totalPages == old(totalPages)
      ensures totalGarages == old(totalGarages) && editingGarage == old(editingGarage) && editForm == old(editForm)
    {
      if PrevEnabled(page, loading) {
        page := page - 1;
      }
    }

    /** The Next button. */
    method PressNext()
      requires Valid()
      modifies this
      ensures Valid()
      ensures page == if NextEnabled(old(page), old(totalPages), old(loading)) then old(page) + 1 else old(page)
      ensures garages == old(garages) && loading == old(loading) && totalPages == old(totalPages)
      ensures totalGarages == old(totalGarages) && editingGarage == old(editingGarage) && editForm == old(editForm)
    {
      if NextEnabled(page, totalPages, loading) {
        page := page + 1;
      }
    }

    /** startEdit: the editor opens on the garage; the form is filled unless
        building it throws. */
    method StartEdit(garage: Json)
      modifies this
      ensures editingGarage == garage
      ensures editForm == if FormFor(garage).Some? then FormFor(garage).value else old(editForm)
      ensures garages == old(garages) && loading == old(loading) && page == old(page)
      ensures totalPages == old(totalPages) && totalGarages == old(totalGarages)
    {
      editingGarage := garage;
      var form := FormFor(garage);
      if form.Some? {
        editForm := form.value;
      }
    }

    /** Typing into the three inputs. */
    method EditName(value: string)
      modifies this
      ensures editForm == old(editForm).(name := Some(JStr(value)))
      ensures garages == old(garages) && loading == old(loading) && page == old(page)
      ensures totalPages == old(totalPages) && totalGarages == old(totalGarages) && editingGarage == old(editingGarage)
    {
      editForm := editForm.(name := Some(JStr(value)));
    }

    method EditAddress(value: string)
      modifies this
      ensures editForm == old(editForm).(address := Some(JStr(value)))
      ensures garages == old(garages) && loading == old(loading) && page == old(page)
      ensures totalPages == old(totalPages) && totalGarages == old(totalGarages) && editingGarage == old(editingGarage)
    {
      editForm := editForm.(address := Some(JStr(value)));
    }

    method EditServices(value: string)
      modifies this
      ensures editForm == old(editForm).(services := value)
      ensures garages == old(garages) && loading == old(loading) && page == old(page)
      ensures totalPages == old(totalPages) && totalGarages == old(totalGarages) && editingGarage == old(editingGarage)
    {
      editForm := editForm.(services := value);
    }

    /** The Cancel button closes the editor. */
    method Cancel()
      modifies this
      ensures editingGarage == JNull && editForm == old(editForm)
      ensures garages == old(garages) && loading == old(loading) && page == old(page)
      ensures totalPages == old(totalPages) && totalGarages == old(totalGarages)
    {
      editingGarage := JNull;
    }

    /** saveEdit up to its await: nothing without an open editor, else the
        update of the edited garage with the parsed services. */
    method BeginSave() returns (call: Option<Call>)
      ensures call.Some? <==> Editing()
      ensures call.Some? ==> call.value == UpdateGarage(GarageId(editingGarage), UpdateBody(editForm))
    {
      if !Editing() {
        return None;
      }
      call := Some(UpdateGarage(GarageId(editingGarage), UpdateBody(editForm)));
    }

    /** The rest of saveEdit: success closes the editor and reloads (the
        reload's request is returned); failure only alerts, so the editor
        stays open with its form. */
    method FinishSave(success: bool) returns (reload: Option<Call>)
      modifies this
      ensures success ==> editingGarage == JNull && loading && reload == Some(FetchGarages(page, 10))
      ensures !success ==> editingGarage == old(editingGarage) && loading == old(loading) && reload.None?
      ensures garages == old(garages) && page == old(page) && totalPages == old(totalPages)
      ensures totalGarages == old(totalGarages) && editForm == old(editForm)
    {
      reload := None;
      if success {
        editingGarage := JNull;
        var call := BeginLoad();
        reload := Some(call);
      }
    }

    /** handleDelete up to its await: the delete runs only when confirmed. */
    method BeginDelete(garage: Json, confirmed: bool) returns (call: Option<Call>)
      ensures call == if confirmed then Some(DeleteGarage(GarageId(garage))) else None
    {
      call := if confirmed then Some(DeleteGarage(GarageId(garage))) else None;
    }

    /** The rest of handleDelete: reload only after a successful delete. */
    method FinishDelete(success: bool) returns (reload: Option<Call>)
      modifies this
      ensures success ==> loading && reload == Some(FetchGarages(page, 10))
      ensures !success ==> loading == old(loading) && reload.None?
      ensures garages == old(garages) && page == old(page) && totalPages == old(totalPages)
      ensures totalGarages == old(totalGarages) && editingGarage == old(editingGarage) && editForm == old(editForm)
    {
      reload := None;
      if success {
        var call := BeginLoad();
        reload := Some(call);
      }
    }
  }
}
