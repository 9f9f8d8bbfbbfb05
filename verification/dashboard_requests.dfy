/** The dashboard's create and update requests, end to end: the form's
    values, the request the page sends, the route that answers it and the
    page's list afterwards. As written the page sends the values as a JSON
    body, while the routes read a multipart text field `data`; the intended
    request puts the values, as JSON, in that field. */
module DashboardRequests {
  import opened Base
  import opened JsValue
  import opened PartForm
  import PartsRoutes
  import PartsCorrected
  import ClientParts
  import Dashboard
  import Upload
  import Session

  /** What the routes read as the `data` field when the request carries a
      JSON body: the body's own `data` key, missing when there is none,
      empty for "", and otherwise whatever `JSON.parse` makes of it (left
      abstract as `parseText`). The dashboard's bodies never hold a `data`
      key, so only the missing case is used below; for a present key this
      reading does not tell the routes apart, although the update route's
      `|| "{}"` treats every falsy value (null, 0, false) as "{}" while
      create parses it. */
  function JsonBodyData(body: Value, parseText: Value -> PartsRoutes.DataField): (d: PartsRoutes.DataField)
    ensures JsValue.Get(body, "data").None? ==> d == PartsRoutes.Absent
  {
    match JsValue.Get(body, "data")
    case None => PartsRoutes.Absent
    case Some(v) => if v == Str("") then PartsRoutes.Empty else parseText(v)
  }

  /** The part as the page keeps it. */
  function ToClient(p: PartsRoutes.Part): ClientParts.Part
  {
    ClientParts.Part(p.id, p.name, p.brand, p.price, p.stock, p.category)
  }

  /** What `api(...)` resolves to: the returned part for a 2xx answer, or
      nothing, since any other status makes it throw. */
  function Reply(r: PartsRoutes.Response): (p: Option<ClientParts.Part>)
    ensures p.Some? <==> 200 <= r.status < 300 && r.body.OnePart?
    ensures p.Some? ==> p.value == ToClient(r.body.item.part)
  {
    if 200 <= r.status < 300 && r.body.OnePart? then Some(ToClient(r.body.item.part)) else None
  }

  // -----------------------------------------------------------------------
  // As written

  /** `createPart(v)` as written: `POST /parts` with the values as a JSON
      body and no file, through the session guard. */
  function CreateAsWritten(f: FormInput, token: Option<string>, verify: string -> Option<int>,
                           parseText: Value -> PartsRoutes.DataField, now: int, apiBaseEnv: string,
                           s: PartsRoutes.Store): PartsRoutes.Outcome
  {
    PartsRoutes.PostPart(token, verify, JsonBodyData(InputValue(f), parseText), None, now, apiBaseEnv, s)
  }

  /** As written, creating from the dashboard can never succeed: the form's
      object has no `data` key, so the route fails to parse it (a 500 once
      past the guard), nothing is stored and the page's list stays as it
      was. */
  lemma CreateFromDashboardFails(f: FormInput, token: Option<string>, verify: string -> Option<int>,
                                 parseText: Value -> PartsRoutes.DataField, now: int, apiBaseEnv: string,
                                 s: PartsRoutes.Store, st: Dashboard.State)
    ensures var o := CreateAsWritten(f, token, verify, parseText, now, apiBaseEnv, s);
            && o.store == s
            && o.response.status in {401, 500}
            && Dashboard.AfterCreate(st, Reply(o.response)) == st
  {
    assert "data" !in InputValue(f).fields;
  }

  /** `updatePart(v)` as written: `PUT /parts/:id` with the values as a JSON
      body and no file, through the session guard. */
  function UpdateAsWritten(id: nat, f: FormInput, token: Option<string>, verify: string -> Option<int>,
                           parseText: Value -> PartsRoutes.DataField, apiBaseEnv: string,
                           s: PartsRoutes.Store): PartsRoutes.Outcome
  {
    PartsRoutes.PutPart(token, verify, PartsRoutes.IntId(id), JsonBodyData(InputValue(f), parseText), None,
                        apiBaseEnv, s)
  }

  /** As written, an edit from the dashboard is silently lost. Without a
      session the guard answers 401 and the page keeps its list; with one,
      the route reads no `data`, writes nothing and answers 200 with the
      stored part, which the page then shows in place of the edited one. */
  lemma UpdateFromDashboardIsLost(id: nat, f: FormInput, token: Option<string>, verify: string -> Option<int>,
                                  parseText: Value -> PartsRoutes.DataField, apiBaseEnv: string,
                                  s: PartsRoutes.Store, st: Dashboard.State)
    requires PartsRoutes.Valid(s) && id in s.rows && st.editing.Some?
    ensures var o := UpdateAsWritten(id, f, token, verify, parseText, apiBaseEnv, s);
            && o.store == s
            && (Session.RequireAuth(token, verify).Reject? ==>
                  o.response.status == 401 && Dashboard.AfterUpdate(st, Reply(o.response)) == st)
            && (Session.RequireAuth(token, verify).Proceed? ==>
                  && o.response.status == 200
                  && Dashboard.AfterUpdate(st, Reply(o.response))
                     == Dashboard.State(Dashboard.ReplaceById(st.parts, ToClient(s.rows[id])), None))
  {
    assert "data" !in InputValue(f).fields;
    var o := PartsRoutes.Update(PartsRoutes.IntId(id), JsonBodyData(InputValue(f), parseText), None, apiBaseEnv, s);
    assert o.response.body.item.part == s.rows[id];
    assert o.store.rows == s.rows;
  }

  // -----------------------------------------------------------------------
  // As intended

  /** The create request as intended: multipart, with the values as JSON in
      `data` and the optional image, answered by the checked handler. */
  function CreateAsIntended(f: FormInput, file: Option<Upload.Incoming>, now: int, apiBaseEnv: string,
                            s: PartsRoutes.Store): PartsRoutes.Outcome
  {
    PartsCorrected.CreateChecked(PartsRoutes.Parsed(InputValue(f)), file, now, apiBaseEnv, s)
  }

  /** A submitted form is stored as entered, under the next id, with the
      upload's path, and shown first in the page's list. */
  lemma SubmittedCreateIsStored(v: Value, file: Option<Upload.Incoming>, now: int, apiBaseEnv: string,
                                s: PartsRoutes.Store, st: Dashboard.State)
    requires ParseForm(v).Ok?
    ensures var f := ParseForm(v).value;
            var o := CreateAsIntended(f, file, now, apiBaseEnv, s);
            var row := PartsRoutes.Part(s.nextId, f.name, Some(f.brand), f.price, f.stock, Some(f.category),
                                        PartsRoutes.ImagePath(file), now);
            && o.response.status == 201
            && o.store == PartsRoutes.Store(s.rows[s.nextId := row], s.nextId + 1)
            && Dashboard.AfterCreate(st, Reply(o.response)).parts == [ToClient(row)] + st.parts
  {
    var f := ParseForm(v).value;
    AcceptedIsSubmittable(v);
    InputValueRoundTrip(f);
    FormAcceptedBackendAccepted(InputValue(f));
  }

  /** The update request as intended: multipart, with the values as JSON in
      `data` and the optional image, answered by the checked handler. */
  function UpdateAsIntended(id: nat, f: FormInput, file: Option<Upload.Incoming>, apiBaseEnv: string,
                            s: PartsRoutes.Store): PartsRoutes.Outcome
  {
    PartsCorrected.UpdateChecked(PartsRoutes.IntId(id), PartsRoutes.Parsed(InputValue(f)), file, apiBaseEnv, s)
  }

  /** The form's values are what the intended update request gives for
      each column. */
  lemma WrittenAsForm(f: FormInput, file: Option<Upload.Incoming>, p: PartsRoutes.Part, q: PartsRoutes.Part)
    requires PartsCorrected.WrittenAsGiven(PartsRoutes.Parsed(InputValue(f)), file, p, q)
    ensures q == PartsRoutes.Part(p.id, f.name, Some(f.brand), f.price, f.stock, Some(f.category),
                                  if file.Some? then PartsRoutes.ImagePath(file) else p.image,
                                  p.createdAt)
  {
    var data := PartsRoutes.Parsed(InputValue(f));
    assert PartsCorrected.Given(data, "name") == Some(Str(f.name));
    assert PartsCorrected.Given(data, "brand") == Some(Str(f.brand));
    assert PartsCorrected.Given(data, "price") == Some(Num(f.price));
    assert PartsCorrected.Given(data, "stock") == Some(Num(f.stock as real));
    assert PartsCorrected.Given(data, "category") == Some(Str(f.category));
  }

  /** Submittable values pass the partial schema. */
  lemma SubmittablePassesPartial(f: FormInput)
    requires Submittable(f)
    ensures PartsCorrected.PartialAccepts(InputValue(f))
  {
    assert JsValue.IsInteger(f.stock as real);
  }

  /** A submitted edit of a stored part is written as entered; the image is
      replaced only by an upload, and the page shows the written part. */
  lemma SubmittedUpdateIsStored(id: nat, v: Value, file: Option<Upload.Incoming>, apiBaseEnv: string,
                                s: PartsRoutes.Store, st: Dashboard.State)
    requires ParseForm(v).Ok? && PartsRoutes.Valid(s) && id in s.rows && st.editing.Some?
    ensures var f := ParseForm(v).value;
            var o := UpdateAsIntended(id, f, file, apiBaseEnv, s);
            var p := s.rows[id];
            var row := PartsRoutes.Part(id, f.name, Some(f.brand), f.price, f.stock, Some(f.category),
                                        if file.Some? then PartsRoutes.ImagePath(file) else p.image,
                                        p.createdAt);
            && o.response.status == 200
            && o.store == PartsRoutes.Store(s.rows[id := row], s.nextId)
            && Dashboard.AfterUpdate(st, Reply(o.response))
               == Dashboard.State(Dashboard.ReplaceById(st.parts, ToClient(row)), None)
  {
    var f := ParseForm(v).value;
    AcceptedIsSubmittable(v);
    SubmittablePassesPartial(f);
    var o := UpdateAsIntended(id, f, file, apiBaseEnv, s);
    assert o.response.status == 200;
    WrittenAsForm(f, file, s.rows[id], o.response.body.item.part);
  }
}
