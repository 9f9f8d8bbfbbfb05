/** The parts handlers with the error handling the rest of the backend
    uses (a 400 for a schema refusal as in the auth routes, a 404 for a
    missing row as in `GET /:id`), next to the code as
    written in `PartsRoutes`: a create body the schema refuses is an
    itemised 400, an update body is checked against the partial schema
    (every field optional, unknown keys dropped) before anything is
    written, and an update or delete of a missing row is a 404. Everything
    else is the written behaviour. */
module PartsCorrected {
  import opened Base
  import opened JsValue
  import opened Validators
  import opened PartsRoutes
  import Upload

  const BadRequest := 400
  const NotFound := 404

  const NotFoundResponse := Response(404, Message(NotFoundMessage))

  // -----------------------------------------------------------------------
  // The partial part schema

  /** The five columns the part schema knows. */
  const Columns: set<string> := {"name", "brand", "price", "stock", "category"}

  /** A field check that only applies when the key is present. */
  function WhenPresent(body: Value, key: string, issues: seq<Issue>): seq<Issue>
  {
    if JsValue.Get(body, key).None? then [] else issues
  }

  /** `partSchema.partial()`: the same checks, each skipped when its key is
      absent (`null` still counts as present and is refused). */
  function PartialIssues(body: Value): seq<Issue>
  {
    if !body.Obj? then NotAnObject
    else
      WhenPresent(body, "name", StringIssues(body, "name", 1)) + OptionalStringIssues(body, "brand")
      + WhenPresent(body, "price", NumberIssues(body, "price", false, false))
      + WhenPresent(body, "stock", NumberIssues(body, "stock", true, false))
      + OptionalStringIssues(body, "category")
  }

  /** What the partial schema accepts, field by field. */
  predicate PartialAccepts(body: Value)
  {
    && body.Obj?
    && (JsValue.Get(body, "name").None? || (StrAt(body, "name").Some? && |StrAt(body, "name").value| >= 1))
    && OptionalString(body, "brand")
    && (JsValue.Get(body, "price").None? || (NumAt(body, "price").Some? && NumAt(body, "price").value >= 0.0))
    && (JsValue.Get(body, "stock").None? || (NumAt(body, "stock").Some? && IsInteger(NumAt(body, "stock").value)
                                     && NumAt(body, "stock").value >= 0.0))
    && OptionalString(body, "category")
  }

  /** Checked fields only carry values a sound row may hold. */
  predicate SoundFields(fields: map<string, Value>)
  {
    && ("name" in fields ==> fields["name"].Str? && fields["name"].s != "")
    && ("price" in fields ==> fields["price"].Num? && fields["price"].n >= 0.0)
    && ("stock" in fields ==> fields["stock"].Num? && fields["stock"].n >= 0.0)
  }

  /** The parsed partial body: the known keys present in it. */
  function ParsePartial(body: Value): (r: Result<map<string, Value>, seq<Issue>>)
    ensures r.Ok? <==> PartialAccepts(body)
    ensures r.Ok? ==> && r.value.Keys <= Columns
                      && (forall k :: k in Columns ==> (k in r.value <==> JsValue.Get(body, k).Some?))
                      && (forall k :: k in r.value ==> JsValue.Get(body, k) == Some(r.value[k]))
                      && AllWritable(r.value) && SoundFields(r.value)
    ensures r.Err? ==> r.error != []
  {
    var issues := PartialIssues(body);
    if issues == [] then Ok(map k | k in body.fields && k in Columns :: body.fields[k])
    else Err(issues)
  }

  /** The body of an update request: missing or empty `data` means no
      change; text that is not JSON has no parsed body. */
  function UpdateBody(data: DataField): Option<Value>
  {
    match data
    case Absent => Some(Obj(map[]))
    case Empty => Some(Obj(map[]))
    case Unparsable => None
    case Parsed(v) => Some(v)
  }

  /** The value an update request gives for a column, if any. */
  function Given(data: DataField, key: string): Option<Value>
  {
    if data.Parsed? then JsValue.Get(data.value, key) else None
  }

  /** The row after writing checked fields and the optional upload: each
      named column takes its new value, the rest keep theirs, and the image
      changes only with a file. */
  function Revise(p: Part, fields: map<string, Value>, file: Option<Upload.Incoming>): (q: Part)
    requires fields.Keys <= Columns && AllWritable(fields)
    ensures q.id == p.id && q.createdAt == p.createdAt
    ensures "name" !in fields ==> q.name == p.name
    ensures "name" in fields ==> fields["name"] == Str(q.name)
    ensures "brand" !in fields ==> q.brand == p.brand
    ensures "brand" in fields ==> fields["brand"] == ColumnValue(q.brand)
    ensures "price" !in fields ==> q.price == p.price
    ensures "price" in fields ==> fields["price"] == Num(q.price)
    ensures "stock" !in fields ==> q.stock == p.stock
    ensures "stock" in fields ==> fields["stock"] == Num(q.stock as real)
    ensures "category" !in fields ==> q.category == p.category
    ensures "category" in fields ==> fields["category"] == ColumnValue(q.category)
    ensures q.image == (if file.Some? then ImagePath(file) else p.image)
  {
    assert "image" !in fields;
    Apply(p, UpdateData(fields, file))
  }

  /** Checked fields keep a sound row sound. */
  lemma ReviseKeepsRowSound(p: Part, fields: map<string, Value>, file: Option<Upload.Incoming>)
    requires fields.Keys <= Columns && AllWritable(fields)
    ensures RowSound(p) && SoundFields(fields) ==> RowSound(Revise(p, fields, file))
  {
    var q := Revise(p, fields, file);
    if RowSound(p) && SoundFields(fields) && "stock" in fields {
      assert q.stock as real == fields["stock"].n;
    }
  }

  /** The checked fields are exactly what the request gives for each column. */
  lemma GivenFields(data: DataField, fields: map<string, Value>)
    requires UpdateBody(data).Some? && ParsePartial(UpdateBody(data).value) == Ok(fields)
    ensures fields.Keys <= Columns && AllWritable(fields)
    ensures forall k :: k in Columns ==> (k in fields <==> Given(data, k).Some?)
    ensures forall k :: k in fields ==> Given(data, k) == Some(fields[k])
    ensures SoundFields(fields)
  {
  }

  /** `q` is row `p` after an update request: the columns the request
      gives hold its values, the others and the id and creation time are
      unchanged, and the image is replaced by the upload or kept. */
  predicate WrittenAsGiven(data: DataField, file: Option<Upload.Incoming>, p: Part, q: Part)
  {
    && q.id == p.id && q.createdAt == p.createdAt
    && (Given(data, "name").None? ==> q.name == p.name)
    && (Given(data, "name").Some? ==> Given(data, "name") == Some(Str(q.name)))
    && (Given(data, "brand").None? ==> q.brand == p.brand)
    && (Given(data, "brand").Some? ==> Given(data, "brand") == Some(ColumnValue(q.brand)))
    && (Given(data, "price").None? ==> q.price == p.price)
    && (Given(data, "price").Some? ==> Given(data, "price") == Some(Num(q.price)))
    && (Given(data, "stock").None? ==> q.stock == p.stock)
    && (Given(data, "stock").Some? ==> Given(data, "stock") == Some(Num(q.stock as real)))
    && (Given(data, "category").None? ==> q.category == p.category)
    && (Given(data, "category").Some? ==> Given(data, "category") == Some(ColumnValue(q.category)))
    && q.image == (if file.Some? then ImagePath(file) else p.image)
  }

  /** Revising a row with the checked fields of a request writes it as the
      request gives. */
  lemma ReviseWritesAsGiven(data: DataField, fields: map<string, Value>, file: Option<Upload.Incoming>,
                            p: Part)
    requires UpdateBody(data).Some? && ParsePartial(UpdateBody(data).value) == Ok(fields)
    ensures fields.Keys <= Columns && AllWritable(fields)
    ensures WrittenAsGiven(data, file, p, Revise(p, fields, file))
  {
    GivenFields(data, fields);
  }

  // -----------------------------------------------------------------------
  // The checked handlers

  /** `POST /` with the schema failure reported as an itemised 400. */
  function CreateChecked(data: DataField, file: Option<Upload.Incoming>, now: int, apiBaseEnv: string,
                         s: Store): (o: Outcome)
    ensures o.response.status == 400 <==> data.Parsed? && !PartAccepts(data.value)
    ensures o.response.status == 400 ==>
              && o.response.body == Issues(PartIssues(data.value))
              && PartIssues(data.value) != [] && o.store == s
    ensures o.response.status != 400 ==> o == Create(data, file, now, apiBaseEnv, s)
    ensures Sound(s) ==> Sound(o.store)
  {
    if data.Parsed? && ParsePart(data.value).Err? then
      Outcome(Response(400, Issues(PartIssues(data.value))), s)
    else Create(data, file, now, apiBaseEnv, s)
  }

  /** The write step of the checked update, once the body has passed:
      404 for a missing row, otherwise the row written as the request gives
      and the answer the written code gives. */
  function WriteChecked(id: IdParam, data: DataField, fields: map<string, Value>,
                        file: Option<Upload.Incoming>, apiBaseEnv: string, s: Store): (o: Outcome)
    requires UpdateBody(data).Some? && ParsePartial(UpdateBody(data).value) == Ok(fields)
    ensures o.response.status in {200, 404, 500}
    ensures o.response.status == 404 <==> id.IntId? && !Stored(id, s)
    ensures o.response.status == 404 ==> o.response == NotFoundResponse
    ensures o.response.status == 200 <==> Stored(id, s)
    ensures o.response.status != 200 ==> o.store == s
    ensures o.response.status == 200 ==>
              && o.response.body.OnePart?
              && var updated := o.response.body.item.part;
              && o.store == Store(s.rows[id.n as nat := updated], s.nextId)
              && WrittenAsGiven(data, file, s.rows[id.n as nat], updated)
    ensures Valid(s) ==> Valid(o.store)
    ensures Sound(s) ==> Sound(o.store)
  {
    if id.NotInt? then Outcome(ServerError, s)
    else if !Stored(id, s) then Outcome(NotFoundResponse, s)
    else
      ReviseWritesAsGiven(data, fields, file, s.rows[id.n as nat]);
      ReviseKeepsRowSound(s.rows[id.n as nat], fields, file);
      var updated := Revise(s.rows[id.n as nat], fields, file);
      ReplaceRowKeepsInvariants(s, id.n as nat, updated);
      var url := if file.Some? then ImagePath(file).value
                 else ApiBase(apiBaseEnv) + OrElse(updated.image, Placeholder);
      Outcome(Response(200, OnePart(PartJson(updated, url))),
              Store(s.rows[id.n as nat := updated], s.nextId))
  }

  /** `PUT /:id` as evidently intended: validate the partial body (400), then find the
      row (404), then write only the columns the body names plus the
      uploaded image. With no file the stored image is kept. */
  function UpdateChecked(id: IdParam, data: DataField, file: Option<Upload.Incoming>, apiBaseEnv: string,
                         s: Store): (o: Outcome)
    ensures o.response.status == 400 <==> data.Parsed? && !PartialAccepts(data.value)
    ensures o.response.status == 400 ==>
              o.response.body == Issues(PartialIssues(data.value)) && PartialIssues(data.value) != []
    ensures o.response.status == 404 <==>
              !data.Unparsable? && (data.Parsed? ==> PartialAccepts(data.value))
              && id.IntId? && !Stored(id, s)
    ensures o.response.status == 404 ==> o.response == NotFoundResponse
    ensures o.response.status == 200 <==>
              !data.Unparsable? && (data.Parsed? ==> PartialAccepts(data.value)) && Stored(id, s)
    ensures o.response.status != 200 ==> o.store == s
    ensures o.response.status == 200 ==>
              && o.response.body.OnePart?
              && var updated := o.response.body.item.part;
              && o.store == Store(s.rows[id.n as nat := updated], s.nextId)
              && WrittenAsGiven(data, file, s.rows[id.n as nat], updated)
    ensures Valid(s) ==> Valid(o.store)
    ensures Sound(s) ==> Sound(o.store)
  {
    match UpdateBody(data)
    case None => Outcome(ServerError, s)
    case Some(body) =>
      match ParsePartial(body)
      case Err(issues) => Outcome(Response(400, Issues(issues)), s)
      case Ok(fields) => WriteChecked(id, data, fields, file, apiBaseEnv, s)
  }

  /** `DELETE /:id` with a missing row reported as 404. */
  function DeleteChecked(id: IdParam, s: Store): (o: Outcome)
    ensures o.response.status == 404 <==> id.IntId? && !Stored(id, s)
    ensures o.response.status == 404 ==> o == Outcome(NotFoundResponse, s)
    ensures o.response.status != 404 ==> o == Delete(id, s)
  {
    if id.IntId? && !Stored(id, s) then Outcome(NotFoundResponse, s) else Delete(id, s)
  }

  // -----------------------------------------------------------------------
  // What the code as written does instead

  /** A sound one-row table: part 0, "Pad", price 10, stock 3, no image. */
  const OneRow := Store(map[0 := Part(0, "Pad", None, 10.0, 3, None, None, 0)], 1)

  /** As written, an update body is never checked: `{"price": -5}` is
      written, and the table no longer satisfies the value constraints
      `partSchema` puts on a part;
      the checked update refuses it with an issue on `price`. */
  lemma UnvalidatedPriceBreaksSoundness()
    ensures Sound(OneRow)
    ensures var o := Update(IntId(0), Parsed(Obj(map["price" := Num(-5.0)])), None, "", OneRow);
            o.response.status == 200 && !Sound(o.store)
    ensures UpdateChecked(IntId(0), Parsed(Obj(map["price" := Num(-5.0)])), None, "", OneRow).response
            == Response(400, Issues([Issue("price", TooSmall)]))
  {
    var body := Obj(map["price" := Num(-5.0)]);
    var o := Update(IntId(0), Parsed(body), None, "", OneRow);
    assert o.store.rows[0].price == -5.0;
    assert PartialIssues(body) == [Issue("price", TooSmall)];
  }

  /** As written, a create body the schema refuses ends in the catch-all
      500, not in a 400 listing the issues. */
  lemma InvalidCreateIsServerError(now: int, apiBaseEnv: string, s: Store)
    ensures var body := Obj(map["name" := Str(""), "price" := Num(1.0), "stock" := Num(1.0)]);
            && Create(Parsed(body), None, now, apiBaseEnv, s) == Outcome(ServerError, s)
            && CreateChecked(Parsed(body), None, now, apiBaseEnv, s).response
               == Response(400, Issues([Issue("name", TooSmall)]))
  {
    var body := Obj(map["name" := Str(""), "price" := Num(1.0), "stock" := Num(1.0)]);
    assert StringIssues(body, "name", 1) == [Issue("name", TooSmall)];
    assert NumAt(body, "stock") == Some(1.0);
    assert PartIssues(body) == [Issue("name", TooSmall)];
  }

  /** As written, updating or deleting a row that does not exist ends in
      the catch-all 500; the checked handlers answer 404. */
  lemma MissingRowIsServerError(n: nat, s: Store)
    requires n !in s.rows
    ensures Update(IntId(n), Absent, None, "", s) == Outcome(ServerError, s)
    ensures Delete(IntId(n), s) == Outcome(ServerError, s)
    ensures UpdateChecked(IntId(n), Absent, None, "", s) == Outcome(NotFoundResponse, s)
    ensures DeleteChecked(IntId(n), s) == Outcome(NotFoundResponse, s)
  {
  }

  /** The checked update never writes outside the value constraints of
      `partSchema` (non-empty name, price >= 0, stock >= 0),
      whatever the body: partial validation is exactly what keeps the
      table sound. */
  lemma CheckedUpdateKeepsSound(id: IdParam, data: DataField, file: Option<Upload.Incoming>,
                                now: int, apiBaseEnv: string, s: Store)
    requires Sound(s)
    ensures Sound(UpdateChecked(id, data, file, apiBaseEnv, s).store)
    ensures Sound(CreateChecked(data, file, now, apiBaseEnv, s).store)
    ensures Sound(DeleteChecked(id, s).store)
  {
  }
}
