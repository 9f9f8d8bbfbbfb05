/** The parts router: list, get, create, update and delete over the parts
    table, which is modelled as a map from id to record plus the next
    auto-increment id. The clock (`createdAt`), the uploaded file's name
    and the `API_BASE_URL` setting are inputs. Every handler answers the
    way the code does, including its catch-all 500s. */
module PartsRoutes {
  import opened Base
  import opened JsValue
  import opened Validators
  import Upload
  import Session

  const Placeholder := "/uploads/placeholder.png"
  const UploadsPrefix := "/uploads/"
  const DefaultApiBase := "http://localhost:5000"
  const NotFoundMessage := "Part not found"
  const DeletedMessage := "Deleted"

  /** A row of the parts table. `price` is a decimal, kept exact here. */
  datatype Part = Part(id: nat, name: string, brand: Option<string>, price: real, stock: int,
                       category: Option<string>, image: Option<string>, createdAt: int)

  datatype Store = Store(rows: map<nat, Part>, nextId: nat)

  /** The table's own invariant: each row sits under its id, and the next
      auto-increment id is above every id in use. */
  predicate Valid(s: Store)
  {
    forall k :: k in s.rows ==> s.rows[k].id == k && k < s.nextId
  }

  /** The value constraints a part is meant to satisfy, those `partSchema`
      checks on create: a non-empty name, price >= 0 and stock >= 0. */
  predicate RowSound(p: Part)
  {
    p.name != "" && p.price >= 0.0 && p.stock >= 0
  }

  /** Every stored part meets those value constraints. */
  predicate Sound(s: Store)
  {
    forall k :: k in s.rows ==> RowSound(s.rows[k])
  }

  /** `Number(req.params.id)`: an integer, or anything else (NaN, a
      fraction), which the database layer refuses with an error. */
  datatype IdParam = IntId(n: int) | NotInt

  /** The multipart `data` text field: missing, "", text that is not JSON,
      or the value the JSON text denotes. */
  datatype DataField = Absent | Empty | Unparsable | Parsed(value: Value)

  /** A part as sent back: the row plus the derived `imageUrl`. */
  datatype PartJson = PartJson(part: Part, imageUrl: string)

  /** Response bodies; `Issues` (an itemised 400) is only produced by the
      checked handlers of `PartsCorrected`. */
  datatype Body = PartList(items: seq<PartJson>) | OnePart(item: PartJson) | Message(text: string)
                | Issues(list: seq<Issue>)

  datatype Response = Response(status: int, body: Body)

  datatype Outcome = Outcome(response: Response, store: Store)

  const ServerError := Response(500, Message("Server error"))

  /** The id names a stored row. */
  predicate Stored(id: IdParam, s: Store)
  {
    id.IntId? && id.n >= 0 && id.n as nat in s.rows
  }

  /** The read-side view of a row: `imageUrl` is the stored image, or the
      placeholder when there is none (null or ""). */
  function Normalize(p: Part): (r: PartJson)
    ensures r.part == p
    ensures r.imageUrl != ""
    ensures p.image.Some? && p.image.value != "" ==> r.imageUrl == p.image.value
    ensures p.image.None? || p.image.value == "" ==> r.imageUrl == Placeholder
  {
    PartJson(p, OrElse(p.image, Placeholder))
  }

  /** `process.env.API_BASE_URL || "http://localhost:5000"`: a set
      variable wins, an unset or empty one falls back to the local server,
      so the base is never empty. */
  function ApiBase(env: string): string
  {
    if env != "" then env else DefaultApiBase
  }

  /** A set variable wins; an unset or empty one falls back to the local
      server, so the base of a link is never empty. */
  lemma ApiBaseFallback(env: string)
    ensures ApiBase(env) != ""
    ensures env != "" ==> ApiBase(env) == env
    ensures env == "" ==> ApiBase(env) == DefaultApiBase
  {
  }

  /** The stored image path for an optional upload. */
  function ImagePath(file: Option<Upload.Incoming>): (r: Option<string>)
    ensures r.Some? <==> file.Some?
    ensures file.Some? ==> r.value == UploadsPrefix + Upload.StoredName(file.value)
  {
    if file.Some? then Some(UploadsPrefix + Upload.StoredName(file.value)) else None
  }

  // -----------------------------------------------------------------------
  // GET /

  predicate SortedNewestFirst(xs: seq<Part>)
  {
    forall i, j :: 0 <= i < j < |xs| ==> xs[i].createdAt >= xs[j].createdAt
  }

  predicate DistinctIds(xs: seq<Part>)
  {
    forall i, j :: 0 <= i < j < |xs| ==> xs[i].id != xs[j].id
  }

  /** Where a part goes in a newest-first sequence: before the first part
      that is not newer than it. */
  function InsertionPoint(p: Part, xs: seq<Part>): (k: nat)
    ensures k <= |xs|
    ensures forall i :: 0 <= i < k ==> xs[i].createdAt > p.createdAt
    ensures k < |xs| ==> xs[k].createdAt <= p.createdAt
  {
    if |xs| == 0 || xs[0].createdAt <= p.createdAt then 0
    else 1 + InsertionPoint(p, xs[1..])
  }

  function Insert(p: Part, xs: seq<Part>): seq<Part>
  {
    var k := InsertionPoint(p, xs);
    xs[..k] + [p] + xs[k..]
  }

  /** Where everything ends up after an insertion. */
  lemma InsertShape(p: Part, xs: seq<Part>)
    ensures var k := InsertionPoint(p, xs);
            var r := Insert(p, xs);
            && |r| == |xs| + 1 && r[k] == p
            && (forall i :: 0 <= i < k ==> r[i] == xs[i])
            && (forall i :: k < i < |r| ==> r[i] == xs[i - 1])
  {
  }

  /** Inserting adds exactly `p`. */
  lemma InsertElements(p: Part, xs: seq<Part>)
    ensures |Insert(p, xs)| == |xs| + 1
    ensures forall x :: x in Insert(p, xs) <==> x == p || x in xs
  {
    var k := InsertionPoint(p, xs);
    assert Insert(p, xs) == xs[..k] + [p] + xs[k..];
    assert xs == xs[..k] + xs[k..];
  }

  /** Inserting keeps a sequence newest first. */
  lemma InsertSorted(p: Part, xs: seq<Part>)
    requires SortedNewestFirst(xs)
    ensures SortedNewestFirst(Insert(p, xs))
  {
    InsertShape(p, xs);
  }

  /** Inserting a part with a fresh id keeps the ids distinct. */
  lemma InsertDistinct(p: Part, xs: seq<Part>)
    requires DistinctIds(xs)
    requires forall i :: 0 <= i < |xs| ==> xs[i].id != p.id
    ensures DistinctIds(Insert(p, xs))
  {
    InsertShape(p, xs);
    var k := InsertionPoint(p, xs);
    var r := Insert(p, xs);
    forall i, j | 0 <= i < j < |r|
      ensures r[i].id != r[j].id
    {
      var i' := if i < k then i else i - 1;
      var j' := if j < k then j else j - 1;
      if i == k {
        assert r[j] == xs[j'];
      } else if j == k {
        assert r[i] == xs[i'];
      } else {
        assert r[i] == xs[i'] && r[j] == xs[j'] && i' < j';
      }
    }
  }

  /** Progress of the listing: `acc` holds, newest first and once each,
      exactly the rows whose ids are no longer in `keys`. */
  predicate Collected(s: Store, keys: set<nat>, acc: seq<Part>)
  {
    && keys <= s.rows.Keys
    && |acc| + |keys| == |s.rows.Keys|
    && (forall x :: x in acc ==> x.id in s.rows && x.id !in keys && x == s.rows[x.id])
    && (forall k :: k in s.rows && k !in keys ==> s.rows[k] in acc)
    && DistinctIds(acc)
    && SortedNewestFirst(acc)
  }

  /** Moving one key from `keys` into `acc` keeps the listing's progress. */
  lemma CollectStep(s: Store, keys: set<nat>, acc: seq<Part>, k: nat)
    requires Valid(s) && Collected(s, keys, acc) && k in keys
    ensures Collected(s, keys - {k}, Insert(s.rows[k], acc))
  {
    var p := s.rows[k];
    assert p.id == k;
    forall i | 0 <= i < |acc|
      ensures acc[i].id != p.id
    {
      assert acc[i] in acc;
    }
    InsertElements(p, acc);
    InsertSorted(p, acc);
    InsertDistinct(p, acc);
    assert |keys - {k}| == |keys| - 1;
  }

  /** Once every key is collected, each normalised entry is a stored row. */
  lemma CollectedRows(s: Store, acc: seq<Part>, items: seq<PartJson>)
    requires Valid(s) && Collected(s, {}, acc)
    requires |items| == |acc| && forall i :: 0 <= i < |acc| ==> items[i] == Normalize(acc[i])
    ensures forall i :: 0 <= i < |items| ==>
              items[i].part.id in s.rows && items[i] == Normalize(s.rows[items[i].part.id])
  {
    forall i | 0 <= i < |items|
      ensures items[i].part.id in s.rows && items[i] == Normalize(s.rows[items[i].part.id])
    {
      assert acc[i] in acc;
    }
  }

  /** Once every key is collected, every stored row is listed. */
  lemma CollectedKeys(s: Store, acc: seq<Part>, items: seq<PartJson>)
    requires Valid(s) && Collected(s, {}, acc)
    requires |items| == |acc| && forall i :: 0 <= i < |acc| ==> items[i] == Normalize(acc[i])
    ensures forall k :: k in s.rows ==> exists i :: 0 <= i < |items| && items[i].part.id == k
  {
    forall k | k in s.rows
      ensures exists i :: 0 <= i < |items| && items[i].part.id == k
    {
      var i :| 0 <= i < |acc| && acc[i] == s.rows[k];
      assert items[i].part == s.rows[k];
    }
  }

  /** Normalising keeps the order and the ids of the rows. */
  lemma NormalizedOrder(acc: seq<Part>, items: seq<PartJson>)
    requires DistinctIds(acc) && SortedNewestFirst(acc)
    requires |items| == |acc| && forall i :: 0 <= i < |acc| ==> items[i] == Normalize(acc[i])
    ensures forall i, j :: 0 <= i < j < |items| ==> items[i].part.id != items[j].part.id
    ensures forall i, j :: 0 <= i < j < |items| ==> items[i].part.createdAt >= items[j].part.createdAt
  {
    assert forall i :: 0 <= i < |items| ==> items[i].part == acc[i];
  }

  /** Once every key is collected, the normalised sequence lists the whole
      store, once each, newest first. */
  lemma CollectedAll(s: Store, acc: seq<Part>, items: seq<PartJson>)
    requires Valid(s) && Collected(s, {}, acc)
    requires |items| == |acc| && forall i :: 0 <= i < |acc| ==> items[i] == Normalize(acc[i])
    ensures |items| == |s.rows|
    ensures forall k :: k in s.rows ==> exists i :: 0 <= i < |items| && items[i].part.id == k
    ensures forall i, j :: 0 <= i < j < |items| ==> items[i].part.id != items[j].part.id
    ensures forall i, j :: 0 <= i < j < |items| ==> items[i].part.createdAt >= items[j].part.createdAt
  {
    assert |s.rows| == |s.rows.Keys|;
    CollectedKeys(s, acc, items);
    NormalizedOrder(acc, items);
  }

  /** `GET /`: every stored part exactly once, newest first, each with its
      normalised `imageUrl`. The order among parts created at the same
      instant is left open, as the database leaves it. */
  method List(s: Store) returns (r: Response)
    requires Valid(s)
    ensures r.status == 200 && r.body.PartList?
    ensures |r.body.items| == |s.rows|
    ensures forall i :: 0 <= i < |r.body.items| ==>
              r.body.items[i].part.id in s.rows
              && r.body.items[i] == Normalize(s.rows[r.body.items[i].part.id])
    ensures forall k :: k in s.rows ==>
              exists i :: 0 <= i < |r.body.items| && r.body.items[i].part.id == k
    ensures forall i, j :: 0 <= i < j < |r.body.items| ==>
              r.body.items[i].part.id != r.body.items[j].part.id
    ensures forall i, j :: 0 <= i < j < |r.body.items| ==>
              r.body.items[i].part.createdAt >= r.body.items[j].part.createdAt
  {
    var keys := s.rows.Keys;
    var acc: seq<Part> := [];
    while keys != {}
      invariant Collected(s, keys, acc)
      decreases |keys|
    {
      var k :| k in keys;
      CollectStep(s, keys, acc, k);
      acc := Insert(s.rows[k], acc);
      keys := keys - {k};
    }
    var items := seq(|acc|, i requires 0 <= i < |acc| => Normalize(acc[i]));
    CollectedRows(s, acc, items);
    CollectedAll(s, acc, items);
    r := Response(200, PartList(items));
  }

  // -----------------------------------------------------------------------
  // GET /:id

  /** `GET /:id`: the normalised part, 404 when no row has that id, 500 when
      the id is not an integer. The store is only read. */
  function Get(id: IdParam, s: Store): (r: Response)
    ensures r.status == 200 <==> Stored(id, s)
    ensures Stored(id, s) ==> r.body == OnePart(Normalize(s.rows[id.n as nat]))
    ensures id.IntId? && !Stored(id, s) ==> r == Response(404, Message(NotFoundMessage))
    ensures id.NotInt? ==> r == ServerError
  {
    if id.NotInt? then ServerError
    else if id.n < 0 || id.n as nat !in s.rows then Response(404, Message(NotFoundMessage))
    else Response(200, OnePart(Normalize(s.rows[id.n as nat])))
  }

  // -----------------------------------------------------------------------
  // POST /

  /** `POST /` after the guard and the upload step. A body the part schema
      refuses ends in the catch-all 500, like a missing or malformed `data`
      field. On success the row gets the next id, the clock reading `now`
      and the uploaded image's path (null without a file); the response
      links the placeholder under the API base when there is no file. */
  function Create(data: DataField, file: Option<Upload.Incoming>, now: int, apiBaseEnv: string,
                  s: Store): (o: Outcome)
    ensures o.response.status == 201 <==> data.Parsed? && PartAccepts(data.value)
    ensures o.response.status != 201 ==> o.response == ServerError && o.store == s
    ensures o.response.status == 201 ==>
              && o.response.body.OnePart?
              && var created := o.response.body.item.part;
              && created.id == s.nextId && created.createdAt == now
              && StrAt(data.value, "name") == Some(created.name)
              && StrAt(data.value, "brand") == created.brand
              && NumAt(data.value, "price") == Some(created.price)
              && NumAt(data.value, "stock") == Some(created.stock as real)
              && StrAt(data.value, "category") == created.category
              && created.image == ImagePath(file)
              && o.response.body.item.imageUrl
                 == (if file.Some? then created.image.value else ApiBase(apiBaseEnv) + Placeholder)
              && o.store == Store(s.rows[created.id := created], s.nextId + 1)
    ensures Valid(s) ==> Valid(o.store) && (o.response.status == 201 ==> s.nextId !in s.rows)
    ensures Sound(s) ==> Sound(o.store)
  {
    if !data.Parsed? then Outcome(ServerError, s)
    else
      match ParsePart(data.value)
      case Err(_) => Outcome(ServerError, s)
      case Ok(input) =>
        var image := ImagePath(file);
        var created := Part(s.nextId, input.name, input.brand, input.price, input.stock,
                            input.category, image, now);
        var url := if image.Some? then image.value else ApiBase(apiBaseEnv) + Placeholder;
        Outcome(Response(201, OnePart(PartJson(created, url))),
                Store(s.rows[s.nextId := created], s.nextId + 1))
  }

  // -----------------------------------------------------------------------
  // PUT /:id

  /** Object spread of `JSON.parse(data)`: an object gives its own keys; null,
      booleans, numbers and empty strings or arrays give nothing; a
      non-empty string or array gives index keys "0", "1", ..., which are
      not columns, so the write is bound to fail (None). */
  function Spread(v: Value): Option<map<string, Value>>
  {
    match v
    case Obj(m) => Some(m)
    case Str(t) => if t == "" then Some(map[]) else None
    case Arr(xs) => if xs == [] then Some(map[]) else None
    case _ => Some(map[])
  }

  /** The fields `{...JSON.parse(req.body.data || "{}")}` contributes. */
  function BodyFields(data: DataField): Option<map<string, Value>>
  {
    match data
    case Absent => Some(map[])
    case Empty => Some(map[])
    case Unparsable => None
    case Parsed(v) => Spread(v)
  }

  /** The update data: the body's fields, with `image` overridden by the
      uploaded file's path when there is one. */
  function UpdateData(fields: map<string, Value>, file: Option<Upload.Incoming>): map<string, Value>
  {
    if file.Some? then fields["image" := Str(ImagePath(file).value)] else fields
  }

  /** What an update body contributes: nothing for a missing or empty
      `data` (the `|| "{}"`), an object's own fields, nothing for other
      scalars and empty strings or arrays, and a failed write (None) for
      text that does not parse or a non-empty string or array. */
  lemma BodyFieldsOfData(data: DataField)
    ensures data.Absent? || data.Empty? ==> BodyFields(data) == Some(map[])
    ensures data.Parsed? && data.value.Obj? ==> BodyFields(data) == Some(data.value.fields)
    ensures data.Parsed? && !data.value.Obj? && BodyFields(data).Some? ==> BodyFields(data).value == map[]
    ensures BodyFields(data).None? <==>
              || data.Unparsable?
              || (data.Parsed? && data.value.Str? && data.value.s != "")
              || (data.Parsed? && data.value.Arr? && data.value.items != [])
  {
  }

  /** The update data holds the body's fields plus `image` when a file came
      with the request; the file's path wins over an `image` in the body,
      and every other field is written as given. */
  lemma UpdateDataFileWins(fields: map<string, Value>, file: Option<Upload.Incoming>)
    ensures UpdateData(fields, file).Keys == fields.Keys + (if file.Some? then {"image"} else {})
    ensures file.Some? ==> UpdateData(fields, file)["image"] == Str(UploadsPrefix + Upload.StoredName(file.value))
    ensures forall k :: k in fields && (k != "image" || file.None?) ==> UpdateData(fields, file)[k] == fields[k]
  {
  }

  /** The database layer accepts `v` for column `key`. Only the content
      columns are writable here; any other key is refused. */
  predicate Writable(key: string, v: Value)
  {
    if key == "name" then v.Str?
    else if key == "brand" || key == "category" || key == "image" then v.Str? || v.Null?
    else if key == "price" then v.Num?
    else if key == "stock" then v.Num? && IsInteger(v.n)
    else false
  }

  predicate AllWritable(d: map<string, Value>)
  {
    forall k :: k in d ==> Writable(k, d[k])
  }

  function Nullable(v: Value): Option<string>
  {
    if v.Str? then Some(v.s) else None
  }

  /** How a nullable text column reads back as a value. */
  function ColumnValue(c: Option<string>): Value
  {
    if c.Some? then Str(c.value) else Null
  }

  /** A text column after the write: the new value when `d` names it. */
  function TextColumn(d: map<string, Value>, key: string, current: string): (r: string)
    requires key in d ==> d[key].Str?
    ensures key !in d ==> r == current
    ensures key in d ==> d[key] == Str(r)
  {
    if key in d then d[key].s else current
  }

  /** A nullable text column after the write. */
  function NullableColumn(d: map<string, Value>, key: string, current: Option<string>): (r: Option<string>)
    requires key in d ==> d[key].Str? || d[key].Null?
    ensures key !in d ==> r == current
    ensures key in d ==> d[key] == ColumnValue(r)
  {
    if key in d then Nullable(d[key]) else current
  }

  /** The `price` column after the write. */
  function PriceColumn(d: map<string, Value>, current: real): (r: real)
    requires "price" in d ==> d["price"].Num?
    ensures "price" !in d ==> r == current
    ensures "price" in d ==> d["price"] == Num(r)
  {
    if "price" in d then d["price"].n else current
  }

  /** The `stock` column after the write. */
  function StockColumn(d: map<string, Value>, current: int): (r: int)
    requires "stock" in d ==> d["stock"].Num? && IsInteger(d["stock"].n)
    ensures "stock" !in d ==> r == current
    ensures "stock" in d ==> d["stock"] == Num(r as real)
  {
    if "stock" in d then d["stock"].n.Floor else current
  }

  /** The row after writing the given columns: each column `d` names takes
      its new value, every other column and the id and creation time keep
      theirs. */
  function Apply(p: Part, d: map<string, Value>): (q: Part)
    requires AllWritable(d)
    ensures q.id == p.id && q.createdAt == p.createdAt
    ensures "name" !in d ==> q.name == p.name
    ensures "name" in d ==> d["name"] == Str(q.name)
    ensures "brand" !in d ==> q.brand == p.brand
    ensures "brand" in d ==> d["brand"] == ColumnValue(q.brand)
    ensures "price" !in d ==> q.price == p.price
    ensures "price" in d ==> d["price"] == Num(q.price)
    ensures "stock" !in d ==> q.stock == p.stock
    ensures "stock" in d ==> d["stock"] == Num(q.stock as real)
    ensures "category" !in d ==> q.category == p.category
    ensures "category" in d ==> d["category"] == ColumnValue(q.category)
    ensures "image" !in d ==> q.image == p.image
    ensures "image" in d ==> d["image"] == ColumnValue(q.image)
  {
    p.(name := TextColumn(d, "name", p.name),
       brand := NullableColumn(d, "brand", p.brand),
       price := PriceColumn(d, p.price),
       stock := StockColumn(d, p.stock),
       category := NullableColumn(d, "category", p.category),
       image := NullableColumn(d, "image", p.image))
  }

  /** Replacing a row by one with the same id keeps the table valid, and
      by a sound one keeps it sound. */
  lemma ReplaceRowKeepsInvariants(s: Store, n: nat, q: Part)
    requires n in s.rows && q.id == s.rows[n].id
    ensures Valid(s) ==> Valid(Store(s.rows[n := q], s.nextId))
    ensures Sound(s) && RowSound(q) ==> Sound(Store(s.rows[n := q], s.nextId))
  {
  }

  /** `PUT /:id` after the guard and the upload step. The body is not
      validated: whatever the database layer accepts is written. Only
      columns named in the body change; the image changes only when the
      body names it or a file arrives, and the file wins. A missing row,
      like any other failure, ends in the catch-all 500. */
  function Update(id: IdParam, data: DataField, file: Option<Upload.Incoming>, apiBaseEnv: string,
                  s: Store): (o: Outcome)
    ensures o.response.status == 200 <==>
              && Stored(id, s) && BodyFields(data).Some?
              && AllWritable(UpdateData(BodyFields(data).value, file))
    ensures o.response.status != 200 ==> o.response == ServerError && o.store == s
    ensures o.response.status == 200 ==>
              && o.response.body.OnePart?
              && var old_ := s.rows[id.n as nat];
              && var fields := BodyFields(data).value;
              && var updated := o.response.body.item.part;
              && o.store == Store(s.rows[id.n as nat := updated], s.nextId)
              && updated.id == old_.id && updated.createdAt == old_.createdAt
              && ("name" !in fields ==> updated.name == old_.name)
              && ("brand" !in fields ==> updated.brand == old_.brand)
              && ("price" !in fields ==> updated.price == old_.price)
              && ("stock" !in fields ==> updated.stock == old_.stock)
              && ("category" !in fields ==> updated.category == old_.category)
              && ("name" in fields ==> fields["name"] == Str(updated.name))
              && ("brand" in fields ==> fields["brand"] == ColumnValue(updated.brand))
              && ("price" in fields ==> fields["price"] == Num(updated.price))
              && ("stock" in fields ==> fields["stock"] == Num(updated.stock as real))
              && ("category" in fields ==> fields["category"] == ColumnValue(updated.category))
              && (file.None? && "image" in fields ==> fields["image"] == ColumnValue(updated.image))
              && (file.Some? ==> updated.image == ImagePath(file))
              && (file.None? && "image" !in fields ==> updated.image == old_.image)
              && o.response.body.item.imageUrl
                 == (if file.Some? then ImagePath(file).value
                     else ApiBase(apiBaseEnv) + OrElse(updated.image, Placeholder))
    ensures Valid(s) ==> Valid(o.store)
  {
    match BodyFields(data)
    case None => Outcome(ServerError, s)
    case Some(fields) =>
      var d := UpdateData(fields, file);
      if !Stored(id, s) || !AllWritable(d) then Outcome(ServerError, s)
      else
        var updated := Apply(s.rows[id.n as nat], d);
        var url := if file.Some? then ImagePath(file).value
                   else ApiBase(apiBaseEnv) + OrElse(updated.image, Placeholder);
        Outcome(Response(200, OnePart(PartJson(updated, url))),
                Store(s.rows[id.n as nat := updated], s.nextId))
  }

  // -----------------------------------------------------------------------
  // DELETE /:id

  /** `DELETE /:id`: removes exactly that row. Deleting a missing row is an
      error of the database layer, so it ends in the catch-all 500. */
  function Delete(id: IdParam, s: Store): (o: Outcome)
    ensures o.response.status == 200 <==> Stored(id, s)
    ensures Stored(id, s) ==> && o.response.body == Message(DeletedMessage)
                              && o.store == Store(s.rows - {id.n as nat}, s.nextId)
    ensures !Stored(id, s) ==> o == Outcome(ServerError, s)
    ensures Valid(s) ==> Valid(o.store)
    ensures Sound(s) ==> Sound(o.store)
  {
    if Stored(id, s) then
      Outcome(Response(200, Message(DeletedMessage)), Store(s.rows - {id.n as nat}, s.nextId))
    else Outcome(ServerError, s)
  }

  // -----------------------------------------------------------------------
  // The guarded routes: `requireAuth` runs first.

  /** A request the guard turns away gets its 401 and the store is untouched. */
  function Guard(d: Session.Decision, handled: Outcome, s: Store): (o: Outcome)
    ensures d.Reject? ==> o == Outcome(Response(d.status, Message(d.message)), s)
    ensures d.Proceed? ==> o == handled
  {
    match d
    case Reject(status, message) => Outcome(Response(status, Message(message)), s)
    case Proceed(_) => handled
  }

  function PostPart(token: Option<string>, verify: string -> Option<int>, data: DataField,
                    file: Option<Upload.Incoming>, now: int, apiBaseEnv: string, s: Store): (o: Outcome)
    ensures Session.RequireAuth(token, verify).Reject? ==> o.response.status == 401 && o.store == s
  {
    Guard(Session.RequireAuth(token, verify), Create(data, file, now, apiBaseEnv, s), s)
  }

  function PutPart(token: Option<string>, verify: string -> Option<int>, id: IdParam, data: DataField,
                   file: Option<Upload.Incoming>, apiBaseEnv: string, s: Store): (o: Outcome)
    ensures Session.RequireAuth(token, verify).Reject? ==> o.response.status == 401 && o.store == s
  {
    Guard(Session.RequireAuth(token, verify), Update(id, data, file, apiBaseEnv, s), s)
  }

  function DeletePart(token: Option<string>, verify: string -> Option<int>, id: IdParam,
                      s: Store): (o: Outcome)
    ensures Session.RequireAuth(token, verify).Reject? ==> o.response.status == 401 && o.store == s
  {
    Guard(Session.RequireAuth(token, verify), Delete(id, s), s)
  }
}
