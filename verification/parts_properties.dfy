/** Properties that relate several parts requests as written: what a read
    sees after a write, what a write leaves alone, and what repeating a
    write does. */
module PartsProperties {
  import opened Base
  import JsValue
  import opened PartsRoutes
  import Upload

  /** A created part can be read back under its new id, with everything the
      create answered. The read's `imageUrl` is the bare placeholder path
      where the create's was prefixed with the API base. */
  lemma CreateThenGet(data: DataField, file: Option<Upload.Incoming>, now: int, apiBaseEnv: string, s: Store)
    requires Create(data, file, now, apiBaseEnv, s).response.status == 201
    ensures var o := Create(data, file, now, apiBaseEnv, s);
            var created := o.response.body.item.part;
            && Get(IntId(s.nextId), o.store) == Response(200, OnePart(Normalize(created)))
            && (file.Some? ==> Normalize(created).imageUrl == o.response.body.item.imageUrl)
            && (file.None? ==> Normalize(created).imageUrl == Placeholder
                               && o.response.body.item.imageUrl == ApiBase(apiBaseEnv) + Placeholder)
  {
  }

  /** A create leaves every other id reading as before. */
  lemma CreateKeepsOthers(data: DataField, file: Option<Upload.Incoming>, now: int, apiBaseEnv: string,
                          s: Store, k: int)
    requires Valid(s) && k != s.nextId
    ensures Get(IntId(k), Create(data, file, now, apiBaseEnv, s).store) == Get(IntId(k), s)
  {
  }

  /** After a delete the id reads as not found, a second delete of it
      fails, and every other id reads as before. */
  lemma DeleteThenGet(n: nat, s: Store, k: int)
    requires n in s.rows && k != n
    ensures var after := Delete(IntId(n), s).store;
            && Get(IntId(n), after) == Response(404, Message(NotFoundMessage))
            && Delete(IntId(n), after) == Outcome(ServerError, after)
            && Get(IntId(k), after) == Get(IntId(k), s)
  {
  }

  /** An update leaves every other id reading as before. */
  lemma UpdateKeepsOthers(id: IdParam, data: DataField, file: Option<Upload.Incoming>, apiBaseEnv: string,
                          s: Store, k: int)
    requires !(id.IntId? && id.n == k)
    ensures Get(IntId(k), Update(id, data, file, apiBaseEnv, s).store) == Get(IntId(k), s)
  {
  }

  /** An update naming only the stock, with no file, keeps the image: the
      object spread carries no `image` key. */
  lemma StockOnlyUpdateKeepsImage(n: nat, stock: int, s: Store)
    requires n in s.rows
    ensures var o := Update(IntId(n), Parsed(JsValue.Obj(map["stock" := JsValue.Num(stock as real)])), None, "", s);
            && o.response.status == 200
            && o.store.rows[n] == s.rows[n].(stock := stock)
  {
    assert JsValue.IsInteger(stock as real);
  }

  /** An update with no body and a file changes the image and nothing else. */
  lemma ImageOnlyUpdate(n: nat, file: Upload.Incoming, s: Store)
    requires n in s.rows
    ensures var o := Update(IntId(n), Absent, Some(file), "", s);
            && o.response.status == 200
            && o.store.rows[n] == s.rows[n].(image := ImagePath(Some(file)))
            && o.response.body.item.imageUrl == UploadsPrefix + Upload.StoredName(file)
  {
    assert Writable("image", JsValue.Str(ImagePath(Some(file)).value));
  }

  /** Writing the same columns twice is writing them once. */
  lemma ApplyTwice(p: Part, d: map<string, JsValue.Value>)
    requires AllWritable(d)
    ensures Apply(Apply(p, d), d) == Apply(p, d)
  {
  }

  /** `PUT` is idempotent: repeating an accepted update changes nothing
      more and gets the same answer. */
  lemma UpdateIdempotent(id: IdParam, data: DataField, file: Option<Upload.Incoming>, apiBaseEnv: string,
                         s: Store)
    requires Update(id, data, file, apiBaseEnv, s).response.status == 200
    ensures var o := Update(id, data, file, apiBaseEnv, s);
            Update(id, data, file, apiBaseEnv, o.store) == o
  {
    var o := Update(id, data, file, apiBaseEnv, s);
    var n := id.n as nat;
    var d := UpdateData(BodyFields(data).value, file);
    var u := Apply(s.rows[n], d);
    assert o.store == Store(s.rows[n := u], s.nextId);
    ApplyTwice(s.rows[n], d);
    assert o.store.rows[n] == u;
    assert Apply(o.store.rows[n], d) == u;
    assert o.store.rows[n := u] == o.store.rows;
  }
}
