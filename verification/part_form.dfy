/** The part form's own schema, stricter than the backend's: every field is
    required, text fields must be non-empty, price and stock must be
    positive and stock integral. Also its blank values and what it resets
    to after a submit. */
module PartForm {
  import opened Base
  import opened JsValue
  import opened Validators

  /** The form schema's issues, in field order. */
  function FormIssues(v: Value): seq<Issue>
  {
    if !v.Obj? then NotAnObject
    else
      StringIssues(v, "name", 1) + StringIssues(v, "brand", 1)
      + NumberIssues(v, "price", false, true) + NumberIssues(v, "stock", true, true)
      + StringIssues(v, "category", 1)
  }

  /** What the form schema promises to accept. */
  predicate FormAccepts(v: Value)
  {
    && StrAt(v, "name").Some? && |StrAt(v, "name").value| >= 1
    && StrAt(v, "brand").Some? && |StrAt(v, "brand").value| >= 1
    && NumAt(v, "price").Some? && NumAt(v, "price").value > 0.0
    && NumAt(v, "stock").Some? && IsInteger(NumAt(v, "stock").value)
    && NumAt(v, "stock").value > 0.0
    && StrAt(v, "category").Some? && |StrAt(v, "category").value| >= 1
  }

  /** The values `onSubmit` receives. */
  datatype FormInput = FormInput(name: string, brand: string, price: real, stock: int, category: string)

  /** The form's validation of its current values. */
  function ParseForm(v: Value): (r: Result<FormInput, seq<Issue>>)
    ensures r.Ok? <==> FormAccepts(v)
    ensures r.Ok? ==> && StrAt(v, "name") == Some(r.value.name)
                      && StrAt(v, "brand") == Some(r.value.brand)
                      && NumAt(v, "price") == Some(r.value.price)
                      && NumAt(v, "stock") == Some(r.value.stock as real)
                      && StrAt(v, "category") == Some(r.value.category)
    ensures r.Err? ==> r.error != []
  {
    var issues := FormIssues(v);
    if issues == [] then
      Ok(FormInput(StrAt(v, "name").value, StrAt(v, "brand").value, NumAt(v, "price").value,
                   NumAt(v, "stock").value.Floor, StrAt(v, "category").value))
    else Err(issues)
  }

  /** The submitted values as an object (only the schema's keys). */
  function InputValue(f: FormInput): Value
  {
    Obj(map["name" := Str(f.name), "brand" := Str(f.brand), "price" := Num(f.price),
            "stock" := Num(f.stock as real), "category" := Str(f.category)])
  }

  /** The values a form submit can carry: the schema's bounds, restated on
      the typed values. */
  predicate Submittable(f: FormInput)
  {
    f.name != "" && f.brand != "" && f.price > 0.0 && f.stock > 0 && f.category != ""
  }

  /** Every accepted submit carries submittable values. */
  lemma AcceptedIsSubmittable(v: Value)
    requires ParseForm(v).Ok?
    ensures Submittable(ParseForm(v).value)
  {
    var f := ParseForm(v).value;
    assert NumAt(v, "stock") == Some(f.stock as real);
  }

  /** Submittable values, written back as an object, parse to themselves. */
  lemma InputValueRoundTrip(f: FormInput)
    requires Submittable(f)
    ensures ParseForm(InputValue(f)) == Ok(f)
  {
    var v := InputValue(f);
    assert (f.stock as real).Floor == f.stock;
    assert StrAt(v, "name") == Some(f.name) && StrAt(v, "brand") == Some(f.brand);
    assert NumAt(v, "price") == Some(f.price) && NumAt(v, "stock") == Some(f.stock as real);
    assert StrAt(v, "category") == Some(f.category);
    assert FormAccepts(v);
  }

  /** Whatever the form lets through, the backend part schema accepts too,
      reading the same fields. */
  lemma FormAcceptedBackendAccepted(v: Value)
    requires ParseForm(v).Ok?
    ensures var f := ParseForm(v).value;
            ParsePart(v) == Ok(PartInput(f.name, Some(f.brand), f.price, f.stock, Some(f.category)))
  {
  }

  /** The implication is strict: a zero price passes the backend schema but
      not the form. */
  lemma ZeroPriceOnlyBackend()
    ensures var v := Obj(map["name" := Str("Pad"), "brand" := Str("Bosch"), "price" := Num(0.0),
                             "stock" := Num(1.0), "category" := Str("Brakes")]);
            ParsePart(v).Ok? && ParseForm(v) == Err([Issue("price", TooSmall)])
  {
    var v := Obj(map["name" := Str("Pad"), "brand" := Str("Bosch"), "price" := Num(0.0),
                     "stock" := Num(1.0), "category" := Str("Brakes")]);
    assert StringIssues(v, "name", 1) == [] && StringIssues(v, "brand", 1) == [];
    assert NumberIssues(v, "price", false, true) == [Issue("price", TooSmall)];
    assert NumberIssues(v, "stock", true, true) == [];
    assert StringIssues(v, "category", 1) == [];
    assert FormIssues(v) == [Issue("price", TooSmall)];
    assert NumAt(v, "stock") == Some(1.0);
  }

  /** The blank values the form starts from when nothing is being edited. */
  const Blank := Obj(map["name" := Str(""), "brand" := Str(""), "price" := Num(1.0),
                         "stock" := Num(1.0), "category" := Str("")])

  /** The blank values cannot be submitted as they are: name, brand and
      category are each too short. */
  lemma BlankRefused()
    ensures ParseForm(Blank) == Err([Issue("name", TooSmall), Issue("brand", TooSmall),
                                     Issue("category", TooSmall)])
  {
    assert StringIssues(Blank, "name", 1) == [Issue("name", TooSmall)];
    assert StringIssues(Blank, "brand", 1) == [Issue("brand", TooSmall)];
    assert NumberIssues(Blank, "price", false, true) == [];
    assert NumAt(Blank, "stock") == Some(1.0);
    assert NumberIssues(Blank, "stock", true, true) == [];
    assert StringIssues(Blank, "category", 1) == [Issue("category", TooSmall)];
    assert FormIssues(Blank) == [Issue("name", TooSmall), Issue("brand", TooSmall),
                                 Issue("category", TooSmall)];
  }

  /** The values the form holds after a submit: the given default values
      (the part being edited), or else the blank ones. */
  /** After a submit in "add" mode the form is blank again and refuses a
      second submit until it is filled in; in "edit" mode it holds the
      edited part again. */
  function ResetValues(defaults: Option<Value>): (v: Value)
    ensures defaults.None? ==> v == Blank && ParseForm(v).Err?
    ensures defaults.Some? ==> v == defaults.value
  {
    BlankRefused();
    if defaults.Some? then defaults.value else Blank
  }
}
