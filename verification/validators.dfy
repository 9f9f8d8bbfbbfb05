/** The backend request schemas (`registerSchema`, `loginSchema`,
    `partSchema`) as the zod library applies them: every field of the
    object shape is checked in declaration order, every failed check adds
    one issue, unknown keys are dropped from the parsed result. Whether an
    e-mail address is well formed is left abstract (`isEmail`). */
module Validators {
  import opened Base
  import opened JsValue

  /** The zod issue codes the schemas can raise: a missing or wrongly typed
      value (also a non-integer where `.int()` is asked for), a value below
      a `min`/`nonnegative`/`positive` bound, a string that is not an
      e-mail address. */
  datatype IssueCode = InvalidType | TooSmall | InvalidString

  /** One issue; `path` is the offending key, "" for the body itself. */
  datatype Issue = Issue(path: string, code: IssueCode)

  // ---------------------------------------------------------------------
  // Field checks

  /** `z.string().min(min)` on the value under `key`. */
  function StringIssues(body: Value, key: string, min: nat): seq<Issue>
  {
    match Get(body, key)
    case Some(Str(s)) => if |s| < min then [Issue(key, TooSmall)] else []
    case _ => [Issue(key, InvalidType)]
  }

  /** `z.string().optional()`: absent is fine, `null` is not. */
  function OptionalStringIssues(body: Value, key: string): seq<Issue>
  {
    match Get(body, key)
    case None => []
    case Some(Str(_)) => []
    case _ => [Issue(key, InvalidType)]
  }

  /** `z.string().email()`. */
  function EmailIssues(body: Value, key: string, isEmail: string -> bool): seq<Issue>
  {
    match Get(body, key)
    case Some(Str(s)) => if isEmail(s) then [] else [Issue(key, InvalidString)]
    case _ => [Issue(key, InvalidType)]
  }

  /** `z.number()` followed by `.int()` when `integer` is set and by
      `.positive()` (when `strict`) or `.nonnegative()` (otherwise). Both
      refinements are checked, so a negative fraction raises two issues. */
  function NumberIssues(body: Value, key: string, integer: bool, strict: bool): seq<Issue>
  {
    match Get(body, key)
    case Some(Num(x)) =>
      (if integer && !IsInteger(x) then [Issue(key, InvalidType)] else [])
      + (if (strict && x <= 0.0) || (!strict && x < 0.0) then [Issue(key, TooSmall)] else [])
    case _ => [Issue(key, InvalidType)]
  }

  /** A non-object body fails `z.object` with a single issue at the root. */
  const NotAnObject := [Issue("", InvalidType)]

  // ---------------------------------------------------------------------
  // registerSchema

  function RegisterIssues(body: Value, isEmail: string -> bool): seq<Issue>
  {
    if !body.Obj? then NotAnObject
    else
      StringIssues(body, "name", 2) + EmailIssues(body, "email", isEmail)
      + StringIssues(body, "password", 6)
  }

  /** What `registerSchema` promises to accept, stated field by field. */
  predicate RegisterAccepts(body: Value, isEmail: string -> bool)
  {
    && StrAt(body, "name").Some? && |StrAt(body, "name").value| >= 2
    && StrAt(body, "email").Some? && isEmail(StrAt(body, "email").value)
    && StrAt(body, "password").Some? && |StrAt(body, "password").value| >= 6
  }

  datatype RegisterBody = RegisterBody(name: string, email: string, password: string)

  /** `registerSchema.parse(body)`. */
  function ParseRegister(body: Value, isEmail: string -> bool): (r: Result<RegisterBody, seq<Issue>>)
    ensures r.Ok? <==> RegisterAccepts(body, isEmail)
    ensures r.Ok? ==> && StrAt(body, "name") == Some(r.value.name)
                      && StrAt(body, "email") == Some(r.value.email)
                      && StrAt(body, "password") == Some(r.value.password)
    ensures r.Err? ==> r.error != []
  {
    var issues := RegisterIssues(body, isEmail);
    if issues == [] then
      Ok(RegisterBody(StrAt(body, "name").value, StrAt(body, "email").value,
                      StrAt(body, "password").value))
    else Err(issues)
  }

  // ---------------------------------------------------------------------
  // loginSchema

  function LoginIssues(body: Value, isEmail: string -> bool): seq<Issue>
  {
    if !body.Obj? then NotAnObject
    else EmailIssues(body, "email", isEmail) + StringIssues(body, "password", 6)
  }

  predicate LoginAccepts(body: Value, isEmail: string -> bool)
  {
    && StrAt(body, "email").Some? && isEmail(StrAt(body, "email").value)
    && StrAt(body, "password").Some? && |StrAt(body, "password").value| >= 6
  }

  datatype LoginBody = LoginBody(email: string, password: string)

  /** `loginSchema.parse(body)`. */
  function ParseLogin(body: Value, isEmail: string -> bool): (r: Result<LoginBody, seq<Issue>>)
    ensures r.Ok? <==> LoginAccepts(body, isEmail)
    ensures r.Ok? ==> && StrAt(body, "email") == Some(r.value.email)
                      && StrAt(body, "password") == Some(r.value.password)
    ensures r.Err? ==> r.error != []
  {
    var issues := LoginIssues(body, isEmail);
    if issues == [] then
      Ok(LoginBody(StrAt(body, "email").value, StrAt(body, "password").value))
    else Err(issues)
  }

  /** Every body `registerSchema` accepts is accepted by `loginSchema`, with
      the same e-mail and password. */
  lemma RegisterAcceptedLoginAccepted(body: Value, isEmail: string -> bool)
    requires ParseRegister(body, isEmail).Ok?
    ensures ParseLogin(body, isEmail).Ok?
    ensures ParseLogin(body, isEmail).value.email == ParseRegister(body, isEmail).value.email
    ensures ParseLogin(body, isEmail).value.password == ParseRegister(body, isEmail).value.password
  {
  }

  /** A one-character name is refused by `registerSchema` although the
      same e-mail and password log in: the implication is strict. */
  lemma ShortNameRegisterRefused(isEmail: string -> bool)
    requires isEmail("al@x.com")
    ensures var body := Obj(map["name" := Str("A"), "email" := Str("al@x.com"),
                                "password" := Str("secret1")]);
            && ParseRegister(body, isEmail) == Err([Issue("name", TooSmall)])
            && ParseLogin(body, isEmail).Ok?
  {
    var body := Obj(map["name" := Str("A"), "email" := Str("al@x.com"),
                        "password" := Str("secret1")]);
    assert StringIssues(body, "name", 2) == [Issue("name", TooSmall)];
    assert EmailIssues(body, "email", isEmail) == [];
    assert StringIssues(body, "password", 6) == [];
    assert RegisterIssues(body, isEmail) == [Issue("name", TooSmall)];
  }

  // ---------------------------------------------------------------------
  // partSchema

  function PartIssues(body: Value): seq<Issue>
  {
    if !body.Obj? then NotAnObject
    else
      StringIssues(body, "name", 1) + OptionalStringIssues(body, "brand")
      + NumberIssues(body, "price", false, false) + NumberIssues(body, "stock", true, false)
      + OptionalStringIssues(body, "category")
  }

  /** A key that is absent or holds a string. */
  predicate OptionalString(body: Value, key: string)
  {
    Get(body, key).None? || Get(body, key).value.Str?
  }

  /** What `partSchema` promises to accept: a non-empty name, optional
      string brand and category, a price >= 0, an integral stock >= 0. */
  predicate PartAccepts(body: Value)
  {
    && body.Obj?
    && StrAt(body, "name").Some? && |StrAt(body, "name").value| >= 1
    && OptionalString(body, "brand")
    && NumAt(body, "price").Some? && NumAt(body, "price").value >= 0.0
    && NumAt(body, "stock").Some? && IsInteger(NumAt(body, "stock").value)
    && NumAt(body, "stock").value >= 0.0
    && OptionalString(body, "category")
  }

  /** The parsed part fields; absent optional strings are `None`. */
  datatype PartInput = PartInput(name: string, brand: Option<string>, price: real,
                                 stock: int, category: Option<string>)

  /** `partSchema.parse(body)`. */
  function ParsePart(body: Value): (r: Result<PartInput, seq<Issue>>)
    ensures r.Ok? <==> PartAccepts(body)
    ensures r.Ok? ==> && StrAt(body, "name") == Some(r.value.name)
                      && r.value.name != ""
                      && StrAt(body, "brand") == r.value.brand
                      && NumAt(body, "price") == Some(r.value.price)
                      && r.value.price >= 0.0
                      && NumAt(body, "stock") == Some(r.value.stock as real)
                      && r.value.stock >= 0
                      && StrAt(body, "category") == r.value.category
    ensures r.Err? ==> r.error != []
  {
    var issues := PartIssues(body);
    if issues == [] then
      Ok(PartInput(StrAt(body, "name").value, StrAt(body, "brand"), NumAt(body, "price").value,
                   NumAt(body, "stock").value.Floor, StrAt(body, "category")))
    else Err(issues)
  }

  /** `brand` and `category` may be left out, and price = 0, stock = 0 are
      the smallest accepted values. */
  lemma MinimalPartAccepted(name: string)
    requires name != ""
    ensures var body := Obj(map["name" := Str(name), "price" := Num(0.0), "stock" := Num(0.0)]);
            ParsePart(body) == Ok(PartInput(name, None, 0.0, 0, None))
  {
    var body := Obj(map["name" := Str(name), "price" := Num(0.0), "stock" := Num(0.0)]);
    assert Get(body, "brand") == None && Get(body, "category") == None;
    assert NumAt(body, "stock") == Some(0.0);
  }

  /** `null` is not an absent brand: `.optional()` refuses it. */
  lemma NullBrandRefused(name: string)
    requires name != ""
    ensures var body := Obj(map["name" := Str(name), "brand" := Null,
                                "price" := Num(1.0), "stock" := Num(1.0)]);
            ParsePart(body) == Err([Issue("brand", InvalidType)])
  {
    var body := Obj(map["name" := Str(name), "brand" := Null,
                        "price" := Num(1.0), "stock" := Num(1.0)]);
    assert StringIssues(body, "name", 1) == [];
    assert OptionalStringIssues(body, "brand") == [Issue("brand", InvalidType)];
    assert NumberIssues(body, "price", false, false) == [];
    assert NumberIssues(body, "stock", true, false) == [];
    assert OptionalStringIssues(body, "category") == [];
    assert PartIssues(body) == [] + [Issue("brand", InvalidType)] + [] + [] + [];
    assert PartIssues(body) == [Issue("brand", InvalidType)];
  }

  /** A negative fractional stock raises two issues on `stock`, the
      `.int()` one first. */
  lemma NegativeFractionalStockIssues(name: string)
    requires name != ""
    ensures var body := Obj(map["name" := Str(name), "price" := Num(1.0), "stock" := Num(-1.5)]);
            ParsePart(body) == Err([Issue("stock", InvalidType), Issue("stock", TooSmall)])
  {
    var body := Obj(map["name" := Str(name), "price" := Num(1.0), "stock" := Num(-1.5)]);
    assert StringIssues(body, "name", 1) == [];
    assert OptionalStringIssues(body, "brand") == [];
    assert NumberIssues(body, "price", false, false) == [];
    assert (-1.5).Floor == -2;
    assert NumberIssues(body, "stock", true, false) == [Issue("stock", InvalidType), Issue("stock", TooSmall)];
    assert OptionalStringIssues(body, "category") == [];
    assert PartIssues(body) == [] + [] + [] + [Issue("stock", InvalidType), Issue("stock", TooSmall)] + [];
    assert PartIssues(body) == [Issue("stock", InvalidType), Issue("stock", TooSmall)];
  }
}
