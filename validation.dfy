/** The request schemas of the backend, as validity predicates and as the list of
    fields a schema check reports. E-mail and ISO date-time formats are not modelled:
    an e-mail is any string and a date arrives already parsed to a timestamp. */
module Validation {
  import opened Wrappers

  // ------------------------------------------------------------ auth

  datatype RegisterInput = RegisterInput(email: string, password: string, name: Option<string>)

  predicate ValidRegister(r: RegisterInput) {
    8 <= |r.password| <= 100 && (r.name.Some? ==> |r.name.value| >= 2)
  }

  datatype LoginInput = LoginInput(email: string, password: string)

  predicate ValidLogin(l: LoginInput) {
    |l.password| >= 1
  }

  // ---------------------------------------------------------- events

  predicate TitleOk(title: string) { 3 <= |title| <= 200 }
  predicate DescriptionOk(d: string) { |d| <= 2000 }
  predicate LocationOk(l: string) { |l| <= 300 }
  /** `z.number().int().positive()`: the model's integers are already whole. */
  predicate MaxAttendeesOk(m: int) { m > 0 }

  /** An optional field passes when absent or when its value passes. */
  predicate Optionally<T>(o: Option<T>, ok: T -> bool) {
    o.Some? ==> ok(o.value)
  }

  datatype CreateEventInput = CreateEventInput(title: string, description: Option<string>, date: int,
                                               location: Option<string>, maxAttendees: Option<int>)

  predicate ValidCreate(c: CreateEventInput) {
    TitleOk(c.title)
    && Optionally(c.description, DescriptionOk)
    && Optionally(c.location, LocationOk)
    && Optionally(c.maxAttendees, MaxAttendeesOk)
  }

  /** Every field of an update is optional. */
  datatype UpdateEventInput = UpdateEventInput(title: Option<string>, description: Option<string>,
                                               date: Option<int>, location: Option<string>,
                                               maxAttendees: Option<int>)

  predicate ValidUpdate(u: UpdateEventInput) {
    Optionally(u.title, TitleOk)
    && Optionally(u.description, DescriptionOk)
    && Optionally(u.location, LocationOk)
    && Optionally(u.maxAttendees, MaxAttendeesOk)
  }

  /** The names of the fields whose check fails, in the schema's field order. */
  function Failing(checks: seq<(string, bool)>): (fields: seq<string>)
    ensures fields == [] <==> forall i :: 0 <= i < |checks| ==> checks[i].1
    ensures forall f :: f in fields <==> exists i :: 0 <= i < |checks| && checks[i].0 == f && !checks[i].1
  {
    if checks == [] then []
    else (if checks[0].1 then [] else [checks[0].0]) + Failing(checks[1..])
  }

  function RegisterIssues(r: RegisterInput): (fields: seq<string>)
    ensures fields == [] <==> ValidRegister(r)
    ensures "password" in fields <==> !(8 <= |r.password| <= 100)
  {
    var checks := [("password", 8 <= |r.password| <= 100),
                   ("name", r.name.Some? ==> |r.name.value| >= 2)];
    assert checks[0] in checks;
    assert checks[1] in checks;
    Failing(checks)
  }

  function LoginIssues(l: LoginInput): (fields: seq<string>)
    ensures fields == [] <==> ValidLogin(l)
  {
    var checks := [("password", |l.password| >= 1)];
    assert checks[0] in checks;
    Failing(checks)
  }

  function CreateIssues(c: CreateEventInput): (fields: seq<string>)
    ensures fields == [] <==> ValidCreate(c)
    ensures "title" in fields <==> !TitleOk(c.title)
    ensures "maxAttendees" in fields <==> c.maxAttendees.Some? && c.maxAttendees.value <= 0
  {
    var checks := [("title", TitleOk(c.title)),
                   ("description", Optionally(c.description, DescriptionOk)),
                   ("location", Optionally(c.location, LocationOk)),
                   ("maxAttendees", Optionally(c.maxAttendees, MaxAttendeesOk))];
    assert checks[0] in checks;
    assert checks[1] in checks;
    assert checks[2] in checks;
    assert checks[3] in checks;
    Failing(checks)
  }

  function UpdateIssues(u: UpdateEventInput): (fields: seq<string>)
    ensures fields == [] <==> ValidUpdate(u)
    ensures "title" in fields <==> u.title.Some? && !TitleOk(u.title.value)
  {
    var checks := [("title", Optionally(u.title, TitleOk)),
                   ("description", Optionally(u.description, DescriptionOk)),
                   ("location", Optionally(u.location, LocationOk)),
                   ("maxAttendees", Optionally(u.maxAttendees, MaxAttendeesOk))];
    assert checks[0] in checks;
    assert checks[1] in checks;
    assert checks[2] in checks;
    assert checks[3] in checks;
    Failing(checks)
  }

  /** The update that supplies every field of a create request. */
  function AsUpdate(c: CreateEventInput): UpdateEventInput {
    UpdateEventInput(Some(c.title), c.description, Some(c.date), c.location, c.maxAttendees)
  }

  /** The update schema has the same bounds as the create schema, field for field, and
      additionally accepts a missing title. */
  lemma UpdateBoundsMatchCreate(c: CreateEventInput)
    ensures ValidCreate(c) <==> ValidUpdate(AsUpdate(c))
    ensures ValidUpdate(AsUpdate(c).(title := None))
            <==> ValidCreate(c.(title := "abc"))
  {
  }

  // ----------------------------------------------------------- query

  datatype RawQuery = RawQuery(page: Option<string>, limit: Option<string>,
                               sort: Option<string>, order: Option<string>)

  datatype EventQuery = EventQuery(page: string, limit: string, sort: string, order: string)

  const SortValues: seq<string> := ["date", "created", "title"]
  const OrderValues: seq<string> := ["asc", "desc"]

  /** `eventQuerySchema`: defaults for absent parameters, enum checks on sort and order. */
  function ParseQuery(q: RawQuery): (r: Option<EventQuery>)
    ensures r.Some? <==> (q.sort.Some? ==> q.sort.value in SortValues)
                         && (q.order.Some? ==> q.order.value in OrderValues)
    ensures r.Some? ==> r.value.sort in SortValues && r.value.order in OrderValues
    ensures r.Some? ==> r.value.page == q.page.GetOr("1") && r.value.limit == q.limit.GetOr("10")
    ensures r.Some? ==> r.value.sort == q.sort.GetOr("date") && r.value.order == q.order.GetOr("asc")
  {
    var sort := q.sort.GetOr("date");
    var order := q.order.GetOr("asc");
    if sort in SortValues && order in OrderValues then
      Some(EventQuery(q.page.GetOr("1"), q.limit.GetOr("10"), sort, order))
    else None
  }

  lemma EmptyQueryDefaults()
    ensures ParseQuery(RawQuery(None, None, None, None)) == Some(EventQuery("1", "10", "date", "asc"))
  {
  }
}
