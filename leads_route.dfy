/** `POST /api/wholesale-leads`: the wholesale form stores a lead. */
module LeadsRoute {
  import opened Json
  import opened Web
  import opened FormSchemas

  /** What the handler awaits: the body, then the insert, which yields the id. */
  datatype Effects = Effects(body: Outcome<Json>, created: Outcome<string>)

  /** The record handed to `wholesaleLead.create`. */
  datatype LeadRecord = LeadRecord(
    companyName: string, cuit: Option<string>, name: string, email: string,
    whatsapp: Option<string>, city: Option<string>, notes: Option<string>, status: string)

  datatype Reply = ErrorReply(error: string) | Created(id: string, record: LeadRecord)

  const InvalidData := "Invalid data"
  const CreateFailed := "Failed to create lead"

  /** `leadSchema`. */
  predicate Valid(body: Json, isEmail: string -> bool)
  {
    body.JObj? &&
    NonEmptyText(Prop(body, "companyName")) &&
    OptionalText(Prop(body, "cuit")) &&
    NonEmptyText(Prop(body, "name")) &&
    Email(Prop(body, "email"), isEmail) &&
    OptionalText(Prop(body, "whatsapp")) &&
    OptionalText(Prop(body, "city")) &&
    OptionalText(Prop(body, "notes"))
  }

  /** The parsed body with status NEW; optional fields pass through as sent. */
  function Record(body: Json, isEmail: string -> bool): LeadRecord
    requires Valid(body, isEmail)
  {
    LeadRecord(
      Prop(body, "companyName").value.s,
      TextOf(Prop(body, "cuit")),
      Prop(body, "name").value.s,
      Prop(body, "email").value.s,
      TextOf(Prop(body, "whatsapp")),
      TextOf(Prop(body, "city")),
      TextOf(Prop(body, "notes")),
      "NEW")
  }

  function Post(e: Effects, isEmail: string -> bool): Response<Reply>
  {
    if e.body.Threw? then Response(500, ErrorReply(CreateFailed))
    else if !Valid(e.body.value, isEmail) then Response(400, ErrorReply(InvalidData))
    else if e.created.Threw? then Response(500, ErrorReply(CreateFailed))
    else Response(201, Created(e.created.value, Record(e.body.value, isEmail)))
  }

  // ---------------------------------------------------------------- properties

  /** Schema failure is 400 whatever the store would do; other failures are 500. */
  lemma StatusRules(e: Effects, isEmail: string -> bool, created: Outcome<string>)
    ensures Post(e, isEmail).status == 400 <==> e.body.Done? && !Valid(e.body.value, isEmail)
    ensures Post(e, isEmail).status == 500 <==> e.body.Threw? || (Valid(e.body.value, isEmail) && e.created.Threw?)
    ensures Post(e, isEmail).status == 201 <==> e.body.Done? && Valid(e.body.value, isEmail) && e.created.Done?
    ensures e.body.Done? && !Valid(e.body.value, isEmail) ==> Post(e.(created := created), isEmail) == Post(e, isEmail)
  {
  }

  /** A stored lead has a company name, a name and a valid email, status NEW, and
      its optional fields exactly as sent, an empty string included. */
  lemma StoredLead(e: Effects, isEmail: string -> bool)
    requires Post(e, isEmail).status == 201
    ensures var r := Post(e, isEmail).body.record;
      var body := e.body.value;
      r.companyName != "" && r.name != "" && isEmail(r.email) && r.status == "NEW" &&
      (r.cuit.None? <==> Prop(body, "cuit").None?) &&
      (r.cuit.Some? ==> Prop(body, "cuit") == Some(JStr(r.cuit.value))) &&
      (r.whatsapp.None? <==> Prop(body, "whatsapp").None?) &&
      (r.whatsapp.Some? ==> Prop(body, "whatsapp") == Some(JStr(r.whatsapp.value))) &&
      (r.city.None? <==> Prop(body, "city").None?) &&
      (r.city.Some? ==> Prop(body, "city") == Some(JStr(r.city.value))) &&
      (r.notes.None? <==> Prop(body, "notes").None?) &&
      (r.notes.Some? ==> Prop(body, "notes") == Some(JStr(r.notes.value))) &&
      Post(e, isEmail).body.id == e.created.value
  {
  }

  /** A `null` optional field fails the schema: `optional` admits only absence. */
  lemma NullOptionalRejected(e: Effects, isEmail: string -> bool)
    requires e.body.Done? && Prop(e.body.value, "city") == Some(JNull)
    ensures Post(e, isEmail).status == 400
  {
  }
}
