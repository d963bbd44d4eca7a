/** `POST /api/contact`: the public contact form stores a contact query. */
module ContactRoute {
  import opened Json
  import opened Web
  import opened FormSchemas

  /** What the handler awaits: the body, then the insert, which yields the id. */
  datatype Effects = Effects(body: Outcome<Json>, created: Outcome<string>)

  /** The record handed to `contactQuery.create`. */
  datatype ContactRecord = ContactRecord(
    name: string, email: string, phone: Option<string>, whatsapp: Option<string>,
    company: Option<string>, message: string, status: string)

  datatype Reply =
    | ErrorReply(error: string, message: Option<string>)
    | Created(success: bool, id: string, record: ContactRecord)

  const InvalidData := "Datos inválidos"
  const CheckFields := "Por favor verifica que todos los campos requeridos estén completos"
  const Duplicate := "Ya existe una consulta con este email"
  const ProcessFailed := "Error al procesar la consulta"
  const Unknown := "Error desconocido"

  /** `contactSchema`. */
  predicate Valid(body: Json, isEmail: string -> bool)
  {
    body.JObj? &&
    NonEmptyText(Prop(body, "name")) &&
    Email(Prop(body, "email"), isEmail) &&
    OptionalText(Prop(body, "phone")) &&
    OptionalText(Prop(body, "whatsapp")) &&
    OptionalText(Prop(body, "company")) &&
    NonEmptyText(Prop(body, "message"))
  }

  /** The record stored for a valid body: empty optional fields become `null`. */
  function Record(body: Json, isEmail: string -> bool): ContactRecord
    requires Valid(body, isEmail)
  {
    ContactRecord(
      Prop(body, "name").value.s,
      Prop(body, "email").value.s,
      NonEmptyOrNull(TextOf(Prop(body, "phone"))),
      NonEmptyOrNull(TextOf(Prop(body, "whatsapp"))),
      NonEmptyOrNull(TextOf(Prop(body, "company"))),
      Prop(body, "message").value.s,
      "NEW")
  }

  /** The `catch` block. */
  function Failure(e: Thrown): Response<Reply>
  {
    if HasCode(e, "P2002") then Response(409, ErrorReply(Duplicate, None))
    else Response(500, ErrorReply(ProcessFailed, Some(if e.message != "" then e.message else Unknown)))
  }

  function Post(e: Effects, isEmail: string -> bool): Response<Reply>
  {
    if e.body.Threw? then Failure(e.body.error)
    else if !Valid(e.body.value, isEmail) then Response(400, ErrorReply(InvalidData, Some(CheckFields)))
    else if e.created.Threw? then Failure(e.created.error)
    else Response(201, Created(true, e.created.value, Record(e.body.value, isEmail)))
  }

  // ---------------------------------------------------------------- properties

  /** An invalid payload is 400 and nothing is stored: the reply does not depend on
      the insert. */
  lemma InvalidIs400(e: Effects, isEmail: string -> bool, created: Outcome<string>)
    requires e.body.Done? && !Valid(e.body.value, isEmail)
    ensures Post(e, isEmail) == Response(400, ErrorReply(InvalidData, Some(CheckFields)))
    ensures Post(e.(created := created), isEmail) == Post(e, isEmail)
  {
  }

  /** A stored query has a name, a valid email and a message, status NEW, and its
      optional fields are either `null` or non-empty; the reply carries its id. */
  lemma StoredQuery(e: Effects, isEmail: string -> bool)
    ensures Post(e, isEmail).status == 201 <==> e.body.Done? && Valid(e.body.value, isEmail) && e.created.Done?
    ensures Post(e, isEmail).status == 201 ==>
      var r := Post(e, isEmail).body.record;
      var body := e.body.value;
      r.name != "" && isEmail(r.email) && r.message != "" && r.status == "NEW" &&
      Post(e, isEmail).body.success && Post(e, isEmail).body.id == e.created.value &&
      (Prop(body, "phone") == Some(JStr("")) ==> r.phone.None?) &&
      (Prop(body, "phone").None? ==> r.phone.None?) &&
      (r.phone.Some? ==> r.phone.value != "" && Prop(body, "phone") == Some(JStr(r.phone.value))) &&
      (r.whatsapp.Some? ==> r.whatsapp.value != "" && Prop(body, "whatsapp") == Some(JStr(r.whatsapp.value))) &&
      (r.company.Some? ==> r.company.value != "" && Prop(body, "company") == Some(JStr(r.company.value)))
  {
  }

  /** A unique-constraint failure is 409; every other failure is 500 and carries the
      error's message. */
  lemma FailureCodes(e: Thrown)
    ensures Failure(e).status == 409 <==> HasCode(e, "P2002")
    ensures !HasCode(e, "P2002") ==>
      Failure(e) == Response(500, ErrorReply(ProcessFailed, Some(if e.message != "" then e.message else Unknown)))
  {
  }
}
