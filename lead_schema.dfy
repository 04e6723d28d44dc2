/**
 * The `Lead` document shape (backend/src/models/Lead.js): `name` and `email`
 * are required strings, `phone` and `program` optional strings without a
 * default, and `createdAt` defaults to the moment the document is built.
 */
module LeadSchema {
  import opened Wrappers
  import opened JsText

  /** A stored lead. `id` is the document's `_id`; `createdAt` is in milliseconds since the epoch. */
  datatype Lead = Lead(
    id: string,
    name: string,
    email: string,
    phone: Field,
    program: Field,
    createdAt: int)

  /** The fields a handler takes from the request body (`const { name, email, phone, program } = req.body`). */
  datatype LeadFields = LeadFields(name: Field, email: Field, phone: Field, program: Field)

  /** A failed schema validation: the required paths that were missing, in schema order. */
  datatype SchemaError = RequiredMissing(paths: seq<string>)

  /** A required `String` path is satisfied only by a non-empty string. */
  predicate RequiredPresent(f: Field) {
    Truthy(f)
  }

  /** The required paths that `fields` leaves unsatisfied, in schema order. */
  function MissingPaths(fields: LeadFields): seq<string> {
    (if RequiredPresent(fields.name) then [] else ["name"]) +
    (if RequiredPresent(fields.email) then [] else ["email"])
  }

  /**
   * Builds and validates a document from `fields`, with the `_id` the driver
   * assigns and the current time as `createdAt`.
   */
  function Validate(fields: LeadFields, id: string, now: int): (r: Result<Lead, SchemaError>)
    ensures r.Ok? <==> RequiredPresent(fields.name) && RequiredPresent(fields.email)
    ensures r.Ok? ==>
      && r.value.id == id && r.value.name == fields.name.value && r.value.email == fields.email.value
      && r.value.name != "" && r.value.email != ""
      && r.value.phone == fields.phone && r.value.program == fields.program
      && r.value.createdAt == now
    ensures r.Err? ==>
      && r.error.paths != []
      && ("name" in r.error.paths <==> !RequiredPresent(fields.name))
      && ("email" in r.error.paths <==> !RequiredPresent(fields.email))
      && (forall p :: p in r.error.paths ==> p == "name" || p == "email")
  {
    var missing := MissingPaths(fields);
    if missing == [] then
      Ok(Lead(id, fields.name.value, fields.email.value, fields.phone, fields.program, now))
    else
      Err(RequiredMissing(missing))
  }

  /** Neither `phone` nor `program` is required, and the schema gives them no default. */
  lemma OptionalPathsHaveNoDefault(name: string, email: string, id: string, now: int)
    requires name != "" && email != ""
    ensures Validate(LeadFields(Some(name), Some(email), None, None), id, now)
         == Ok(Lead(id, name, email, None, None, now))
  {
  }
}
