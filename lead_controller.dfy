/**
 * The lead controller (backend/src/controllers/leadController.js): public
 * intake with its own required-field check and program default, the
 * newest-first listing, and deletion by `_id`.
 */
module LeadController {
  import opened Wrappers
  import opened JsText
  import opened LeadSchema
  import opened LeadQueries
  import opened LeadDb
  import opened Http

  const GeneralInquiry := "General Inquiry"
  const RequiredFieldsMissing := "Required fields missing"
  const Welcome := "Welcome to the forge. We'll contact you soon."
  const LeadNotFound := "Lead not found"
  const LeadPurged := "Lead purged from database"

  /** `name`, `email` and `phone` are all truthy. */
  predicate HasRequiredFields(body: LeadFields) {
    Truthy(body.name) && Truthy(body.email) && Truthy(body.phone)
  }

  /** `program || "General Inquiry"`. */
  function ProgramOrDefault(program: Field): (p: string)
    ensures p != ""
    ensures Truthy(program) ==> p == program.value
    ensures !Truthy(program) ==> p == GeneralInquiry
  {
    OrElse(program, GeneralInquiry)
  }

  /**
   * `createLead`: rejects a body missing a required field with 400, and
   * otherwise stores a lead with the given fields and the program (or its
   * default) and answers 201 with that lead. A clash on `_id` is a thrown
   * error, answered with 500.
   */
  method CreateLead(db: LeadCollection, body: LeadFields, id: string, now: int) returns (resp: Response)
    requires db.Valid()
    modifies db
    ensures db.Valid()
    ensures !HasRequiredFields(body) ==>
      resp == Response(400, Failure(MessageKey, Text(RequiredFieldsMissing))) && db.leads == old(db.leads)
    ensures HasRequiredFields(body) && IndexOf(old(db.leads), id).Some? ==>
      resp == Response(500, Failure(MessageKey, DuplicateKey(id))) && db.leads == old(db.leads)
    ensures resp.status == 201 <==> HasRequiredFields(body) && IndexOf(old(db.leads), id).None?
    ensures resp.status == 201 ==>
      && resp.body.Created? && resp.body.message == Welcome
      && resp.body.lead == Lead(id, body.name.value, body.email.value, body.phone,
                                Some(ProgramOrDefault(body.program)), now)
      && db.leads == old(db.leads) + [resp.body.lead]
  {
    if !HasRequiredFields(body) {
      return Response(400, Failure(MessageKey, Text(RequiredFieldsMissing)));
    }
    var fields := LeadFields(body.name, body.email, body.phone, Some(ProgramOrDefault(body.program)));
    var built := Validate(fields, id, now);
    assert built.Ok?;
    var lead := built.value;
    var inserted := db.Insert(lead);
    if inserted {
      resp := Response(201, Created(Welcome, lead));
    } else {
      resp := Response(500, Failure(MessageKey, DuplicateKey(id)));
    }
  }

  /** `getLeads`: 200 with every lead, newest first, and `count` equal to the number of leads returned. */
  method GetLeads(db: LeadCollection) returns (resp: Response)
    ensures resp.status == 200 && resp.body.Listing?
    ensures resp.body.count == |resp.body.data|
    ensures NewestFirstOrder(resp.body.data)
    ensures multiset(resp.body.data) == multiset(db.leads)
  {
    var leads := db.FindNewestFirst();
    resp := Response(200, Listing(|leads|, leads));
  }

  /**
   * `deleteLead`: 404 and no change when no lead has this `_id`; otherwise
   * removes exactly that lead, keeps the others in order, and answers 200.
   */
  method DeleteLead(db: LeadCollection, id: string) returns (resp: Response)
    requires db.Valid()
    modifies db
    ensures db.Valid()
    ensures IndexOf(old(db.leads), id).None? ==>
      resp == Response(404, Failure(MessageKey, Text(LeadNotFound))) && db.leads == old(db.leads)
    ensures IndexOf(old(db.leads), id).Some? ==>
      var i := IndexOf(old(db.leads), id).value;
      resp == Response(200, Done(LeadPurged)) && db.leads == old(db.leads)[..i] + old(db.leads)[i + 1..]
  {
    var lead := db.FindById(id);
    if lead.None? {
      return Response(404, Failure(MessageKey, Text(LeadNotFound)));
    }
    db.DeleteById(lead.value.id);
    resp := Response(200, Done(LeadPurged));
  }
}
