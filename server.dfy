/**
 * The routes defined inline in backend/server.js: admin login, the
 * protected listing and deletion of leads, the public lead submission that
 * relies on the schema alone, and the public gallery listing.
 */
module Server {
  import opened Wrappers
  import opened LeadSchema
  import opened LeadQueries
  import opened LeadDb
  import opened GalleryRecord
  import opened Http
  import LeadController

  /** An admin account; `password` holds the salted bcrypt hash. */
  datatype Account = Account(id: string, email: string, password: string)

  /** The signed claims: the payload `{ user: { id } }` plus `iat` and `exp` in seconds (RFC 7519, section 4.1.4). */
  datatype Claims = Claims(userId: string, iat: int, exp: int)

  /** The outcome of the auth middleware in front of a protected route. */
  datatype Gate = Admitted(userId: string) | Rejected

  /** `expiresIn: '12h'`, in seconds. */
  const TokenLifetime := 12 * 60 * 60

  const InvalidCredentials := Response(400, Failure(MessageKey, Text("Invalid Credentials")))
  const Unauthenticated := Response(401, Denied)
  const LeadCaptured := "Lead captured successfully"
  const LeadRemoved := "Lead permanently removed"

  /** The account at `i` is the first one whose email is exactly `email`. */
  ghost predicate FirstWithEmail(accounts: seq<Account>, email: string, i: int) {
    0 <= i < |accounts| && accounts[i].email == email && forall j :: 0 <= j < i ==> accounts[j].email != email
  }

  /** `User.findOne({ email })`: the first account whose email is exactly `email`. */
  function FindOneByEmail(accounts: seq<Account>, email: string): (r: Option<Account>)
    ensures r.None? <==> forall i :: 0 <= i < |accounts| ==> accounts[i].email != email
    ensures r.Some? ==> exists i :: FirstWithEmail(accounts, email, i) && accounts[i] == r.value
  {
    if accounts == [] then None
    else if accounts[0].email == email then
      assert FirstWithEmail(accounts, email, 0);
      Some(accounts[0])
    else
      var r := FindOneByEmail(accounts[1..], email);
      assert r.Some? ==> exists i :: FirstWithEmail(accounts, email, i) && accounts[i] == r.value by {
        if r.Some? {
          var i :| FirstWithEmail(accounts[1..], email, i) && accounts[1..][i] == r.value;
          assert FirstWithEmail(accounts, email, i + 1);
        }
      }
      r
  }

  /**
   * POST /api/auth/login. `compare` stands for `bcrypt.compare(plain, hash)`
   * and `sign` for `jwt.sign` with the process secret; `nowMillis` is the
   * clock. An unknown email and a wrong password give the same 400 answer;
   * a match answers 200 with a token over that account's id, valid 12 hours.
   */
  function Login(accounts: seq<Account>, email: string, password: string,
                 compare: (string, string) -> bool, sign: Claims -> string, nowMillis: nat): (r: Response)
    ensures r == InvalidCredentials || r.status == 200
    ensures r.status == 200 <==>
      exists i :: FirstWithEmail(accounts, email, i) && compare(password, accounts[i].password)
    ensures r.status == 200 ==>
      && r.body.Issued?
      && exists i :: FirstWithEmail(accounts, email, i)
           && r.body.token == sign(Claims(accounts[i].id, nowMillis / 1000, nowMillis / 1000 + TokenLifetime))
  {
    match FindOneByEmail(accounts, email)
    case None => InvalidCredentials
    case Some(user) =>
      if !compare(password, user.password) then
        assert forall i :: FirstWithEmail(accounts, email, i) ==> accounts[i] == user;
        InvalidCredentials
      else
        var iat := nowMillis / 1000;
        Response(200, Issued(sign(Claims(user.id, iat, iat + TokenLifetime))))
  }

  /** GET /api/leads behind the auth middleware: 401 when rejected, otherwise every lead newest first with its count. */
  method GetLeads(db: LeadCollection, gate: Gate) returns (resp: Response)
    ensures gate.Rejected? ==> resp == Unauthenticated
    ensures gate.Admitted? ==>
      && resp.status == 200 && resp.body.Listing?
      && resp.body.count == |resp.body.data|
      && NewestFirstOrder(resp.body.data)
      && multiset(resp.body.data) == multiset(db.leads)
  {
    if gate.Rejected? {
      return Unauthenticated;
    }
    var leads := db.FindNewestFirst();
    resp := Response(200, Listing(|leads|, leads));
  }

  /**
   * POST /api/leads: builds the document straight from the body, so only the
   * schema can reject it (400 with the error under `error`); no phone is
   * demanded and no program default applied. Success answers 201 with a
   * message only.
   */
  method PostLead(db: LeadCollection, body: LeadFields, id: string, now: int) returns (resp: Response)
    requires db.Valid()
    modifies db
    ensures db.Valid()
    ensures Validate(body, id, now).Err? ==>
      resp == Response(400, Failure(ErrorKey, Invalid(Validate(body, id, now).error))) && db.leads == old(db.leads)
    ensures Validate(body, id, now).Ok? && IndexOf(old(db.leads), id).Some? ==>
      resp == Response(400, Failure(ErrorKey, DuplicateKey(id))) && db.leads == old(db.leads)
    ensures resp.status == 201 <==> Validate(body, id, now).Ok? && IndexOf(old(db.leads), id).None?
    ensures resp.status == 201 ==>
      resp.body == Done(LeadCaptured) && db.leads == old(db.leads) + [Validate(body, id, now).value]
  {
    match Validate(body, id, now) {
      case Err(e) =>
        resp := Response(400, Failure(ErrorKey, Invalid(e)));
      case Ok(lead) =>
        var inserted := db.Insert(lead);
        if inserted {
          resp := Response(201, Done(LeadCaptured));
        } else {
          resp := Response(400, Failure(ErrorKey, DuplicateKey(id)));
        }
    }
  }

  /**
   * DELETE /api/leads/:id behind the auth middleware (`findByIdAndDelete`):
   * 404 and no change when no lead has this `_id`, otherwise that lead is
   * removed and the answer is 200.
   */
  method DeleteLead(db: LeadCollection, gate: Gate, id: string) returns (resp: Response)
    requires db.Valid()
    modifies db
    ensures db.Valid()
    ensures gate.Rejected? ==> resp == Unauthenticated && db.leads == old(db.leads)
    ensures gate.Admitted? && IndexOf(old(db.leads), id).None? ==>
      resp == Response(404, Failure(MessageKey, Text(LeadController.LeadNotFound))) && db.leads == old(db.leads)
    ensures gate.Admitted? && IndexOf(old(db.leads), id).Some? ==>
      var i := IndexOf(old(db.leads), id).value;
      resp == Response(200, Done(LeadRemoved)) && db.leads == old(db.leads)[..i] + old(db.leads)[i + 1..]
  {
    if gate.Rejected? {
      return Unauthenticated;
    }
    var lead := db.FindById(id);
    db.DeleteById(id);
    if lead.None? {
      return Response(404, Failure(MessageKey, Text(LeadController.LeadNotFound)));
    }
    resp := Response(200, Done(LeadRemoved));
  }

  /** GET /api/gallery: 200 with every stored image, unfiltered. */
  function GetGallery(images: seq<GalleryImage>): (r: Response)
    ensures r.status == 200 && r.body.Images? && r.body.images == images
  {
    Response(200, Images(images))
  }

  /** Both login failures answer identically, whatever the email, password or clock. */
  lemma LoginFailuresIndistinguishable(accounts: seq<Account>, compare: (string, string) -> bool, sign: Claims -> string,
                                       email1: string, password1: string, now1: nat,
                                       email2: string, password2: string, now2: nat)
    requires Login(accounts, email1, password1, compare, sign, now1).status != 200
    requires Login(accounts, email2, password2, compare, sign, now2).status != 200
    ensures Login(accounts, email1, password1, compare, sign, now1)
         == Login(accounts, email2, password2, compare, sign, now2)
  {
  }

  /** An email no account has is refused with the generic answer. */
  lemma UnknownEmailRefused(accounts: seq<Account>, email: string, password: string,
                            compare: (string, string) -> bool, sign: Claims -> string, now: nat)
    requires forall a :: a in accounts ==> a.email != email
    ensures Login(accounts, email, password, compare, sign, now) == InvalidCredentials
  {
  }

  /** A wrong password for an existing account is refused with the same generic answer. */
  lemma WrongPasswordRefused(accounts: seq<Account>, i: nat, password: string,
                             compare: (string, string) -> bool, sign: Claims -> string, now: nat)
    requires i < |accounts|
    requires forall j :: 0 <= j < |accounts| && accounts[j].email == accounts[i].email ==> !compare(password, accounts[j].password)
    ensures Login(accounts, accounts[i].email, password, compare, sign, now) == InvalidCredentials
  {
  }

  /**
   * The two intake routes disagree: a body with name and email but no phone
   * or program is refused by the controller and stored by the inline route,
   * without a program.
   */
  lemma IntakeRoutesDisagree(id: string, now: int)
    ensures var body := LeadFields(Some("Abebe"), Some("a@x.com"), None, None);
      && !LeadController.HasRequiredFields(body)
      && Validate(body, id, now) == Ok(Lead(id, "Abebe", "a@x.com", None, None, now))
  {
  }
}
