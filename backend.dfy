/**
 * The request handlers of the backend over its two collections: register,
 * login, submit complaint, list complaints and update status. Each handler
 * call is one atomic step on the store and ends in a response.
 */
module Backend {
  import opened Wrappers
  import opened Text
  import opened Email
  import opened Records
  import opened Gate
  import opened Query

  /** `v?.trim()` read for truthiness: `undefined` and `""` are both falsy. */
  function TrimOrEmpty(v: Option<string>): (r: string)
    ensures Trimmed(r)
    ensures v.None? ==> r == ""
    ensures v.Some? ==> |r| <= |v.value|
    ensures v.Some? && Trimmed(v.value) ==> r == v.value
  {
    if v.Some? then Trim(v.value) else ""
  }

  /** `v?.trim().toLowerCase()` read the same way. */
  function NormalizeOrEmpty(v: Option<string>): (r: string)
    ensures IsNormalized(r)
    ensures v.None? ==> r == ""
    ensures v.Some? && IsNormalized(v.value) ==> r == v.value
  {
    if v.Some? then Normalize(v.value) else ""
  }

  /** Mongoose's `required` validator on a String path: present and not the empty string. */
  predicate Required(v: Option<string>) {
    v.Some? && v.value != ""
  }

  /** Mongoose's `required` refuses a missing path and `""`, but not whitespace: it does not trim. */
  lemma RequiredExamples()
    ensures !Required(None) && !Required(Some(""))
    ensures Required(Some(" ")) && Required(Some("x"))
  {
  }

  /** The complaint schema's required paths: name, category, description and priority. */
  predicate SchemaAccepts(body: ComplaintBody) {
    Required(body.name) && Required(body.category) && Required(body.description) && Required(body.priority)
  }

  /**
   * `new Complaint({...req.body, userId: req.user.id})`: the body's fields,
   * the caller's id as owner, and "Pending" only when the body has no status.
   */
  function NewComplaint(body: ComplaintBody, owner: Id, id: Id, stamp: nat): (r: Complaint)
    requires SchemaAccepts(body)
    ensures r.id == id && r.createdAt == stamp && r.userId == owner
    ensures && Some(r.name) == body.name && Some(r.category) == body.category
            && Some(r.description) == body.description && Some(r.priority) == body.priority
    ensures r.name != "" && r.category != "" && r.description != "" && r.priority != ""
    ensures body.status.None? ==> r.status == Some(DefaultStatus)
    ensures body.status.Some? ==> r.status == body.status
  {
    Complaint(id, body.name.value, body.category.value, body.description.value, body.priority.value,
              if body.status.Some? then body.status else Some(DefaultStatus), owner, stamp)
  }

  /** Whether the schema accepts a body does not depend on `status` (defaulted) or `userId` (not required). */
  lemma SchemaIgnoresOptionalPaths(body: ComplaintBody, status: Option<string>, userId: Option<Id>)
    ensures SchemaAccepts(body.(status := status, userId := userId)) == SchemaAccepts(body)
  {
  }

  /** The owner of a new complaint is the caller, whatever `userId` the body sent. */
  lemma NewComplaintIgnoresBodyOwner(body: ComplaintBody, userId: Option<Id>, owner: Id, id: Id, stamp: nat)
    requires SchemaAccepts(body)
    ensures NewComplaint(body.(userId := userId), owner, id, stamp) == NewComplaint(body, owner, id, stamp)
  {
  }

  /**
   * `findByIdAndUpdate(id, {status})` on the collection: the document with
   * that id gets the new status (`None` writes a null status).
   */
  function SetStatus(cs: seq<Complaint>, id: Id, status: Option<string>): (r: seq<Complaint>)
    ensures |r| == |cs|
    ensures forall k :: 0 <= k < |cs| ==>
              r[k] == if cs[k].id == id then cs[k].(status := status) else cs[k]
  {
    if cs == [] then []
    else [if cs[0].id == id then cs[0].(status := status) else cs[0]] + SetStatus(cs[1..], id, status)
  }

  /** No two complaints share an id. */
  predicate DistinctIds(cs: seq<Complaint>) {
    forall i, j :: 0 <= i < j < |cs| ==> cs[i].id != cs[j].id
  }

  /**
   * With distinct ids an update changes at most one complaint, and only its
   * status; when no complaint has the id, nothing changes.
   */
  lemma SetStatusTouchesOne(cs: seq<Complaint>, id: Id, status: Option<string>)
    requires DistinctIds(cs)
    ensures var r := SetStatus(cs, id, status);
      && (forall i, j :: 0 <= i < |cs| && 0 <= j < |cs| && r[i] != cs[i] && r[j] != cs[j] ==> i == j)
      && (forall k :: 0 <= k < |cs| ==> r[k].(status := cs[k].status) == cs[k])
      && ((forall k :: 0 <= k < |cs| ==> cs[k].id != id) ==> r == cs)
  {
  }

  /** The user table: keyed by normalised email, each user filed under its own email, ids distinct and issued. */
  ghost predicate UsersValid(users: map<string, User>, nextId: nat) {
    && (forall e :: e in users ==> users[e].email == e && IsNormalized(e) && users[e].id < nextId)
    && (forall e1, e2 :: e1 in users && e2 in users && e1 != e2 ==> users[e1].id != users[e2].id)
  }

  /** The complaint collection: ids distinct and issued, stamps increasing in insertion order and issued. */
  ghost predicate ComplaintsValid(cs: seq<Complaint>, nextId: nat, clock: nat) {
    && DistinctIds(cs)
    && Ascending(cs)
    && (forall k :: 0 <= k < |cs| ==> cs[k].id < nextId && cs[k].createdAt < clock)
  }

  /** Filing a fresh, normalised user under its own email keeps the table valid. */
  lemma UsersValidInsert(users: map<string, User>, nextId: nat, u: User)
    requires UsersValid(users, nextId)
    requires u.email !in users && IsNormalized(u.email) && u.id == nextId
    ensures UsersValid(users[u.email := u], nextId + 1)
  {
    var users' := users[u.email := u];
    forall e | e in users'
      ensures users'[e].email == e && IsNormalized(e) && users'[e].id < nextId + 1
    {
      if e != u.email {
        assert users'[e] == users[e];
      }
    }
    forall e1, e2 | e1 in users' && e2 in users' && e1 != e2
      ensures users'[e1].id != users'[e2].id
    {
      if e1 != u.email && e2 != u.email {
        assert users'[e1] == users[e1] && users'[e2] == users[e2];
      }
    }
  }

  /** Issuing more ids or stamps keeps the complaint collection valid. */
  lemma ComplaintsValidLater(cs: seq<Complaint>, nextId: nat, clock: nat, nextId': nat, clock': nat)
    requires ComplaintsValid(cs, nextId, clock)
    requires nextId <= nextId' && clock <= clock'
    ensures ComplaintsValid(cs, nextId', clock')
  {
  }

  /** Two distinct users never share an email: the table is keyed by it. */
  lemma EmailsUnique(users: map<string, User>, nextId: nat)
    requires UsersValid(users, nextId)
    ensures forall e1, e2 :: e1 in users && e2 in users && e1 != e2 ==> users[e1].email != users[e2].email
  {
  }

  class Server {
    /** The bcrypt and JWT calls under the process-wide secret. */
    const crypto: Crypto
    /**
     * How the database layer treats the `undefined` that `{ status }`
     * carries when an update body has no status: written as null (true) or
     * dropped from the update (false). The handler's own code does not fix
     * which; it depends on the Mongoose and driver versions and options.
     */
    const undefinedAsNull: bool
    /** The User collection, keyed by its unique email. */
    var users: map<string, User>
    /** The Complaint collection in insertion order. */
    var complaints: seq<Complaint>
    /** The next fresh document id. */
    var nextId: nat
    /** The next creation stamp; it only grows. */
    var clock: nat

    ghost predicate Valid()
      reads this
    {
      && Sound(crypto)
      && UsersValid(users, nextId)
      && ComplaintsValid(complaints, nextId, clock)
    }

    /** A server over a user table provisioned out of band (admins included) and no complaints. */
    constructor (crypto: Crypto, undefinedAsNull: bool, seed: map<string, User>, firstId: nat)
      requires Sound(crypto)
      requires UsersValid(seed, firstId)
      ensures Valid()
      ensures this.crypto == crypto && this.undefinedAsNull == undefinedAsNull && users == seed && complaints == [] && nextId == firstId && clock == 0
    {
      this.crypto := crypto;
      this.undefinedAsNull := undefinedAsNull;
      users := seed;
      complaints := [];
      nextId := firstId;
      clock := 0;
    }

    /**
     * `POST /api/register`. The checks run in order and each failure leaves
     * the store as it was; success files exactly one new user under the
     * normalised email, with the trimmed name, the digest of the trimmed
     * password, and role "student" whatever the body said.
     */
    method Register(body: RegisterBody, salt: nat) returns (r: Response)
      requires Valid()
      modifies this
      ensures Valid()
      ensures complaints == old(complaints) && clock == old(clock)
      ensures var name, email, password := TrimOrEmpty(body.name), NormalizeOrEmpty(body.email), TrimOrEmpty(body.password);
        if name == "" || email == "" || password == "" then
          r == BadRequest("All fields are required") && users == old(users) && nextId == old(nextId)
        else if !IsEmailFormat(email) then
          r == BadRequest("Invalid email format") && users == old(users) && nextId == old(nextId)
        else if email in old(users) then
          r == BadRequest("User already exists") && users == old(users) && nextId == old(nextId)
        else
          && r == Ok("User Registered Successfully")
          && users == old(users)[email := User(old(nextId), name, email, crypto.hash(password, salt), StudentRole)]
          && nextId == old(nextId) + 1
    {
      var name := TrimOrEmpty(body.name);
      var email := NormalizeOrEmpty(body.email);
      var password := TrimOrEmpty(body.password);
      if name == "" || email == "" || password == "" {
        return BadRequest("All fields are required");
      }
      if !IsEmailFormat(email) {
        return BadRequest("Invalid email format");
      }
      if email in users {
        return BadRequest("User already exists");
      }
      var hashed := crypto.hash(password, salt);
      NormalizeIsNormalized(body.email.value);
      AddUser(User(nextId, name, email, hashed, StudentRole));
      r := Ok("User Registered Successfully");
    }

    /** `user.save()` for a fresh user under a normalised email not yet taken. */
    method AddUser(user: User)
      requires Valid()
      requires user.email !in users && IsNormalized(user.email) && user.id == nextId
      modifies this
      ensures Valid()
      ensures users == old(users)[user.email := user] && nextId == old(nextId) + 1
      ensures complaints == old(complaints) && clock == old(clock)
    {
      UsersValidInsert(users, nextId, user);
      ComplaintsValidLater(complaints, nextId, clock, nextId + 1, clock);
      users := users[user.email := user];
      nextId := nextId + 1;
    }

    /**
     * `POST /api/login`. Empty fields, an unknown email and a wrong password
     * are told apart in that order; a match returns a token signed over the
     * stored `{id, role}` and the stored role. The store is only read.
     */
    method Login(body: LoginBody) returns (r: Response)
      ensures var email, password := NormalizeOrEmpty(body.email), TrimOrEmpty(body.password);
        if email == "" || password == "" then r == BadRequest("Email and password required")
        else if email !in users then r == BadRequest("User not found")
        else if !crypto.compare(password, users[email].password) then r == BadRequest("Invalid password")
        else
          var u := users[email];
          r == Response(200, Session(crypto.sign(Identity(u.id, u.role)), u.role))
      ensures r.code == 200 <==> r.payload.Session?
    {
      var email := NormalizeOrEmpty(body.email);
      var password := TrimOrEmpty(body.password);
      if email == "" || password == "" {
        return BadRequest("Email and password required");
      }
      if email !in users {
        return BadRequest("User not found");
      }
      var user := users[email];
      if !crypto.compare(password, user.password) {
        return BadRequest("Invalid password");
      }
      var token := crypto.sign(Identity(user.id, user.role));
      r := Response(200, Session(token, user.role));
    }

    /**
     * `POST /api/complaints` behind the gate. A refused header gets the
     * gate's response; a body missing a required field fails to save (500);
     * otherwise exactly one complaint is appended, owned by the caller
     * whatever `userId` the body carried, with status "Pending" unless the
     * body set one, a fresh id and the next stamp.
     */
    method SubmitComplaint(header: Option<string>, body: ComplaintBody) returns (r: Response)
      requires Valid()
      modifies this
      ensures Valid()
      ensures users == old(users)
      ensures var gate := Authenticate(header, crypto.verify);
        if gate.Failure? then
          r == gate.error && complaints == old(complaints) && nextId == old(nextId) && clock == old(clock)
        else if !SchemaAccepts(body) then
          && r == Response(500, Message("Failed to submit complaint"))
          && complaints == old(complaints) && nextId == old(nextId) && clock == old(clock)
        else
          && r == Ok("Complaint Submitted")
          && complaints == old(complaints) + [NewComplaint(body, gate.value.id, old(nextId), old(clock))]
          && nextId == old(nextId) + 1 && clock == old(clock) + 1
      ensures |complaints| == |old(complaints)| + 1 ==>
        var c := complaints[|complaints| - 1];
        && c.userId == Authenticate(header, crypto.verify).value.id
        && (body.status.None? ==> c.status == Some(DefaultStatus))
    {
      var gate := Authenticate(header, crypto.verify);
      if gate.Failure? {
        return gate.error;
      }
      if !SchemaAccepts(body) {
        return Response(500, Message("Failed to submit complaint"));
      }
      var complaint := NewComplaint(body, gate.value.id, nextId, clock);
      complaints := complaints + [complaint];
      nextId := nextId + 1;
      clock := clock + 1;
      r := Ok("Complaint Submitted");
    }

    /**
     * `GET /api/complaints` behind the gate: the role-filtered listing,
     * newest first. The store is only read.
     */
    method ListComplaints(header: Option<string>, status: Option<string>) returns (r: Response)
      ensures var gate := Authenticate(header, crypto.verify);
        if gate.Failure? then r == gate.error
        else r == Response(200, Complaints(Listing(complaints, gate.value, status)))
      ensures r.code == 200 ==> r.payload.Complaints? && NewestFirst(r.payload.items)
    {
      var gate := Authenticate(header, crypto.verify);
      if gate.Failure? {
        return gate.error;
      }
      r := Response(200, Complaints(Listing(complaints, gate.value, status)));
    }

    /**
     * `PUT /api/complaints/:id` behind the gate. A non-admin gets 403 and
     * nothing changes; an id that is not an ObjectId fails (500); otherwise
     * the complaint with that id, if any, gets the body's status verbatim,
     * nothing else changes, and the reply is "Status Updated" either way. A
     * body without a status nulls the complaint's status or changes nothing,
     * as `undefinedAsNull` says.
     * `target` is `None` for a path parameter that does not cast to an id.
     */
    method UpdateStatus(header: Option<string>, target: Option<Id>, status: Option<string>) returns (r: Response)
      requires Valid()
      modifies this
      ensures Valid()
      ensures users == old(users) && nextId == old(nextId) && clock == old(clock)
      ensures var gate := Authenticate(header, crypto.verify);
        if gate.Failure? then r == gate.error && complaints == old(complaints)
        else if gate.value.role != AdminRole then
          r == Response(403, Message("Access denied")) && complaints == old(complaints)
        else if target.None? then
          r == Response(500, Message("Failed to update status")) && complaints == old(complaints)
        else
          && r == Ok("Status Updated")
          && complaints == if status.None? && !undefinedAsNull then old(complaints)
                           else SetStatus(old(complaints), target.value, status)
    {
      var gate := Authenticate(header, crypto.verify);
      if gate.Failure? {
        return gate.error;
      }
      if gate.value.role != AdminRole {
        return Response(403, Message("Access denied"));
      }
      if target.None? {
        return Response(500, Message("Failed to update status"));
      }
      if status.Some? || undefinedAsNull {
        SetStatusTouchesOne(complaints, target.value, status);
        complaints := SetStatus(complaints, target.value, status);
      }
      r := Ok("Status Updated");
    }
  }
}
