/** Callers of the handlers: what a client can rely on across several requests. */
module Scenarios {
  import opened Wrappers
  import opened Text
  import opened Email
  import opened Records
  import opened Gate
  import opened Query
  import opened Backend

  /**
   * A successful registration, even one whose body asks for role "admin",
   * is followed by a successful login with the same email and password; the
   * login reports role "student", and its token, presented as a bearer
   * header, authenticates as the new account.
   */
  method RegisterThenLogin(s: Server, name: string, email: string, password: string, salt: nat)
    returns (registered: Response, loggedIn: Response)
    requires s.Valid()
    modifies s
    ensures s.Valid()
    ensures registered == Ok("User Registered Successfully") ==>
      && loggedIn.code == 200 && loggedIn.payload.Session?
      && loggedIn.payload.role == StudentRole
      && Authenticate(Some(BearerPrefix + loggedIn.payload.token), s.crypto.verify)
           == Success(Identity(old(s.nextId), StudentRole))
  {
    registered := s.Register(RegisterBody(Some(name), Some(email), Some(password), Some(AdminRole)), salt);
    loggedIn := s.Login(LoginBody(Some(email), Some(password)));
    if registered == Ok("User Registered Successfully") {
      IssuedTokenAuthenticates(s.crypto, Identity(old(s.nextId), StudentRole));
    }
  }

  /** The name and password of the sample registration come through trimming unchanged. */
  lemma SampleFieldsTrimmed()
    ensures TrimOrEmpty(Some("A")) == "A" && TrimOrEmpty(Some("pw12345")) == "pw12345"
  {
    TrimOfTrimmed("A");
    TrimOfTrimmed("pw12345");
  }

  /** The sample email is already normalised and is well formed. */
  lemma SampleEmailClean()
    ensures NormalizeOrEmpty(Some("a@x.com")) == "a@x.com" && IsEmailFormat("a@x.com")
  {
    assert IsNormalized("a@x.com");
    NormalizedIsFixed("a@x.com");
    assert RegexSplit("a@x.com", 1, 3);
    EmailFormatMatchesRegex("a@x.com");
  }

  /**
   * Registering `a@x.com` succeeds once, and the second attempt is refused
   * as a duplicate and changes nothing.
   */
  method RegisterTwice(s: Server) returns (first: Response, second: Response)
    requires s.Valid() && "a@x.com" !in s.users
    modifies s
    ensures s.Valid()
    ensures first == Ok("User Registered Successfully")
    ensures second == BadRequest("User already exists")
    ensures s.users == old(s.users)["a@x.com" := User(old(s.nextId), "A", "a@x.com", s.crypto.hash("pw12345", 7), StudentRole)]
  {
    SampleFieldsTrimmed();
    SampleEmailClean();
    var body := RegisterBody(Some("A"), Some("a@x.com"), Some("pw12345"), None);
    first := s.Register(body, 7);
    second := s.Register(body, 8);
  }

  /**
   * A student's complaint is stored as "Pending" under the student's id
   * even though the body names another owner; a body without the required
   * name fails to save and stores nothing.
   */
  method SubmitAsStudent(crypto: Crypto, undefinedAsNull: bool) returns (s: Server)
    requires Sound(crypto)
    ensures s.Valid() && s.crypto == crypto && s.undefinedAsNull == undefinedAsNull
    ensures s.complaints == [Complaint(0, "A", "Wifi", "down", "High", Some("Pending"), 7, 0)]
  {
    s := new Server(crypto, undefinedAsNull, map[], 0);
    var student := BearerPrefix + crypto.sign(Identity(7, StudentRole));
    IssuedTokenAuthenticates(crypto, Identity(7, StudentRole));
    var noName := ComplaintBody(None, Some("Wifi"), Some("down"), Some("High"), None, Some(8));
    var r := s.SubmitComplaint(Some(student), noName);
    assert r.code == 500 && s.complaints == [];
    var body := ComplaintBody(Some("A"), Some("Wifi"), Some("down"), Some("High"), None, Some(8));
    r := s.SubmitComplaint(Some(student), body);
    assert r == Ok("Complaint Submitted");
  }

  /**
   * The student's request to reopen the complaint is refused, the admin's
   * request to resolve it is applied, and an update of an unknown id
   * reports success and changes nothing.
   */
  method ResolveAsAdmin(s: Server) returns (refused: Response, applied: Response, unknown: Response)
    requires s.Valid()
    requires s.complaints == [Complaint(0, "A", "Wifi", "down", "High", Some("Pending"), 7, 0)]
    modifies s
    ensures s.Valid()
    ensures s.users == old(s.users) && s.nextId == old(s.nextId) && s.clock == old(s.clock)
    ensures refused == Response(403, Message("Access denied"))
    ensures applied == Ok("Status Updated") && unknown == Ok("Status Updated")
    ensures s.complaints == [Complaint(0, "A", "Wifi", "down", "High", Some("Resolved"), 7, 0)]
  {
    var student := BearerPrefix + s.crypto.sign(Identity(7, StudentRole));
    var warden := BearerPrefix + s.crypto.sign(Identity(8, AdminRole));
    IssuedTokenAuthenticates(s.crypto, Identity(7, StudentRole));
    IssuedTokenAuthenticates(s.crypto, Identity(8, AdminRole));

    refused := s.UpdateStatus(Some(student), Some(0), Some("In Progress"));
    applied := s.UpdateStatus(Some(warden), Some(0), Some("Resolved"));
    unknown := s.UpdateStatus(Some(warden), Some(99), Some("Pending"));
  }

  /**
   * With the complaint resolved, the admin's "Resolved" listing and the
   * owner's listing (whose "Pending" filter is ignored) both show it.
   */
  method ListResolved(s: Server) returns (adminView: Response, ownerView: Response)
    requires s.Valid()
    requires s.complaints == [Complaint(0, "A", "Wifi", "down", "High", Some("Resolved"), 7, 0)]
    ensures adminView == Response(200, Complaints(s.complaints))
    ensures ownerView == Response(200, Complaints(s.complaints))
  {
    var resolved := s.complaints[0];
    var student := BearerPrefix + s.crypto.sign(Identity(7, StudentRole));
    var warden := BearerPrefix + s.crypto.sign(Identity(8, AdminRole));
    IssuedTokenAuthenticates(s.crypto, Identity(7, StudentRole));
    IssuedTokenAuthenticates(s.crypto, Identity(8, AdminRole));
    assert Find([resolved], Filter(Some("Resolved"), None)) == [resolved];
    assert Find([resolved], Filter(None, Some(7))) == [resolved];
    adminView := s.ListComplaints(Some(warden), Some("Resolved"));
    ownerView := s.ListComplaints(Some(student), Some("Pending"));
  }

  /**
   * An admin's update whose body has no status is answered "Status Updated";
   * the complaint's status becomes null when the database layer writes the
   * `undefined` as null, and stays as it was when it drops the key.
   */
  method UpdateWithoutStatus(s: Server) returns (r: Response)
    requires s.Valid()
    requires s.complaints == [Complaint(0, "A", "Wifi", "down", "High", Some("Pending"), 7, 0)]
    modifies s
    ensures s.Valid()
    ensures r == Ok("Status Updated")
    ensures s.undefinedAsNull ==> s.complaints == [Complaint(0, "A", "Wifi", "down", "High", None, 7, 0)]
    ensures !s.undefinedAsNull ==> s.complaints == old(s.complaints)
  {
    var warden := BearerPrefix + s.crypto.sign(Identity(8, AdminRole));
    IssuedTokenAuthenticates(s.crypto, Identity(8, AdminRole));
    r := s.UpdateStatus(Some(warden), Some(0), None);
  }
}
