/**
 * The entities the backend stores and exchanges: users, complaints, the
 * caller identity carried by a session token, request bodies and
 * responses, and the cryptographic library calls as abstract functions.
 */
module Records {
  import opened Wrappers

  /** A store-assigned document identifier (a MongoDB ObjectId). */
  type Id = nat

  /** The role every self-registered account receives. */
  const StudentRole := "student"
  /** The role allowed to see every complaint and change statuses. */
  const AdminRole := "admin"
  /** The status a complaint gets when the submitted body has none. */
  const DefaultStatus := "Pending"
  /** The listing filter value that means "no status filter". */
  const AllStatuses := "All"

  /** A stored account; `password` holds the bcrypt digest, never the plaintext. */
  datatype User = User(id: Id, name: string, email: string, password: string, role: string)

  /**
   * A stored complaint; `createdAt` is the store's creation stamp. A
   * `status` of `None` is a null status, which an update without a status
   * can leave behind.
   */
  datatype Complaint = Complaint(
    id: Id,
    name: string,
    category: string,
    description: string,
    priority: string,
    status: Option<string>,
    userId: Id,
    createdAt: nat)

  /** The decoded token payload attached to the request: `{id, role}`. */
  datatype Identity = Identity(id: Id, role: string)

  /**
   * The JSON body of `POST /api/register`; `None` is a field left out. A
   * `role` the client sends is carried so that its being ignored can be stated.
   */
  datatype RegisterBody = RegisterBody(
    name: Option<string>,
    email: Option<string>,
    password: Option<string>,
    role: Option<string>)

  /** The JSON body of `POST /api/login`. */
  datatype LoginBody = LoginBody(email: Option<string>, password: Option<string>)

  /** The JSON body of `POST /api/complaints`, restricted to the schema's fields. */
  datatype ComplaintBody = ComplaintBody(
    name: Option<string>,
    category: Option<string>,
    description: Option<string>,
    priority: Option<string>,
    status: Option<string>,
    userId: Option<Id>)

  /** The JSON payload of a response. */
  datatype Payload =
    | Message(message: string)
    | Session(token: string, role: string)
    | Complaints(items: seq<Complaint>)

  /** An HTTP response: status code and JSON payload. */
  datatype Response = Response(code: nat, payload: Payload)

  function Ok(message: string): Response { Response(200, Message(message)) }

  function BadRequest(message: string): Response { Response(400, Message(message)) }

  /**
   * The library calls the handlers make, as functions: `bcrypt.hash` with
   * the salt it draws, `bcrypt.compare`, `jwt.sign` and `jwt.verify` under
   * the process-wide secret.
   */
  datatype Crypto = Crypto(
    hash: (string, nat) -> string,
    compare: (string, string) -> bool,
    sign: Identity -> string,
    verify: string -> Option<Identity>)

  /**
   * What the handlers rely on from the libraries: a password matches its own
   * digest whatever the salt; a signed payload verifies to itself; a signed
   * token is space-free (base64url segments and dots); an empty token is
   * refused.
   */
  ghost predicate Sound(c: Crypto) {
    && (forall p, salt :: c.compare(p, c.hash(p, salt)))
    && (forall who :: c.verify(c.sign(who)) == Some(who))
    && (forall who :: ' ' !in c.sign(who))
    && c.verify("") == None
  }
}
