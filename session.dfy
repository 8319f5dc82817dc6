/**
 * The bearer-token gate of backend/src/middlewares/auth.middleware.js as a
 * decision: an OPTIONS request passes through, anything else is rejected with
 * 401 or accepted with the identity `{id, role}` read from the user table.
 * Verifying the JSON Web Token is a parameter.
 */
module Session {
  import opened Common
  import opened Text
  import Users

  /** What the gate attaches to the request as `req.user`. */
  datatype Identity = Identity(id: Id, role: string)

  /** The gate's decision: `next()` without an identity, `next()` with one, or a 401 reply. */
  datatype Gate = PassThrough | Accept(who: Identity) | Reject(status: nat, message: string)

  const BearerPrefix: string := "Bearer "

  /** `authHeader.startsWith("Bearer ")`, the space included. */
  predicate IsBearer(header: string) {
    |header| >= |BearerPrefix| && header[..|BearerPrefix|] == BearerPrefix
  }

  /** A header starting with "Bearer " splits on ' ' into "Bearer" and at least one more field. */
  lemma BearerSplit(header: string)
    requires IsBearer(header)
    ensures Split(header, ' ') == ["Bearer"] + Split(header[|BearerPrefix|..], ' ')
  {
    var rest := header[|BearerPrefix|..];
    assert header == "Bearer" + [' '] + rest by {
      assert header == header[..|BearerPrefix|] + rest;
    }
    SplitAfterPiece("Bearer", rest, ' ');
  }

  /** `authHeader.split(" ")[1]`: the first space-separated field after "Bearer ". */
  function BearerToken(header: string): (token: string)
    requires IsBearer(header)
    ensures ' ' !in token
    ensures token == Split(header[|BearerPrefix|..], ' ')[0]
  {
    BearerSplit(header);
    var fields := Split(header, ' ');
    assert fields[1] in fields;
    fields[1]
  }

  /** When nothing after "Bearer " holds a space, the token is all of it. */
  lemma BearerTokenWhole(header: string)
    requires IsBearer(header) && ' ' !in header[|BearerPrefix|..]
    ensures BearerToken(header) == header[|BearerPrefix|..]
  {
    SplitNoSeparator(header[|BearerPrefix|..], ' ');
  }

  /** `"Bearer a b"` carries the token `"a"`: the fields after the second are ignored. */
  lemma BearerTokenSecondField(header: string)
    requires header == "Bearer a b"
    ensures IsBearer(header) && BearerToken(header) == "a"
  {
    var a, b := "a", "b";
    assert header[|BearerPrefix|..] == a + [' '] + b;
    SplitAfterPiece(a, b, ' ');
  }

  /** `"Bearer  a"`, with two spaces, carries the empty token. */
  lemma BearerTokenDoubleSpace(header: string)
    requires header == "Bearer  a"
    ensures IsBearer(header) && BearerToken(header) == ""
  {
    var e, a := "", "a";
    assert header[|BearerPrefix|..] == e + [' '] + a;
    SplitAfterPiece(e, a, ' ');
  }

  /**
   * The middleware. OPTIONS passes through unchecked; a missing header or one
   * not starting with "Bearer " is "Not authorized"; a token that does not
   * verify is "Invalid token"; a verified id with no user is "User not found".
   * Every rejection is 401, and an accepted identity is taken from the stored
   * user record, not from the token.
   */
  function Authenticate(
    httpMethod: string,
    header: Option<string>,
    verifyToken: string -> Option<Id>,
    users: map<Id, Users.User>): (g: Gate)
    ensures g.PassThrough? <==> httpMethod == "OPTIONS"
    ensures g.Reject? ==> g.status == 401
    ensures httpMethod != "OPTIONS" && (header.None? || !IsBearer(header.value)) ==> g == Reject(401, "Not authorized")
    ensures httpMethod != "OPTIONS" && header.Some? && IsBearer(header.value) ==>
      match verifyToken(BearerToken(header.value))
      case None => g == Reject(401, "Invalid token")
      case Some(id) =>
        if id in users then g == Accept(Identity(users[id].id, users[id].role))
        else g == Reject(401, "User not found")
    ensures g.Accept? ==> exists id :: id in users && g.who == Identity(users[id].id, users[id].role)
  {
    if httpMethod == "OPTIONS" then PassThrough
    else if header.None? || !IsBearer(header.value) then Reject(401, "Not authorized")
    else match verifyToken(BearerToken(header.value))
      case None => Reject(401, "Invalid token")
      case Some(id) =>
        if id in users then Accept(Identity(users[id].id, users[id].role))
        else Reject(401, "User not found")
  }

  /** A lower-case scheme is not a bearer header. */
  lemma LowerCaseSchemeRejected(header: string, verifyToken: string -> Option<Id>, users: map<Id, Users.User>)
    requires header == "bearer abc"
    ensures Authenticate("GET", Some(header), verifyToken, users) == Reject(401, "Not authorized")
  {
    assert header[0] != BearerPrefix[0];
  }
}
