/** The demonstration routes of `playWithRoutes.js`: a static-token auth
    gate, a route behind it, a route without it, and a dummy login that
    hands out the token the gate accepts. */
module PlayWithRoutes {

  import opened Wrappers
  import opened Json

  /** The one shared secret, compared by exact string equality. */
  const SecretToken: string := "mysecrettoken"

  const ForbiddenMessage: string := "Forbidden: Invalid token"
  const ProtectedMessage: string := "You have accessed a protected route!"
  const NormalMessage: string := "This is a normal route without authentication."
  const UnauthorizedMessage: string := "Unauthorized: Invalid credentials"

  /** The JSON object a route answers with. */
  datatype Payload = Message(text: string) | TokenGrant(token: string)

  datatype Reply = Reply(status: nat, payload: Payload)

  /** What a middleware does: call `next`, or answer itself. */
  datatype Step = Continue | Respond(reply: Reply)

  /** `authMiddleware`: `authorization` is the request's header of that
      name, `None` when the request has none. */
  function AuthMiddleware(authorization: Option<string>): (r: Step)
    ensures r.Continue? <==> authorization == Some(SecretToken)
    ensures r.Respond? ==> r.reply == Reply(403, Message(ForbiddenMessage))
  {
    if authorization == Some(SecretToken) then Continue
    else Respond(Reply(403, Message(ForbiddenMessage)))
  }

  /** GET `/valid-route`: the gate runs first, and the handler only when the
      gate calls `next`. */
  function ValidRoute(authorization: Option<string>): (r: Reply)
    ensures r.status == 200 <==> authorization == Some(SecretToken)
    ensures r.status == 200 ==> r.payload == Message(ProtectedMessage)
    ensures r.status != 200 ==> r == Reply(403, Message(ForbiddenMessage))
  {
    match AuthMiddleware(authorization)
    case Continue => Reply(200, Message(ProtectedMessage))
    case Respond(reply) => reply
  }

  /** GET `/normal-route`: no gate, so the header plays no part. */
  function NormalRoute(authorization: Option<string>): (r: Reply)
    ensures r.status == 200 && r.payload == Message(NormalMessage)
  {
    Reply(200, Message(NormalMessage))
  }

  /** POST `/login`: the token for exactly the credentials admin/password
      (strict equality, so only those two strings), 401 otherwise. */
  function Login(username: Value, password: Value): (r: Reply)
    ensures r.status == 200 <==> username == Str("admin") && password == Str("password")
    ensures r.status == 200 ==> r.payload == TokenGrant(SecretToken)
    ensures r.status != 200 ==> r == Reply(401, Message(UnauthorizedMessage))
  {
    if username == Str("admin") && password == Str("password") then
      Reply(200, TokenGrant(SecretToken))
    else
      Reply(401, Message(UnauthorizedMessage))
  }

  /** The token a successful login returns passes the gate, so sending it
      back reaches the protected route. */
  lemma LoginTokenPassesGate(username: Value, password: Value)
    requires Login(username, password).status == 200
    ensures Login(username, password).payload.TokenGrant?
    ensures AuthMiddleware(Some(Login(username, password).payload.token)) == Continue
    ensures ValidRoute(Some(Login(username, password).payload.token)).status == 200
  {
  }
}
