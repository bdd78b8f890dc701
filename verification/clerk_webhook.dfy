/** The identity provider's webhook (`src/routes/api/webhooks/clerk.ts`):
    after the secret and signature checks, a `user.created` event creates the
    matching back-office user, named after the provider's username or, when
    there is none, after the email's local part and the tail of the provider's
    user id. The signature check and the back office's reply are inputs; the
    handler returns its response and the calls it made. */
module ClerkWebhook {
  import opened Wrappers
  import Text

  /** The fields of a verified event the handler reads. */
  datatype UserData = UserData(id: string, emails: seq<string>, username: Option<string>)
  datatype Event = Event(kind: string, data: UserData)

  /** The back office's answer to the user creation. A refusal carries its status and its
      body when that body is JSON. */
  datatype Reply =
    | Created
    | Refused(status: int, errorJson: Option<string>)
    | NetworkError

  /** The user the back office is asked to create; the random placeholder password is not
      part of the model. */
  datatype Effect = CreateUser(username: string, email: string, clerkId: string, confirmed: bool, role: int)

  /** The handler's answer; `Thrown` is an exception escaping the handler, answered by the
      framework rather than by this code. */
  datatype Response = Response(status: int, body: string) | Thrown

  const UserCreated := "user.created"
  const AuthenticatedRole := 1
  const Processed := "Webhook processed"
  const ServerError := "Internal Server Error"

  /** `id.slice(-4)`: the last four characters, or all of a shorter id. */
  function IdTail(id: string): (r: string)
    ensures |r| == if |id| < 4 then |id| else 4
    ensures forall k :: 0 <= k < |r| ==> r[k] == id[|id| - |r| + k]
  {
    if |id| <= 4 then id else id[|id| - 4..]
  }

  /** `username || email.split("@")[0] + id.slice(-4)`. */
  function Username(username: Option<string>, email: string, id: string): (r: string)
    ensures Truthy(username) ==> r == username.value
    ensures !Truthy(username) ==>
      var local := Text.BeforeFirst(email, '@');
      && Text.IsPrefix(local, r) && '@' !in r[..|local|]
      && |r| == |local| + |IdTail(id)|
      && r[|local|..] == IdTail(id)
  {
    if Truthy(username) then username.value
    else Text.BeforeFirst(email, '@') + IdTail(id)
  }

  /** The POST handler. A falsy secret answers 500 before anything else; a failed signature
      check answers 400; an event other than `user.created` is acknowledged with 200 and no
      call. For a created user the first email is required (none makes the handler throw);
      the user is then created, and the back office's refusal is passed on with its own status
      and body, while a refusal without a JSON body or a network failure answers 500. */
  function Handle(secret: Option<string>, verified: Option<Event>, reply: Reply): (r: (Response, seq<Effect>))
    ensures !Truthy(secret) ==> r == (Response(500, "Missing secret"), [])
    ensures Truthy(secret) && verified.None? ==> r == (Response(400, "Invalid signature"), [])
    ensures |r.1| <= 1
    ensures |r.1| == 1 <==>
      Truthy(secret) && verified.Some? && verified.value.kind == UserCreated && |verified.value.data.emails| > 0
    ensures r.0.Thrown? <==>
      Truthy(secret) && verified.Some? && verified.value.kind == UserCreated && |verified.value.data.emails| == 0
    ensures |r.1| == 1 ==>
      (var data := verified.value.data;
       r.1[0] == CreateUser(Username(data.username, data.emails[0], data.id), data.emails[0], data.id, true,
                            AuthenticatedRole))
    ensures Truthy(secret) && verified.Some? && verified.value.kind != UserCreated ==> r == (Response(200, Processed), [])
    ensures |r.1| == 1 && reply.Created? ==> r.0 == Response(200, Processed)
    ensures |r.1| == 1 && reply.Refused? && reply.errorJson.Some? ==> r.0 == Response(reply.status, reply.errorJson.value)
    ensures |r.1| == 1 && (reply.NetworkError? || (reply.Refused? && reply.errorJson.None?)) ==>
      r.0 == Response(500, ServerError)
  {
    if !Truthy(secret) then (Response(500, "Missing secret"), [])
    else if verified.None? then (Response(400, "Invalid signature"), [])
    else if verified.value.kind != UserCreated then (Response(200, Processed), [])
    else
      var data := verified.value.data;
      if |data.emails| == 0 then (Thrown, [])
      else
        var email := data.emails[0];
        var call := [CreateUser(Username(data.username, email, data.id), email, data.id, true, AuthenticatedRole)];
        match reply
        case Created => (Response(200, Processed), call)
        case Refused(status, errorJson) =>
          if errorJson.Some? then (Response(status, errorJson.value), call) else (Response(500, ServerError), call)
        case NetworkError => (Response(500, ServerError), call)
  }

  /** A provider account without a username, signing in as jo@x.io with id user_XYZ9,
      becomes the back-office user joXYZ9. */
  lemma FallbackScenario()
    ensures Username(None, "jo@x.io", "user_XYZ9") == "joXYZ9"
  {
    var local, domain, id := "jo", "x.io", "user_XYZ9";
    assert '@' !in local;
    assert "jo@x.io" == local + ['@'] + domain;
    Text.SplitJoin(local, '@', domain);
    assert IdTail(id) == id[5..] == "XYZ9";
  }

  /** Two accounts without usernames whose emails share the local part and whose ids share
      their last four characters get the same fallback username. */
  lemma FallbackCollides(email1: string, email2: string, id1: string, id2: string)
    requires Text.BeforeFirst(email1, '@') == Text.BeforeFirst(email2, '@')
    requires IdTail(id1) == IdTail(id2)
    ensures Username(None, email1, id1) == Username(None, email2, id2)
  {
  }
}
