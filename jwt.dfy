/** The check every authenticated request goes through (backend/src/auth/strategies/jwt.strategy.ts):
    a token is honoured only while its version is the user's current token version. */
module Jwt {
  import opened Common
  import opened Accounts

  /** `req.user` on an accepted request. */
  datatype Principal = Principal(id: nat, email: string, role: Role, tv: int)

  datatype JwtError = Unauthorized | TokenRevoked

  /** `validate(payload)`: the user must exist and `payload.tv ?? 0` must equal the stored version. */
  function Validate(users: map<nat, User>, payload: TokenPayload): (r: Result<Principal, JwtError>)
    ensures payload.sub !in users ==> r == Err(Unauthorized)
    ensures r.Ok? <==> payload.sub in users && payload.tv.GetOr(0) == users[payload.sub].tokenVersion
    ensures r.Ok? ==> var u := users[payload.sub];
      r.value == Principal(u.id, u.email, u.role, payload.tv.GetOr(0))
    ensures payload.sub in users && r.Err? ==> r.error == TokenRevoked
  {
    if payload.sub !in users then Err(Unauthorized)
    else
      var user := users[payload.sub];
      var tokenVersionInToken := payload.tv.GetOr(0);
      if tokenVersionInToken != user.tokenVersion then Err(TokenRevoked)
      else Ok(Principal(user.id, user.email, user.role, tokenVersionInToken))
  }

  /** Once a user's token version has moved on, every token issued before is refused. */
  lemma VersionBumpRevokes(before: map<nat, User>, after: map<nat, User>, payload: TokenPayload)
    requires Validate(before, payload).Ok?
    requires payload.sub in after && after[payload.sub].tokenVersion > before[payload.sub].tokenVersion
    ensures Validate(after, payload) == Err(TokenRevoked)
  {
  }

  /** A token from login is accepted as long as the version has not changed, and names the user. */
  lemma IssuedTokenAccepted(users: map<nat, User>, id: nat)
    requires id in users && users[id].id == id
    ensures Validate(users, PayloadFor(users[id])).Ok?
    ensures Validate(users, PayloadFor(users[id])).value.id == id
  {
  }

  /** A token of login, then a logout with it: the token is refused afterwards, and so is a
      second logout's token version. */
  lemma LogoutRevokesToken(users: map<nat, User>, id: nat)
    requires id in users && users[id].id == id
    ensures var after := LogoutSpec(users, id, PayloadFor(users[id]).tv).1;
      Validate(after, PayloadFor(users[id])) == Err(TokenRevoked)
  {
  }

  /** The bump of forgotPassword and of resetPassword revokes every token of that user. */
  lemma ResetFlowRevokes(users: map<nat, User>, id: nat, payload: TokenPayload, token: string, now: int, newHash: string)
    requires id in users && payload.sub == id && Validate(users, payload).Ok?
    ensures Validate(users[id := AfterForgot(users[id], token, now)], payload) == Err(TokenRevoked)
    ensures Validate(users[id := AfterReset(users[id], newHash)], payload) == Err(TokenRevoked)
  {
  }
}
