/** The handlers as the server runs them: ordered reads and writes on the tables with early returns.
    A handler is not interrupted; the email column has its unique index. */
module AccountServer {
  import opened Common
  import opened Accounts
  import opened AccountRuns

  class Server {
    var users: map<UserId, User>
    var tokens: map<Token, TokenRow>
    var identities: map<string, UserId>
    var now: int

    ghost function Tables(): Db
      reads this
    {
      Db(users, tokens, identities, now)
    }

    ghost predicate Valid()
      reads this
    {
      EmailsUnique(users)
    }

    constructor (startedAt: int)
      ensures Valid() && Tables() == Db(map[], map[], map[], startedAt)
    {
      users, tokens, identities, now := map[], map[], map[], startedAt;
    }

    // -------------------------------------------------------------- statements

    method FindUserByEmail(email: Email) returns (found: Option<UserId>)
      requires Valid()
      ensures found == FindByEmail(users, email)
    {
      if id :| id in users && SameEmail(users[id].email, email) {
        return Some(id);
      }
      return None;
    }

    method FindLiveUserById(id: UserId) returns (found: Option<User>)
      ensures found == if IsLive(users, id) then Some(users[id]) else None
    {
      if id in users && users[id].deletedAt == None {
        return Some(users[id]);
      }
      return None;
    }

    method RecordIssuedRefreshToken(token: Token)
      modifies this`tokens
      ensures Tables() == RecordIssued(old(Tables()), token)
    {
      tokens := tokens[token := TokenRow(token.sub, token.exp, None, None)];
    }

    method MarkRefreshTokenUsed(token: Token)
      modifies this`tokens
      ensures tokens == MarkUsed(old(tokens), token, now)
    {
      if token in tokens && tokens[token].usedAt == None {
        tokens := tokens[token := tokens[token].(usedAt := Some(now))];
      }
    }

    method RevokeAllRefreshTokensForUser(uid: UserId)
      modifies this`tokens
      ensures tokens == RevokeAll(old(tokens), uid, now)
    {
      tokens := map t | t in tokens :: RevokeRow(tokens[t], uid, now);
    }

    /** True on the first delete only. */
    method SoftDeleteUser(id: UserId) returns (deleted: bool)
      modifies this`users
      ensures deleted <==> IsLive(old(users), id)
      ensures users == if deleted then old(users)[id := old(users)[id].(deletedAt := Some(now))] else old(users)
    {
      if !(id in users && users[id].deletedAt == None) {
        return false;
      }
      users := users[id := users[id].(deletedAt := Some(now))];
      return true;
    }

    /** True if the row was soft-deleted. */
    method ReactivateUser(id: UserId) returns (reactivated: bool)
      modifies this`users
      ensures reactivated <==> id in old(users) && old(users)[id].deletedAt.Some?
      ensures users == Reactivate(old(users), id)
    {
      if !(id in users && users[id].deletedAt.Some?) {
        assert id in users ==> users[id].(deletedAt := None) == users[id];
        return false;
      }
      users := users[id := users[id].(deletedAt := None)];
      return true;
    }

    /** Deletes expired rows; foreign keys cascade to tokens and links. */
    method PurgeExpiredSoftDeletedUsers()
      modifies this
      ensures Tables() == PurgeExpired(old(Tables()))
      ensures old(Valid()) ==> Valid()
    {
      users := map id | id in users && !IsExpired(users[id], now) :: users[id];
      tokens := map t | t in tokens && tokens[t].userId in users :: tokens[t];
      identities := map s | s in identities && identities[s] in users :: identities[s];
    }

    /** The token pair of a successful sign-in; only the refresh token is stored. */
    method IssueAuthSuccess(id: UserId, jti: nat, reactivated: bool) returns (response: Response)
      modifies this`tokens
      ensures Tables() == RecordIssued(old(Tables()), Mint(id, jti, now))
      ensures response == SignedIn(id, Mint(id, jti, now), reactivated)
    {
      var refreshToken := Mint(id, jti, now);
      RecordIssuedRefreshToken(refreshToken);
      return SignedIn(id, refreshToken, reactivated);
    }

    // -------------------------------------------------------------- handlers

    method HandleSignup(req: Request) returns (response: Response)
      requires Valid() && req.Signup? && req.newId !in users
      modifies this
      ensures Valid()
      ensures Effect(Tables(), response) == OnSignup(old(Tables()), req)
    {
      var existing := FindUserByEmail(req.email);
      if existing.Some? {
        return Status(409);
      }
      var passwordHash := PasswordHash(req.password, req.salt);
      users := users[req.newId := User(req.email, req.displayName, Some(passwordHash), req.level, None)];
      response := IssueAuthSuccess(req.newId, req.jti, false);
    }

    method HandleLogin(req: Request) returns (response: Response)
      requires Valid() && req.Login?
      modifies this
      ensures Valid()
      ensures Effect(Tables(), response) == OnLogin(old(Tables()), req)
    {
      var user := FindUserByEmail(req.email);
      if user == None {
        return Status(401);
      }
      var stored := users[user.value].passwordHash;
      if stored == None || !Verifies(req.password, stored.value) {
        return Status(401);
      }
      var wasReactivated := ReactivateUser(user.value);
      response := IssueAuthSuccess(user.value, req.jti, wasReactivated);
    }

    method HandleGoogle(req: Request) returns (response: Response)
      requires Valid() && req.Google? && req.newId !in users
      modifies this
      ensures Valid()
      ensures Effect(Tables(), response) == OnGoogle(old(Tables()), req)
    {
      var identity := req.identity;
      if identity.subject in identities && identities[identity.subject] in users {
        var linked := identities[identity.subject];
        var reactivated := ReactivateUser(linked);
        response := IssueAuthSuccess(linked, req.jti, reactivated);
        return;
      }
      var existing := FindUserByEmail(identity.email);
      if existing == None {
        users := users[req.newId := User(identity.email, identity.name, None, None, None)];
        identities := identities[identity.subject := req.newId];
        response := IssueAuthSuccess(req.newId, req.jti, false);
        return;
      }
      if !identity.emailVerified {
        return Status(409);
      }
      var reactivated := ReactivateUser(existing.value);
      identities := identities[identity.subject := existing.value];
      response := IssueAuthSuccess(existing.value, req.jti, reactivated);
    }

    /** The insert of the new token may fail after the old one was marked. */
    method HandleRefresh(req: Request) returns (response: Response)
      requires Valid() && (req.Refresh? || req.RefreshCutShort?)
      modifies this
      ensures Valid()
      ensures Effect(Tables(), response) == OnRefresh(old(Tables()), req)
    {
      var token := req.token;
      if !token.genuine || token.exp <= now {
        return Status(401);
      }
      if token !in tokens || tokens[token].revokedAt.Some? {
        return Status(401);
      }
      var row := tokens[token];
      if row.usedAt.Some? {
        RevokeAllRefreshTokensForUser(row.userId);
        return Status(401);
      }
      MarkRefreshTokenUsed(token);
      if req.RefreshCutShort? {
        return Status(502);
      }
      var newRefreshToken := Mint(row.userId, req.jti, now);
      RecordIssuedRefreshToken(newRefreshToken);
      return Rotated(newRefreshToken);
    }

    /** The revocation may fail after the row was marked. */
    method HandleDeleteMe(req: Request) returns (response: Response)
      requires Valid() && (req.DeleteMe? || req.DeleteMeCutShort?)
      modifies this
      ensures Valid()
      ensures Effect(Tables(), response) == OnDeleteMe(old(Tables()), req)
    {
      var deleted := SoftDeleteUser(req.session);
      if !deleted {
        return Status(404);
      }
      if req.DeleteMeCutShort? {
        return Status(502);
      }
      RevokeAllRefreshTokensForUser(req.session);
      return Status(204);
    }

    method HandleChangeEmail(req: Request) returns (response: Response)
      requires Valid() && req.ChangeEmail?
      modifies this
      ensures Valid()
      ensures Effect(Tables(), response) == OnChangeEmail(old(Tables()), req)
    {
      var user := FindLiveUserById(req.session);
      if user == None || user.value.passwordHash == None {
        return Status(422);
      }
      if !Verifies(req.currentPassword, user.value.passwordHash.value) {
        return Status(422);
      }
      if SameEmail(req.newEmail, user.value.email) {
        return Status(200);
      }
      var holder := FindUserByEmail(req.newEmail);
      if holder.Some? {
        return Status(409);
      }
      users := users[req.session := user.value.(email := req.newEmail)];
      return Status(200);
    }

    method HandleChangePassword(req: Request) returns (response: Response)
      requires Valid() && req.ChangePassword?
      modifies this
      ensures Valid()
      ensures Effect(Tables(), response) == OnChangePassword(old(Tables()), req)
    {
      var user := FindLiveUserById(req.session);
      if user == None || user.value.passwordHash == None {
        return Status(422);
      }
      if !Verifies(req.currentPassword, user.value.passwordHash.value) {
        return Status(422);
      }
      users := users[req.session := user.value.(passwordHash := Some(PasswordHash(req.newPassword, req.salt)))];
      return Status(204);
    }

    method HandleEditProfile(req: Request) returns (response: Response)
      requires Valid() && req.EditProfile?
      modifies this
      ensures Valid()
      ensures Effect(Tables(), response) == OnEditProfile(old(Tables()), req)
    {
      if req.displayName == None && req.level == None {
        return Status(400);
      }
      var user := FindLiveUserById(req.session);
      if user == None {
        return Status(404);
      }
      var edited := user.value;
      if req.displayName.Some? {
        edited := edited.(displayName := req.displayName);
      }
      if req.level.Some? {
        edited := edited.(level := req.level);
      }
      users := users[req.session := edited];
      return Status(200);
    }

    method Tick(seconds: nat)
      modifies this`now
      ensures Tables() == old(Tables()).(now := old(now) + seconds)
    {
      now := now + seconds;
    }

    // -------------------------------------------------------------- the running server

    /** Routes one request to its handler. */
    method Serve(req: Request) returns (response: Response)
      requires Valid() && (req.Signup? || req.Google? ==> req.newId !in users)
      modifies this
      ensures Valid()
      ensures Effect(Tables(), response) == Handle(old(Tables()), req)
    {
      hide OnSignup, OnLogin, OnGoogle, OnRefresh, OnDeleteMe, OnChangeEmail, OnChangePassword, OnEditProfile,
           PurgeExpired, EmailsUnique;
      response := Status(200);
      match req {
        case Signup(_, _, _, _, _, _, _) => response := HandleSignup(req);
        case Login(_, _, _) => response := HandleLogin(req);
        case Google(_, _, _) => response := HandleGoogle(req);
        case Refresh(_, _) => response := HandleRefresh(req);
        case RefreshCutShort(_) => response := HandleRefresh(req);
        case DeleteMe(_) => response := HandleDeleteMe(req);
        case DeleteMeCutShort(_) => response := HandleDeleteMe(req);
        case ChangeEmail(_, _, _) => response := HandleChangeEmail(req);
        case ChangePassword(_, _, _, _) => response := HandleChangePassword(req);
        case EditProfile(_, _, _) => response := HandleEditProfile(req);
        case Purge => PurgeExpiredSoftDeletedUsers();
        case Tick(seconds) => Tick(seconds);
      }
    }

    /** Serves requests in the order they come in; the tables follow the run of handlers. */
    method ServeAll(reqs: seq<Request>, ghost w: World) returns (responses: seq<Response>)
      requires Inv(w) && w.db == Tables() && FreshRun(w, reqs)
      modifies this
      ensures Tables() == After(w, reqs).db && Inv(After(w, reqs))
      ensures |responses| == |reqs|
      ensures forall k :: 0 <= k < |reqs| ==> responses[k] == Handle(After(w, reqs[..k]).db, reqs[k]).response
    {
      hide Inv, Handle, Next, Fresh;
      responses := [];
      assert reqs[..0] == [];
      for i := 0 to |reqs|
        invariant Tables() == After(w, reqs[..i]).db && Inv(After(w, reqs[..i]))
        invariant |responses| == i
        invariant forall k :: 0 <= k < i ==> responses[k] == Handle(After(w, reqs[..k]).db, reqs[k]).response
      {
        ghost var before := After(w, reqs[..i]);
        assert reqs[..i + 1] == reqs[..i] + [reqs[i]];
        RunSplit(w, reqs, i);
        ReadyFor(before, reqs[i]);
        var response := Serve(reqs[i]);
        StepKeeps(before, reqs[i]);
        NextIsHandled(before, reqs[i]);
        responses := responses + [response];
      }
      assert reqs[..|reqs|] == reqs;
    }
  }

  lemma ReadyFor(w: World, req: Request)
    requires Inv(w) && Fresh(w, req)
    ensures EmailsUnique(w.db.users) && (req.Signup? || req.Google? ==> req.newId !in w.db.users)
  {
    hide RowsAgree, DeletedAreLockedOut, RootsAgree, OneLivePerChain, SuccessorsAgree;
  }

  lemma NextIsHandled(w: World, req: Request)
    ensures Next(w, req).db == Handle(w.db, req).db
  {
    hide Handle;
  }

  /** The next request of a run is fresh, and takes the run one step on. */
  lemma {:induction false} RunSplit(w: World, reqs: seq<Request>, i: nat)
    requires FreshRun(w, reqs) && i < |reqs|
    ensures Fresh(After(w, reqs[..i]), reqs[i])
    ensures After(w, reqs[..i] + [reqs[i]]) == Next(After(w, reqs[..i]), reqs[i])
    decreases |reqs|
  {
    hide Fresh, Next;
    if i == 0 {
      assert reqs[..0] == [] && [] + [reqs[0]] == [reqs[0]] && [reqs[0]][1..] == [];
    } else {
      assert reqs[..i][1..] == reqs[1..][..i - 1];
      assert (reqs[..i] + [reqs[i]])[1..] == reqs[1..][..i - 1] + [reqs[1..][i - 1]];
      RunSplit(Next(w, reqs[0]), reqs[1..], i - 1);
    }
  }

  /** A server that starts with empty tables and serves these requests is safe. */
  method ServeFromStart(reqs: seq<Request>) returns (server: Server)
    requires FreshRun(EMPTY, reqs)
    ensures server.Tables() == After(EMPTY, reqs).db && Inv(After(EMPTY, reqs))
  {
    hide Inv, FreshRun, After;
    server := new Server(0);
    EmptyIsSafe();
    var responses := server.ServeAll(reqs, EMPTY);
  }
}
