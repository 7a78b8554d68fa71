/** What each handler answers and changes, said of the rows themselves, and what it leaves alone: who
    may sign in with which password, and whose rows and tokens a request can touch. */
module AccountOutcomes {
  import opened Common
  import opened Accounts
  import opened AccountRuns
  import opened AccountSafety

  // ---------------------------------------------------------------- signing in

  /** The row of this address has this password. */
  predicate Opens(db: Db, id: UserId, email: Email, password: string) {
    && id in db.users && db.users[id].email.folded == email.folded
    && db.users[id].passwordHash.Some? && db.users[id].passwordHash.value.password == password
  }

  /** A login succeeds exactly if some row has the address and the password, signs in the user of that
      row, and otherwise answers 401 and changes nothing. */
  lemma {:induction false} LoginIff(db: Db, email: Email, password: string, jti: nat)
    requires EmailsUnique(db.users)
    ensures var e := Handle(db, Login(email, password, jti));
      && (e.response.SignedIn? <==> exists id :: Opens(db, id, email, password))
      && (e.response.SignedIn? ==> Opens(db, e.response.user, email, password))
      && (!e.response.SignedIn? ==> e == Effect(db, Status(401)))
  {
    FoundByEmail(db.users, email);
    var found := FindByEmail(db.users, email);
    if id :| Opens(db, id, email, password) {
      assert SameEmail(db.users[id].email, email);
      assert SameEmail(db.users[id].email, db.users[found.value].email);
    }
    if Handle(db, Login(email, password, jti)).response.SignedIn? {
      assert Opens(db, found.value, email, password);
    }
  }

  /** A Google sign-in that creates its user. */
  predicate IsNew(db: Db, req: Request) {
    req.Google? && !IsLinked(db, req.identity.subject) && !IsTaken(db, req.identity.email)
  }

  /** What any successful sign-in does: the user is live, the other rows stay, one live token of that
      user is added, good for thirty days. */
  lemma {:induction false} SignInDoes(db: Db, req: Request)
    requires (req.Signup? || req.Login? || req.Google?) && Handle(db, req).response.SignedIn?
    ensures var e := Handle(db, req);
      var id, t := e.response.user, e.response.token;
      && IsLive(e.db.users, id) && e.db.users.Keys == db.users.Keys + {id}
      && (forall u :: u in db.users && u != id ==> e.db.users[u] == db.users[u])
      && t.sub == id && t.jti == req.jti && t.genuine && t.exp == db.now + 30 * 24 * 60 * 60
      && e.db.tokens == db.tokens[t := TokenRow(id, t.exp, None, None)]
      && (e.response.reactivated <==> !req.Signup? && id in db.users && db.users[id].deletedAt.Some? && !IsNew(db, req))
      && e.db.now == db.now
  {
    hide FindByEmail;
    if req.Login? { FoundByEmail(db.users, req.email); }
    if req.Google? { FoundByEmail(db.users, req.identity.email); }
    SignInKeys(db, req);
  }

  lemma {:induction false} SignInKeys(db: Db, req: Request)
    requires (req.Signup? || req.Login? || req.Google?) && Handle(db, req).response.SignedIn?
    ensures var e := Handle(db, req); e.db.users.Keys == db.users.Keys + {e.response.user}
  {
    hide FindByEmail;
    if req.Login? { FoundByEmail(db.users, req.email); }
    if req.Google? { FoundByEmail(db.users, req.identity.email); }
  }

  /** A sign-up succeeds exactly if no row, deleted or not, holds the address, and stores what was sent. */
  lemma {:induction false} SignupIff(db: Db, req: Request)
    requires req.Signup?
    ensures var e := Handle(db, req);
      && (e.response.SignedIn? <==> forall id :: id in db.users ==> db.users[id].email.folded != req.email.folded)
      && (!e.response.SignedIn? ==> e == Effect(db, Status(409)))
      && (e.response.SignedIn? ==>
            e.response.user == req.newId && !e.response.reactivated
            && e.db.users[req.newId].email == req.email && e.db.users[req.newId].displayName == req.displayName
            && e.db.users[req.newId].level == req.level && Opens(e.db, req.newId, req.email, req.password)
            && e.db.identities == db.identities)
  {
    FoundByEmail(db.users, req.email);
    assert forall id :: id in db.users ==>
      (SameEmail(db.users[id].email, req.email) <==> db.users[id].email.folded == req.email.folded);
  }

  /** The row a Google subject is linked to, if it still exists. */
  predicate IsLinked(db: Db, subject: string) {
    subject in db.identities && db.identities[subject] in db.users
  }

  predicate IsTaken(db: Db, email: Email) {
    exists id :: id in db.users && db.users[id].email.folded == email.folded
  }

  /** Google sign-in is refused exactly for an unlinked, unverified address that an account holds. A
      linked subject signs in its user, a verified address the holder, who is linked now, and a new
      address a new user without a password. */
  lemma {:induction false} GoogleIff(db: Db, req: Request)
    requires req.Google? && req.newId !in db.users
    ensures var who := req.identity;
      var e := Handle(db, req);
      && (e.response.SignedIn? <==> IsLinked(db, who.subject) || !IsTaken(db, who.email) || who.emailVerified)
      && (!e.response.SignedIn? ==> e == Effect(db, Status(409)))
      && (IsLinked(db, who.subject) ==>
            e.response.user == db.identities[who.subject] && e.db.identities == db.identities)
      && (e.response.SignedIn? && !IsLinked(db, who.subject) ==>
            e.db.identities == db.identities[who.subject := e.response.user])
      && (!IsLinked(db, who.subject) && !IsTaken(db, who.email) ==>
            e.response.user == req.newId
            && e.db.users[req.newId] == User(who.email, who.name, None, None, None))
      && (e.response.SignedIn? && !IsLinked(db, who.subject) && IsTaken(db, who.email) ==>
            e.response.user in db.users && db.users[e.response.user].email.folded == who.email.folded)
  {
    var who := req.identity;
    FoundByEmail(db.users, who.email);
    if IsTaken(db, who.email) {
      var id :| id in db.users && db.users[id].email.folded == who.email.folded;
      assert SameEmail(db.users[id].email, who.email);
    }
  }

  // ---------------------------------------------------------------- changing the account

  /** The session's live row has this password. */
  predicate Confirms(db: Db, id: UserId, password: string) {
    && IsLive(db.users, id)
    && db.users[id].passwordHash.Some? && db.users[id].passwordHash.value.password == password
  }

  /** A password change succeeds exactly with the current password, and then the new one alone opens
      the row. */
  lemma {:induction false} ChangePasswordIff(db: Db, req: Request, guess: string)
    requires req.ChangePassword?
    ensures var e := Handle(db, req);
      && (e.response == Status(204) <==> Confirms(db, req.session, req.currentPassword))
      && (e.response != Status(204) ==> e == Effect(db, Status(422)))
      && (e.response == Status(204) ==>
            (Opens(e.db, req.session, db.users[req.session].email, guess) <==> guess == req.newPassword)
            && e.db.users == db.users[req.session := e.db.users[req.session]]
            && e.db == db.(users := e.db.users)
            && e.db.users[req.session] ==
                 db.users[req.session].(passwordHash := e.db.users[req.session].passwordHash))
  {
  }

  /** An email change to another address succeeds exactly with the current password and an address
      nobody holds; to one's own address it changes nothing. */
  lemma {:induction false} ChangeEmailIff(db: Db, req: Request)
    requires req.ChangeEmail?
    ensures var e := Handle(db, req);
      && (!Confirms(db, req.session, req.currentPassword) ==> e == Effect(db, Status(422)))
      && (Confirms(db, req.session, req.currentPassword) ==>
            var user := db.users[req.session];
            if req.newEmail.folded == user.email.folded then e == Effect(db, Status(200))
            else if IsTaken(db, req.newEmail) then e == Effect(db, Status(409))
            else e == Effect(db.(users := db.users[req.session := user.(email := req.newEmail)]), Status(200)))
  {
    FoundByEmail(db.users, req.newEmail);
    if IsTaken(db, req.newEmail) {
      var id :| id in db.users && db.users[id].email.folded == req.newEmail.folded;
      assert SameEmail(db.users[id].email, req.newEmail);
    }
  }

  /** An edit sets what was sent in the session's live row and keeps the rest. */
  lemma {:induction false} EditProfileIff(db: Db, req: Request)
    requires req.EditProfile?
    ensures var e := Handle(db, req);
      && (e.response == Status(200) <==> (req.displayName.Some? || req.level.Some?) && IsLive(db.users, req.session))
      && (req.displayName == None && req.level == None ==> e == Effect(db, Status(400)))
      && (e.response != Status(200) && (req.displayName.Some? || req.level.Some?) ==> e == Effect(db, Status(404)))
      && (e.response == Status(200) ==>
            var before, after := db.users[req.session], e.db.users[req.session];
            && (req.displayName.Some? ==> after.displayName == req.displayName)
            && (req.displayName == None ==> after.displayName == before.displayName)
            && (req.level.Some? ==> after.level == req.level)
            && (req.level == None ==> after.level == before.level)
            && after.email == before.email && after.passwordHash == before.passwordHash && after.deletedAt == None
            && e.db == db.(users := db.users[req.session := after]))
  {
  }

  /** A deletion succeeds exactly for a live row: it is marked with the time, and every token of that
      user is unusable. */
  lemma {:induction false} DeleteIff(db: Db, id: UserId)
    ensures var e := Handle(db, DeleteMe(id));
      && (e.response == Status(204) <==> id in db.users && db.users[id].deletedAt == None)
      && (e.response != Status(204) ==> e == Effect(db, Status(404)))
      && (e.response == Status(204) ==>
            e.db.users == db.users[id := db.users[id].(deletedAt := Some(db.now))]
            && e.db.identities == db.identities && e.db.tokens.Keys == db.tokens.Keys
            && forall t :: t in db.tokens ==>
                 e.db.tokens[t].usedAt == db.tokens[t].usedAt
                 && (db.tokens[t].userId == id ==> e.db.tokens[t].revokedAt.Some?)
                 && (db.tokens[t].userId != id ==> e.db.tokens[t] == db.tokens[t]))
  {
  }

  /** What a refresh does: it exchanges a live token for a fresh one of the same user, revokes that
      user's tokens and no others after a replay, and otherwise changes nothing. */
  lemma {:induction false} RefreshDoes(w: World, t: Token, jti: nat)
    requires Inv(w)
    ensures var db, req := w.db, Refresh(t, jti);
      var e := Handle(db, req);
      && (e.response.Rotated? ==>
            var next := e.response.token;
            && t in db.tokens && next == Token(jti, t.sub, db.now + 30 * 24 * 60 * 60, true)
            && e.db == db.(tokens := db.tokens[t := db.tokens[t].(usedAt := Some(db.now))]
                                              [next := TokenRow(t.sub, next.exp, None, None)]))
      && (IsReplay(db, req) ==>
            e.response == Status(401) && e.db == db.(tokens := e.db.tokens) && e.db.tokens.Keys == db.tokens.Keys
            && forall s :: s in db.tokens ==>
                 e.db.tokens[s].usedAt == db.tokens[s].usedAt
                 && (s.sub == t.sub ==> e.db.tokens[s].revokedAt.Some?)
                 && (s.sub != t.sub ==> e.db.tokens[s] == db.tokens[s]))
      && (!e.response.Rotated? && !IsReplay(db, req) ==> e == Effect(db, Status(401)))
  {
    hide RootsAgree, OneLivePerChain, SuccessorsAgree, DeletedAreLockedOut, UsersAgree;
  }

  // ---------------------------------------------------------------- what a request leaves alone

  /** The request acts for this user: it is theirs, signs them in, or purges them. */
  ghost predicate ActsFor(db: Db, req: Request, id: UserId) {
    match req
    case Refresh(t, _) => t.sub == id
    case RefreshCutShort(t) => t.sub == id
    case DeleteMe(session) => session == id
    case DeleteMeCutShort(session) => session == id
    case ChangeEmail(session, _, _) => session == id
    case ChangePassword(session, _, _, _) => session == id
    case EditProfile(session, _, _) => session == id
    case Purge => id in db.users && IsExpired(db.users[id], db.now)
    case Tick(_) => false
    case _ => SignsInAs(db, req, id)
  }

  /** Row, tokens and links of this user are the same in both. */
  ghost predicate SameFor(db: Db, db': Db, id: UserId) {
    && (id in db.users <==> id in db'.users) && (id in db.users ==> db'.users[id] == db.users[id])
    && (forall t: Token :: t.sub == id ==> (t in db.tokens <==> t in db'.tokens))
    && (forall t: Token :: t.sub == id && t in db.tokens ==> db'.tokens[t] == db.tokens[t])
    && (forall s :: s in db.identities && db.identities[s] == id ==> s in db'.identities && db'.identities[s] == id)
  }

  /** A request touches nothing that belongs to a user it does not act for. */
  lemma {:induction false} OthersUntouched(w: World, req: Request, id: UserId)
    requires Inv(w) && Fresh(w, req) && !ActsFor(w.db, req, id)
    ensures SameFor(w.db, Handle(w.db, req).db, id)
  {
    hide Inv, Handle, SameFor;
    match req
    case Signup(_, _, _, _, _, _, _) => OtherSignIn(w, req, id);
    case Login(_, _, _) => OtherSignIn(w, req, id);
    case Google(_, _, _) => OtherSignIn(w, req, id);
    case Refresh(_, _) => OtherRefresh(w, req, id);
    case RefreshCutShort(_) => OtherRefresh(w, req, id);
    case Purge => OtherPurge(w, id);
    case _ => OtherSession(w, req, id);
  }

  lemma {:induction false} OtherSignIn(w: World, req: Request, id: UserId)
    requires Inv(w) && Fresh(w, req) && (req.Signup? || req.Login? || req.Google?) && !SignsInAs(w.db, req, id)
    ensures SameFor(w.db, Handle(w.db, req).db, id)
  {
    hide RootsAgree, OneLivePerChain, SuccessorsAgree, DeletedAreLockedOut, RowsAgree, Handle;
    if Handle(w.db, req).response.SignedIn? {
      SignInDoes(w.db, req);
      LinksStay(w, req);
    } else {
      SignInAddsOneToken(w.db, req);
    }
  }

  lemma {:induction false} LinksStay(w: World, req: Request)
    requires Inv(w) && (req.Signup? || req.Login? || req.Google?)
    ensures forall s :: s in w.db.identities ==>
      s in Handle(w.db, req).db.identities && Handle(w.db, req).db.identities[s] == w.db.identities[s]
  {
    hide RootsAgree, OneLivePerChain, SuccessorsAgree, DeletedAreLockedOut, RowsAgree, FindByEmail;
  }

  lemma {:induction false} OtherRefresh(w: World, req: Request, id: UserId)
    requires Inv(w) && (req.Refresh? || req.RefreshCutShort?) && req.token.sub != id
    ensures SameFor(w.db, Handle(w.db, req).db, id)
  {
    hide RootsAgree, OneLivePerChain, SuccessorsAgree, DeletedAreLockedOut, UsersAgree;
  }

  lemma {:induction false} OtherPurge(w: World, id: UserId)
    requires Inv(w) && !(id in w.db.users && IsExpired(w.db.users[id], w.db.now))
    ensures SameFor(w.db, PurgeExpired(w.db), id)
    ensures Handle(w.db, Purge).db == PurgeExpired(w.db)
  {
    hide RootsAgree, OneLivePerChain, SuccessorsAgree, DeletedAreLockedOut;
  }

  lemma {:induction false} OtherSession(w: World, req: Request, id: UserId)
    requires Inv(w) && !ActsFor(w.db, req, id)
    requires !req.Signup? && !req.Login? && !req.Google? && !req.Refresh? && !req.RefreshCutShort? && !req.Purge?
    ensures SameFor(w.db, Handle(w.db, req).db, id)
  {
    hide RootsAgree, OneLivePerChain, SuccessorsAgree, DeletedAreLockedOut, UsersAgree, FindByEmail;
  }

  // ---------------------------------------------------------------- how long a token lives

  /** The request ends the life of this token: it redeems it, revokes its user's tokens after a replay
      or with the deletion of the account, or purges its user. */
  ghost predicate Kills(db: Db, req: Request, t: Token) {
    match req
    case Refresh(s, _) => (s == t && t.genuine && db.now < t.exp) || (s.sub == t.sub && IsReplay(db, req))
    case RefreshCutShort(s) => (s == t && t.genuine && db.now < t.exp) || (s.sub == t.sub && IsReplay(db, req))
    case DeleteMe(session) => session == t.sub && IsLive(db.users, session)
    case Purge => t.sub in db.users && IsExpired(db.users[t.sub], db.now)
    case _ => false
  }

  /** There, unused and unrevoked. */
  predicate Usable(db: Db, t: Token) {
    t in db.tokens && db.tokens[t].usedAt == None && db.tokens[t].revokedAt == None
  }

  /** One request ends a token's life exactly if it is one of those. */
  lemma {:induction false} StaysUsableIff(w: World, req: Request, t: Token)
    requires Inv(w) && Fresh(w, req) && Usable(w.db, t)
    ensures Usable(Handle(w.db, req).db, t) <==> !Kills(w.db, req, t)
  {
    hide Inv, Handle, Kills, Usable;
    if req.Signup? || req.Login? || req.Google? {
      SignInLeavesUsable(w, req, t);
    } else if req.Refresh? || req.RefreshCutShort? {
      RefreshLeavesUsable(w, req, t);
    } else if req.Purge? {
      PurgeLeavesUsable(w, t);
    } else {
      SessionLeavesUsable(w, req, t);
    }
  }

  lemma {:induction false} SignInLeavesUsable(w: World, req: Request, t: Token)
    requires Inv(w) && Fresh(w, req) && Usable(w.db, t) && (req.Signup? || req.Login? || req.Google?)
    ensures Usable(Handle(w.db, req).db, t) && !Kills(w.db, req, t)
  {
    hide Inv, Handle;
    UsableIsIssued(w, t);
    SignInAddsOneToken(w.db, req);
  }

  lemma {:induction false} RefreshLeavesUsable(w: World, req: Request, t: Token)
    requires Inv(w) && Fresh(w, req) && Usable(w.db, t) && (req.Refresh? || req.RefreshCutShort?)
    ensures Usable(Handle(w.db, req).db, t) <==> !Kills(w.db, req, t)
  {
    hide RootsAgree, OneLivePerChain, SuccessorsAgree, DeletedAreLockedOut, UsersAgree;
  }

  lemma {:induction false} PurgeLeavesUsable(w: World, t: Token)
    requires Inv(w) && Usable(w.db, t)
    ensures Usable(Handle(w.db, Purge).db, t) <==> !Kills(w.db, Purge, t)
  {
    hide RootsAgree, OneLivePerChain, SuccessorsAgree, DeletedAreLockedOut, UsersAgree;
  }

  lemma {:induction false} SessionLeavesUsable(w: World, req: Request, t: Token)
    requires Inv(w) && Usable(w.db, t)
    requires !req.Signup? && !req.Login? && !req.Google? && !req.Refresh? && !req.RefreshCutShort? && !req.Purge?
    ensures Usable(Handle(w.db, req).db, t) <==> !Kills(w.db, req, t)
  {
    hide RootsAgree, OneLivePerChain, SuccessorsAgree, DeletedAreLockedOut, UsersAgree, FindByEmail;
  }

  lemma UsableIsIssued(w: World, t: Token)
    requires Inv(w) && Usable(w.db, t)
    ensures t in w.issued
  {
  }

  ghost predicate KilledDuring(w: World, reqs: seq<Request>, t: Token)
    decreases |reqs|
  {
    reqs != [] && (Kills(w.db, reqs[0], t) || KilledDuring(Next(w, reqs[0]), reqs[1..], t))
  }

  /** Over any run a token stays usable exactly until its own user's request, or a purge of that user,
      ends its life; nobody else's request can. */
  lemma {:induction false} UsableUntilKilled(w: World, reqs: seq<Request>, t: Token)
    requires Inv(w) && FreshRun(w, reqs) && Usable(w.db, t)
    ensures Usable(After(w, reqs).db, t) <==> !KilledDuring(w, reqs, t)
    decreases |reqs|
  {
    hide Inv, Handle, Kills, Usable;
    if reqs != [] {
      StepKeeps(w, reqs[0]);
      StaysUsableIff(w, reqs[0], t);
      NextDb(w, reqs[0]);
      if Kills(w.db, reqs[0], t) {
        KilledIsDead(w, reqs[0], t);
        DeadStays(Next(w, reqs[0]), reqs[1..], t);
      } else {
        UsableUntilKilled(Next(w, reqs[0]), reqs[1..], t);
      }
    }
  }

  lemma NextDb(w: World, req: Request)
    ensures Next(w, req).db == Handle(w.db, req).db && w.issued <= Next(w, req).issued
  {
    hide Handle;
  }

  lemma {:induction false} KilledIsDead(w: World, req: Request, t: Token)
    requires Inv(w) && Usable(w.db, t) && !Usable(Next(w, req).db, t)
    ensures Dead(Next(w, req), t)
  {
    hide Handle, Next;
    NextDb(w, req);
    UsableIsIssued(w, t);
  }

  lemma {:induction false} DeadStays(w: World, reqs: seq<Request>, t: Token)
    requires Inv(w) && FreshRun(w, reqs) && Dead(w, t)
    ensures !Usable(After(w, reqs).db, t)
  {
    hide Inv, FreshRun, After;
    DeadForever(w, reqs, t, 0);
  }

  /** So another user's replay, deletion or anything else changes no refresh of this one. */
  lemma {:induction false} OthersStillRefresh(w: World, req: Request, t: Token, jti: nat)
    requires Inv(w) && Fresh(w, req) && !ActsFor(w.db, req, t.sub) && !req.Tick?
    ensures OnRefresh(Handle(w.db, req).db, Refresh(t, jti)).response.Rotated? <==>
      OnRefresh(w.db, Refresh(t, jti)).response.Rotated?
  {
    hide Inv, Handle, Fresh, ActsFor;
    OthersUntouched(w, req, t.sub);
    ClockStands(w.db, req);
    RefreshSucceedsIff(w.db, t, jti);
    RefreshSucceedsIff(Handle(w.db, req).db, t, jti);
  }

  lemma {:induction false} ClockStands(db: Db, req: Request)
    requires !req.Tick?
    ensures Handle(db, req).db.now == db.now
  {
    hide FindByEmail;
  }

  // ---------------------------------------------------------------- the current password

  /** The request changes this user's address or password. */
  ghost predicate ChangesCredentials(db: Db, req: Request, id: UserId) {
    (req.ChangeEmail? || req.ChangePassword?) && req.session == id && Handle(db, req).db != db
  }

  ghost predicate CredentialsStand(w: World, reqs: seq<Request>, id: UserId)
    decreases |reqs|
  {
    reqs == [] || (!ChangesCredentials(w.db, reqs[0], id) && CredentialsStand(Next(w, reqs[0]), reqs[1..], id))
  }

  /** No other request changes the address or password of a row; it can only remove the row. */
  lemma {:induction false} StepLeavesCredentials(w: World, req: Request, id: UserId)
    requires Inv(w) && Fresh(w, req) && id in w.db.users && !ChangesCredentials(w.db, req, id)
    ensures var users := Next(w, req).db.users;
      if id in users then users[id].email == w.db.users[id].email
                          && users[id].passwordHash == w.db.users[id].passwordHash
      else Gone(Next(w, req), id)
  {
    hide Inv, Handle, Next;
    NextDb(w, req);
    if !ActsFor(w.db, req, id) {
      OthersUntouched(w, req, id);
    } else {
      OwnLeavesCredentials(w, req, id);
    }
    StaysKnown(w, req, id);
  }

  lemma {:induction false} StaysKnown(w: World, req: Request, id: UserId)
    requires Inv(w) && id in w.db.users
    ensures id in Next(w, req).ids
  {
    hide RootsAgree, OneLivePerChain, SuccessorsAgree, DeletedAreLockedOut, RowsAgree, Handle;
  }

  lemma {:induction false} OwnLeavesCredentials(w: World, req: Request, id: UserId)
    requires Inv(w) && Fresh(w, req) && id in w.db.users && ActsFor(w.db, req, id)
    requires !ChangesCredentials(w.db, req, id)
    ensures var users := Handle(w.db, req).db.users;
      id in users ==> users[id].email == w.db.users[id].email && users[id].passwordHash == w.db.users[id].passwordHash
  {
    hide RootsAgree, OneLivePerChain, SuccessorsAgree, DeletedAreLockedOut, RowsAgree;
    if req.Signup? || req.Login? || req.Google? {
      OwnSignIn(w, req, id);
    }
  }

  lemma {:induction false} OwnSignIn(w: World, req: Request, id: UserId)
    requires Inv(w) && Fresh(w, req) && id in w.db.users && SignsInAs(w.db, req, id)
    requires req.Signup? || req.Login? || req.Google?
    ensures var users := Handle(w.db, req).db.users;
      id in users && users[id] == w.db.users[id].(deletedAt := None)
  {
    hide RootsAgree, OneLivePerChain, SuccessorsAgree, DeletedAreLockedOut, RowsAgree, FindByEmail;
    if req.Login? { FoundByEmail(w.db.users, req.email); }
    if req.Google? { FoundByEmail(w.db.users, req.identity.email); }
  }

  /** Over any run without such a change the row keeps its address and password until it is purged. */
  lemma {:induction false} CredentialsKept(w: World, reqs: seq<Request>, id: UserId)
    requires Inv(w) && FreshRun(w, reqs) && id in w.db.users && CredentialsStand(w, reqs, id)
    ensures var users := After(w, reqs).db.users;
      id in users ==> users[id].email == w.db.users[id].email && users[id].passwordHash == w.db.users[id].passwordHash
    ensures id !in After(w, reqs).db.users ==> Gone(After(w, reqs), id)
    decreases |reqs|
  {
    hide Inv, Handle, Next, ChangesCredentials;
    if reqs != [] {
      StepKeeps(w, reqs[0]);
      StepLeavesCredentials(w, reqs[0], id);
      if id in Next(w, reqs[0]).db.users {
        CredentialsKept(Next(w, reqs[0]), reqs[1..], id);
      } else {
        GoneForever(Next(w, reqs[0]), reqs[1..], id);
      }
    }
  }

  /** From a state in which `password` opens the row, over any run in which the user changes neither
      address nor password: as long as the row exists exactly that password signs the user in, and
      every other one is refused; once it is purged none does. */
  lemma {:induction false} PasswordStands(w: World, reqs: seq<Request>, id: UserId, email: Email, password: string,
                                          guess: string, jti: nat)
    requires Inv(w) && FreshRun(w, reqs) && Opens(w.db, id, email, password) && CredentialsStand(w, reqs, id)
    ensures var e := Handle(After(w, reqs).db, Login(email, guess, jti));
      if id in After(w, reqs).db.users then
        if guess == password then e.response.SignedIn? && e.response.user == id
        else e == Effect(After(w, reqs).db, Status(401))
      else e.response.SignedIn? ==> e.response.user != id
  {
    hide Inv, Handle, FreshRun, CredentialsStand, After;
    CredentialsKept(w, reqs, id);
    RunKeeps(w, reqs);
    var f := After(w, reqs);
    InvEmails(f);
    LoginIff(f.db, email, guess, jti);
    if id in f.db.users {
      assert Opens(f.db, id, email, password);
      OnlyOneOpens(f.db, id, email, password, guess);
    }
  }

  lemma InvEmails(w: World)
    requires Inv(w)
    ensures EmailsUnique(w.db.users)
  {
    hide RootsAgree, OneLivePerChain, SuccessorsAgree, DeletedAreLockedOut, RowsAgree;
  }

  lemma {:induction false} OnlyOneOpens(db: Db, id: UserId, email: Email, password: string, guess: string)
    requires EmailsUnique(db.users) && Opens(db, id, email, password)
    ensures forall other :: Opens(db, other, email, guess) ==> other == id && guess == password
  {
    forall other | Opens(db, other, email, guess)
      ensures other == id && guess == password
    {
      assert SameEmail(db.users[other].email, db.users[id].email);
    }
  }

  /** In particular after a sign-up. */
  lemma {:induction false} SignupThenLogin(w: World, req: Request, reqs: seq<Request>, guess: string, jti: nat)
    requires Inv(w) && req.Signup? && Fresh(w, req) && Handle(w.db, req).response.SignedIn?
    requires FreshRun(Next(w, req), reqs) && CredentialsStand(Next(w, req), reqs, req.newId)
    ensures var f := After(Next(w, req), reqs);
      var e := Handle(f.db, Login(req.email, guess, jti));
      req.newId in f.db.users ==>
        if guess == req.password then e.response.SignedIn? && e.response.user == req.newId
        else e == Effect(f.db, Status(401))
  {
    hide Inv, Handle, FreshRun, CredentialsStand, After, Next;
    StepKeeps(w, req);
    NextDb(w, req);
    SignupIff(w.db, req);
    PasswordStands(Next(w, req), reqs, req.newId, req.email, req.password, guess, jti);
  }

  /** And after a password change: the old password is refused from then on. */
  lemma {:induction false} ChangeThenLogin(w: World, req: Request, reqs: seq<Request>, guess: string, jti: nat)
    requires Inv(w) && req.ChangePassword? && Handle(w.db, req).response == Status(204)
    requires FreshRun(Next(w, req), reqs) && CredentialsStand(Next(w, req), reqs, req.session)
    ensures req.session in w.db.users
    ensures var f := After(Next(w, req), reqs);
      var e := Handle(f.db, Login(w.db.users[req.session].email, guess, jti));
      req.session in f.db.users ==>
        if guess == req.newPassword then e.response.SignedIn? && e.response.user == req.session
        else e == Effect(f.db, Status(401))
  {
    hide Inv, Handle, FreshRun, CredentialsStand, After, Next;
    StepKeeps(w, req);
    NextDb(w, req);
    ChangePasswordIff(w.db, req, req.newPassword);
    PasswordStands(Next(w, req), reqs, req.session, w.db.users[req.session].email, req.newPassword, guess, jti);
  }
}
