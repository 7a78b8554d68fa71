/** What a run can never undo: redeemed and revoked tokens stay dead, a replay locks out every token
    the user held, and a soft-deleted account stays recoverable for the whole grace period. */
module AccountSafety {
  import opened Common
  import opened Accounts
  import opened AccountRuns

  // ---------------------------------------------------------------- history only grows

  /** A row that is still there was there before, and its marks have not moved. */
  predicate RowKept(before: map<Token, TokenRow>, later: map<Token, TokenRow>, t: Token) {
    t in later ==>
      && t in before
      && (before[t].usedAt.Some? ==> later[t].usedAt == before[t].usedAt)
      && (before[t].revokedAt.Some? ==> later[t].revokedAt == before[t].revokedAt)
  }

  ghost predicate Extends(w: World, w': World) {
    && w.issued <= w'.issued && w.cut <= w'.cut && w.unrevoked <= w'.unrevoked && w.ids <= w'.ids
    && w.db.now <= w'.db.now
    && (forall t :: t in w.issued ==> RowKept(w.db.tokens, w'.db.tokens, t))
    && (forall t :: t in w.successor ==> t in w'.successor && w'.successor[t] == w.successor[t])
    && (forall t :: t in w.issued && t in w.root ==> t in w'.root && w'.root[t] == w.root[t])
  }

  lemma SuccessorIsNew(w: World, req: Request)
    requires Inv(w) && req.Refresh? && OnRefresh(w.db, req).response.Rotated?
    ensures req.token !in w.successor
  {
  }

  /** Which handler touches which token rows. */
  lemma SignInAddsOneToken(db: Db, req: Request)
    requires req.Signup? || req.Login? || req.Google?
    ensures var e := Handle(db, req);
      if e.response.SignedIn?
      then e.response.token.jti == req.jti && e.db.tokens.Keys == db.tokens.Keys + {e.response.token}
           && forall t :: t in db.tokens && t != e.response.token ==> e.db.tokens[t] == db.tokens[t]
      else e.db == db
  {
    hide FindByEmail;
  }

  lemma OthersKeepMarks(w: World, req: Request)
    requires !(req.Signup? || req.Login? || req.Google?)
    requires req.Refresh? ==> forall t :: t in w.issued ==> t.jti != req.jti
    ensures forall t :: t in w.issued ==> RowKept(w.db.tokens, Handle(w.db, req).db.tokens, t)
  {
    hide FindByEmail;
  }

  lemma TokensExtend(w: World, req: Request)
    requires Inv(w) && Fresh(w, req)
    ensures forall t :: t in w.issued ==> RowKept(w.db.tokens, Next(w, req).db.tokens, t)
  {
    hide Handle, Inv;
    if req.Signup? || req.Login? || req.Google? {
      SignInAddsOneToken(w.db, req);
    } else {
      OthersKeepMarks(w, req);
    }
  }

  /** One handler never takes a mark back, never reissues a token and never changes a successor. */
  lemma StepExtends(w: World, req: Request)
    requires Inv(w) && Fresh(w, req)
    ensures Extends(w, Next(w, req))
  {
    hide Inv, FindByEmail;
    TokensExtend(w, req);
    if req.Refresh? && OnRefresh(w.db, req).response.Rotated? {
      SuccessorIsNew(w, req);
    }
  }

  lemma ExtendsTransitive(a: World, b: World, c: World)
    requires Extends(a, b) && Extends(b, c)
    ensures Extends(a, c)
  {
    forall t | t in a.issued
      ensures RowKept(a.db.tokens, c.db.tokens, t)
    {
      assert RowKept(a.db.tokens, b.db.tokens, t) && RowKept(b.db.tokens, c.db.tokens, t);
    }
  }

  lemma {:induction false} RunExtends(w: World, reqs: seq<Request>)
    requires Inv(w) && FreshRun(w, reqs)
    ensures Extends(w, After(w, reqs))
    decreases |reqs|
  {
    hide Inv;
    if reqs != [] {
      StepKeeps(w, reqs[0]);
      StepExtends(w, reqs[0]);
      RunExtends(Next(w, reqs[0]), reqs[1..]);
      ExtendsTransitive(w, Next(w, reqs[0]), After(w, reqs));
    }
  }

  // ---------------------------------------------------------------- single use and replay

  /** Issued, and not to be redeemed any more. */
  predicate Dead(w: World, t: Token) {
    t in w.issued && (t in w.db.tokens ==> !Live(w.db.tokens[t]))
  }

  /** A refresh succeeds exactly for a genuine, unexpired token whose row is live. */
  lemma RefreshSucceedsIff(db: Db, t: Token, jti: nat)
    ensures OnRefresh(db, Refresh(t, jti)).response.Rotated?
      <==> t.genuine && db.now < t.exp && t in db.tokens && Live(db.tokens[t])
    ensures !OnRefresh(db, Refresh(t, jti)).response.Rotated? ==> OnRefresh(db, Refresh(t, jti)).response == Status(401)
  {
  }

  /** A dead token is refused in every later state. */
  lemma DeadForever(w: World, later: seq<Request>, t: Token, jti: nat)
    requires Inv(w) && FreshRun(w, later) && Dead(w, t)
    ensures Dead(After(w, later), t)
    ensures OnRefresh(After(w, later).db, Refresh(t, jti)).response == Status(401)
  {
    hide Inv;
    RunExtends(w, later);
    assert RowKept(w.db.tokens, After(w, later).db.tokens, t);
  }

  lemma RedeemedIsDead(w: World, req: Request)
    requires Inv(w) && req.Refresh? && OnRefresh(w.db, req).response.Rotated?
    requires Fresh(w, req)
    ensures Dead(Next(w, req), req.token)
  {
    hide OneLivePerChain, SuccessorsAgree, RootsAgree, DeletedAreLockedOut, UsersAgree;
  }

  /** A token that was redeemed is never redeemed again. */
  lemma RedeemedOnce(w: World, req: Request, later: seq<Request>, jti: nat)
    requires Inv(w) && Fresh(w, req) && req.Refresh? && FreshRun(Next(w, req), later)
    requires OnRefresh(w.db, req).response.Rotated?
    ensures OnRefresh(After(Next(w, req), later).db, Refresh(req.token, jti)).response == Status(401)
  {
    hide Inv, FreshRun, After;
    StepKeeps(w, req);
    RedeemedIsDead(w, req);
    DeadForever(Next(w, req), later, req.token, jti);
  }

  /** The handler takes the replay branch. */
  predicate IsReplay(db: Db, req: Request) {
    && (req.Refresh? || req.RefreshCutShort?)
    && req.token.genuine && db.now < req.token.exp && req.token in db.tokens
    && db.tokens[req.token].revokedAt == None && db.tokens[req.token].usedAt.Some?
  }

  /** After a replay no token the user held at that moment is redeemable in any later state. */
  lemma ReplayLocksOut(w: World, req: Request, later: seq<Request>, held: Token, jti: nat)
    requires Inv(w) && Fresh(w, req) && IsReplay(w.db, req) && FreshRun(Next(w, req), later)
    requires held in w.issued && held.sub == req.token.sub
    ensures OnRefresh(After(Next(w, req), later).db, Refresh(held, jti)).response == Status(401)
  {
    hide Inv, FreshRun, After;
    StepKeeps(w, req);
    ReplayKills(w, req, held);
    DeadForever(Next(w, req), later, held, jti);
  }

  lemma ReplayKills(w: World, req: Request, held: Token)
    requires Inv(w) && IsReplay(w.db, req) && held in w.issued && held.sub == req.token.sub
    ensures Dead(Next(w, req), held)
  {
    hide OneLivePerChain, SuccessorsAgree, RootsAgree, DeletedAreLockedOut, UsersAgree;
  }

  /** A soft-deleted user cannot refresh, unless a deletion of theirs was cut short. */
  lemma DeletedCannotRefresh(w: World, t: Token, jti: nat)
    requires Inv(w) && t.sub in w.db.users && w.db.users[t.sub].deletedAt.Some?
    ensures OnRefresh(w.db, Refresh(t, jti)).response == Status(401) || t.sub in w.unrevoked
  {
  }

  /** What a deletion cut short leaves behind: the user is soft-deleted, every token is redeemable
      exactly if it was before, and deleting again does not repair it. */
  lemma {:induction false} DeleteCutShortIff(db: Db, id: UserId, t: Token, jti: nat)
    requires IsLive(db.users, id)
    ensures var e := Handle(db, DeleteMeCutShort(id));
      && e.response == Status(502) && id in e.db.users && e.db.users[id].deletedAt == Some(db.now)
      && (OnRefresh(e.db, Refresh(t, jti)).response.Rotated? <==>
            t.genuine && db.now < t.exp && t in db.tokens && Live(db.tokens[t]))
      && Handle(e.db, DeleteMe(id)) == Effect(e.db, Status(404))
  {
  }

  /** So the user is locked out after all exactly if no token of theirs was live. */
  lemma {:induction false} CutShortLocksOutIff(w: World, id: UserId)
    requires Inv(w) && IsLive(w.db.users, id) && w.unrevoked == {}
    ensures var db := Handle(w.db, DeleteMeCutShort(id)).db;
      DeletedAreLockedOut(db.tokens, db.users, {}) <==>
        forall t :: t in w.db.tokens && t.sub == id ==> !Live(w.db.tokens[t])
  {
    hide RootsAgree, OneLivePerChain, SuccessorsAgree, UsersAgree;
    var db := Handle(w.db, DeleteMeCutShort(id)).db;
    if DeletedAreLockedOut(db.tokens, db.users, {}) {
      forall t | t in w.db.tokens && t.sub == id
        ensures !Live(w.db.tokens[t])
      {
        assert t in db.tokens;
      }
    }
  }

  // ---------------------------------------------------------------- recoverability

  /** The request is a successful sign-in as this user. */
  ghost predicate SignsInAs(db: Db, req: Request, id: UserId) {
    var r := Handle(db, req).response;
    r.SignedIn? && r.user == id
  }

  ghost predicate NoSignIn(w: World, reqs: seq<Request>, id: UserId)
    decreases |reqs|
  {
    reqs == [] || (!SignsInAs(w.db, reqs[0], id) && NoSignIn(Next(w, reqs[0]), reqs[1..], id))
  }

  /** The account is soft-deleted and its row and federated links are exactly as they were. */
  ghost predicate Untouched(db: Db, id: UserId, user: User, links: set<string>) {
    && id in db.users && db.users[id] == user && user.deletedAt.Some?
    && forall s :: s in links ==> s in db.identities && db.identities[s] == id
  }

  lemma GoogleLeavesUntouched(w: World, req: Request, id: UserId, user: User, links: set<string>)
    requires Inv(w) && Fresh(w, req) && req.Google? && Untouched(w.db, id, user, links)
    requires !SignsInAs(w.db, req, id)
    ensures Untouched(Handle(w.db, req).db, id, user, links)
  {
    hide OneLivePerChain, SuccessorsAgree, RootsAgree, DeletedAreLockedOut, RowsAgree, FindByEmail;
    FoundByEmail(w.db.users, req.identity.email);
  }

  lemma OtherSignInsLeaveUntouched(w: World, req: Request, id: UserId, user: User, links: set<string>)
    requires Inv(w) && Fresh(w, req) && (req.Signup? || req.Login?) && Untouched(w.db, id, user, links)
    requires !SignsInAs(w.db, req, id)
    ensures Untouched(Handle(w.db, req).db, id, user, links)
  {
    hide OneLivePerChain, SuccessorsAgree, RootsAgree, DeletedAreLockedOut, RowsAgree, FindByEmail;
    FoundByEmail(w.db.users, req.email);
  }

  lemma EditsLeaveUntouched(db: Db, req: Request, id: UserId, user: User, links: set<string>)
    requires !(req.Signup? || req.Login? || req.Google?) && Untouched(db, id, user, links)
    requires req.Purge? ==> db.now <= user.deletedAt.value + GRACE
    ensures Untouched(Handle(db, req).db, id, user, links)
  {
    hide FindByEmail;
  }

  lemma StepLeavesUntouched(w: World, req: Request, id: UserId, user: User, links: set<string>)
    requires Inv(w) && Fresh(w, req) && Untouched(w.db, id, user, links)
    requires !SignsInAs(w.db, req, id)
    requires req.Purge? ==> w.db.now <= user.deletedAt.value + GRACE
    ensures Untouched(Next(w, req).db, id, user, links)
  {
    hide Handle, Inv, Untouched;
    if req.Google? {
      GoogleLeavesUntouched(w, req, id, user, links);
    } else if req.Signup? || req.Login? {
      OtherSignInsLeaveUntouched(w, req, id, user, links);
    } else {
      UntouchedIsDeleted(w.db, id, user, links);
      EditsLeaveUntouched(w.db, req, id, user, links);
    }
  }

  lemma UntouchedIsDeleted(db: Db, id: UserId, user: User, links: set<string>)
    requires Untouched(db, id, user, links)
    ensures id in db.users && db.users[id] == user && user.deletedAt.Some?
  {
  }

  /** A purge of the run is executed later than `deadline`. */
  ghost predicate PurgedAfter(w: World, reqs: seq<Request>, deadline: int)
    decreases |reqs|
  {
    reqs != [] && ((reqs[0].Purge? && w.db.now > deadline) || PurgedAfter(Next(w, reqs[0]), reqs[1..], deadline))
  }

  /** Given out once, but no longer in the table. */
  predicate Gone(w: World, id: UserId) {
    id in w.ids && id !in w.db.users
  }

  lemma {:induction false} StepLeavesGone(w: World, req: Request, id: UserId)
    requires Inv(w) && Fresh(w, req) && Gone(w, id)
    ensures Gone(Next(w, req), id)
  {
    hide OneLivePerChain, SuccessorsAgree, RootsAgree, DeletedAreLockedOut, RowsAgree, FindByEmail;
    if req.Login? { FoundByEmail(w.db.users, req.email); }
    if req.Google? { FoundByEmail(w.db.users, req.identity.email); }
  }

  /** A purged account never returns. */
  lemma {:induction false} GoneForever(w: World, reqs: seq<Request>, id: UserId)
    requires Inv(w) && FreshRun(w, reqs) && Gone(w, id)
    ensures Gone(After(w, reqs), id)
    decreases |reqs|
  {
    hide Inv, Gone;
    if reqs != [] {
      StepKeeps(w, reqs[0]);
      StepLeavesGone(w, reqs[0], id);
      GoneForever(Next(w, reqs[0]), reqs[1..], id);
    }
  }

  lemma {:induction false} LatePurgeRemoves(w: World, id: UserId, user: User, links: set<string>)
    requires Inv(w) && Untouched(w.db, id, user, links) && w.db.now > user.deletedAt.value + GRACE
    ensures Gone(Next(w, Purge), id)
  {
    hide OneLivePerChain, SuccessorsAgree, RootsAgree, DeletedAreLockedOut, RowsAgree;
  }

  /** The grace period does nothing by itself: without a sign-in as that user, the row and its links
      stay exactly as the delete left them until a purge is executed after it, and are gone for
      good from then on. */
  lemma {:induction false} SurvivesIff(w: World, reqs: seq<Request>, id: UserId, user: User, links: set<string>)
    requires Inv(w) && FreshRun(w, reqs) && Untouched(w.db, id, user, links) && NoSignIn(w, reqs, id)
    ensures !PurgedAfter(w, reqs, user.deletedAt.value + GRACE) ==> Untouched(After(w, reqs).db, id, user, links)
    ensures PurgedAfter(w, reqs, user.deletedAt.value + GRACE) ==> Gone(After(w, reqs), id)
    decreases |reqs|
  {
    hide Inv, Untouched, Gone;
    if reqs != [] {
      UntouchedIsDeleted(w.db, id, user, links);
      StepKeeps(w, reqs[0]);
      if reqs[0].Purge? && w.db.now > user.deletedAt.value + GRACE {
        LatePurgeRemoves(w, id, user, links);
        GoneForever(Next(w, reqs[0]), reqs[1..], id);
      } else {
        StepLeavesUntouched(w, reqs[0], id, user, links);
        SurvivesIff(Next(w, reqs[0]), reqs[1..], id, user, links);
      }
    }
  }

  lemma {:induction false} NoLatePurge(w: World, reqs: seq<Request>, deadline: int)
    requires Inv(w) && FreshRun(w, reqs) && After(w, reqs).db.now <= deadline
    ensures !PurgedAfter(w, reqs, deadline)
    decreases |reqs|
  {
    hide Inv;
    if reqs != [] {
      RunExtends(w, reqs);
      StepKeeps(w, reqs[0]);
      NoLatePurge(Next(w, reqs[0]), reqs[1..], deadline);
    }
  }

  /** From a soft delete until the end of the grace period, no run of purges, sign-ups, edits,
      refreshes and other users' sign-ins removes the row or changes anything in it. */
  lemma {:induction false} Recoverable(w: World, reqs: seq<Request>, id: UserId, user: User, links: set<string>)
    requires Inv(w) && FreshRun(w, reqs) && Untouched(w.db, id, user, links)
    requires NoSignIn(w, reqs, id)
    requires After(w, reqs).db.now <= user.deletedAt.value + GRACE
    ensures Untouched(After(w, reqs).db, id, user, links)
  {
    hide Inv, Untouched, FreshRun, NoSignIn, After, PurgedAfter;
    UntouchedIsDeleted(w.db, id, user, links);
    NoLatePurge(w, reqs, user.deletedAt.value + GRACE);
    SurvivesIff(w, reqs, id, user, links);
  }

  /** Signing in with the old credentials, or with a linked identity, gives the same user back live,
      and a sign-up for its address is refused. */
  lemma SignInRestores(w: World, id: UserId, user: User, links: set<string>, req: Request)
    requires Inv(w) && Untouched(w.db, id, user, links)
    ensures req.Signup? && SameEmail(req.email, user.email) ==> Handle(w.db, req) == Effect(w.db, Status(409))
    ensures (req.Login? && SameEmail(req.email, user.email) && user.passwordHash.Some?
             && Verifies(req.password, user.passwordHash.value))
            || (req.Google? && req.identity.subject in links) ==>
      var e := Handle(w.db, req);
      && e.response == SignedIn(id, Mint(id, req.jti, w.db.now), true)
      && id in e.db.users && e.db.users[id] == user.(deletedAt := None)
  {
    if req.Signup? || req.Login? {
      FoundByEmail(w.db.users, req.email);
    }
  }

  /** The whole story: delete, any run of requests that are no sign-in as this user, then the old
      password. The user comes back under the same id with the same email, hash and profile exactly
      if no purge of the run came after the grace period; the sign-in itself checks no time. */
  lemma {:induction false} DeletedAccountComesBackIff(w: World, id: UserId, reqs: seq<Request>, password: string,
                                                      jti: nat)
    requires Inv(w) && IsLive(w.db.users, id)
    requires var w1 := Next(w, DeleteMe(id)); FreshRun(w1, reqs) && NoSignIn(w1, reqs, id)
    requires w.db.users[id].passwordHash.Some? && Verifies(password, w.db.users[id].passwordHash.value)
    ensures var w1 := Next(w, DeleteMe(id));
      var w2 := After(w1, reqs);
      var e := Handle(w2.db, Login(w.db.users[id].email, password, jti));
      && (!PurgedAfter(w1, reqs, w.db.now + GRACE) ==>
            e.response == SignedIn(id, Mint(id, jti, w2.db.now), true)
            && id in e.db.users && e.db.users[id] == w.db.users[id])
      && (PurgedAfter(w1, reqs, w.db.now + GRACE) ==>
            id !in e.db.users && (e.response.SignedIn? ==> e.response.user != id))
  {
    hide Inv, FreshRun, NoSignIn, After, PurgedAfter;
    var req := DeleteMe(id);
    var w1 := Next(w, req);
    var user := w.db.users[id].(deletedAt := Some(w.db.now));
    StepKeeps(w, req);
    SurvivesIff(w1, reqs, id, user, {});
    RunKeeps(w1, reqs);
    if PurgedAfter(w1, reqs, w.db.now + GRACE) {
      GoneCannotLogIn(After(w1, reqs).db, id, user.email, password, jti);
    } else {
      SignInRestores(After(w1, reqs), id, user, {}, Login(user.email, password, jti));
    }
  }

  lemma GoneCannotLogIn(db: Db, id: UserId, email: Email, password: string, jti: nat)
    requires id !in db.users
    ensures var e := Handle(db, Login(email, password, jti));
      id !in e.db.users && (e.response.SignedIn? ==> e.response.user != id)
  {
    FoundByEmail(db.users, email);
  }

  /** In particular within the grace period, which is what is promised. */
  lemma {:induction false} DeletedAccountComesBack(w: World, id: UserId, reqs: seq<Request>, password: string, jti: nat)
    requires Inv(w) && IsLive(w.db.users, id)
    requires var w1 := Next(w, DeleteMe(id));
      FreshRun(w1, reqs) && NoSignIn(w1, reqs, id) && After(w1, reqs).db.now <= w.db.now + GRACE
    requires w.db.users[id].passwordHash.Some? && Verifies(password, w.db.users[id].passwordHash.value)
    ensures var w2 := After(Next(w, DeleteMe(id)), reqs);
      var e := Handle(w2.db, Login(w.db.users[id].email, password, jti));
      && e.response == SignedIn(id, Mint(id, jti, w2.db.now), true)
      && id in e.db.users && e.db.users[id] == w.db.users[id]
  {
    hide Inv, FreshRun, NoSignIn, After, PurgedAfter, Handle;
    StepKeeps(w, DeleteMe(id));
    NoLatePurge(Next(w, DeleteMe(id)), reqs, w.db.now + GRACE);
    DeletedAccountComesBackIff(w, id, reqs, password, jti);
  }

  /** And when the clock alone moves on, however far: a day, or years past the grace period. */
  lemma {:induction false} LateLoginRestores(w: World, id: UserId, seconds: nat, password: string, jti: nat)
    requires Inv(w) && IsLive(w.db.users, id)
    requires w.db.users[id].passwordHash.Some? && Verifies(password, w.db.users[id].passwordHash.value)
    ensures var w2 := Next(Next(w, DeleteMe(id)), Tick(seconds));
      var e := Handle(w2.db, Login(w.db.users[id].email, password, jti));
      && w2.db.now == w.db.now + seconds
      && e.response == SignedIn(id, Mint(id, jti, w2.db.now), true)
      && id in e.db.users && e.db.users[id] == w.db.users[id]
  {
    hide Inv;
    var w1, reqs := Next(w, DeleteMe(id)), [Tick(seconds)];
    assert reqs[1..] == [];
    assert After(w1, reqs) == Next(w1, Tick(seconds));
    assert !PurgedAfter(w1, reqs, w.db.now + GRACE);
    DeletedAccountComesBackIff(w, id, reqs, password, jti);
  }

  /** The purge removes a soft-deleted row exactly when the grace period has passed, with every
      token and link of that user. */
  lemma PurgeRemovesIff(db: Db, id: UserId)
    requires id in db.users
    ensures id !in PurgeExpired(db).users <==>
      db.users[id].deletedAt.Some? && db.users[id].deletedAt.value + GRACE < db.now
    ensures id !in PurgeExpired(db).users ==>
      && (forall t :: t in PurgeExpired(db).tokens ==> PurgeExpired(db).tokens[t].userId != id)
      && (forall s :: s in PurgeExpired(db).identities ==> PurgeExpired(db).identities[s] != id)
  {
  }
}
