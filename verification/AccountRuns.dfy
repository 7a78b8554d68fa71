/** Runs of handlers: what every reachable state keeps, and what a replay and a soft delete mean for
    every later state. */
module AccountRuns {
  import opened Common
  import opened Accounts

  /** The tables with their history: tokens and user ids ever issued, the sign-in each token's
      rotation chain started from, the token each redeemed token was exchanged for, the tokens whose
      rotation was cut short, and the users whose deletion once was. */
  datatype World = World(db: Db, issued: set<Token>, root: map<Token, Token>, successor: map<Token, Token>,
                         cut: set<Token>, unrevoked: set<UserId>, ids: set<UserId>)

  /** The random values a handler draws have never been drawn before. */
  predicate Fresh(w: World, req: Request) {
    && (req.Signup? || req.Login? || req.Google? || req.Refresh? ==> forall t :: t in w.issued ==> t.jti != req.jti)
    && (req.Signup? || req.Google? ==> req.newId !in w.ids)
  }

  ghost function Next(w: World, req: Request): World {
    var e := Handle(w.db, req);
    match e.response
    case SignedIn(id, t, _) =>
      World(e.db, w.issued + {t}, w.root[t := t], w.successor, w.cut, w.unrevoked, w.ids + {id})
    case Rotated(t) =>
      World(e.db, w.issued + {t}, w.root[t := if req.Refresh? && req.token in w.root then w.root[req.token] else t],
            if req.Refresh? then w.successor[req.token := t] else w.successor,
            w.cut, w.unrevoked, w.ids)
    case Status(code) =>
      w.(db := e.db,
         cut := if req.RefreshCutShort? && code == 502 then w.cut + {req.token} else w.cut,
         unrevoked := if req.DeleteMeCutShort? && code == 502 then w.unrevoked + {req.session} else w.unrevoked)
  }

  ghost predicate FreshRun(w: World, reqs: seq<Request>)
    decreases |reqs|
  {
    reqs == [] || (Fresh(w, reqs[0]) && FreshRun(Next(w, reqs[0]), reqs[1..]))
  }

  ghost function After(w: World, reqs: seq<Request>): World
    decreases |reqs|
  {
    if reqs == [] then w else After(Next(w, reqs[0]), reqs[1..])
  }

  // ---------------------------------------------------------------- the invariant

  /** Neither redeemed nor revoked. */
  predicate Live(row: TokenRow) {
    row.usedAt == None && row.revokedAt == None
  }

  /** Rows belong to the user and carry the expiry the token itself names, and refer to a user. */
  ghost predicate RowsAgree(tokens: map<Token, TokenRow>, users: map<UserId, User>, issued: set<Token>) {
    forall t :: t in tokens ==>
      t in issued && t.genuine && tokens[t].userId == t.sub && tokens[t].expiresAt == t.exp && t.sub in users
  }

  ghost predicate UsersAgree(users: map<UserId, User>, identities: map<string, UserId>, ids: set<UserId>) {
    && (forall s :: s in identities ==> identities[s] in users)
    && (forall id :: id in users ==> id in ids)
    && EmailsUnique(users)
  }

  /** A soft-deleted user has no live refresh token, unless the deletion was cut short. */
  ghost predicate DeletedAreLockedOut(tokens: map<Token, TokenRow>, users: map<UserId, User>, unrevoked: set<UserId>) {
    forall t :: t in tokens && t.sub in users && Live(tokens[t]) ==>
      users[t.sub].deletedAt == None || t.sub in unrevoked
  }

  /** Every issued token belongs to a chain of its own user. */
  ghost predicate RootsAgree(issued: set<Token>, root: map<Token, Token>) {
    forall t :: t in issued ==> t in root && root[t] in issued && root[t].sub == t.sub
  }

  predicate SameChain(tokens: map<Token, TokenRow>, root: map<Token, Token>, s: Token, t: Token) {
    s in tokens && t in tokens && s in root && t in root && root[s] == root[t]
  }

  /** Every chain has at most one live token. */
  ghost predicate OneLivePerChain(tokens: map<Token, TokenRow>, root: map<Token, Token>) {
    forall s, t :: SameChain(tokens, root, s, t) && Live(tokens[s]) && Live(tokens[t]) ==> s == t
  }

  /** A token was redeemed exactly when it has a successor or its rotation was cut short; no two
      tokens share a successor, and a successor stays in the chain. */
  ghost predicate SuccessorsAgree(tokens: map<Token, TokenRow>, issued: set<Token>, root: map<Token, Token>,
                                  successor: map<Token, Token>, cut: set<Token>) {
    && (forall t :: t in successor ==> t in issued && successor[t] in issued)
    && (forall t :: t in cut ==> t in issued && t !in successor)
    && (forall t :: t in successor && t in root && successor[t] in root ==> root[successor[t]] == root[t])
    && (forall t :: t in tokens ==> (t in successor || t in cut <==> tokens[t].usedAt.Some?))
    && (forall s, t :: s in successor && t in successor && successor[s] == successor[t] ==> s == t)
  }

  ghost predicate Inv(w: World) {
    && RowsAgree(w.db.tokens, w.db.users, w.issued)
    && UsersAgree(w.db.users, w.db.identities, w.ids)
    && DeletedAreLockedOut(w.db.tokens, w.db.users, w.unrevoked)
    && RootsAgree(w.issued, w.root)
    && OneLivePerChain(w.db.tokens, w.root)
    && SuccessorsAgree(w.db.tokens, w.issued, w.root, w.successor, w.cut)
  }

  const EMPTY := World(Db(map[], map[], map[], 0), {}, map[], map[], {}, {}, {})

  lemma EmptyIsSafe()
    ensures Inv(EMPTY)
  {
  }

  // ---------------------------------------------------------------- preservation, operation by operation

  lemma FoundByEmail(users: map<UserId, User>, email: Email)
    ensures var f := FindByEmail(users, email);
      && (f.Some? ==> f.value in users && SameEmail(users[f.value].email, email))
      && (f == None ==> forall id :: id in users ==> !SameEmail(users[id].email, email))
  {
  }

  /** A new token as the start of a chain of its own. */
  lemma {:induction false} ChainStarts(tokens: map<Token, TokenRow>, issued: set<Token>, root: map<Token, Token>,
                                       t: Token, row: TokenRow)
    requires RootsAgree(issued, root) && OneLivePerChain(tokens, root)
    requires t !in issued && tokens.Keys <= issued
    ensures RootsAgree(issued + {t}, root[t := t])
    ensures OneLivePerChain(tokens[t := row], root[t := t])
  {
    var tokens', root' := tokens[t := row], root[t := t];
    forall x, y | SameChain(tokens', root', x, y) && Live(tokens'[x]) && Live(tokens'[y])
      ensures x == y
    {
      if x != t && y != t {
        assert SameChain(tokens, root, x, y);
      }
    }
  }

  lemma {:induction false} SuccessorsKept(tokens: map<Token, TokenRow>, issued: set<Token>, root: map<Token, Token>,
                                          successor: map<Token, Token>, cut: set<Token>, t: Token, row: TokenRow)
    requires SuccessorsAgree(tokens, issued, root, successor, cut)
    requires t !in issued && row.usedAt == None
    ensures SuccessorsAgree(tokens[t := row], issued + {t}, root[t := t], successor, cut)
  {
  }

  lemma {:induction false} IssueKeeps(w: World, id: UserId, jti: nat)
    requires Inv(w) && forall t :: t in w.issued ==> t.jti != jti
    requires IsLive(w.db.users, id)
    ensures var t := Mint(id, jti, w.db.now);
      Inv(World(RecordIssued(w.db, t), w.issued + {t}, w.root[t := t], w.successor, w.cut, w.unrevoked, w.ids + {id}))
  {
    hide RootsAgree, OneLivePerChain, SuccessorsAgree;
    var t := Mint(id, jti, w.db.now);
    ChainStarts(w.db.tokens, w.issued, w.root, t, TokenRow(t.sub, t.exp, None, None));
    SuccessorsKept(w.db.tokens, w.issued, w.root, w.successor, w.cut, t, TokenRow(t.sub, t.exp, None, None));
  }

  lemma {:induction false} ReactivateKeeps(w: World, identities: map<string, UserId>, id: UserId)
    requires Inv(w) && id in w.db.users
    requires forall s :: s in identities ==> identities[s] in w.db.users
    ensures Inv(w.(db := w.db.(users := Reactivate(w.db.users, id), identities := identities)))
  {
    hide RootsAgree, OneLivePerChain, SuccessorsAgree;
    assert forall u :: u in w.db.users ==> Reactivate(w.db.users, id)[u].email == w.db.users[u].email;
  }

  lemma SignInKeeps(w: World, identities: map<string, UserId>, id: UserId, jti: nat)
    requires Inv(w) && forall t :: t in w.issued ==> t.jti != jti
    requires id in w.db.users
    requires forall s :: s in identities ==> identities[s] in w.db.users
    ensures var e := SignIn(w.db.(identities := identities), id, jti);
      Inv(World(e.db, w.issued + {e.response.token}, w.root[e.response.token := e.response.token], w.successor, w.cut,
                w.unrevoked, w.ids + {id}))
  {
    hide Inv;
    ReactivateKeeps(w, identities, id);
    IssueKeeps(w.(db := w.db.(users := Reactivate(w.db.users, id), identities := identities)), id, jti);
  }

  lemma {:induction false} AddUserKeeps(w: World, identities: map<string, UserId>, user: User, id: UserId)
    requires Inv(w) && id !in w.ids
    requires forall u :: u in w.db.users ==> !SameEmail(w.db.users[u].email, user.email)
    requires forall s :: s in identities ==> identities[s] in w.db.users || identities[s] == id
    ensures Inv(w.(db := w.db.(users := w.db.users[id := user], identities := identities), ids := w.ids + {id}))
  {
    hide RootsAgree, OneLivePerChain, SuccessorsAgree;
  }

  lemma CreateKeeps(w: World, identities: map<string, UserId>, user: User, id: UserId, jti: nat)
    requires Inv(w) && forall t :: t in w.issued ==> t.jti != jti
    requires id !in w.ids && user.deletedAt == None
    requires forall u :: u in w.db.users ==> !SameEmail(w.db.users[u].email, user.email)
    requires forall s :: s in identities ==> identities[s] in w.db.users || identities[s] == id
    ensures var e := Create(w.db.(identities := identities), user, id, jti);
      Inv(World(e.db, w.issued + {e.response.token}, w.root[e.response.token := e.response.token], w.successor, w.cut,
                w.unrevoked, w.ids + {id}))
  {
    hide Inv;
    AddUserKeeps(w, identities, user, id);
    var w' := w.(db := w.db.(users := w.db.users[id := user], identities := identities), ids := w.ids + {id});
    IssueKeeps(w', id, jti);
    assert w.ids + {id} + {id} == w.ids + {id};
  }

  /** Exchanging the live token `s` of a chain for a new token `t`. */
  lemma {:induction false} ChainMovesOn(tokens: map<Token, TokenRow>, issued: set<Token>, root: map<Token, Token>,
                     s: Token, used: TokenRow, t: Token, row: TokenRow)
    requires RootsAgree(issued, root) && OneLivePerChain(tokens, root)
    requires t !in issued && tokens.Keys <= issued && s in tokens && Live(tokens[s])
    requires used.usedAt.Some? && t.sub == s.sub
    ensures RootsAgree(issued + {t}, root[t := root[s]])
    ensures OneLivePerChain(tokens[s := used][t := row], root[t := root[s]])
  {
    var tokens', root' := tokens[s := used][t := row], root[t := root[s]];
    forall x, y | SameChain(tokens', root', x, y) && Live(tokens'[x]) && Live(tokens'[y])
      ensures x == y
    {
      if x != t && y != t {
        assert SameChain(tokens, root, x, y);
      } else if x != t {
        assert SameChain(tokens, root, x, s);
      } else if y != t {
        assert SameChain(tokens, root, s, y);
      }
    }
  }

  lemma {:induction false} SuccessorAdded(tokens: map<Token, TokenRow>, issued: set<Token>, root: map<Token, Token>,
                       successor: map<Token, Token>, cut: set<Token>, s: Token, used: TokenRow, t: Token, row: TokenRow)
    requires SuccessorsAgree(tokens, issued, root, successor, cut)
    requires t !in issued && tokens.Keys <= issued && s in tokens && s in root && tokens[s].usedAt == None
    requires used.usedAt.Some? && row.usedAt == None
    ensures SuccessorsAgree(tokens[s := used][t := row], issued + {t}, root[t := root[s]], successor[s := t], cut)
  {
  }

  /** What a rotation does to the tables and their history. */
  lemma {:induction false} RotationStep(w: World, req: Request)
    requires Inv(w) && req.Refresh? && OnRefresh(w.db, req).response.Rotated?
    ensures var s, t := req.token, Mint(req.token.sub, req.jti, w.db.now);
      && s in w.db.tokens && Live(w.db.tokens[s]) && s in w.root
      && Next(w, req) == World(
        w.db.(tokens := w.db.tokens[s := w.db.tokens[s].(usedAt := Some(w.db.now))]
                                   [t := TokenRow(t.sub, t.exp, None, None)]),
        w.issued + {t}, w.root[t := w.root[s]], w.successor[s := t], w.cut, w.unrevoked, w.ids)
  {
    hide OneLivePerChain, SuccessorsAgree, UsersAgree, DeletedAreLockedOut;
  }

  lemma {:induction false} RotationKeeps(w: World, req: Request)
    requires Inv(w) && req.Refresh? && Fresh(w, req)
    requires OnRefresh(w.db, req).response.Rotated?
    ensures Inv(Next(w, req))
  {
    hide RootsAgree, OneLivePerChain, SuccessorsAgree, Next, OnRefresh;
    RotationStep(w, req);
    var s, t := req.token, Mint(req.token.sub, req.jti, w.db.now);
    var used, row := w.db.tokens[s].(usedAt := Some(w.db.now)), TokenRow(t.sub, t.exp, None, None);
    ChainMovesOn(w.db.tokens, w.issued, w.root, s, used, t, row);
    SuccessorAdded(w.db.tokens, w.issued, w.root, w.successor, w.cut, s, used, t, row);
  }

  /** Tokens may die or disappear. */
  lemma {:induction false} ChainsShrink(tokens: map<Token, TokenRow>, fewer: map<Token, TokenRow>, issued: set<Token>,
                     root: map<Token, Token>, successor: map<Token, Token>, cut: set<Token>)
    requires OneLivePerChain(tokens, root) && SuccessorsAgree(tokens, issued, root, successor, cut)
    requires forall t :: t in fewer ==> t in tokens && fewer[t].usedAt == tokens[t].usedAt
    requires forall t :: t in fewer && Live(fewer[t]) ==> Live(tokens[t])
    ensures OneLivePerChain(fewer, root) && SuccessorsAgree(fewer, issued, root, successor, cut)
  {
  }

  /** Revoking everything a user holds, whatever happens to the user's own row. */
  lemma {:induction false} RevocationKeeps(w: World, users: map<UserId, User>, uid: UserId)
    requires Inv(w)
    requires users.Keys == w.db.users.Keys
    requires forall u :: u in users ==> users[u].email == w.db.users[u].email
    requires forall u :: u in users && u != uid ==> users[u].deletedAt == w.db.users[u].deletedAt
    ensures Inv(w.(db := w.db.(users := users, tokens := RevokeAll(w.db.tokens, uid, w.db.now))))
  {
    hide RowsAgree, DeletedAreLockedOut, RootsAgree, OneLivePerChain, SuccessorsAgree;
    RevokedRowsAgree(w, users, uid);
    ChainsShrink(w.db.tokens, RevokeAll(w.db.tokens, uid, w.db.now), w.issued, w.root, w.successor, w.cut);
  }

  lemma {:induction false} RevokedRowsAgree(w: World, users: map<UserId, User>, uid: UserId)
    requires Inv(w)
    requires users.Keys == w.db.users.Keys
    requires forall u :: u in users && u != uid ==> users[u].deletedAt == w.db.users[u].deletedAt
    ensures var tokens := RevokeAll(w.db.tokens, uid, w.db.now);
      RowsAgree(tokens, users, w.issued) && DeletedAreLockedOut(tokens, users, w.unrevoked)
  {
    hide UsersAgree, RootsAgree, OneLivePerChain, SuccessorsAgree;
  }

  /** Updating one live row's email, password or profile. */
  lemma {:induction false} UpdateKeeps(w: World, id: UserId, user: User)
    requires Inv(w) && IsLive(w.db.users, id) && user.deletedAt == None
    requires forall u :: u in w.db.users && u != id ==> !SameEmail(w.db.users[u].email, user.email)
    ensures Inv(w.(db := w.db.(users := w.db.users[id := user])))
  {
    hide RootsAgree, OneLivePerChain, SuccessorsAgree;
  }

  lemma {:induction false} PurgeKeeps(w: World)
    requires Inv(w)
    ensures Inv(w.(db := PurgeExpired(w.db)))
  {
    hide RootsAgree, OneLivePerChain, SuccessorsAgree;
    ChainsShrink(w.db.tokens, PurgeExpired(w.db).tokens, w.issued, w.root, w.successor, w.cut);
  }

  // ---------------------------------------------------------------- preservation, handler by handler

  lemma SignupKeeps(w: World, req: Request)
    requires Inv(w) && Fresh(w, req) && req.Signup?
    ensures Inv(Next(w, req))
  {
    hide RowsAgree, DeletedAreLockedOut, RootsAgree, OneLivePerChain, SuccessorsAgree;
    FoundByEmail(w.db.users, req.email);
    if FindByEmail(w.db.users, req.email) == None {
      var user := User(req.email, req.displayName, Some(PasswordHash(req.password, req.salt)), req.level, None);
      CreateKeeps(w, w.db.identities, user, req.newId, req.jti);
    }
  }

  lemma LoginKeeps(w: World, req: Request)
    requires Inv(w) && Fresh(w, req) && req.Login?
    ensures Inv(Next(w, req))
  {
    hide RowsAgree, DeletedAreLockedOut, RootsAgree, OneLivePerChain, SuccessorsAgree;
    FoundByEmail(w.db.users, req.email);
    if OnLogin(w.db, req).response.SignedIn? {
      SignInKeeps(w, w.db.identities, FindByEmail(w.db.users, req.email).value, req.jti);
    }
  }

  lemma GoogleKeeps(w: World, req: Request)
    requires Inv(w) && Fresh(w, req) && req.Google?
    ensures Inv(Next(w, req))
  {
    hide RowsAgree, DeletedAreLockedOut, RootsAgree, OneLivePerChain, SuccessorsAgree;
    var who := req.identity;
    FoundByEmail(w.db.users, who.email);
    var linked, existing := FindByIdentity(w.db, who.subject), FindByEmail(w.db.users, who.email);
    if linked.Some? {
      SignInKeeps(w, w.db.identities, linked.value, req.jti);
    } else if existing == None {
      CreateKeeps(w, w.db.identities[who.subject := req.newId], User(who.email, who.name, None, None, None),
                  req.newId, req.jti);
    } else if who.emailVerified {
      SignInKeeps(w, w.db.identities[who.subject := existing.value], existing.value, req.jti);
    }
  }

  lemma RefreshKeeps(w: World, req: Request)
    requires Inv(w) && Fresh(w, req) && req.Refresh?
    ensures Inv(Next(w, req))
  {
    hide RowsAgree, UsersAgree, DeletedAreLockedOut, RootsAgree, OneLivePerChain, SuccessorsAgree;
    if OnRefresh(w.db, req).response.Rotated? {
      RotationKeeps(w, req);
    } else if req.token in w.db.tokens {
      RevocationKeeps(w, w.db.users, w.db.tokens[req.token].userId);
    }
  }

  /** The token of a rotation cut short is dead and has no successor. */
  lemma {:induction false} CutShortKeeps(w: World, req: Request)
    requires Inv(w) && req.RefreshCutShort?
    ensures Inv(Next(w, req))
  {
    hide RowsAgree, UsersAgree, DeletedAreLockedOut, RootsAgree, OneLivePerChain, SuccessorsAgree;
    if OnRefresh(w.db, req).response == Status(502) {
      TokenCut(w, req.token);
    } else if req.token in w.db.tokens {
      RevocationKeeps(w, w.db.users, w.db.tokens[req.token].userId);
    }
  }

  lemma {:induction false} TokenCut(w: World, t: Token)
    requires Inv(w) && t in w.db.tokens && Live(w.db.tokens[t])
    ensures Inv(w.(db := w.db.(tokens := MarkUsed(w.db.tokens, t, w.db.now)), cut := w.cut + {t}))
  {
    hide RootsAgree, OneLivePerChain, SuccessorsAgree;
    var used := w.db.tokens[t].(usedAt := Some(w.db.now));
    OneDies(w.db.tokens, w.root, t, used);
    SuccessorCut(w.db.tokens, w.issued, w.root, w.successor, w.cut, t, used);
  }

  lemma {:induction false} OneDies(tokens: map<Token, TokenRow>, root: map<Token, Token>, t: Token, used: TokenRow)
    requires OneLivePerChain(tokens, root) && t in tokens && !Live(used)
    ensures OneLivePerChain(tokens[t := used], root)
  {
    var tokens' := tokens[t := used];
    forall x, y | SameChain(tokens', root, x, y) && Live(tokens'[x]) && Live(tokens'[y])
      ensures x == y
    {
      assert SameChain(tokens, root, x, y);
    }
  }

  lemma {:induction false} SuccessorCut(tokens: map<Token, TokenRow>, issued: set<Token>, root: map<Token, Token>,
                                        successor: map<Token, Token>, cut: set<Token>, t: Token, used: TokenRow)
    requires SuccessorsAgree(tokens, issued, root, successor, cut)
    requires t in tokens && t in issued && tokens[t].usedAt == None && used.usedAt.Some?
    ensures SuccessorsAgree(tokens[t := used], issued, root, successor, cut + {t})
  {
  }

  lemma DeleteKeeps(w: World, req: Request)
    requires Inv(w) && Fresh(w, req) && req.DeleteMe?
    ensures Inv(Next(w, req))
  {
    hide RowsAgree, UsersAgree, DeletedAreLockedOut, RootsAgree, OneLivePerChain, SuccessorsAgree;
    if IsLive(w.db.users, req.session) {
      RevocationKeeps(w, OnDeleteMe(w.db, req).db.users, req.session);
    }
  }

  lemma {:induction false} DeleteCutShortKeeps(w: World, req: Request)
    requires Inv(w) && req.DeleteMeCutShort?
    ensures Inv(Next(w, req))
  {
    hide RowsAgree, UsersAgree, DeletedAreLockedOut, RootsAgree, OneLivePerChain, SuccessorsAgree;
    if IsLive(w.db.users, req.session) {
      MarkOnlyKeeps(w, OnDeleteMe(w.db, req).db.users, req.session);
    }
  }

  /** A user's row may change its mark alone if that is put on record. */
  lemma {:induction false} MarkOnlyKeeps(w: World, users: map<UserId, User>, uid: UserId)
    requires Inv(w)
    requires users.Keys == w.db.users.Keys
    requires forall u :: u in users ==> users[u].email == w.db.users[u].email
    requires forall u :: u in users && u != uid ==> users[u].deletedAt == w.db.users[u].deletedAt
    ensures Inv(w.(db := w.db.(users := users), unrevoked := w.unrevoked + {uid}))
  {
    hide RootsAgree, OneLivePerChain, SuccessorsAgree;
  }

  lemma {:induction false} EmailPasswordProfileKeep(w: World, req: Request)
    requires Inv(w) && Fresh(w, req) && (req.ChangeEmail? || req.ChangePassword? || req.EditProfile?)
    ensures Inv(Next(w, req))
  {
    hide RowsAgree, DeletedAreLockedOut, RootsAgree, OneLivePerChain, SuccessorsAgree;
    var users', id := Handle(w.db, req).db.users, req.session;
    if req.ChangeEmail? { FoundByEmail(w.db.users, req.newEmail); }
    if users' != w.db.users {
      UpdateKeeps(w, id, users'[id]);
    }
  }

  lemma TickKeeps(w: World, seconds: nat)
    requires Inv(w)
    ensures Inv(w.(db := w.db.(now := w.db.now + seconds)))
  {
  }

  /** Every handler keeps the invariant. */
  lemma StepKeeps(w: World, req: Request)
    requires Inv(w) && Fresh(w, req)
    ensures Inv(Next(w, req))
  {
    match req
    case Signup(_, _, _, _, _, _, _) => SignupKeeps(w, req);
    case Login(_, _, _) => LoginKeeps(w, req);
    case Google(_, _, _) => GoogleKeeps(w, req);
    case Refresh(_, _) => RefreshKeeps(w, req);
    case RefreshCutShort(_) => CutShortKeeps(w, req);
    case DeleteMe(_) => DeleteKeeps(w, req);
    case DeleteMeCutShort(_) => DeleteCutShortKeeps(w, req);
    case ChangeEmail(_, _, _) => EmailPasswordProfileKeep(w, req);
    case ChangePassword(_, _, _, _) => EmailPasswordProfileKeep(w, req);
    case EditProfile(_, _, _) => EmailPasswordProfileKeep(w, req);
    case Purge => PurgeKeeps(w);
    case Tick(seconds) => TickKeeps(w, seconds);
  }

  /** In every state of every run of atomic handlers: each chain has at most one live token, no
      token two successors, and a soft-deleted user no live token unless the deletion was cut short. */
  lemma {:induction false} RunKeeps(w: World, reqs: seq<Request>)
    requires Inv(w) && FreshRun(w, reqs)
    ensures Inv(After(w, reqs))
    decreases |reqs|
  {
    if reqs != [] {
      StepKeeps(w, reqs[0]);
      RunKeeps(Next(w, reqs[0]), reqs[1..]);
    }
  }

  /** Starting from empty tables, whatever the requests. */
  lemma {:induction false} ReachableIsSafe(reqs: seq<Request>)
    requires FreshRun(EMPTY, reqs)
    ensures Inv(After(EMPTY, reqs))
  {
    hide FreshRun, After;
    EmptyIsSafe();
    RunKeeps(EMPTY, reqs);
  }
}
