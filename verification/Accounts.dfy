/** Accounts, federated identities and refresh tokens: the tables, and every handler as one step
    over them. Times are whole seconds. */
module Accounts {
  import opened Common

  type UserId = nat

  /** The email column compares without regard to case; `folded` is what is compared. */
  datatype Email = Email(folded: string, spelling: string)

  /** A salted one-way hash, idealised: it verifies exactly the password it was made from. */
  datatype PasswordHash = PasswordHash(password: string, salt: nat)

  datatype Level = Beginner | Intermediate | Advanced

  datatype User = User(email: Email, displayName: Option<string>, passwordHash: Option<PasswordHash>,
                       level: Option<Level>, deletedAt: Option<int>)

  /** A refresh token. Its hash is injective, so the token table is keyed by the token. */
  datatype Token = Token(jti: nat, sub: UserId, exp: int, genuine: bool)

  datatype TokenRow = TokenRow(userId: UserId, expiresAt: int, usedAt: Option<int>, revokedAt: Option<int>)

  datatype Db = Db(users: map<UserId, User>, tokens: map<Token, TokenRow>, identities: map<string, UserId>, now: int)

  const DAY := 24 * 60 * 60
  const REFRESH_TTL := 30 * DAY
  const GRACE := 30 * DAY

  datatype GoogleIdentity = GoogleIdentity(subject: string, email: Email, emailVerified: bool, name: Option<string>)

  /** A request with the random values its handler draws: user ids, salts and token ids. A refresh is
      cut short when the row of the new token cannot be inserted, a deletion when the user's tokens
      cannot be revoked. */
  datatype Request =
    | Signup(email: Email, password: string, displayName: Option<string>, level: Option<Level>,
             newId: UserId, salt: nat, jti: nat)
    | Login(email: Email, password: string, jti: nat)
    | Google(identity: GoogleIdentity, newId: UserId, jti: nat)
    | Refresh(token: Token, jti: nat)
    | RefreshCutShort(token: Token)
    | DeleteMe(session: UserId)
    | DeleteMeCutShort(session: UserId)
    | ChangeEmail(session: UserId, currentPassword: string, newEmail: Email)
    | ChangePassword(session: UserId, currentPassword: string, newPassword: string, salt: nat)
    | EditProfile(session: UserId, displayName: Option<string>, level: Option<Level>)
    | Purge
    | Tick(seconds: nat)

  datatype Response =
    | SignedIn(user: UserId, token: Token, reactivated: bool)
    | Rotated(token: Token)
    | Status(code: nat)

  datatype Effect = Effect(db: Db, response: Response)

  // ---------------------------------------------------------------- table operations

  predicate SameEmail(a: Email, b: Email) {
    a.folded == b.folded
  }

  predicate Verifies(password: string, hash: PasswordHash) {
    password == hash.password
  }

  predicate IsLive(users: map<UserId, User>, id: UserId) {
    id in users && users[id].deletedAt == None
  }

  /** The user holding an email address, deleted or not. */
  ghost function FindByEmail(users: map<UserId, User>, email: Email): Option<UserId> {
    if id :| id in users && SameEmail(users[id].email, email) then Some(id) else None
  }

  ghost predicate EmailsUnique(users: map<UserId, User>) {
    forall a, b :: a in users && b in users && SameEmail(users[a].email, users[b].email) ==> a == b
  }

  function FindByIdentity(db: Db, subject: string): Option<UserId> {
    if subject in db.identities && db.identities[subject] in db.users then Some(db.identities[subject]) else None
  }

  function Mint(uid: UserId, jti: nat, now: int): Token {
    Token(jti, uid, now + REFRESH_TTL, true)
  }

  function RecordIssued(db: Db, token: Token): Db {
    db.(tokens := db.tokens[token := TokenRow(token.sub, token.exp, None, None)])
  }

  function MarkUsed(tokens: map<Token, TokenRow>, token: Token, now: int): map<Token, TokenRow> {
    if token in tokens && tokens[token].usedAt == None then tokens[token := tokens[token].(usedAt := Some(now))]
    else tokens
  }

  function RevokeRow(row: TokenRow, uid: UserId, now: int): TokenRow {
    if row.userId == uid && row.revokedAt == None then row.(revokedAt := Some(now)) else row
  }

  function RevokeAll(tokens: map<Token, TokenRow>, uid: UserId, now: int): map<Token, TokenRow> {
    map t | t in tokens :: RevokeRow(tokens[t], uid, now)
  }

  function Reactivate(users: map<UserId, User>, id: UserId): map<UserId, User> {
    if id in users then users[id := users[id].(deletedAt := None)] else users
  }

  predicate IsExpired(u: User, now: int) {
    u.deletedAt.Some? && u.deletedAt.value < now - GRACE
  }

  /** Removes the users deleted more than the grace period ago, and every row that refers to them. */
  function PurgeExpired(db: Db): Db {
    var kept := map id | id in db.users && !IsExpired(db.users[id], db.now) :: db.users[id];
    Db(kept,
       map t | t in db.tokens && db.tokens[t].userId in kept :: db.tokens[t],
       map s | s in db.identities && db.identities[s] in kept :: db.identities[s],
       db.now)
  }

  // ---------------------------------------------------------------- handlers

  /** Signing in as a known user: reactivates a deleted row and issues a token. */
  function SignIn(db: Db, id: UserId, jti: nat): Effect
    requires id in db.users
  {
    var token := Mint(id, jti, db.now);
    Effect(RecordIssued(db.(users := Reactivate(db.users, id)), token),
           SignedIn(id, token, db.users[id].deletedAt.Some?))
  }

  /** Inserting a new user row and issuing its first token. */
  function Create(db: Db, user: User, newId: UserId, jti: nat): Effect {
    var token := Mint(newId, jti, db.now);
    Effect(RecordIssued(db.(users := db.users[newId := user]), token), SignedIn(newId, token, false))
  }

  ghost function OnSignup(db: Db, req: Request): Effect
    requires req.Signup?
  {
    if FindByEmail(db.users, req.email).Some? then Effect(db, Status(409))
    else Create(db, User(req.email, req.displayName, Some(PasswordHash(req.password, req.salt)), req.level, None),
                req.newId, req.jti)
  }

  ghost function OnLogin(db: Db, req: Request): Effect
    requires req.Login?
  {
    var found := FindByEmail(db.users, req.email);
    if found == None then Effect(db, Status(401))
    else
      var hash := db.users[found.value].passwordHash;
      if hash == None || !Verifies(req.password, hash.value) then Effect(db, Status(401))
      else SignIn(db, found.value, req.jti)
  }

  ghost function OnGoogle(db: Db, req: Request): Effect
    requires req.Google?
  {
    var who := req.identity;
    var linked := FindByIdentity(db, who.subject);
    var existing := FindByEmail(db.users, who.email);
    if linked.Some? then SignIn(db, linked.value, req.jti)
    else if existing == None then
      Create(db.(identities := db.identities[who.subject := req.newId]),
             User(who.email, who.name, None, None, None), req.newId, req.jti)
    else if !who.emailVerified then Effect(db, Status(409))
    else SignIn(db.(identities := db.identities[who.subject := existing.value]), existing.value, req.jti)
  }

  /** Rotation: a token redeems once; redeeming it again revokes everything the user holds. Cut short,
      the old token stays marked. */
  function OnRefresh(db: Db, req: Request): Effect
    requires req.Refresh? || req.RefreshCutShort?
  {
    var token := req.token;
    if !token.genuine || token.exp <= db.now then Effect(db, Status(401))
    else if token !in db.tokens || db.tokens[token].revokedAt.Some? then Effect(db, Status(401))
    else
      var row := db.tokens[token];
      if row.usedAt.Some? then
        Effect(db.(tokens := RevokeAll(db.tokens, row.userId, db.now)), Status(401))
      else if req.RefreshCutShort? then
        Effect(db.(tokens := MarkUsed(db.tokens, token, db.now)), Status(502))
      else
        var next := Mint(row.userId, req.jti, db.now);
        Effect(RecordIssued(db.(tokens := MarkUsed(db.tokens, token, db.now)), next), Rotated(next))
  }

  /** Cut short, the row stays marked and the tokens are as they were. */
  function OnDeleteMe(db: Db, req: Request): Effect
    requires req.DeleteMe? || req.DeleteMeCutShort?
  {
    if !IsLive(db.users, req.session) then Effect(db, Status(404))
    else
      var deleted := db.users[req.session := db.users[req.session].(deletedAt := Some(db.now))];
      if req.DeleteMeCutShort? then Effect(db.(users := deleted), Status(502))
      else Effect(db.(users := deleted, tokens := RevokeAll(db.tokens, req.session, db.now)), Status(204))
  }

  ghost function OnChangeEmail(db: Db, req: Request): Effect
    requires req.ChangeEmail?
  {
    if !IsLive(db.users, req.session) then Effect(db, Status(422))
    else
      var user := db.users[req.session];
      if user.passwordHash == None || !Verifies(req.currentPassword, user.passwordHash.value) then
        Effect(db, Status(422))
      else if SameEmail(req.newEmail, user.email) then Effect(db, Status(200))
      else if FindByEmail(db.users, req.newEmail).Some? then Effect(db, Status(409))
      else Effect(db.(users := db.users[req.session := user.(email := req.newEmail)]), Status(200))
  }

  function OnChangePassword(db: Db, req: Request): Effect
    requires req.ChangePassword?
  {
    if !IsLive(db.users, req.session) then Effect(db, Status(422))
    else
      var user := db.users[req.session];
      if user.passwordHash == None || !Verifies(req.currentPassword, user.passwordHash.value) then
        Effect(db, Status(422))
      else
        var rotated := user.(passwordHash := Some(PasswordHash(req.newPassword, req.salt)));
        Effect(db.(users := db.users[req.session := rotated]), Status(204))
  }

  function OnEditProfile(db: Db, req: Request): Effect
    requires req.EditProfile?
  {
    if req.displayName == None && req.level == None then Effect(db, Status(400))
    else if !IsLive(db.users, req.session) then Effect(db, Status(404))
    else
      var user := db.users[req.session];
      var edited := user.(displayName := if req.displayName.Some? then req.displayName else user.displayName,
                          level := if req.level.Some? then req.level else user.level);
      Effect(db.(users := db.users[req.session := edited]), Status(200))
  }

  /** One handler, run without interruption. */
  ghost function Handle(db: Db, req: Request): Effect {
    match req
    case Signup(_, _, _, _, _, _, _) => OnSignup(db, req)
    case Login(_, _, _) => OnLogin(db, req)
    case Google(_, _, _) => OnGoogle(db, req)
    case Refresh(_, _) => OnRefresh(db, req)
    case RefreshCutShort(_) => OnRefresh(db, req)
    case DeleteMe(_) => OnDeleteMe(db, req)
    case DeleteMeCutShort(_) => OnDeleteMe(db, req)
    case ChangeEmail(_, _, _) => OnChangeEmail(db, req)
    case ChangePassword(_, _, _, _) => OnChangePassword(db, req)
    case EditProfile(_, _, _) => OnEditProfile(db, req)
    case Purge => Effect(PurgeExpired(db), Status(200))
    case Tick(seconds) => Effect(db.(now := db.now + seconds), Status(200))
  }
}
