/** The client that rotates refresh tokens, stepped at its suspension points, beside a server it
    shares with everybody else. Between two suspension points nothing else runs on the main actor. */
module RefreshClient {
  import opened Common
  import opened Accounts
  import opened AccountRuns
  import opened AccountSafety

  type TaskId = nat
  type CallerId = nat

  datatype RefreshResult = Fresh(token: Token) | Rejected | Transient

  /** One `performRefresh`: not started, request on its way, answer on its way back, finished. */
  datatype Task = Created | Waiting(presented: Token) | Answered(presented: Token, answer: Response)
                | Finished(result: RefreshResult)

  datatype Outcome = Answer | SignedOut | Failed

  /** One `send`: an attempt under way, waiting for the rotation it started or for somebody else's,
      or finished after so many attempts. */
  datatype Caller = Attempting(n: nat) | Leading(task: TaskId) | Following(task: TaskId)
                  | Finished(attempts: nat, outcome: Outcome)

  datatype Client = Client(store: Option<Token>, inFlight: Option<TaskId>, tasks: map<TaskId, Task>,
                           callers: map<CallerId, Caller>)

  /** The whole system. `stray` are the tokens in requests the client has given up on, which the
      server may still handle. The history is every token issued to the client, those exchanged by a
      request whose answer was sent to a waiting client, and those redeemed in vain: the answer got
      lost, nobody waited for it, or the handler was cut short. */
  datatype System = System(world: World, client: Client, stray: multiset<Token>,
                           owned: set<Token>, exchanged: set<Token>, lost: set<Token>)

  datatype AttemptResult = Ok | Unauthorized | NetworkError

  datatype Event =
    | Send(c: CallerId)
    | AttemptReturns(c: CallerId, result: AttemptResult, newTask: TaskId)
    | TaskStarts(task: TaskId)
    | ServerAnswers(task: TaskId, jti: nat)
    | ServerCutShort(task: TaskId)
    | GaveUp(task: TaskId)
    | LateRequest(t: Token, jti: nat)
    | LateRequestCutShort(t: Token)
    | AnswerArrives(task: TaskId)
    | AnswerLost(task: TaskId)
    | CallerResumes(c: CallerId)
    | ClientSignsIn(req: Request)
    | ClientSignsOut
    | OthersAct(req: Request)

  // ---------------------------------------------------------------- segments of the client

  /** `refresh` up to its suspension: join the rotation under way or start one. */
  function JoinOrStart(k: Client, c: CallerId, newTask: TaskId): Client {
    match k.inFlight
    case Some(task) => k.(callers := k.callers[c := Following(task)])
    case None =>
      k.(inFlight := Some(newTask), tasks := k.tasks[newTask := Created], callers := k.callers[c := Leading(newTask)])
  }

  /** `send` up to its first suspension. */
  function StartSend(k: Client, c: CallerId): Client {
    if k.store == None then k.(callers := k.callers[c := Caller.Finished(0, SignedOut)])
    else k.(callers := k.callers[c := Attempting(1)])
  }

  function AfterAttempt(k: Client, c: CallerId, n: nat, result: AttemptResult, newTask: TaskId): Client {
    match result
    case Ok => k.(callers := k.callers[c := Caller.Finished(n, Answer)])
    case NetworkError => k.(callers := k.callers[c := Caller.Finished(n, Failed)])
    case Unauthorized =>
      if n == 1 then JoinOrStart(k, c, newTask)
      else k.(store := None, callers := k.callers[c := Caller.Finished(n, SignedOut)])
  }

  /** `performRefresh` up to its suspension. */
  function StartTask(k: Client, task: TaskId): Client {
    match k.store
    case None => k.(tasks := k.tasks[task := Task.Finished(Rejected)])
    case Some(t) => k.(tasks := k.tasks[task := Waiting(t)])
  }

  /** `performRefresh` when the answer is there: a rotated pair is stored before it is returned; only
      a 401 counts as a rejection. */
  function FinishTask(k: Client, task: TaskId, answer: Response): Client {
    match answer
    case Rotated(t) => k.(store := Some(t), tasks := k.tasks[task := Task.Finished(Fresh(t))])
    case _ => k.(tasks := k.tasks[task := Task.Finished(if answer == Status(401) then Rejected else Transient)])
  }

  /** `performRefresh` when no answer came. */
  function FailTask(k: Client, task: TaskId): Client {
    k.(tasks := k.tasks[task := Task.Finished(Transient)])
  }

  /** `send` after the rotation it waited for: the starter clears the shared task first. */
  function Resume(k: Client, c: CallerId, leading: bool, result: RefreshResult): Client {
    var k' := if leading then k.(inFlight := None) else k;
    match result
    case Fresh(_) => k'.(callers := k'.callers[c := Attempting(2)])
    case Rejected => k'.(store := None, callers := k'.callers[c := Caller.Finished(1, SignedOut)])
    case Transient => k'.(callers := k'.callers[c := Caller.Finished(1, Failed)])
  }

  // ---------------------------------------------------------------- the system

  predicate Awaits(k: Client, c: CallerId) {
    && c in k.callers && (k.callers[c].Leading? || k.callers[c].Following?)
    && k.callers[c].task in k.tasks && k.tasks[k.callers[c].task].Finished?
  }

  predicate Enabled(s: System, e: Event) {
    var k := s.client;
    match e
    case Send(c) => c !in k.callers
    case AttemptReturns(c, _, newTask) => c in k.callers && k.callers[c].Attempting? && newTask !in k.tasks
    case TaskStarts(task) => task in k.tasks && k.tasks[task].Created?
    case ServerAnswers(task, jti) =>
      task in k.tasks && k.tasks[task].Waiting? && AccountRuns.Fresh(s.world, Refresh(k.tasks[task].presented, jti))
    case ServerCutShort(task) => task in k.tasks && k.tasks[task].Waiting?
    case GaveUp(task) => task in k.tasks && k.tasks[task].Waiting?
    case LateRequest(t, jti) => t in s.stray && AccountRuns.Fresh(s.world, Refresh(t, jti))
    case LateRequestCutShort(t) => t in s.stray
    case AnswerArrives(task) => task in k.tasks && k.tasks[task].Answered?
    case AnswerLost(task) => task in k.tasks && k.tasks[task].Answered?
    case CallerResumes(c) => Awaits(k, c)
    case ClientSignsIn(req) => (req.Signup? || req.Login? || req.Google?) && AccountRuns.Fresh(s.world, req)
    case ClientSignsOut => true
    // Nobody else holds the client's tokens.
    case OthersAct(req) =>
      AccountRuns.Fresh(s.world, req) && (req.Refresh? || req.RefreshCutShort? ==> req.token !in s.owned)
  }

  ghost function Step(s: System, e: Event): System
    requires Enabled(s, e)
  {
    var k := s.client;
    match e
    case Send(c) => s.(client := StartSend(k, c))
    case AttemptReturns(c, result, newTask) => s.(client := AfterAttempt(k, c, k.callers[c].n, result, newTask))
    case TaskStarts(task) => s.(client := StartTask(k, task))
    case ServerAnswers(task, jti) =>
      var req := Refresh(k.tasks[task].presented, jti);
      var answer := Handle(s.world.db, req).response;
      s.(world := Next(s.world, req), client := k.(tasks := k.tasks[task := Answered(req.token, answer)]),
         owned := if answer.Rotated? then s.owned + {answer.token} else s.owned,
         exchanged := if answer.Rotated? then s.exchanged + {req.token} else s.exchanged)
    case ServerCutShort(task) =>
      var req := RefreshCutShort(k.tasks[task].presented);
      var answer := Handle(s.world.db, req).response;
      s.(world := Next(s.world, req), client := k.(tasks := k.tasks[task := Answered(req.token, answer)]),
         lost := if answer == Status(502) then s.lost + {req.token} else s.lost)
    case GaveUp(task) => s.(client := FailTask(k, task), stray := s.stray + multiset{k.tasks[task].presented})
    case LateRequest(t, jti) =>
      var req := Refresh(t, jti);
      var answer := Handle(s.world.db, req).response;
      s.(world := Next(s.world, req), stray := s.stray - multiset{t},
         owned := if answer.Rotated? then s.owned + {answer.token} else s.owned,
         lost := if answer.Rotated? then s.lost + {t} else s.lost)
    case LateRequestCutShort(t) =>
      var req := RefreshCutShort(t);
      s.(world := Next(s.world, req), stray := s.stray - multiset{t},
         lost := if Handle(s.world.db, req).response == Status(502) then s.lost + {t} else s.lost)
    case AnswerArrives(task) => s.(client := FinishTask(k, task, k.tasks[task].answer))
    case AnswerLost(task) =>
      s.(client := FailTask(k, task),
         lost := if k.tasks[task].answer.Rotated? then s.lost + {k.tasks[task].presented} else s.lost)
    case CallerResumes(c) =>
      s.(client := Resume(k, c, k.callers[c].Leading?, k.tasks[k.callers[c].task].result))
    case ClientSignsIn(req) =>
      var r := Handle(s.world.db, req).response;
      if r.SignedIn?
      then s.(world := Next(s.world, req), client := k.(store := Some(r.token)), owned := s.owned + {r.token})
      else s.(world := Next(s.world, req))
    case ClientSignsOut => s.(client := k.(store := None))
    case OthersAct(req) => s.(world := Next(s.world, req))
  }

  /** The client's own refresh request the server handles in this event, if it does. */
  function ClientRequest(s: System, e: Event): Option<Request>
    requires Enabled(s, e)
  {
    match e
    case ServerAnswers(task, jti) => Some(Refresh(s.client.tasks[task].presented, jti))
    case ServerCutShort(task) => Some(RefreshCutShort(s.client.tasks[task].presented))
    case LateRequest(t, jti) => Some(Refresh(t, jti))
    case LateRequestCutShort(t) => Some(RefreshCutShort(t))
    case _ => None
  }

  ghost predicate EnabledRun(s: System, events: seq<Event>)
    decreases |events|
  {
    events == [] || (Enabled(s, events[0]) && EnabledRun(Step(s, events[0]), events[1..]))
  }

  ghost function Final(s: System, events: seq<Event>): System
    requires EnabledRun(s, events)
    decreases |events|
  {
    if events == [] then s else Final(Step(s, events[0]), events[1..])
  }

  // ---------------------------------------------------------------- the invariants

  /** Only the shared task can be unfinished, and only the caller that started it will clear it. */
  ghost predicate OneRotation(k: Client) {
    && (k.inFlight.Some? ==> k.inFlight.value in k.tasks)
    && (forall task :: task in k.tasks && !k.tasks[task].Finished? ==> k.inFlight == Some(task))
    && (forall c :: c in k.callers && k.callers[c].Leading? ==> k.inFlight == Some(k.callers[c].task))
    && (forall c, d :: c in k.callers && d in k.callers && k.callers[c].Leading? && k.callers[d].Leading? ==> c == d)
  }

  /** Whoever started the shared rotation is still there to clear it, and what a caller waits for exists. */
  ghost predicate SomebodyLeads(k: Client) {
    && (k.inFlight.Some? ==> exists c :: c in k.callers && k.callers[c] == Leading(k.inFlight.value))
    && (forall c :: c in k.callers && (k.callers[c].Leading? || k.callers[c].Following?) ==>
          k.callers[c].task in k.tasks)
  }

  ghost predicate FewAttempts(k: Client) {
    forall c :: c in k.callers ==>
      match k.callers[c]
      case Attempting(n) => 1 <= n <= 2
      case Finished(n, _) => n <= 2
      case _ => true
  }

  /** The server has exchanged this token for another, or was cut short doing so. */
  predicate Redeemed(w: World, t: Token) {
    t in w.successor || t in w.cut
  }

  /** The client's tokens are the server's; the only redeemed token it can still present is one whose
      successor it will not get. */
  ghost predicate TokensHeld(s: System) {
    && s.owned <= s.world.issued
    && (forall t :: t in s.stray ==> t in s.owned)
    && (forall t :: t in s.lost || t in s.exchanged ==> Redeemed(s.world, t))
    && (forall t :: t in s.owned && Redeemed(s.world, t) ==> t in s.lost || t in s.exchanged)
    && (s.client.store.Some? ==> s.client.store.value in s.owned)
    && (s.client.store.Some? && Redeemed(s.world, s.client.store.value) ==>
         s.client.store.value in s.lost || AnswerUnderWay(s.client, s.client.store.value))
  }

  predicate RotationOf(task: Task, t: Token) {
    task.Answered? && task.presented == t && task.answer.Rotated?
  }

  /** The answer that exchanged `t` is on its way back. */
  ghost predicate AnswerUnderWay(k: Client, t: Token) {
    k.inFlight.Some? && k.inFlight.value in k.tasks && RotationOf(k.tasks[k.inFlight.value], t)
  }

  ghost predicate TasksHeld(s: System) {
    forall task :: task in s.client.tasks ==>
      match s.client.tasks[task]
      case Waiting(t) => t in s.owned && (Redeemed(s.world, t) ==> t in s.lost)
      case Answered(t, answer) =>
        && (t in s.owned)
        && (answer.Rotated? ==>
              Redeemed(s.world, t) && answer.token in s.owned && !Redeemed(s.world, answer.token)
              && answer.token.sub == t.sub && answer.token !in s.stray)
      case _ => true
  }

  ghost predicate SystemInv(s: System) {
    && Inv(s.world) && OneRotation(s.client) && SomebodyLeads(s.client) && FewAttempts(s.client)
    && TokensHeld(s) && TasksHeld(s)
  }

  /** A client without tokens beside a server. */
  function Start(w: World): System {
    System(w, Client(None, None, map[], map[]), multiset{}, {}, {}, {})
  }

  lemma {:induction false} StartIsSafe(w: World)
    requires Inv(w)
    ensures SystemInv(Start(w))
  {
  }

  // ---------------------------------------------------------------- preservation

  lemma {:induction false} RotationStaysOne(s: System, e: Event)
    requires Enabled(s, e) && OneRotation(s.client)
    ensures OneRotation(Step(s, e).client)
  {
    hide Next, Handle;
  }

  lemma {:induction false} SomebodyStillLeads(s: System, e: Event)
    requires Enabled(s, e) && OneRotation(s.client) && SomebodyLeads(s.client)
    ensures SomebodyLeads(Step(s, e).client)
  {
    hide SomebodyLeads, OneRotation, AfterAttempt, Resume, Next, Handle;
    var k := s.client;
    match e
    case AttemptReturns(c, result, newTask) => AttemptLeavesLeader(k, c, result, newTask);
    case CallerResumes(c) => ResumeLeavesLeader(k, c);
    case Send(c) => CallersChange(k, StartSend(k, c), c);
    case _ => CallersStay(s, e);
  }

  lemma {:induction false} CallersStay(s: System, e: Event)
    requires Enabled(s, e) && SomebodyLeads(s.client) && !e.Send? && !e.AttemptReturns? && !e.CallerResumes?
    ensures SomebodyLeads(Step(s, e).client)
  {
    hide SomebodyLeads, Step, Enabled;
    CallersSame(s, e);
    TasksChange(s.client, Step(s, e).client);
  }

  lemma {:induction false} CallersSame(s: System, e: Event)
    requires Enabled(s, e) && !e.Send? && !e.AttemptReturns? && !e.CallerResumes?
    ensures var k, k' := s.client, Step(s, e).client;
      && k'.inFlight == k.inFlight && k'.callers == k.callers
      && forall task :: task in k.tasks ==> task in k'.tasks
  {
    hide Next, Handle;
  }

  lemma {:induction false} TasksChange(k: Client, k': Client)
    requires SomebodyLeads(k) && k'.inFlight == k.inFlight && k'.callers == k.callers
    requires forall task :: task in k.tasks ==> task in k'.tasks
    ensures SomebodyLeads(k')
  {
  }

  /** A caller that did not lead may start or stop anything but leading. */
  lemma {:induction false} CallersChange(k: Client, k': Client, c: CallerId)
    requires SomebodyLeads(k) && k'.inFlight == k.inFlight
    requires forall task :: task in k.tasks ==> task in k'.tasks
    requires c in k.callers ==> !k.callers[c].Leading?
    requires c in k'.callers && k'.callers == k.callers[c := k'.callers[c]]
    requires !k'.callers[c].Leading? && (k'.callers[c].Following? ==> k'.callers[c].task in k'.tasks)
    ensures SomebodyLeads(k')
  {
    if k.inFlight.Some? {
      var leader :| leader in k.callers && k.callers[leader] == Leading(k.inFlight.value);
      assert k'.callers[leader] == Leading(k.inFlight.value);
    }
  }

  lemma {:induction false} AttemptLeavesLeader(k: Client, c: CallerId, result: AttemptResult, newTask: TaskId)
    requires SomebodyLeads(k) && OneRotation(k) && c in k.callers && k.callers[c].Attempting? && newTask !in k.tasks
    ensures SomebodyLeads(AfterAttempt(k, c, k.callers[c].n, result, newTask))
  {
    var k' := AfterAttempt(k, c, k.callers[c].n, result, newTask);
    if k'.inFlight == k.inFlight {
      hide SomebodyLeads;
      CallersChange(k, k', c);
    } else {
      assert k'.callers[c] == Leading(newTask);
    }
  }

  lemma {:induction false} ResumeLeavesLeader(k: Client, c: CallerId)
    requires SomebodyLeads(k) && OneRotation(k) && Awaits(k, c)
    ensures SomebodyLeads(Resume(k, c, k.callers[c].Leading?, k.tasks[k.callers[c].task].result))
  {
    if !k.callers[c].Leading? {
      CallersChange(k, Resume(k, c, false, k.tasks[k.callers[c].task].result), c);
    }
  }

  lemma {:induction false} AttemptsStayFew(s: System, e: Event)
    requires Enabled(s, e) && FewAttempts(s.client)
    ensures FewAttempts(Step(s, e).client)
  {
    hide Next, Handle;
  }

  function NewToken(r: Response): Option<Token> {
    match r
    case SignedIn(_, t, _) => Some(t)
    case Rotated(t) => Some(t)
    case Status(_) => None
  }

  predicate Redeems(req: Request, r: Response) {
    (req.Refresh? && r.Rotated?) || (req.RefreshCutShort? && r == Status(502))
  }

  /** The server's part of an event: what becomes redeemed is what is presented, and what it issues
      is new. */
  ghost predicate Moves(w: World, req: Request, r: Response, w': World) {
    && w.issued <= w'.issued
    && (forall t :: Redeemed(w, t) ==> Redeemed(w', t))
    && (forall t :: Redeemed(w', t) && !Redeemed(w, t) ==> Redeems(req, r) && t == req.token)
    && (NewToken(r).Some? ==>
          NewToken(r).value in w'.issued && NewToken(r).value !in w.issued && !Redeemed(w', NewToken(r).value))
    && (Redeems(req, r) ==> Redeemed(w', req.token))
    && (req.Refresh? && r.Rotated? ==> r.token.sub == req.token.sub)
  }

  lemma {:induction false} WorldMoves(w: World, req: Request)
    requires Inv(w) && AccountRuns.Fresh(w, req)
    ensures Inv(Next(w, req)) && Moves(w, req, Handle(w.db, req).response, Next(w, req))
  {
    hide Inv, Handle, Next;
    StepKeeps(w, req);
    StepExtends(w, req);
    IssuedIsNew(w, req);
    IssuedIsRecorded(w, req);
  }

  lemma {:induction false} IssuedIsRecorded(w: World, req: Request)
    ensures var r := Handle(w.db, req).response;
      && (NewToken(r).Some? ==> NewToken(r).value in Next(w, req).issued)
      && (Redeems(req, r) ==> Redeemed(Next(w, req), req.token))
      && (forall t :: Redeemed(Next(w, req), t) && !Redeemed(w, t) ==> Redeems(req, r) && t == req.token)
  {
    hide Handle;
  }

  lemma {:induction false} IssuedIsNew(w: World, req: Request)
    requires Inv(w) && AccountRuns.Fresh(w, req)
    ensures var r := Handle(w.db, req).response;
      && (NewToken(r).Some? ==> NewToken(r).value !in w.issued && !Redeemed(Next(w, req), NewToken(r).value))
      && (req.Refresh? && r.Rotated? ==> r.token.sub == req.token.sub)
  {
    hide FindByEmail, OneLivePerChain, RootsAgree, DeletedAreLockedOut;
  }

  lemma {:induction false} ClientStepsHold(s: System, e: Event)
    requires Enabled(s, e) && SystemInv(s)
    requires e.Send? || e.AttemptReturns? || e.CallerResumes? || e.ClientSignsOut?
    ensures TokensHeld(Step(s, e)) && TasksHeld(Step(s, e))
  {
    hide Inv, OneRotation, SomebodyLeads, FewAttempts, TokensHeld, TasksHeld, Step, Enabled;
    ClientStepsMove(s, e);
    HoldsAreKept(s, Step(s, e));
  }

  /** What the callers do: the store is emptied at most, and a new task at most is added. */
  lemma {:induction false} ClientStepsMove(s: System, e: Event)
    requires Enabled(s, e) && OneRotation(s.client)
    requires e.Send? || e.AttemptReturns? || e.CallerResumes? || e.ClientSignsOut?
    ensures OnlyCallersMove(s, Step(s, e))
  {
    hide Next, Handle;
  }

  ghost predicate OnlyCallersMove(s: System, s': System) {
    && s'.world == s.world && s'.stray == s.stray && s'.owned == s.owned
    && s'.exchanged == s.exchanged && s'.lost == s.lost
    && (s'.client.store == s.client.store || s'.client.store == None)
    && (forall task :: task in s'.client.tasks ==>
          (task in s.client.tasks && s'.client.tasks[task] == s.client.tasks[task]) || s'.client.tasks[task] == Created)
    && (forall task :: task in s.client.tasks && !s.client.tasks[task].Finished? && s.client.inFlight == Some(task) ==>
          s'.client.inFlight == s.client.inFlight && task in s'.client.tasks
          && s'.client.tasks[task] == s.client.tasks[task])
  }

  lemma {:induction false} HoldsAreKept(s: System, s': System)
    requires SystemInv(s) && OnlyCallersMove(s, s')
    ensures TokensHeld(s') && TasksHeld(s')
  {
    hide Inv, SomebodyLeads, FewAttempts;
  }

  lemma {:induction false} TaskStepsHold(s: System, e: Event)
    requires Enabled(s, e) && SystemInv(s)
    requires e.TaskStarts? || e.GaveUp? || e.AnswerArrives? || e.AnswerLost?
    ensures TokensHeld(Step(s, e)) && TasksHeld(Step(s, e))
  {
    hide Inv, FewAttempts, SomebodyLeads, Next, Handle;
  }

  lemma {:induction false} ServerAnswerHolds(s: System, e: Event)
    requires Enabled(s, e) && SystemInv(s) && e.ServerAnswers?
    ensures TokensHeld(Step(s, e)) && TasksHeld(Step(s, e))
  {
    hide Inv, FewAttempts, SomebodyLeads, Next, Handle;
    WorldMoves(s.world, Refresh(s.client.tasks[e.task].presented, e.jti));
  }

  lemma {:induction false} CutShortHolds(s: System, e: Event)
    requires Enabled(s, e) && SystemInv(s) && e.ServerCutShort?
    ensures TokensHeld(Step(s, e)) && TasksHeld(Step(s, e))
  {
    hide Inv, FewAttempts, SomebodyLeads, Next, Handle;
    var req := RefreshCutShort(s.client.tasks[e.task].presented);
    WorldMoves(s.world, req);
    CutShortIsStatus(s.world.db, req);
  }

  lemma {:induction false} LateRequestHolds(s: System, e: Event)
    requires Enabled(s, e) && SystemInv(s) && (e.LateRequest? || e.LateRequestCutShort?)
    ensures TokensHeld(Step(s, e)) && TasksHeld(Step(s, e))
  {
    hide SystemInv, TokensHeld, TasksHeld;
    LateRequestKeepsTokens(s, e);
    LateRequestKeepsTasks(s, e);
  }

  lemma {:induction false} LateRequestKeepsTokens(s: System, e: Event)
    requires Enabled(s, e) && SystemInv(s) && (e.LateRequest? || e.LateRequestCutShort?)
    ensures TokensHeld(Step(s, e))
  {
    hide Inv, FewAttempts, OneRotation, SomebodyLeads, TasksHeld, Next, Handle;
    var req := ClientRequest(s, e).value;
    WorldMoves(s.world, req);
    if e.LateRequestCutShort? { CutShortIsStatus(s.world.db, req); }
  }

  lemma {:induction false} LateRequestKeepsTasks(s: System, e: Event)
    requires Enabled(s, e) && SystemInv(s) && (e.LateRequest? || e.LateRequestCutShort?)
    ensures TasksHeld(Step(s, e))
  {
    hide Inv, FewAttempts, OneRotation, SomebodyLeads, Next, Handle;
    var req := ClientRequest(s, e).value;
    WorldMoves(s.world, req);
    if e.LateRequestCutShort? { CutShortIsStatus(s.world.db, req); }
  }

  lemma CutShortIsStatus(db: Db, req: Request)
    requires req.RefreshCutShort?
    ensures Handle(db, req).response.Status?
  {
  }

  lemma {:induction false} OthersHold(s: System, e: Event)
    requires Enabled(s, e) && SystemInv(s) && (e.ClientSignsIn? || e.OthersAct?)
    ensures TokensHeld(Step(s, e)) && TasksHeld(Step(s, e))
  {
    hide Inv, FewAttempts, SomebodyLeads, Next, Handle;
    WorldMoves(s.world, e.req);
  }

  lemma {:induction false} WorldStaysSafe(s: System, e: Event)
    requires Enabled(s, e) && Inv(s.world)
    ensures Inv(Step(s, e).world)
  {
    hide Inv, Next, Handle;
    match e
    case ServerAnswers(task, jti) => StepKeeps(s.world, Refresh(s.client.tasks[task].presented, jti));
    case ServerCutShort(task) => StepKeeps(s.world, RefreshCutShort(s.client.tasks[task].presented));
    case LateRequest(t, jti) => StepKeeps(s.world, Refresh(t, jti));
    case LateRequestCutShort(t) => StepKeeps(s.world, RefreshCutShort(t));
    case ClientSignsIn(req) => StepKeeps(s.world, req);
    case OthersAct(req) => StepKeeps(s.world, req);
    case _ =>
  }

  lemma {:induction false} EventKeeps(s: System, e: Event)
    requires Enabled(s, e) && SystemInv(s)
    ensures SystemInv(Step(s, e))
  {
    hide Inv, OneRotation, SomebodyLeads, FewAttempts, TokensHeld, TasksHeld, Step, Enabled;
    WorldStaysSafe(s, e);
    RotationStaysOne(s, e);
    SomebodyStillLeads(s, e);
    AttemptsStayFew(s, e);
    match e
    case ServerAnswers(_, _) => ServerAnswerHolds(s, e);
    case ServerCutShort(_) => CutShortHolds(s, e);
    case ClientSignsIn(_) => OthersHold(s, e);
    case OthersAct(_) => OthersHold(s, e);
    case TaskStarts(_) => TaskStepsHold(s, e);
    case GaveUp(_) => TaskStepsHold(s, e);
    case LateRequest(_, _) => LateRequestHolds(s, e);
    case LateRequestCutShort(_) => LateRequestHolds(s, e);
    case AnswerArrives(_) => TaskStepsHold(s, e);
    case AnswerLost(_) => TaskStepsHold(s, e);
    case _ => ClientStepsHold(s, e);
  }

  lemma {:induction false} RunKeepsSystem(s: System, events: seq<Event>)
    requires SystemInv(s) && EnabledRun(s, events)
    ensures SystemInv(Final(s, events))
    decreases |events|
  {
    hide SystemInv, Step, Enabled;
    if events != [] {
      EventKeeps(s, events[0]);
      RunKeepsSystem(Step(s, events[0]), events[1..]);
    }
  }

  // ---------------------------------------------------------------- what the client promises

  /** At any moment of any run at most one rotation is under way, however many callers wait, and no
      caller is past its second attempt. */
  lemma {:induction false} AtMostOneRotation(s: System, events: seq<Event>, a: TaskId, b: TaskId)
    requires SystemInv(s) && EnabledRun(s, events)
    requires var k := Final(s, events).client;
      a in k.tasks && b in k.tasks && !k.tasks[a].Finished? && !k.tasks[b].Finished?
    ensures a == b && FewAttempts(Final(s, events).client)
  {
    hide Final, EnabledRun;
    RunKeepsSystem(s, events);
  }

  /** The row of the token is there, unrevoked and unexpired. */
  predicate StillKnown(db: Db, t: Token) {
    t.genuine && db.now < t.exp && t in db.tokens && db.tokens[t].revokedAt == None
  }

  /** A request of the client is taken for a replay exactly if its row is still there, unrevoked and
      unexpired, and an earlier request with the same token was redeemed: in vain, if the client
      still waits for this one, or in any way, if it has given up on it. */
  lemma {:induction false} ReplayIff(s: System, e: Event)
    requires SystemInv(s) && Enabled(s, e) && ClientRequest(s, e).Some?
    ensures var req := ClientRequest(s, e).value;
      IsReplay(s.world.db, req) <==>
        StillKnown(s.world.db, req.token)
        && (req.token in s.lost || ((e.LateRequest? || e.LateRequestCutShort?) && req.token in s.exchanged))
  {
    hide OneLivePerChain, RootsAgree, DeletedAreLockedOut, RowsAgree, UsersAgree, OneRotation, SomebodyLeads,
         FewAttempts;
  }

  /** Presenting a token again right after its rotation was cut short is a replay exactly if the
      token was live. */
  lemma {:induction false} CutShortIsAReplayIff(s: System, task: TaskId, jti: nat)
    requires SystemInv(s) && Enabled(s, ServerCutShort(task))
    ensures var t := s.client.tasks[task].presented;
      IsReplay(Step(s, ServerCutShort(task)).world.db, Refresh(t, jti)) <==>
        t.genuine && s.world.db.now < t.exp && t in s.world.db.tokens && Live(s.world.db.tokens[t])
  {
    hide OneLivePerChain, RootsAgree, DeletedAreLockedOut, RowsAgree, UsersAgree, OneRotation, SomebodyLeads,
         FewAttempts;
  }

  /** The event redeems a token in vain, or may. */
  predicate MayWaste(e: Event) {
    e.AnswerLost? || e.ServerCutShort? || e.LateRequest? || e.LateRequestCutShort?
  }

  /** No answer is lost, no rotation cut short, and no request handled that the client gave up on. */
  ghost predicate AllAnswered(events: seq<Event>) {
    forall k :: 0 <= k < |events| ==> !MayWaste(events[k])
  }

  lemma {:induction false} NothingLost(s: System, events: seq<Event>)
    requires EnabledRun(s, events) && AllAnswered(events)
    ensures Final(s, events).lost == s.lost
    decreases |events|
  {
    hide Next, Handle;
    if events != [] {
      assert !MayWaste(events[0]);
      assert forall k :: 0 <= k < |events[1..]| ==> events[1..][k] == events[k + 1];
      NothingLost(Step(s, events[0]), events[1..]);
    }
  }

  /** While no rotation is cut short, every answer arrives and no request is handled that was given
      up, no request of this client is ever taken for a replay, whatever the callers, the sign-ins and
      sign-outs, and the rest of the world do meanwhile. */
  lemma {:induction false} NeverAReplay(s: System, events: seq<Event>, task: TaskId, jti: nat)
    requires SystemInv(s) && s.lost == {} && EnabledRun(s, events) && AllAnswered(events)
    requires Enabled(Final(s, events), ServerAnswers(task, jti))
    ensures !IsReplay(Final(s, events).world.db, Refresh(Final(s, events).client.tasks[task].presented, jti))
  {
    hide SystemInv, Final, EnabledRun, IsReplay, Step;
    RunKeepsSystem(s, events);
    NothingLost(s, events);
    ReplayIff(Final(s, events), ServerAnswers(task, jti));
  }

  /** The same from the very beginning: a client without tokens joins whatever empty tables have
      grown into. */
  lemma {:induction false} NeverAReplayFromStart(reqs: seq<Request>, events: seq<Event>, task: TaskId, jti: nat)
    requires FreshRun(EMPTY, reqs)
    requires EnabledRun(Start(After(EMPTY, reqs)), events) && AllAnswered(events)
    requires Enabled(Final(Start(After(EMPTY, reqs)), events), ServerAnswers(task, jti))
    ensures var f := Final(Start(After(EMPTY, reqs)), events);
      SystemInv(f) && !IsReplay(f.world.db, Refresh(f.client.tasks[task].presented, jti))
  {
    hide SystemInv, Final, EnabledRun, Enabled, IsReplay, After, FreshRun;
    var s := Start(After(EMPTY, reqs));
    ReachableIsSafe(reqs);
    StartIsSafe(After(EMPTY, reqs));
    RunKeepsSystem(s, events);
    NeverAReplay(s, events, task, jti);
  }

  // ---------------------------------------------------------------- how a send ends

  /** A `send` starts with an attempt exactly if there is a stored token; otherwise it ends signed out. */
  lemma StartOutcome(k: Client, c: CallerId)
    ensures var k' := StartSend(k, c);
      && c in k'.callers && k'.store == k.store && k'.inFlight == k.inFlight && k'.tasks == k.tasks
      && (k'.callers[c] == Attempting(1) <==> k.store.Some?)
      && (k'.callers[c] == Caller.Finished(0, SignedOut) <==> k.store == None)
  {
  }

  /** What an attempt leads to: the response unless it was a 401, a failure if there was none; the first
      401 waits for the shared rotation, and the second ends the session. */
  lemma AttemptOutcome(k: Client, c: CallerId, n: nat, result: AttemptResult, newTask: TaskId)
    requires 1 <= n <= 2
    ensures var k' := AfterAttempt(k, c, n, result, newTask);
      && c in k'.callers
      && (k'.callers[c] == Caller.Finished(n, Answer) <==> result == Ok)
      && (k'.callers[c] == Caller.Finished(n, Failed) <==> result == NetworkError)
      && (k'.callers[c] == Caller.Finished(n, SignedOut) <==> result == Unauthorized && n == 2)
      && (k'.callers[c].Leading? || k'.callers[c].Following? <==> result == Unauthorized && n == 1)
      && (result == Unauthorized && n == 1 ==>
            k'.inFlight == Some(k'.callers[c].task) && (k'.callers[c].Leading? <==> k.inFlight == None))
      && k'.store == if result == Unauthorized && n == 2 then None else k.store
  {
  }

  /** What a rotation comes to: without a stored token it is rejected at once, a new token is stored, only
      a 401 is a rejection, and without an answer or with any other there is no verdict; nothing but a
      new token changes the store. */
  lemma RotationOutcome(k: Client, task: TaskId, answer: Response)
    ensures var started := StartTask(k, task);
      && task in started.tasks && started.store == k.store
      && (k.store.Some? ==> started.tasks[task] == Waiting(k.store.value))
      && (k.store == None ==> started.tasks[task] == Task.Finished(Rejected))
    ensures var ended := FinishTask(k, task, answer);
      && task in ended.tasks && ended.tasks[task].Finished?
      && (answer.Rotated? ==> ended.tasks[task].result == Fresh(answer.token) && ended.store == Some(answer.token))
      && (ended.tasks[task].result == Rejected <==> answer == Status(401))
      && (ended.tasks[task].result == Transient <==> !answer.Rotated? && answer != Status(401))
      && (!answer.Rotated? ==> ended.store == k.store)
    ensures FailTask(k, task) == FinishTask(k, task, Status(502))
  {
  }

  /** What the end of a rotation means to a caller that waited: a new token is tried once, a rejection
      ends the session, and anything else is a failure that leaves it alone. */
  lemma ResumeOutcome(k: Client, c: CallerId, leading: bool, result: RefreshResult)
    ensures var k' := Resume(k, c, leading, result);
      && c in k'.callers
      && (k'.callers[c] == Attempting(2) <==> result.Fresh?)
      && (k'.callers[c] == Caller.Finished(1, SignedOut) <==> result == Rejected)
      && (k'.callers[c] == Caller.Finished(1, Failed) <==> result == Transient)
      && k'.store == if result == Rejected then None else k.store
  {
  }

  /** Nothing else moves a caller. */
  lemma {:induction false} OnlyOwnEvents(s: System, e: Event, c: CallerId)
    requires Enabled(s, e) && c in s.client.callers
    requires (e.AttemptReturns? || e.CallerResumes?) ==> e.c != c
    ensures c in Step(s, e).client.callers && Step(s, e).client.callers[c] == s.client.callers[c]
  {
    hide Next, Handle, SomebodyLeads;
    match e
    case Send(_) =>
    case AttemptReturns(_, _, _) =>
    case CallerResumes(_) =>
    case _ => CallersSame(s, e);
  }

  // ---------------------------------------------------------------- the rotation never wedges

  lemma {:induction false} RunCons(s: System, e: Event, rest: seq<Event>)
    requires Enabled(s, e) && EnabledRun(Step(s, e), rest)
    ensures EnabledRun(s, [e] + rest) && Final(s, [e] + rest) == Final(Step(s, e), rest)
  {
    hide Enabled, Step;
    assert ([e] + rest)[1..] == rest;
  }

  /** How many more events the shared rotation needs at most. */
  function EventsLeft(task: Task): nat {
    match task
    case Created => 3
    case Waiting(_) => 2
    case Answered(_, _) => 2
    case Finished(_) => 1
  }

  /** The client alone can always bring the shared rotation to its end and clear it, in at most three
      events: it starts, its request is answered or given up, and its starter resumes. */
  lemma {:induction false} NeverWedged(s: System) returns (events: seq<Event>)
    requires SystemInv(s) && s.client.inFlight.Some?
    ensures EnabledRun(s, events) && Final(s, events).client.inFlight == None
    ensures |events| <= EventsLeft(s.client.tasks[s.client.inFlight.value])
    ensures forall e :: e in events ==> e.TaskStarts? || e.GaveUp? || e.AnswerArrives? || e.CallerResumes?
    decreases EventsLeft(s.client.tasks[s.client.inFlight.value])
  {
    hide Inv, FewAttempts, TokensHeld, TasksHeld, Next, Handle;
    var task := s.client.inFlight.value;
    match s.client.tasks[task]
    case Finished(_) =>
      var c :| c in s.client.callers && s.client.callers[c] == Leading(task);
      events := [CallerResumes(c)];
      assert events[1..] == [];
    case Created =>
      events := NeverWedgedAfter(s, TaskStarts(task));
    case Waiting(_) =>
      events := NeverWedgedAfter(s, GaveUp(task));
    case Answered(_, _) =>
      events := NeverWedgedAfter(s, AnswerArrives(task));
  }

  lemma {:induction false} NeverWedgedAfter(s: System, e: Event) returns (events: seq<Event>)
    requires SystemInv(s) && s.client.inFlight.Some? && Enabled(s, e)
    requires e.TaskStarts? || e.GaveUp? || e.AnswerArrives?
    requires e.task == s.client.inFlight.value && e.task in s.client.tasks
    ensures EnabledRun(s, events) && Final(s, events).client.inFlight == None
    ensures |events| <= EventsLeft(s.client.tasks[e.task])
    ensures forall x :: x in events ==> x.TaskStarts? || x.GaveUp? || x.AnswerArrives? || x.CallerResumes?
    decreases EventsLeft(s.client.tasks[e.task]), 0
  {
    hide SystemInv, Next, Handle;
    EventKeeps(s, e);
    var s' := Step(s, e);
    assert s'.client.inFlight == s.client.inFlight && s'.client.tasks.Keys == s.client.tasks.Keys;
    assert EventsLeft(s'.client.tasks[e.task]) < EventsLeft(s.client.tasks[e.task]);
    var rest := NeverWedged(s');
    RunCons(s, e, rest);
    events := [e] + rest;
  }

  /** A caller that waits waits for a finished rotation, and can resume, or for the shared one. */
  lemma {:induction false} NobodyWaitsInVain(s: System, c: CallerId)
    requires SystemInv(s) && c in s.client.callers
    requires s.client.callers[c].Leading? || s.client.callers[c].Following?
    ensures Enabled(s, CallerResumes(c)) || s.client.inFlight == Some(s.client.callers[c].task)
  {
    hide Inv, FewAttempts, TokensHeld, TasksHeld;
  }
}
