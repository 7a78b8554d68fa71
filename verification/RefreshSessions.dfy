/** What becomes of a sign-in or a sign-out that happens while a rotation is under way, seen when
    everybody who waited for that rotation has resumed. */
module RefreshSessions {
  import opened Common
  import opened Accounts
  import opened AccountRuns
  import opened AccountSafety
  import opened RefreshClient

  /** The user signs out, or signs in as somebody. */
  ghost predicate ChangesSession(s: System, e: Event)
    requires Enabled(s, e)
  {
    e.ClientSignsOut? || (e.ClientSignsIn? && Handle(s.world.db, e.req).response.SignedIn?)
  }

  /** The request with `t` is on its way, or its answer is. */
  predicate UnderWay(k: Client, task: TaskId, t: Token) {
    task in k.tasks && (k.tasks[task] == Waiting(t) || (k.tasks[task].Answered? && k.tasks[task].presented == t))
  }

  /** The rotation is over and everybody who waited for it has resumed. */
  ghost predicate Settled(k: Client, task: TaskId) {
    && task in k.tasks && k.tasks[task].Finished?
    && forall c :: c in k.callers && (k.callers[c].Leading? || k.callers[c].Following?) ==> k.callers[c].task != task
  }

  /** The event is no further change of the session, starts no later rotation, and is not the end of
      another one or of a second attempt that was refused. */
  ghost predicate Undisturbed(s: System, e: Event, task: TaskId)
    requires Enabled(s, e)
  {
    match e
    case ClientSignsIn(_) => !ChangesSession(s, e)
    case ClientSignsOut => false
    case TaskStarts(_) => false
    case CallerResumes(c) => s.client.callers[c].task == task
    case AttemptReturns(c, result, _) => result.Unauthorized? ==> s.client.callers[c].n == 1
    case _ => true
  }

  ghost predicate UndisturbedRun(s: System, events: seq<Event>, task: TaskId)
    requires EnabledRun(s, events)
    decreases |events|
  {
    events == [] || (Undisturbed(s, events[0], task) && UndisturbedRun(Step(s, events[0]), events[1..], task))
  }

  ghost predicate Led(k: Client, task: TaskId) {
    exists c :: c in k.callers && k.callers[c] == Leading(task)
  }

  /** How the store follows the rotation of `t` from the moment it held `kept`. */
  ghost predicate Follows(s: System, task: TaskId, t: Token, kept: Option<Token>) {
    && task in s.client.tasks
    && (forall other :: other in s.client.tasks && other != task ==>
          s.client.tasks[other].Finished? || s.client.tasks[other].Created?)
    && (kept.Some? ==> kept.value in s.owned)
    && match s.client.tasks[task]
       case Created => false
       case Waiting(presented) => presented == t && s.client.store == kept
       case Answered(presented, answer) =>
         presented == t && s.client.store == kept
         && (answer.Rotated? ==> answer.token.sub == t.sub && kept != Some(answer.token))
       case Finished(Fresh(next)) => s.client.store == Some(next) && next.sub == t.sub && kept != Some(next)
       case Finished(Rejected) => s.client.store == None || (s.client.store == kept && Led(s.client, task))
       case Finished(Transient) => s.client.store == kept
  }

  // ---------------------------------------------------------------- preservation

  lemma {:induction false} AnswerFollows(s: System, e: Event, task: TaskId, t: Token, kept: Option<Token>)
    requires SystemInv(s) && Enabled(s, e) && Follows(s, task, t, kept) && (e.ServerAnswers? || e.ServerCutShort?)
    ensures Follows(Step(s, e), task, t, kept)
  {
    hide Inv, OneRotation, SomebodyLeads, FewAttempts, Led, Next, Handle;
    var req := ClientRequest(s, e).value;
    WorldMoves(s.world, req);
    if e.ServerCutShort? { CutShortIsStatus(s.world.db, req); }
  }

  lemma {:induction false} ArrivalFollows(s: System, e: Event, task: TaskId, t: Token, kept: Option<Token>)
    requires SystemInv(s) && Enabled(s, e) && Follows(s, task, t, kept)
    requires e.GaveUp? || e.AnswerArrives? || e.AnswerLost?
    ensures Follows(Step(s, e), task, t, kept)
  {
    hide Inv, FewAttempts, TokensHeld, TasksHeld, Next, Handle;
    assert e.task == task && s.client.inFlight == Some(task);
    assert Led(s.client, task);
    assert Step(s, e).client.callers == s.client.callers;
  }

  lemma {:induction false} CallerFollows(s: System, e: Event, task: TaskId, t: Token, kept: Option<Token>)
    requires SystemInv(s) && Enabled(s, e) && Follows(s, task, t, kept) && Undisturbed(s, e, task)
    requires e.Send? || e.AttemptReturns? || e.CallerResumes?
    ensures Follows(Step(s, e), task, t, kept)
  {
    hide Inv, TokensHeld, TasksHeld, SomebodyLeads, Next, Handle;
    if e.CallerResumes? {
      assert s.client.tasks[task].Finished?;
    } else if Led(s.client, task) {
      var c :| c in s.client.callers && s.client.callers[c] == Leading(task);
      assert Step(s, e).client.callers[c] == Leading(task);
    }
  }

  lemma {:induction false} WorldFollows(s: System, e: Event, task: TaskId, t: Token, kept: Option<Token>)
    requires SystemInv(s) && Enabled(s, e) && Follows(s, task, t, kept) && Undisturbed(s, e, task)
    requires e.LateRequest? || e.LateRequestCutShort? || e.OthersAct? || e.ClientSignsIn?
    ensures Follows(Step(s, e), task, t, kept)
  {
    hide Inv, OneRotation, SomebodyLeads, FewAttempts, TokensHeld, TasksHeld, Next, Handle;
    assert Step(s, e).client == s.client && s.owned <= Step(s, e).owned;
  }

  lemma {:induction false} StepFollows(s: System, e: Event, task: TaskId, t: Token, kept: Option<Token>)
    requires SystemInv(s) && Enabled(s, e) && Follows(s, task, t, kept) && Undisturbed(s, e, task)
    ensures Follows(Step(s, e), task, t, kept)
  {
    hide SystemInv, Step, Enabled, Follows;
    if e.ServerAnswers? || e.ServerCutShort? {
      AnswerFollows(s, e, task, t, kept);
    } else if e.GaveUp? || e.AnswerArrives? || e.AnswerLost? {
      ArrivalFollows(s, e, task, t, kept);
    } else if e.Send? || e.AttemptReturns? || e.CallerResumes? {
      CallerFollows(s, e, task, t, kept);
    } else {
      WorldFollows(s, e, task, t, kept);
    }
  }

  lemma {:induction false} RunFollows(s: System, events: seq<Event>, task: TaskId, t: Token, kept: Option<Token>)
    requires SystemInv(s) && EnabledRun(s, events) && UndisturbedRun(s, events, task) && Follows(s, task, t, kept)
    ensures Follows(Final(s, events), task, t, kept)
    decreases |events|
  {
    hide SystemInv, Step, Enabled, Follows, Undisturbed;
    if events != [] {
      EventKeeps(s, events[0]);
      StepFollows(s, events[0], task, t, kept);
      RunFollows(Step(s, events[0]), events[1..], task, t, kept);
    }
  }

  /** When the rotation is settled the store holds its new token, nothing if it was rejected, or what
      it held before if no verdict came. */
  lemma {:induction false} SettledStore(s: System, task: TaskId, t: Token, kept: Option<Token>)
    requires Follows(s, task, t, kept) && Settled(s.client, task)
    ensures match s.client.tasks[task].result
      case Fresh(next) => s.client.store == Some(next) && next.sub == t.sub && kept != Some(next)
      case Rejected => s.client.store == None
      case Transient => s.client.store == kept
  {
  }

  // ---------------------------------------------------------------- a change during the rotation

  lemma {:induction false} ChangeFollows(s: System, change: Event, task: TaskId, t: Token)
    requires SystemInv(s) && Enabled(s, change) && ChangesSession(s, change) && UnderWay(s.client, task, t)
    ensures Follows(Step(s, change), task, t, Step(s, change).client.store)
    ensures change.ClientSignsOut? <==> Step(s, change).client.store == None
  {
    hide Inv, FewAttempts, SomebodyLeads, Next, Handle;
    if change.ClientSignsIn? { WorldMoves(s.world, change.req); }
  }

  /** A sign-out made while the request of a rotation or its answer is under way stands exactly if the
      answer is no new token. A sign-in stands exactly if there is no verdict at all: a new token
      overwrites it with the previous session's, and a rejection signs it out, whoever signed in. */
  lemma {:induction false} SessionChangeStandsIff(s: System, change: Event, task: TaskId, t: Token, events: seq<Event>)
    requires SystemInv(s) && Enabled(s, change) && ChangesSession(s, change) && UnderWay(s.client, task, t)
    requires EnabledRun(Step(s, change), events) && UndisturbedRun(Step(s, change), events, task)
    requires Settled(Final(Step(s, change), events).client, task)
    ensures var s1, f := Step(s, change), Final(Step(s, change), events);
      var result := f.client.tasks[task].result;
      && (change.ClientSignsOut? ==> (f.client.store == s1.client.store <==> !result.Fresh?))
      && (change.ClientSignsIn? ==> (f.client.store == s1.client.store <==> result.Transient?))
      && (result.Fresh? ==> f.client.store == Some(result.token) && result.token.sub == t.sub)
      && (result.Rejected? ==> f.client.store == None)
  {
    hide SystemInv, Step, Enabled, EnabledRun, UndisturbedRun, Final, Follows, Settled, UnderWay;
    var s1 := Step(s, change);
    EventKeeps(s, change);
    ChangeFollows(s, change, task, t);
    RunFollows(s1, events, task, t, s1.client.store);
    SettledIsFinished(Final(s1, events).client, task);
    SettledStore(Final(s1, events), task, t, s1.client.store);
  }

  lemma SettledIsFinished(k: Client, task: TaskId)
    requires Settled(k, task)
    ensures task in k.tasks && k.tasks[task].Finished?
  {
  }

  /** A rotation that has not started when the session changes rotates the new session: it ends with a
      token of the user who is signed in, unless it is rejected. */
  lemma {:induction false} UnstartedRotationFollows(s: System, task: TaskId, events: seq<Event>)
    requires SystemInv(s) && Enabled(s, TaskStarts(task)) && s.client.store.Some?
    requires EnabledRun(Step(s, TaskStarts(task)), events)
    requires UndisturbedRun(Step(s, TaskStarts(task)), events, task)
    requires Settled(Final(Step(s, TaskStarts(task)), events).client, task)
    ensures var f := Final(Step(s, TaskStarts(task)), events);
      && (f.client.tasks[task].result.Rejected? <==> f.client.store == None)
      && (f.client.store.Some? ==> f.client.store.value.sub == s.client.store.value.sub)
  {
    hide SystemInv, Step, Enabled, EnabledRun, UndisturbedRun, Final, Follows, Settled;
    var s1, t := Step(s, TaskStarts(task)), s.client.store.value;
    EventKeeps(s, TaskStarts(task));
    StartFollows(s, task);
    RunFollows(s1, events, task, t, Some(t));
    SettledIsFinished(Final(s1, events).client, task);
    SettledStore(Final(s1, events), task, t, Some(t));
  }

  lemma {:induction false} StartFollows(s: System, task: TaskId)
    requires SystemInv(s) && Enabled(s, TaskStarts(task)) && s.client.store.Some?
    ensures Follows(Step(s, TaskStarts(task)), task, s.client.store.value, s.client.store)
  {
    hide Inv, FewAttempts, SomebodyLeads, Next, Handle;
  }

  // ---------------------------------------------------------------- older requests

  /** An older `send` whose second attempt comes back after the session has changed: the change stands
      unless that attempt is refused, and then only a sign-out does. */
  lemma {:induction false} SecondAttemptStandsIff(s: System, change: Event, c: CallerId, result: AttemptResult,
                                                  newTask: TaskId)
    requires Enabled(s, change) && ChangesSession(s, change) && Enabled(s, AttemptReturns(c, result, newTask))
    requires s.client.callers[c].n == 2
    ensures Enabled(Step(s, change), AttemptReturns(c, result, newTask))
    ensures var s1 := Step(s, change);
      Step(s1, AttemptReturns(c, result, newTask)).client.store == s1.client.store <==>
        (result != Unauthorized || change.ClientSignsOut?)
  {
    hide Next, Handle;
  }

  /** The same for a caller that still waits for an earlier rotation when the session changes. */
  lemma {:induction false} OlderWaiterStandsIff(s: System, change: Event, c: CallerId)
    requires Enabled(s, change) && ChangesSession(s, change) && Enabled(s, CallerResumes(c))
    ensures Enabled(Step(s, change), CallerResumes(c))
    ensures var s1 := Step(s, change);
      Step(s1, CallerResumes(c)).client.store == s1.client.store <==>
        (!s.client.tasks[s.client.callers[c].task].result.Rejected? || change.ClientSignsOut?)
  {
    hide Next, Handle;
  }
}
