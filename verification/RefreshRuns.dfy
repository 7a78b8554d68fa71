/** Concrete runs of client and server in which a promise fails: what is excluded elsewhere happens. */
module RefreshRuns {
  import opened Common
  import opened Accounts
  import opened AccountRuns
  import opened AccountSafety
  import opened RefreshClient
  import opened RefreshSessions

  const MAIL := Email("a@example.com", "a@example.com")
  const T0 := Mint(7, 0, 0)
  const T1 := Mint(7, 1, 0)
  const USERS := map[7 := User(MAIL, None, Some(PasswordHash("secret", 0)), None, None)]

  const WORLD0 := World(Db(USERS, map[T0 := TokenRow(7, T0.exp, None, None)], map[], 0),
                        {T0}, map[T0 := T0], map[], {}, {}, {7})

  /** The world once `T0` is exchanged for `T1`. */
  const WORLD1 := World(
    Db(USERS, map[T0 := TokenRow(7, T0.exp, Some(0), None), T1 := TokenRow(7, T1.exp, None, None)], map[], 0),
    {T0, T1}, map[T0 := T0, T1 := T0], map[T0 := T1], {}, {}, {7})

  /** A signed-in client whose only caller was refused and has started a rotation. */
  const ROTATING := System(WORLD0, Client(Some(T0), Some(0), map[0 := Waiting(T0)], map[0 := Leading(0)]),
                           multiset{}, {T0}, {}, {})

  const ANSWERED := System(WORLD1,
    Client(Some(T0), Some(0), map[0 := Answered(T0, Rotated(T1))], map[0 := Leading(0)]),
    multiset{}, {T0, T1}, {T0}, {})

  lemma {:induction false} RotatingIsSafe()
    ensures SystemInv(ROTATING)
  {
    var s := ROTATING;
    assert s.client.callers[0] == Leading(0);
    assert TokensHeld(s) && TasksHeld(s);
  }

  /** The server exchanges `T0` in the world it started in. */
  lemma {:induction false} Exchanged()
    ensures AccountRuns.Fresh(WORLD0, Refresh(T0, 1))
    ensures Handle(WORLD0.db, Refresh(T0, 1)) == Effect(WORLD1.db, Rotated(T1))
    ensures Next(WORLD0, Refresh(T0, 1)) == WORLD1
  {
  }

  lemma {:induction false} FirstAnswer()
    ensures Enabled(ROTATING, ServerAnswers(0, 1)) && Step(ROTATING, ServerAnswers(0, 1)) == ANSWERED
  {
    hide Handle, Next;
    Exchanged();
  }

  lemma {:induction false} RunConcat(s: System, a: seq<Event>, b: seq<Event>)
    requires EnabledRun(s, a) && EnabledRun(Final(s, a), b)
    ensures EnabledRun(s, a + b) && Final(s, a + b) == Final(Final(s, a), b)
    decreases |a|
  {
    hide Step, Enabled;
    if a == [] {
      assert a + b == b;
    } else {
      assert (a + b)[1..] == a[1..] + b;
      RunConcat(Step(s, a[0]), a[1..], b);
    }
  }

  lemma {:induction false} RunOfTwo(s: System, a: Event, b: Event)
    requires Enabled(s, a) && Enabled(Step(s, a), b)
    ensures EnabledRun(s, [a, b]) && Final(s, [a, b]) == Step(Step(s, a), b)
  {
    hide Step, Enabled;
    assert [a, b][1..] == [b] && [b][1..] == [];
    assert EnabledRun(Step(s, a), [b]) && Final(Step(s, a), [b]) == Step(Step(s, a), b);
  }

  // ---------------------------------------------------------------- trying again

  /** The rotation failed without a verdict; the next caller starts another one. */
  const STALLED := Client(Some(T0), Some(0), map[0 := Task.Finished(Transient)], map[0 := Leading(0)])
  const IDLE := Client(Some(T0), None, map[0 := Task.Finished(Transient)], map[0 := Caller.Finished(1, Failed)])
  const SENDING := IDLE.(callers := IDLE.callers[1 := Attempting(1)])
  const RESTARTED := Client(Some(T0), Some(1), map[0 := Task.Finished(Transient), 1 := Created],
                            map[0 := Caller.Finished(1, Failed), 1 := Leading(1)])
  const RETRYING := RESTARTED.(tasks := RESTARTED.tasks[1 := Waiting(T0)])
  const RETRY := [CallerResumes(0), Send(1), AttemptReturns(1, Unauthorized, 1), TaskStarts(1)]

  lemma {:induction false} SendsAgain(s: System)
    requires s.client == STALLED
    ensures EnabledRun(s, [CallerResumes(0), Send(1)])
    ensures Final(s, [CallerResumes(0), Send(1)]) == s.(client := SENDING)
  {
    assert Awaits(s.client, 0);
    assert Step(s, CallerResumes(0)) == s.(client := IDLE);
    RunOfTwo(s, CallerResumes(0), Send(1));
  }

  lemma {:induction false} RotatesAgain(s: System)
    requires s.client == SENDING
    ensures EnabledRun(s, [AttemptReturns(1, Unauthorized, 1), TaskStarts(1)])
    ensures Final(s, [AttemptReturns(1, Unauthorized, 1), TaskStarts(1)]) == s.(client := RETRYING)
  {
    assert Step(s, AttemptReturns(1, Unauthorized, 1)) == s.(client := RESTARTED);
    RunOfTwo(s, AttemptReturns(1, Unauthorized, 1), TaskStarts(1));
  }

  lemma {:induction false} Retries(s: System)
    requires s.client == STALLED
    ensures EnabledRun(s, RETRY) && Final(s, RETRY) == s.(client := RETRYING)
  {
    hide Step, Enabled, EnabledRun, Final;
    SendsAgain(s);
    RotatesAgain(s.(client := SENDING));
    RunConcat(s, [CallerResumes(0), Send(1)], [AttemptReturns(1, Unauthorized, 1), TaskStarts(1)]);
    assert RETRY == [CallerResumes(0), Send(1)] + [AttemptReturns(1, Unauthorized, 1), TaskStarts(1)];
  }

  // ---------------------------------------------------------------- replays

  /** One lost answer, and the next rotation of an otherwise undisturbed client is a replay: the server
      revokes what the user holds. */
  lemma {:induction false} LostAnswerIsAReplay()
    ensures var run := [ServerAnswers(0, 1), AnswerLost(0)] + RETRY;
      && SystemInv(ROTATING) && EnabledRun(ROTATING, run)
      && Enabled(Final(ROTATING, run), ServerAnswers(1, 2))
      && Final(ROTATING, run).client.tasks[1].presented == T0
      && IsReplay(Final(ROTATING, run).world.db, Refresh(T0, 2))
  {
    hide *;
    RotatingIsSafe();
    var lost := LosesAnswer();
    Retries(lost);
    ReplayAgain(lost.(client := RETRYING));
    RunConcat(ROTATING, [ServerAnswers(0, 1), AnswerLost(0)], RETRY);
  }

  lemma {:induction false} LosesAnswer() returns (lost: System)
    ensures EnabledRun(ROTATING, [ServerAnswers(0, 1), AnswerLost(0)])
    ensures Final(ROTATING, [ServerAnswers(0, 1), AnswerLost(0)]) == lost
    ensures lost.world == WORLD1 && lost.client == STALLED
  {
    FirstAnswer();
    lost := ANSWERED.(client := STALLED, lost := {T0});
    assert Step(ANSWERED, AnswerLost(0)) == lost;
    RunOfTwo(ROTATING, ServerAnswers(0, 1), AnswerLost(0));
  }

  lemma {:induction false} ReplayAgain(s: System)
    requires s.world == WORLD1 && s.client == RETRYING
    ensures Enabled(s, ServerAnswers(1, 2)) && IsReplay(s.world.db, Refresh(T0, 2))
    ensures s.client.tasks[1].presented == T0
  {
  }

  const CAUGHT_UP := System(WORLD1,
    RETRYING.(store := Some(T1), tasks := RETRYING.tasks[1 := Task.Finished(Fresh(T1))]),
    multiset{T0}, {T0, T1}, {T0}, {})

  lemma {:induction false} SecondRotationArrives(s: System)
    requires s == ROTATING.(client := RETRYING, stray := multiset{T0})
    ensures EnabledRun(s, [ServerAnswers(1, 1), AnswerArrives(1)])
    ensures Final(s, [ServerAnswers(1, 1), AnswerArrives(1)]) == CAUGHT_UP
  {
    hide Handle, Next;
    Exchanged();
    assert Step(s, ServerAnswers(1, 1)).client == RETRYING.(tasks := RETRYING.tasks[1 := Answered(T0, Rotated(T1))]);
    RunOfTwo(s, ServerAnswers(1, 1), AnswerArrives(1));
  }

  /** A request the client gave up on is a replay when it arrives after the next rotation, although no
      answer was lost. */
  lemma {:induction false} LateRequestIsAReplay()
    ensures var run := [GaveUp(0)] + RETRY + [ServerAnswers(1, 1), AnswerArrives(1)];
      && SystemInv(ROTATING) && EnabledRun(ROTATING, run)
      && Final(ROTATING, run).lost == {}
      && Enabled(Final(ROTATING, run), LateRequest(T0, 2))
      && IsReplay(Final(ROTATING, run).world.db, Refresh(T0, 2))
  {
    hide *;
    RotatingIsSafe();
    var stalled := GivesUp();
    Retries(stalled);
    SecondRotationArrives(stalled.(client := RETRYING));
    LateReplay();
    RunConcat(ROTATING, [GaveUp(0)], RETRY);
    RunConcat(ROTATING, [GaveUp(0)] + RETRY, [ServerAnswers(1, 1), AnswerArrives(1)]);
  }

  lemma {:induction false} GivesUp() returns (stalled: System)
    ensures EnabledRun(ROTATING, [GaveUp(0)]) && Final(ROTATING, [GaveUp(0)]) == stalled
    ensures stalled == ROTATING.(client := STALLED, stray := multiset{T0})
  {
    stalled := ROTATING.(client := STALLED, stray := multiset{T0});
    assert Step(ROTATING, GaveUp(0)) == stalled;
    hide Step;
    assert [GaveUp(0)][1..] == [];
  }

  lemma {:induction false} LateReplay()
    ensures Enabled(CAUGHT_UP, LateRequest(T0, 2)) && IsReplay(CAUGHT_UP.world.db, Refresh(T0, 2))
    ensures CAUGHT_UP.lost == {}
  {
  }

  // ---------------------------------------------------------------- sessions that change meanwhile

  const OTHER_MAIL := Email("b@example.com", "b@example.com")

  /** Somebody else signs up on the same phone. */
  const SIGNUP := Signup(OTHER_MAIL, "other", None, None, 8, 0, 8)
  const T8 := Mint(8, 8, 0)

  lemma {:induction false} SignupSucceeds(s: System)
    requires s.world.db.now == 0 && AccountRuns.Fresh(s.world, SIGNUP)
    requires forall id :: id in s.world.db.users ==> !SameEmail(s.world.db.users[id].email, OTHER_MAIL)
    ensures Enabled(s, ClientSignsIn(SIGNUP)) && ChangesSession(s, ClientSignsIn(SIGNUP))
    ensures Step(s, ClientSignsIn(SIGNUP)).client == s.client.(store := Some(T8))
  {
    FoundByEmail(s.world.db.users, OTHER_MAIL);
    hide Next;
  }

  /** The answer arrives and the starter resumes. */
  lemma {:induction false} Arrives(s: System, answer: Response)
    requires s.client.tasks == map[0 := Answered(T0, answer)]
    requires s.client.inFlight == Some(0) && s.client.callers == map[0 := Leading(0)]
    requires answer == Rotated(T1) || answer == Status(401)
    ensures EnabledRun(s, [AnswerArrives(0), CallerResumes(0)])
    ensures var f := Final(s, [AnswerArrives(0), CallerResumes(0)]);
      && f.world == s.world && f.owned == s.owned
      && f.client.store == (if answer == Rotated(T1) then Some(T1) else None)
      && f.client.callers == map[0 := if answer == Rotated(T1) then Attempting(2) else Caller.Finished(1, SignedOut)]
      && f.client.tasks.Keys == {0}
  {
    hide Handle, Next;
    var s1 := Step(s, AnswerArrives(0));
    assert Awaits(s1.client, 0);
    RunOfTwo(s, AnswerArrives(0), CallerResumes(0));
  }

  /** A sign-out is undone by the answer that was under way. */
  lemma {:induction false} SignOutIsUndone()
    ensures var run := [ServerAnswers(0, 1), ClientSignsOut] + [AnswerArrives(0), CallerResumes(0)];
      EnabledRun(ROTATING, run) && Final(ROTATING, run).client.store == Some(T1)
  {
    hide *;
    var s := SignedOutMeanwhile();
    Arrives(s, Rotated(T1));
    RunConcat(ROTATING, [ServerAnswers(0, 1), ClientSignsOut], [AnswerArrives(0), CallerResumes(0)]);
  }

  lemma {:induction false} SignedOutMeanwhile() returns (s: System)
    ensures EnabledRun(ROTATING, [ServerAnswers(0, 1), ClientSignsOut])
    ensures s == Final(ROTATING, [ServerAnswers(0, 1), ClientSignsOut])
    ensures s.client == Client(None, Some(0), map[0 := Answered(T0, Rotated(T1))], map[0 := Leading(0)])
  {
    hide Handle, Next;
    FirstAnswer();
    s := Step(ANSWERED, ClientSignsOut);
    RunOfTwo(ROTATING, ServerAnswers(0, 1), ClientSignsOut);
  }

  /** User 8 signs in, and ends up holding user 7's token. */
  lemma {:induction false} SignInIsOverwritten()
    ensures var run := [ServerAnswers(0, 1), ClientSignsIn(SIGNUP)] + [AnswerArrives(0), CallerResumes(0)];
      EnabledRun(ROTATING, run) && Final(ROTATING, run).client.store == Some(T1) && T1.sub == 7
  {
    hide *;
    var s := SignedInMeanwhile();
    Arrives(s, Rotated(T1));
    RunConcat(ROTATING, [ServerAnswers(0, 1), ClientSignsIn(SIGNUP)], [AnswerArrives(0), CallerResumes(0)]);
  }

  lemma {:induction false} SignedInMeanwhile() returns (s: System)
    ensures EnabledRun(ROTATING, [ServerAnswers(0, 1), ClientSignsIn(SIGNUP)])
    ensures s == Final(ROTATING, [ServerAnswers(0, 1), ClientSignsIn(SIGNUP)])
    ensures s.client == Client(Some(T8), Some(0), map[0 := Answered(T0, Rotated(T1))], map[0 := Leading(0)])
    ensures T1.sub == 7
  {
    hide Handle, Next;
    FirstAnswer();
    SignupSucceeds(ANSWERED);
    s := Step(ANSWERED, ClientSignsIn(SIGNUP));
    RunOfTwo(ROTATING, ServerAnswers(0, 1), ClientSignsIn(SIGNUP));
  }

  /** The account is deleted elsewhere; the rotation is rejected, and the sign-in made meanwhile is
      signed out with it. */
  lemma {:induction false} SignInIsRejected()
    ensures var run := [OthersAct(DeleteMe(7)), ServerAnswers(0, 1)]
                       + ([ClientSignsIn(SIGNUP)] + [AnswerArrives(0), CallerResumes(0)]);
      EnabledRun(ROTATING, run) && Final(ROTATING, run).client.store == None
  {
    hide *;
    var refused := RefusedMeanwhile();
    SignedInThenRejected(refused);
    RunConcat(ROTATING, [OthersAct(DeleteMe(7)), ServerAnswers(0, 1)],
              [ClientSignsIn(SIGNUP)] + [AnswerArrives(0), CallerResumes(0)]);
  }

  lemma {:induction false} RefusedMeanwhile() returns (refused: System)
    ensures EnabledRun(ROTATING, [OthersAct(DeleteMe(7)), ServerAnswers(0, 1)])
    ensures refused == Final(ROTATING, [OthersAct(DeleteMe(7)), ServerAnswers(0, 1)])
    ensures refused.client == ROTATING.client.(tasks := map[0 := Answered(T0, Status(401))])
    ensures Enabled(refused, ClientSignsIn(SIGNUP))
    ensures Step(refused, ClientSignsIn(SIGNUP)).client == refused.client.(store := Some(T8))
  {
    RefusedAfterDelete();
    hide Step, Enabled, Handle, Next;
    refused := Step(Step(ROTATING, OthersAct(DeleteMe(7))), ServerAnswers(0, 1));
    RunOfTwo(ROTATING, OthersAct(DeleteMe(7)), ServerAnswers(0, 1));
    SignupSucceeds(refused);
  }

  lemma {:induction false} SignedInThenRejected(s: System)
    requires s.client == ROTATING.client.(tasks := map[0 := Answered(T0, Status(401))])
    requires Enabled(s, ClientSignsIn(SIGNUP)) && Step(s, ClientSignsIn(SIGNUP)).client == s.client.(store := Some(T8))
    ensures EnabledRun(s, [ClientSignsIn(SIGNUP)] + [AnswerArrives(0), CallerResumes(0)])
    ensures Final(s, [ClientSignsIn(SIGNUP)] + [AnswerArrives(0), CallerResumes(0)]).client.store == None
  {
    hide Step, Enabled, EnabledRun, Final;
    Arrives(Step(s, ClientSignsIn(SIGNUP)), Status(401));
    RunCons(s, ClientSignsIn(SIGNUP), [AnswerArrives(0), CallerResumes(0)]);
  }

  lemma {:induction false} RefusedAfterDelete()
    ensures Enabled(ROTATING, OthersAct(DeleteMe(7)))
    ensures var s1 := Step(ROTATING, OthersAct(DeleteMe(7)));
      Enabled(s1, ServerAnswers(0, 1)) &&
      var s2 := Step(s1, ServerAnswers(0, 1));
      && s2.client == ROTATING.client.(tasks := map[0 := Answered(T0, Status(401))])
      && s2.world.db.now == 0 && s2.world.issued == {T0} && s2.world.ids == {7}
      && s2.world.db.users.Keys == {7} && s2.world.db.users[7].email == MAIL
  {
    var req := DeleteMe(7);
    var revoked := TokenRow(7, T0.exp, None, Some(0));
    var deleted := USERS[7].(deletedAt := Some(0));
    var db := Db(map[7 := deleted], map[T0 := revoked], map[], 0);
    assert Handle(WORLD0.db, req) == Effect(db, Status(204));
    assert Next(WORLD0, req) == WORLD0.(db := db);
    assert Handle(db, Refresh(T0, 1)) == Effect(db, Status(401));
  }

  /** The rotated access token is refused as well; the `send` that waited for it signs out the user who
      has signed in since. */
  lemma {:induction false} SecondRefusalSignsOut()
    ensures var run := [ServerAnswers(0, 1)]
                       + ([AnswerArrives(0), CallerResumes(0)]
                          + [ClientSignsIn(SIGNUP), AttemptReturns(0, Unauthorized, 1)]);
      EnabledRun(ROTATING, run) && Final(ROTATING, run).client.store == None
  {
    hide *;
    var s := RotatedAndResumed();
    RefusedAgain(s);
    FirstAnswer();
    var back := [AnswerArrives(0), CallerResumes(0)];
    RunConcat(ANSWERED, back, [ClientSignsIn(SIGNUP), AttemptReturns(0, Unauthorized, 1)]);
    RunCons(ROTATING, ServerAnswers(0, 1), back + [ClientSignsIn(SIGNUP), AttemptReturns(0, Unauthorized, 1)]);
  }

  lemma {:induction false} RotatedAndResumed() returns (s: System)
    ensures EnabledRun(ANSWERED, [AnswerArrives(0), CallerResumes(0)])
    ensures s == Final(ANSWERED, [AnswerArrives(0), CallerResumes(0)])
    ensures s.client.callers == map[0 := Attempting(2)] && s.client.tasks.Keys == {0}
    ensures Enabled(s, ClientSignsIn(SIGNUP)) && Step(s, ClientSignsIn(SIGNUP)).client == s.client.(store := Some(T8))
  {
    Arrives(ANSWERED, Rotated(T1));
    hide Step, Enabled, EnabledRun, Final, Handle, Next;
    s := Final(ANSWERED, [AnswerArrives(0), CallerResumes(0)]);
    SignupSucceeds(s);
  }

  lemma {:induction false} RefusedAgain(s: System)
    requires Enabled(s, ClientSignsIn(SIGNUP)) && Step(s, ClientSignsIn(SIGNUP)).client == s.client.(store := Some(T8))
    requires s.client.callers == map[0 := Attempting(2)] && s.client.tasks.Keys == {0}
    ensures EnabledRun(s, [ClientSignsIn(SIGNUP), AttemptReturns(0, Unauthorized, 1)])
    ensures Final(s, [ClientSignsIn(SIGNUP), AttemptReturns(0, Unauthorized, 1)]).client.store == None
  {
    hide Handle, Next;
    RunOfTwo(s, ClientSignsIn(SIGNUP), AttemptReturns(0, Unauthorized, 1));
  }
}
