/** The client's main-actor code between two suspension points, with its fields updated in place:
    the token store, the shared rotation and what every caller waits for. */
module RefreshActor {
  import opened Common
  import opened Accounts
  import opened RefreshClient

  class Actor {
    var store: Option<Token>
    var inFlight: Option<TaskId>
    var tasks: map<TaskId, Task>
    var callers: map<CallerId, Caller>

    ghost function State(): Client
      reads this
    {
      Client(store, inFlight, tasks, callers)
    }

    constructor ()
      ensures State() == Client(None, None, map[], map[])
    {
      store, inFlight, tasks, callers := None, None, map[], map[];
    }

    /** `send` up to the first request: without a stored token the session is over. */
    method Send(c: CallerId)
      modifies this
      ensures State() == StartSend(old(State()), c)
    {
      if store == None {
        callers := callers[c := Caller.Finished(0, SignedOut)];
        return;
      }
      callers := callers[c := Attempting(1)];
    }

    /** `send` after a request: the first 401 asks for a rotation, the second ends the session. */
    method AttemptReturned(c: CallerId, result: AttemptResult, newTask: TaskId)
      requires c in callers && callers[c].Attempting?
      modifies this
      ensures State() == AfterAttempt(old(State()), c, old(callers[c].n), result, newTask)
    {
      var n := callers[c].n;
      match result {
        case Ok =>
          callers := callers[c := Caller.Finished(n, Answer)];
        case NetworkError =>
          callers := callers[c := Caller.Finished(n, Failed)];
        case Unauthorized =>
          if n != 1 {
            store := None;
            callers := callers[c := Caller.Finished(n, SignedOut)];
            return;
          }
          Refresh(c, newTask);
      }
    }

    /** `refresh` up to its suspension. */
    method Refresh(c: CallerId, newTask: TaskId)
      modifies this
      ensures State() == JoinOrStart(old(State()), c, newTask)
    {
      if inFlight.Some? {
        callers := callers[c := Following(inFlight.value)];
        return;
      }
      tasks := tasks[newTask := Created];
      inFlight := Some(newTask);
      callers := callers[c := Leading(newTask)];
    }

    /** `performRefresh` up to its request. */
    method PerformRefresh(task: TaskId)
      modifies this`tasks
      ensures State() == StartTask(old(State()), task)
    {
      if store == None {
        tasks := tasks[task := Task.Finished(Rejected)];
        return;
      }
      tasks := tasks[task := Waiting(store.value)];
    }

    /** `performRefresh` with its answer. */
    method RefreshAnswered(task: TaskId, answer: Response)
      modifies this
      ensures State() == FinishTask(old(State()), task, answer)
    {
      if answer.Rotated? {
        store := Some(answer.token);
        tasks := tasks[task := Task.Finished(Fresh(answer.token))];
      } else if answer == Status(401) {
        tasks := tasks[task := Task.Finished(Rejected)];
      } else {
        tasks := tasks[task := Task.Finished(Transient)];
      }
    }

    /** `performRefresh` when its request fails without an answer. */
    method RefreshFailed(task: TaskId)
      modifies this`tasks
      ensures State() == FailTask(old(State()), task)
    {
      tasks := tasks[task := Task.Finished(Transient)];
    }

    /** `refresh` returning into `send`: the starter clears the shared rotation on every exit. */
    method Resumed(c: CallerId)
      requires Awaits(State(), c)
      modifies this
      ensures State() == Resume(old(State()), c, old(callers[c].Leading?), old(tasks[callers[c].task].result))
    {
      var result := tasks[callers[c].task].result;
      if callers[c].Leading? {
        inFlight := None;
      }
      match result {
        case Fresh(_) =>
          callers := callers[c := Attempting(2)];
        case Rejected =>
          store := None;
          callers := callers[c := Caller.Finished(1, SignedOut)];
        case Transient =>
          callers := callers[c := Caller.Finished(1, Failed)];
      }
    }
  }
}
