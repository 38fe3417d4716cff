/** contracts/agent-registry-v4.clar */
module AgentRegistry {
  import opened Clarity

  datatype Executor = Executor(active: bool, tag: string, registeredAt: nat, registeredBy: Principal)

  datatype State = State(executors: map<Principal, Executor>)

  predicate IsAuthorizedExecutor(s: State, who: Principal) {
    who in s.executors && s.executors[who].active
  }

  datatype Call =
    | RegisterExecutor(executor: Principal, tag: string)
    | RevokeExecutor(executor: Principal)
    | ReactivateExecutor(executor: Principal)

  function Executed(s: State, tx: Tx, admin: Principal, call: Call): Response<(State, nat)> {
    match call
    case RegisterExecutor(executor, tag) =>
      :- Asserts(tx.sender == admin, 500);
      :- Asserts(executor !in s.executors, 501);
      Ok((State(s.executors[executor := Executor(true, tag, tx.height, tx.sender)]), TRUE))
    case RevokeExecutor(executor) =>
      var entry :- Unwrap(Find(s.executors, executor), 502);
      :- Asserts(tx.sender == admin, 500);
      :- Asserts(entry.active, 503);
      Ok((State(s.executors[executor := entry.(active := false)]), TRUE))
    case ReactivateExecutor(executor) =>
      var entry :- Unwrap(Find(s.executors, executor), 502);
      :- Asserts(tx.sender == admin, 500);
      :- Asserts(!entry.active, 503);
      Ok((State(s.executors[executor := entry.(active := true)]), TRUE))
  }

  class Contract {
    var executors: map<Principal, Executor>

    ghost function View(): State
      reads this
    {
      State(executors)
    }

    constructor ()
      ensures View() == State(map[])
    {
      executors := map[];
    }

    method Register(tx: Tx, admin: Principal, executor: Principal, tag: string) returns (r: Response<nat>)
      modifies this
      ensures Agrees(Executed(old(View()), tx, admin, RegisterExecutor(executor, tag)), r, View())
    {
      if tx.sender != admin { return Err(500); }
      if executor in executors { return Err(501); }
      executors := executors[executor := Executor(true, tag, tx.height, tx.sender)];
      return Ok(TRUE);
    }

    method SetActive(tx: Tx, admin: Principal, executor: Principal, active: bool) returns (r: Response<nat>)
      modifies this
      ensures Agrees(Executed(old(View()), tx, admin,
                              if active then ReactivateExecutor(executor) else RevokeExecutor(executor)), r, View())
    {
      if executor !in executors { return Err(502); }
      if tx.sender != admin { return Err(500); }
      if executors[executor].active == active { return Err(503); }
      executors := executors[executor := executors[executor].(active := active)];
      return Ok(TRUE);
    }

    /** The runtime's undo. */
    method Assign(s: State)
      modifies this
      ensures View() == s
    {
      executors := s.executors;
    }
  }
}
