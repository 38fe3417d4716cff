/** contracts/sovereignty-protocol-admin-v4.clar */
module ProtocolAdmin {
  import opened Clarity

  datatype State = State(admin: Principal, pendingAdmin: Option<Principal>, paused: bool)

  datatype Call =
    | ProposeAdmin(newAdmin: Principal)
    | AcceptAdmin
    | PauseProtocol
    | UnpauseProtocol

  function Executed(s: State, tx: Tx, call: Call): Response<(State, nat)> {
    match call
    case ProposeAdmin(newAdmin) =>
      :- Asserts(tx.sender == s.admin, 600);
      :- Asserts(newAdmin != s.admin, 604);
      Ok((s.(pendingAdmin := Some(newAdmin)), TRUE))
    case AcceptAdmin =>
      :- Asserts(s.pendingAdmin.Some?, 601);
      :- Asserts(s.pendingAdmin == Some(tx.sender), 600);
      Ok((s.(admin := tx.sender, pendingAdmin := None), TRUE))
    case PauseProtocol =>
      :- Asserts(tx.sender == s.admin, 600);
      :- Asserts(!s.paused, 602);
      Ok((s.(paused := true), TRUE))
    case UnpauseProtocol =>
      :- Asserts(tx.sender == s.admin, 600);
      :- Asserts(s.paused, 603);
      Ok((s.(paused := false), TRUE))
  }

  class Contract {
    var admin: Principal
    var pendingAdmin: Option<Principal>
    var paused: bool

    ghost function View(): State
      reads this
    {
      State(admin, pendingAdmin, paused)
    }

    constructor (deployer: Principal)
      ensures View() == State(deployer, None, false)
    {
      admin, pendingAdmin, paused := deployer, None, false;
    }

    method Propose(tx: Tx, newAdmin: Principal) returns (r: Response<nat>)
      modifies this
      ensures Agrees(Executed(old(View()), tx, ProposeAdmin(newAdmin)), r, View())
    {
      if tx.sender != admin { return Err(600); }
      if newAdmin == admin { return Err(604); }
      pendingAdmin := Some(newAdmin);
      return Ok(TRUE);
    }

    method Accept(tx: Tx) returns (r: Response<nat>)
      modifies this
      ensures Agrees(Executed(old(View()), tx, AcceptAdmin), r, View())
    {
      if pendingAdmin.None? { return Err(601); }
      if Some(tx.sender) != pendingAdmin { return Err(600); }
      admin := tx.sender;
      pendingAdmin := None;
      return Ok(TRUE);
    }

    method SetPaused(tx: Tx, pause: bool) returns (r: Response<nat>)
      modifies this
      ensures Agrees(Executed(old(View()), tx, if pause then PauseProtocol else UnpauseProtocol), r, View())
    {
      if tx.sender != admin { return Err(600); }
      if paused == pause { return Err(if pause then 602 else 603); }
      paused := pause;
      return Ok(TRUE);
    }

    /** The runtime's undo. */
    method Assign(s: State)
      modifies this
      ensures View() == s
    {
      admin, pendingAdmin, paused := s.admin, s.pendingAdmin, s.paused;
    }
  }
}
