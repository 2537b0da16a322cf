/** The runtime state machine. */
module Runtime {

  datatype RuntimeState = Booting | WaitingForAgent | Idle | Acting | Degraded | Fault

  function AgentConnected(s: RuntimeState): RuntimeState { if s != Fault then Idle else s }
  function CommandStarted(s: RuntimeState): RuntimeState { if s == Idle then Acting else s }
  function CommandFinished(s: RuntimeState): RuntimeState { if s == Acting then Idle else s }
  function AgentDisconnected(s: RuntimeState): RuntimeState { if s != Fault then Degraded else s }

  class StateMachine {
    var state: RuntimeState

    constructor ()
      ensures state == Booting
    {
      state := Booting;
    }

    method BootFinished()
      modifies this
      ensures state == WaitingForAgent
    {
      state := WaitingForAgent;
    }

    method Connect()
      modifies this
      ensures state == AgentConnected(old(state))
    {
      if state != Fault { state := Idle; }
    }

    method StartCommand()
      modifies this
      ensures state == CommandStarted(old(state))
    {
      if state == Idle { state := Acting; }
    }

    method FinishCommand()
      modifies this
      ensures state == CommandFinished(old(state))
    {
      if state == Acting { state := Idle; }
    }

    method Disconnect()
      modifies this
      ensures state == AgentDisconnected(old(state))
    {
      if state != Fault { state := Degraded; }
    }

    method RaiseFault()
      modifies this
      ensures state == Fault
    {
      state := Fault;
    }
  }
}
