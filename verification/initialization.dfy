/**
 Selection of the state a run starts from. The inputs are the caller's
 reset flag, whether the network is configured as a fork, the state file of
 the target network (if any) and the state file of the fork's original
 network (if any). A reset deletes the target's folder first, so the
 stored file is then ignored.
 */
module Initialization {
  import opened Wrappers
  import opened Types

  datatype InitResult =
    | Ready(initialState: SystemState, writes: seq<SystemState>)
      /** The fork's original network has no state file: the process exits
          before anything else happens. */
    | MissingForkSource

  /** The initial state and the writes made while choosing it. */
  function SelectInitialState(reset: bool, isFork: bool, stored: Option<SystemState>, forkSource: Option<SystemState>): (r: InitResult)
    ensures r.MissingForkSource? <==> reset && isFork && forkSource.None?
    // reset with fork: the original network's state is copied in and written
    ensures reset && isFork && forkSource.Some? ==> r == Ready(forkSource.value, [forkSource.value])
    // no state file (or a reset without fork): the default state is written
    ensures !(reset && isFork) && (reset || stored.None?) ==> r == Ready(DefaultState, [DefaultState])
    // an existing state file is used as it is, and nothing is written
    ensures !reset && stored.Some? ==> r == Ready(stored.value, [])
  {
    var stateFile := if reset then None else stored;
    var state :=
      if reset && isFork then forkSource
      else Some(DefaultState);
    if state.None? then MissingForkSource
    else if stateFile.None? then Ready(state.value, [state.value])
    else Ready(stateFile.value, [])
  }

  /** The state file after initialisation: the last state written, or what
      was stored before (nothing, after a reset). The exit path writes
      nothing. */
  function StoredAfter(reset: bool, stored: Option<SystemState>, r: InitResult): Option<SystemState> {
    var writes := if r.Ready? then r.writes else [];
    if |writes| > 0 then Some(writes[|writes| - 1]) else if reset then None else stored
  }

  /** The exit for want of the fork's source state comes after the reset
      has deleted the target's folder, so no state file is left. */
  lemma ForkExitLeavesNoStateFile(reset: bool, isFork: bool, stored: Option<SystemState>, forkSource: Option<SystemState>)
    requires SelectInitialState(reset, isFork, stored, forkSource).MissingForkSource?
    ensures StoredAfter(reset, stored, SelectInitialState(reset, isFork, stored, forkSource)) == None
  {
  }

  /** Whatever the inputs, a run that starts goes on from exactly what is
      then stored, and starting again without reset changes nothing. */
  lemma InitialStateIsPersisted(reset: bool, isFork: bool, stored: Option<SystemState>, forkSource: Option<SystemState>, isFork2: bool, forkSource2: Option<SystemState>)
    requires SelectInitialState(reset, isFork, stored, forkSource).Ready?
    ensures var r := SelectInitialState(reset, isFork, stored, forkSource);
      && StoredAfter(reset, stored, r) == Some(r.initialState)
      && |r.writes| <= 1
      && SelectInitialState(false, isFork2, StoredAfter(reset, stored, r), forkSource2) == Ready(r.initialState, [])
  {
  }
}
