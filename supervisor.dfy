/**
 * The helper-process supervisor of extension.js: the module-level
 * `imeProcess` handle, `startImeChecker`, the `exit` and `error` listeners
 * attached to each spawned process, `stopImeChecker` and `deactivate`.
 * Spawning yields an abstract handle; a one-second restart timer becomes a
 * pending entry that `FireRestart` consumes.
 */
module Supervisor {
  import opened Wrappers

  /** What `spawn` returns, reduced to an identity. */
  type Handle = nat

  class ImeSupervisor {
    /** The module-level `imeProcess`; `None` is `null`. */
    var imeProcess: Option<Handle>
    /** Restart timers scheduled by exit events and not yet fired. */
    var pendingRestarts: nat
    /** Spawned processes whose `exit` event has not been delivered yet. */
    var running: set<Handle>
    /** Running processes that `kill` has been sent to. */
    var killed: set<Handle>
    /** The handle the next spawn yields. */
    var nextHandle: Handle

    /** The held handle is a live, not killed process; handles are issued in order. */
    ghost predicate Valid()
      reads this
    {
      (imeProcess.Some? ==> imeProcess.value in running && imeProcess.value !in killed)
      && killed <= running
      && (forall h :: h in running ==> h < nextHandle)
    }

    /**
     * The property the presence check at the top of `startImeChecker` is meant
     * to give: every running process that has not been killed is the one held.
     */
    ghost predicate SingleLiveHelper()
      reads this
    {
      forall h :: h in running && h !in killed ==> imeProcess == Some(h)
    }

    /** Processes that are running and have not been told to stop. */
    ghost function Live(): set<Handle>
      reads this
    {
      running - killed
    }

    /** Under `SingleLiveHelper`, at most one helper is live, and it is the held one. */
    lemma AtMostOneLive()
      requires SingleLiveHelper()
      ensures |Live()| <= 1
      ensures Live() != {} ==> imeProcess.Some? && Live() == {imeProcess.value}
    {
      if imeProcess.Some? {
        assert Live() <= {imeProcess.value};
        if Live() != {} {
          var h :| h in Live();
          assert Live() == {imeProcess.value};
        }
      } else {
        assert Live() == {};
      }
    }

    /** Module load: `let imeProcess = null`. */
    constructor ()
      ensures Valid() && SingleLiveHelper()
      ensures imeProcess == None && pendingRestarts == 0
      ensures running == {} && killed == {}
    {
      imeProcess := None;
      pendingRestarts := 0;
      running := {};
      killed := {};
      nextHandle := 0;
    }

    /**
     * `startImeChecker`: nothing happens while a handle is held; otherwise a
     * new process is spawned and its handle stored.
     */
    method Start() returns (spawned: bool)
      requires Valid()
      modifies this
      ensures Valid()
      ensures spawned <==> old(imeProcess).None?
      ensures !spawned ==> imeProcess == old(imeProcess) && running == old(running) && nextHandle == old(nextHandle)
      ensures spawned ==> imeProcess == Some(old(nextHandle)) && old(nextHandle) !in old(running)
      ensures spawned ==> running == old(running) + {old(nextHandle)} && nextHandle == old(nextHandle) + 1
      ensures killed == old(killed) && pendingRestarts == old(pendingRestarts)
      ensures old(SingleLiveHelper()) ==> SingleLiveHelper()
    {
      if imeProcess.Some? {
        return false;
      }
      var h := nextHandle;
      nextHandle := nextHandle + 1;
      running := running + {h};
      imeProcess := Some(h);
      spawned := true;
    }

    /**
     * The `exit` listener of process `h`, as written: it clears the handle
     * whichever process is held and schedules exactly one restart.
     */
    method OnExit(h: Handle)
      requires Valid() && h in running
      modifies this
      ensures Valid()
      ensures imeProcess == None
      ensures pendingRestarts == old(pendingRestarts) + 1
      ensures running == old(running) - {h} && killed == old(killed) - {h}
      ensures nextHandle == old(nextHandle)
    {
      running := running - {h};
      killed := killed - {h};
      imeProcess := None;
      pendingRestarts := pendingRestarts + 1;
    }

    /**
     * The `exit` listener of process `h`, corrected: only the exit of the
     * held process clears the handle and schedules a restart; the exit of a
     * process that was stopped or replaced is only recorded.
     */
    method OnExitGuarded(h: Handle)
      requires Valid() && h in running
      modifies this
      ensures Valid()
      ensures old(imeProcess) == Some(h) ==> imeProcess == None && pendingRestarts == old(pendingRestarts) + 1
      ensures old(imeProcess) != Some(h) ==> imeProcess == old(imeProcess) && pendingRestarts == old(pendingRestarts)
      ensures running == old(running) - {h} && killed == old(killed) - {h}
      ensures nextHandle == old(nextHandle)
      ensures old(SingleLiveHelper()) ==> SingleLiveHelper()
    {
      running := running - {h};
      killed := killed - {h};
      if imeProcess == Some(h) {
        imeProcess := None;
        pendingRestarts := pendingRestarts + 1;
      }
    }

    /**
     * The `error` listener of process `h` (launch failure), attached to each
     * spawned process: it only logs, so neither the handle nor the timers change.
     */
    method OnLaunchError(h: Handle)
      requires Valid() && h in running
      ensures Valid()
      ensures old(SingleLiveHelper()) ==> SingleLiveHelper()
    {
    }

    /** A restart timer fires: one pending entry is consumed and `startImeChecker` runs. */
    method FireRestart() returns (spawned: bool)
      requires Valid() && pendingRestarts > 0
      modifies this
      ensures Valid()
      ensures pendingRestarts == old(pendingRestarts) - 1
      ensures spawned <==> old(imeProcess).None?
      ensures spawned ==> imeProcess == Some(old(nextHandle)) && running == old(running) + {old(nextHandle)}
      ensures spawned ==> nextHandle == old(nextHandle) + 1
      ensures !spawned ==> imeProcess == old(imeProcess) && running == old(running) && nextHandle == old(nextHandle)
      ensures killed == old(killed)
      ensures old(SingleLiveHelper()) ==> SingleLiveHelper()
    {
      pendingRestarts := pendingRestarts - 1;
      spawned := Start();
    }

    /**
     * `stopImeChecker`: kills the held process, if any, and clears the
     * handle. With no handle held it changes nothing, so a second call is a no-op.
     */
    method Stop()
      requires Valid()
      modifies this
      ensures Valid()
      ensures imeProcess == None
      ensures old(imeProcess).Some? ==> killed == old(killed) + {old(imeProcess).value}
      ensures old(imeProcess).None? ==> killed == old(killed)
      ensures running == old(running) && pendingRestarts == old(pendingRestarts) && nextHandle == old(nextHandle)
      ensures old(SingleLiveHelper()) ==> SingleLiveHelper() && Live() == {}
    {
      if imeProcess.Some? {
        killed := killed + {imeProcess.value};
        imeProcess := None;
      }
    }

    /** `deactivate`: stops the helper. */
    method Deactivate()
      requires Valid()
      modifies this
      ensures Valid()
      ensures imeProcess == None
      ensures old(imeProcess).Some? ==> killed == old(killed) + {old(imeProcess).value}
      ensures old(imeProcess).None? ==> killed == old(killed)
      ensures running == old(running) && pendingRestarts == old(pendingRestarts) && nextHandle == old(nextHandle)
      ensures old(SingleLiveHelper()) ==> SingleLiveHelper() && Live() == {}
    {
      Stop();
    }
  }

  /**
   * With the listener as written: the extension is activated and deactivated;
   * the killed helper's exit event then schedules a restart, and when it fires
   * a new helper is spawned although the extension is no longer active.
   */
  method RestartAfterDeactivate() returns (pending: nat, respawned: bool)
    ensures pending == 1 && respawned
  {
    var s := new ImeSupervisor();
    var _ := s.Start();
    var first := s.imeProcess.value;
    s.Deactivate();
    s.OnExit(first);
    pending := s.pendingRestarts;
    respawned := s.FireRestart();
  }

  /**
   * With the listener as written: start, stop, start again, and the first
   * helper's exit arrives last. It clears the handle of the second helper,
   * the restart spawns a third, and two helpers are live at once.
   */
  method StaleExitOrphansHelper() returns (live: nat)
    ensures live == 2
  {
    var s := new ImeSupervisor();
    var _ := s.Start();
    var first := s.imeProcess.value;
    s.Stop();
    var _ := s.Start();
    var second := s.imeProcess.value;
    s.OnExit(first);
    var _ := s.FireRestart();
    var third := s.imeProcess.value;
    assert s.running == {second, third} && second != third && s.killed == {};
    live := |s.running - s.killed|;
  }

  /** With the corrected listener the same events leave one live helper and no pending restart. */
  method StaleExitGuarded() returns (live: nat, pending: nat)
    ensures live == 1 && pending == 0
  {
    var s := new ImeSupervisor();
    var _ := s.Start();
    var first := s.imeProcess.value;
    s.Stop();
    var _ := s.Start();
    s.OnExitGuarded(first);
    s.AtMostOneLive();
    live := |s.running - s.killed|;
    pending := s.pendingRestarts;
  }
}
