/**
 * The extension's entry point `activate` of extension.js, over the two
 * pieces of state it touches: the closure state of the marker and pipe
 * client, and the module-level helper supervisor. (`deactivate` is
 * `ImeSupervisor.Deactivate`.)
 */
module Lifecycle {
  import opened Wrappers
  import opened Marker
  import opened Supervisor

  /**
   * `activate`: a red marker with one decoration type, one connection
   * attempt to the pipe, and the helper started unless one is already held.
   */
  method Activate(sup: ImeSupervisor) returns (tip: Activation)
    requires sup.Valid()
    modifies sup
    ensures fresh(tip) && tip.Valid()
    ensures tip.triangleColor == InitialColor && tip.decorationsCreated == 1
    ensures tip.connectAttempts == 1 && tip.pendingReconnects == 0
    ensures sup.Valid() && sup.imeProcess.Some?
    ensures old(sup.imeProcess).Some? ==> sup.imeProcess == old(sup.imeProcess) && sup.running == old(sup.running)
    ensures old(sup.imeProcess).Some? ==> sup.nextHandle == old(sup.nextHandle)
    ensures old(sup.imeProcess).None? ==> sup.imeProcess == Some(old(sup.nextHandle))
    ensures old(sup.imeProcess).None? ==> sup.running == old(sup.running) + {old(sup.nextHandle)}
    ensures old(sup.imeProcess).None? ==> sup.nextHandle == old(sup.nextHandle) + 1
    ensures sup.pendingRestarts == old(sup.pendingRestarts) && sup.killed == old(sup.killed)
  {
    tip := new Activation();
    var _ := sup.Start();
  }
}
