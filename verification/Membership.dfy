/** Leaf health as routing models keep it, and what their updates ask of the controller
    (`pkg/ingress/routing/topology.go`, `model.go`). */
module Membership {

  /** A leaf that was never reported is not healthy. */
  predicate IsHealthy(healthy: map<nat, bool>, id: nat) { id in healthy && healthy[id] }

  datatype UpdateResult = NoChange | ChangedInPlace | PublishPicker
}
