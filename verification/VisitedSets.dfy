/** Epoch-stamped visited set: `reset` is constant time except when the 16-bit epoch wraps around. */
module VisitedSets {

  const MAX_EPOCH := 0xFFFF

  class VisitedSet {
    var marks: seq<nat>
    var epoch: nat

    /** No mark is ahead of the epoch, so a mark can only match the epoch by being set in it. */
    predicate Valid()
      reads this
    {
      1 <= epoch <= MAX_EPOCH && forall i :: 0 <= i < |marks| ==> marks[i] <= epoch
    }

    /** The ids visited since the last `Reset`. */
    function Visited(): set<nat>
      reads this
    {
      set i: nat | i < |marks| && marks[i] == epoch
    }

    constructor ()
      ensures Valid() && Visited() == {} && marks == []
    {
      marks, epoch := [], 1;
    }

    method EnsureCapacity(capacity: nat)
      requires Valid()
      modifies this
      ensures Valid() && Visited() == old(Visited()) && epoch == old(epoch)
      ensures |marks| == if capacity > old(|marks|) then capacity else old(|marks|)
    {
      if capacity > |marks| {
        marks := marks + seq(capacity - |marks|, _ => 0);
      }
    }

    /** Every id becomes unvisited, also when the epoch wraps around. */
    method Reset()
      requires Valid()
      modifies this
      ensures Valid() && Visited() == {} && |marks| == old(|marks|)
    {
      if epoch == MAX_EPOCH {
        marks := seq(|marks|, _ => 0);
        epoch := 1;
        return;
      }
      epoch := epoch + 1;
    }

    method Visit(id: nat) returns (fresh_: bool)
      requires Valid() && id < |marks|
      modifies this
      ensures Valid() && |marks| == old(|marks|)
      ensures fresh_ == (id !in old(Visited())) && Visited() == old(Visited()) + {id}
    {
      fresh_ := marks[id] != epoch;
      marks := marks[id := epoch];
    }

    predicate IsVisited(id: nat)
      requires Valid()
      reads this
      ensures IsVisited(id) <==> id in Visited()
    {
      id < |marks| && marks[id] == epoch
    }
  }
}
