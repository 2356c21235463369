/**
 The operations of dht/routes.go on a table that is changed in place.
 */
module RoutingTable {

  import opened Identity
  import opened Dht
  import opened Closest

  class RoutingTable {
    const self: ID
    var buckets: seq<seq<ID>>

    ghost function State(): Table
      reads this
    {
      Table(self, buckets)
    }

    /** `CreateRoutingTable`. */
    constructor (id: ID)
      requires id.key != []
      ensures self == id && Sound(State()) && State() == Updated(Empty(id), id)
    {
      self := id;
      buckets := [];
      new;
      var i := 0;
      while i < 8 * |id.key|
        invariant i == |buckets| <= 8 * |id.key|
        invariant forall k | 0 <= k < i :: buckets[k] == []
      {
        buckets := buckets + [[]];
        i := i + 1;
      }
      EmptySound(id);
      assert buckets == Empty(id).buckets;
      Update(id);
    }

    /** The loop over a bucket that looks for an equal peer. */
    method Search(k: nat, target: ID) returns (i: nat)
      requires k < |buckets|
      ensures i == Find(buckets[k], target.key)
    {
      i := 0;
      while i < |buckets[k]|
        invariant i <= |buckets[k]|
        invariant forall j | 0 <= j < i :: buckets[k][j].key != target.key
      {
        if buckets[k][i].key == target.key {
          return;
        }
        i := i + 1;
      }
    }

    method Update(target: ID)
      requires Sound(State())
      modifies this
      ensures State() == Updated(old(State()), target) && Sound(State())
    {
      UpdatedSound(State(), target);
      hide Sound, BucketID, Find;
      if |self.key| != |target.key| {
        return;
      }
      var k := BucketID(self.key, target.key);
      var bucket := buckets[k];
      var i := Search(k, target);
      if i == |bucket| {
        if |bucket| <= BUCKET_SIZE {
          buckets := buckets[k := [target] + bucket];
        }
      } else {
        buckets := buckets[k := [bucket[i]] + (bucket[..i] + bucket[i + 1..])];
      }
    }

    /** `panicked` is a nil bucket. */
    method RemovePeer(target: ID) returns (found: bool, panicked: bool)
      requires Sound(State())
      modifies this
      ensures match Removed(old(State()), target)
              case Removal(t, f) => !panicked && State() == t && found == f && Sound(State())
              case Panic => panicked && State() == old(State())
      ensures !panicked ==> (found <==> exists p :: p in old(Peers(State())) && p.key == target.key)
    {
      RemovedSound(State(), target);
      if HasBucket(self.key, target.key) {
        RemovedFound(State(), target);
      }
      hide Sound, BucketID, Find;
      var k := BucketID(self.key, target.key);
      if k < 0 || k >= |buckets| {
        return false, true;
      }
      var bucket := buckets[k];
      var i := Search(k, target);
      if i < |bucket| {
        buckets := buckets[k := bucket[..i] + bucket[i + 1..]];
        return true, false;
      }
      return false, false;
    }

    method PeerExists(target: ID) returns (r: bool)
      requires Sound(State())
      ensures r <==> exists p :: p in Peers(State()) && p.key == target.key
    {
      ExistsIsMembership(State(), target);
      hide Sound, BucketID, Find;
      var k := BucketID(self.key, target.key);
      if k < 0 || k >= |buckets| {
        return false;
      }
      var i := Search(k, target);
      return i < |buckets[k]|;
    }

    /**
     `FindClosestPeers`: see `ClosestOfWindow` and `ExactWhen` for what the result is. A
     negative count makes the last slice panic.
     */
    method FindClosestPeers(target: ID, count: int) returns (peers: seq<ID>, panicked: bool)
      requires Sound(State())
      ensures panicked <==> count < 0 && |self.key| == |target.key|
      ensures !panicked ==> peers == FoundClosest(State(), target.key, if count < 0 then 0 else count)
    {
      hide BucketID, BucketSound, Gathered, Widened, Sort, FoundClosest;
      ghost var t := State();
      ghost var n: nat := if count < 0 then 0 else count;
      FoundIs(t, target.key, n);
      panicked := false;
      if |self.key| != |target.key| {
        return [], false;
      }
      var b := BucketID(self.key, target.key);
      GatheredFirst(t, b);
      peers := buckets[b];
      var i := 1;
      while |peers| < count && (b - i >= 0 || b + i < 8 * |self.key|)
        invariant i >= 1 && peers == Gathered(t, b, i - 1)
        invariant Widened(t, b, n, 0) == Widened(t, b, n, i - 1)
        decreases 8 * |self.key| - i
      {
        WindowStep(t, b, n, i - 1);
        if b - i >= 0 {
          peers := peers + buckets[b - i];
        }
        if b + i < 8 * |self.key| {
          peers := peers + buckets[b + i];
        }
        i := i + 1;
      }
      WindowStep(t, b, n, i - 1);
      peers := Sort(target.key, peers);
      if |peers| > count {
        if count < 0 {
          return [], true;
        }
        peers := peers[..count];
      }
    }
  }
}
