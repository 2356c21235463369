/**
 The Kademlia routing table of dht/routes.go: peers in buckets by the length of the
 prefix they share with the node itself, most recently updated first.
 */
module Dht {

  import opened Identity

  const BUCKET_SIZE := 16

  datatype Table = Table(self: ID, buckets: seq<seq<ID>>)

  /** The bucket of a key in the table of the node with key `self`. */
  function BucketID(self: Key, key: Key): int {
    PrefixLen(XorKey(key, self))
  }

  // ----- One bucket -----

  /** Position of the peer with the given key, or the length of the bucket. */
  function Find(b: seq<ID>, key: Key): (i: nat)
    ensures i <= |b| && (forall j | 0 <= j < i :: b[j].key != key) && (i < |b| ==> b[i].key == key)
  {
    if b == [] || b[0].key == key then 0 else 1 + Find(b[1..], key)
  }

  function Without(b: seq<ID>, i: nat): seq<ID>
    requires i < |b|
  {
    b[..i] + b[i + 1..]
  }

  /** `Update` on the bucket of the peer: one already there keeps its old record and moves to the front. */
  function UpdatedBucket(b: seq<ID>, target: ID): seq<ID> {
    var i := Find(b, target.key);
    if i < |b| then [b[i]] + Without(b, i)
    else if |b| <= BUCKET_SIZE then [target] + b
    else b
  }

  function RemovedBucket(b: seq<ID>, target: ID): seq<ID> {
    var i := Find(b, target.key);
    if i < |b| then Without(b, i) else b
  }

  predicate Distinct(b: seq<ID>) {
    forall i, j | 0 <= i < j < |b| :: b[i].key != b[j].key
  }

  // ----- The table -----

  function Empty(self: ID): Table {
    Table(self, seq(8 * |self.key|, _ => []))
  }

  predicate InTable(t: Table, k: int) {
    0 <= k < |t.buckets|
  }

  function Updated(t: Table, target: ID): Table
    requires Sound(t)
  {
    var k := BucketID(t.self.key, target.key);
    if |t.self.key| != |target.key| then t
    else
      BucketInTable(t, target);
      t.(buckets := t.buckets[k := UpdatedBucket(t.buckets[k], target)])
  }

  /** Keys that have a bucket: not the empty one, and none that extends the node's own key. */
  predicate HasBucket(self: Key, key: Key) {
    key != [] && !(self < key)
  }

  lemma BucketOnKeys(self: Key, key: Key)
    requires self != []
    ensures 0 <= BucketID(self, key) < 8 * |self| <==> HasBucket(self, key)
  {
    var x := XorKey(key, self);
    if key != [] {
      PrefixLenMeans(x);
      var n := FirstByte(x);
      hide XorByte, FirstByte, LeadingZeros8, Bit;
      forall i | 0 <= i < |key| && i < |self|
        ensures x[i] == 0 <==> key[i] == self[i]
      {
        XorByteZero(key[i], self[i]);
      }
      if n < |x| {
        FirstByteBits(x, n);
      } else if |self| < |key| {
        assert self == key[..|self|];
      }
    }
  }

  /** A target that has no bucket in the table makes `RemovePeer` dereference nil. */
  datatype Removal = Removal(table: Table, found: bool) | Panic

  function Removed(t: Table, target: ID): Removal {
    var k := BucketID(t.self.key, target.key);
    if !InTable(t, k) then Panic
    else
      var b := t.buckets[k];
      Removal(t.(buckets := t.buckets[k := RemovedBucket(b, target)]), Find(b, target.key) < |b|)
  }

  predicate Exists(t: Table, target: ID) {
    var k := BucketID(t.self.key, target.key);
    InTable(t, k) && Find(t.buckets[k], target.key) < |t.buckets[k]|
  }

  /** Every peer is in the bucket of its prefix length, once, and no bucket holds more than 17. */
  predicate BucketSound(self: ID, b: seq<ID>, k: nat) {
    && (forall p | p in b :: |p.key| == |self.key| && BucketID(self.key, p.key) == k)
    && Distinct(b)
    && |b| <= 17
  }

  predicate Sound(t: Table) {
    && t.self.key != [] && |t.buckets| == 8 * |t.self.key|
    && forall k | 0 <= k < |t.buckets| :: BucketSound(t.self, t.buckets[k], k)
  }

  lemma BucketInTable(t: Table, target: ID)
    requires t.self.key != [] && |t.buckets| == 8 * |t.self.key| && |t.self.key| == |target.key|
    ensures InTable(t, BucketID(t.self.key, target.key))
  {
    PrefixLenMeans(XorKey(target.key, t.self.key));
  }

  ghost function Peers(t: Table): set<ID> {
    set k, p | 0 <= k < |t.buckets| && p in t.buckets[k] :: p
  }

  /** No two peers anywhere in the table have the same key. */
  lemma NoDuplicates(t: Table, j: nat, x: nat, k: nat, y: nat)
    requires Sound(t) && j < |t.buckets| && k < |t.buckets| && x < |t.buckets[j]| && y < |t.buckets[k]|
    requires t.buckets[j][x].key == t.buckets[k][y].key
    ensures j == k && x == y
  {
    assert BucketSound(t.self, t.buckets[j], j) && BucketSound(t.self, t.buckets[k], k);
    assert t.buckets[j][x] in t.buckets[j] && t.buckets[k][y] in t.buckets[k];
  }

  lemma EmptySound(self: ID)
    requires self.key != []
    ensures Sound(Empty(self))
  {
  }

  lemma WithoutMeans(b: seq<ID>, i: nat)
    requires i < |b| && Distinct(b)
    ensures Distinct(Without(b, i)) && |Without(b, i)| == |b| - 1
    ensures forall p :: p in Without(b, i) <==> p in b && p.key != b[i].key
  {
    var r := Without(b, i);
    assert forall j | 0 <= j < |r| :: r[j] == if j < i then b[j] else b[j + 1];
    forall p | p in b && p.key != b[i].key
      ensures p in r
    {
      var j :| 0 <= j < |b| && b[j] == p;
      assert p == if j < i then r[j] else r[j - 1];
    }
  }

  lemma PrependMeans(p: ID, b: seq<ID>)
    requires Distinct(b) && forall q | q in b :: q.key != p.key
    ensures Distinct([p] + b)
    ensures forall q :: q in [p] + b <==> q == p || q in b
  {
    var r := [p] + b;
    forall i, j | 0 <= i < j < |r|
      ensures r[i].key != r[j].key
    {
      assert r[j] == b[j - 1];
      assert i > 0 ==> r[i] == b[i - 1];
    }
  }

  lemma MovedToFront(b: seq<ID>, i: nat)
    requires i < |b| && Distinct(b)
    ensures var r := [b[i]] + Without(b, i); Distinct(r) && |r| == |b| && forall p :: p in r <==> p in b
  {
    WithoutMeans(b, i);
    hide Without;
    PrependMeans(b[i], Without(b, i));
    forall p
      ensures p == b[i] || (p in b && p.key != b[i].key) <==> p in b
    {
      if p in b && p.key == b[i].key {
        var j :| 0 <= j < |b| && b[j] == p;
      }
    }
    hide Distinct;
  }

  lemma UpdatedBucketSound(self: ID, b: seq<ID>, k: nat, target: ID)
    requires BucketSound(self, b, k) && |target.key| == |self.key| && BucketID(self.key, target.key) == k
    ensures BucketSound(self, UpdatedBucket(b, target), k)
    ensures forall p :: p in UpdatedBucket(b, target) <==>
              p in b || (p == target && |b| <= BUCKET_SIZE && Find(b, p.key) == |b|)
  {
    hide BucketID, Find, Without, Distinct;
    var i := Find(b, target.key);
    if i < |b| {
      MovedToFront(b, i);
    } else {
      PrependMeans(target, b);
    }
  }

  lemma RemovedBucketSound(self: ID, b: seq<ID>, k: nat, target: ID)
    requires BucketSound(self, b, k)
    ensures BucketSound(self, RemovedBucket(b, target), k)
    ensures forall p :: p in RemovedBucket(b, target) <==> p in b && p.key != target.key
  {
    var i := Find(b, target.key);
    if i < |b| {
      WithoutMeans(b, i);
    }
    hide BucketID, Find, Without;
  }

  lemma UpdatedSound(t: Table, target: ID)
    requires Sound(t)
    ensures Sound(Updated(t, target))
    ensures |target.key| == |t.self.key| ==> InTable(t, BucketID(t.self.key, target.key))
  {
    hide BucketID, UpdatedBucket, BucketSound;
    if |t.self.key| == |target.key| {
      var k := BucketID(t.self.key, target.key);
      BucketInTable(t, target);
      UpdatedBucketSound(t.self, t.buckets[k], k, target);
    }
  }

  lemma RemovedSound(t: Table, target: ID)
    requires Sound(t)
    ensures Removed(t, target).Panic? <==> !HasBucket(t.self.key, target.key)
    ensures Removed(t, target).Removal? ==> Sound(Removed(t, target).table)
  {
    hide BucketID, RemovedBucket, BucketSound, HasBucket;
    BucketOnKeys(t.self.key, target.key);
    var k := BucketID(t.self.key, target.key);
    if InTable(t, k) {
      RemovedBucketSound(t.self, t.buckets[k], k, target);
    }
  }

  /** A new peer is stored exactly if its key has the node's length and fewer than 17 peers share its bucket. */
  lemma StoredWhen(t: Table, target: ID)
    requires Sound(t) && forall p | p in Peers(t) :: p.key != target.key
    ensures |target.key| == |t.self.key| ==> InTable(t, BucketID(t.self.key, target.key))
    ensures target in Peers(Updated(t, target))
       <==> |target.key| == |t.self.key| && |t.buckets[BucketID(t.self.key, target.key)]| < 17
  {
    hide BucketID, BucketSound;
    if |target.key| == |t.self.key| {
      BucketInTable(t, target);
      var k := BucketID(t.self.key, target.key);
      var b := t.buckets[k];
      assert forall p | p in b :: p in Peers(t);
      var u := Updated(t, target);
      assert u.buckets[k] == if |b| < 17 then [target] + b else b;
      if |b| < 17 {
        assert target in u.buckets[k];
      } else {
        assert u.buckets == t.buckets;
      }
    }
  }

  /** `RemovePeer` reports whether the peer was in the table. */
  lemma RemovedFound(t: Table, target: ID)
    requires Sound(t) && HasBucket(t.self.key, target.key)
    ensures Removed(t, target).Removal?
    ensures Removed(t, target).found <==> exists p :: p in Peers(t) && p.key == target.key
  {
    hide BucketID;
    RemovedSound(t, target);
    ExistsIsMembership(t, target);
  }

  /** `PeerExists` is membership, for targets of any length. */
  lemma ExistsIsMembership(t: Table, target: ID)
    requires Sound(t)
    ensures Exists(t, target) <==> exists p :: p in Peers(t) && p.key == target.key
  {
    hide BucketID;
    var k := BucketID(t.self.key, target.key);
    if Exists(t, target) {
      var b := t.buckets[k];
      var p := b[Find(b, target.key)];
      assert p in b;
      assert p in Peers(t) && p.key == target.key;
    }
    if p :| p in Peers(t) && p.key == target.key {
      var j :| 0 <= j < |t.buckets| && p in t.buckets[j];
      assert BucketSound(t.self, t.buckets[j], j);
      assert j == k;
    }
  }

  // ----- Runs -----

  datatype Op = Update(target: ID) | Remove(target: ID)

  /** No removal in the run panics. */
  predicate Legal(self: ID, ops: seq<Op>) {
    forall i | 0 <= i < |ops| && ops[i].Remove? :: HasBucket(self.key, ops[i].target.key)
  }

  function Earlier(ops: seq<Op>): (r: seq<Op>)
    requires ops != []
    ensures |r| == |ops| - 1 && forall i | 0 <= i < |r| :: r[i] == ops[i]
  {
    ops[..|ops| - 1]
  }

  function Applied(t: Table, op: Op): (r: Table)
    requires Sound(t) && (op.Remove? ==> HasBucket(t.self.key, op.target.key))
    ensures Sound(r) && r.self == t.self
  {
    match op
    case Update(x) => UpdatedSound(t, x); Updated(t, x)
    case Remove(x) => RemovedSound(t, x); Removed(t, x).table
  }

  /** The table after a run of updates and removals. */
  function Run(self: ID, ops: seq<Op>): (t: Table)
    requires self.key != [] && Legal(self, ops)
    ensures Sound(t) && t.self == self
  {
    if ops == [] then EmptySound(self); Empty(self)
    else
      assert Legal(self, Earlier(ops));
      Applied(Run(self, Earlier(ops)), ops[|ops| - 1])
  }

  /** When a peer was last updated, or -1. */
  function Stamp(ops: seq<Op>, key: Key): int {
    if ops == [] then -1
    else
      var op := ops[|ops| - 1];
      if op.Update? && op.target.key == key then |ops| - 1 else Stamp(Earlier(ops), key)
  }

  predicate RecentFirst(b: seq<ID>, ops: seq<Op>) {
    forall i, j | 0 <= i < j < |b| :: Stamp(ops, b[i].key) > Stamp(ops, b[j].key)
  }

  lemma {:induction false} StampRange(ops: seq<Op>, key: Key)
    ensures -1 <= Stamp(ops, key) < |ops|
  {
    if ops != [] {
      StampRange(Earlier(ops), key);
    }
  }

  lemma UpdateKeepsOrder(b: seq<ID>, ops: seq<Op>)
    requires ops != [] && ops[|ops| - 1].Update? && Distinct(b) && RecentFirst(b, Earlier(ops))
    ensures RecentFirst(UpdatedBucket(b, ops[|ops| - 1].target), ops)
  {
    var target := ops[|ops| - 1].target;
    var i := Find(b, target.key);
    var r := UpdatedBucket(b, target);
    forall x, y | 0 <= x < y < |r|
      ensures Stamp(ops, r[x].key) > Stamp(ops, r[y].key)
    {
      StampRange(Earlier(ops), r[y].key);
    }
  }

  lemma OthersKeepOrder(b: seq<ID>, ops: seq<Op>)
    requires ops != [] && RecentFirst(b, Earlier(ops))
    requires ops[|ops| - 1].Update? ==> forall p | p in b :: p.key != ops[|ops| - 1].target.key
    ensures RecentFirst(b, ops)
  {
  }

  lemma RemoveKeepsOrder(b: seq<ID>, ops: seq<Op>)
    requires ops != [] && ops[|ops| - 1].Remove? && RecentFirst(b, Earlier(ops))
    ensures RecentFirst(RemovedBucket(b, ops[|ops| - 1].target), ops)
  {
  }

  lemma {:induction false} RunIsRecentFirst(self: ID, ops: seq<Op>, k: nat)
    requires self.key != [] && Legal(self, ops) && k < 8 * |self.key|
    ensures RecentFirst(Run(self, ops).buckets[k], ops)
  {
    if ops != [] {
      var op, before := ops[|ops| - 1], Earlier(ops);
      assert Legal(self, before);
      RunIsRecentFirst(self, before, k);
      var t := Run(self, before);
      assert BucketSound(self, t.buckets[k], k);
      RunStep(self, ops);
      if op.Remove? {
        RemovedSound(t, op.target);
      }
      hide RecentFirst, Find, Run, Legal, BucketID, HasBucket, Sound, BucketSound;
      if |op.target.key| == |self.key| && op.Update? && BucketID(self.key, op.target.key) == k {
        UpdateKeepsOrder(t.buckets[k], ops);
      } else if op.Remove? && BucketID(self.key, op.target.key) == k {
        RemoveKeepsOrder(t.buckets[k], ops);
      } else {
        assert Applied(t, op).buckets[k] == t.buckets[k];
        OthersKeepOrder(t.buckets[k], ops);
      }
    }
  }

  lemma RunStep(self: ID, ops: seq<Op>)
    requires self.key != [] && Legal(self, ops) && ops != []
    ensures Legal(self, Earlier(ops)) && Run(self, ops) == Applied(Run(self, Earlier(ops)), ops[|ops| - 1])
  {
    assert Legal(self, Earlier(ops));
  }

  // ----- The same run on a plain set of peers -----

  ghost function InBucket(self: ID, m: set<ID>, k: int): set<ID> {
    set p | p in m && BucketID(self.key, p.key) == k
  }

  /** A new peer is taken in while fewer than 17 share its bucket; a removal takes out every peer with the key. */
  ghost function Members(self: ID, ops: seq<Op>): set<ID> {
    if ops == [] then {}
    else
      var m := Members(self, Earlier(ops));
      match ops[|ops| - 1]
      case Update(x) =>
        if |x.key| == |self.key| && (forall p | p in m :: p.key != x.key)
           && |InBucket(self, m, BucketID(self.key, x.key))| < 17
        then m + {x} else m
      case Remove(x) => set p | p in m && p.key != x.key
  }

  ghost function Elements(b: seq<ID>): set<ID> {
    set p | p in b
  }

  lemma {:induction false} DistinctCount(b: seq<ID>)
    requires Distinct(b)
    ensures |Elements(b)| == |b|
  {
    if b != [] {
      DistinctCount(b[1..]);
      assert Elements(b) == {b[0]} + Elements(b[1..]);
      assert b[0] !in Elements(b[1..]);
    }
  }

  ghost predicate SameMembers(t: Table, m: set<ID>) {
    && (forall p | p in m :: InTable(t, BucketID(t.self.key, p.key)))
    && forall k | 0 <= k < |t.buckets| :: Elements(t.buckets[k]) == InBucket(t.self, m, k)
  }

  lemma {:induction false} RunIsMembers(self: ID, ops: seq<Op>)
    requires self.key != [] && Legal(self, ops)
    ensures SameMembers(Run(self, ops), Members(self, ops))
  {
    if ops != [] {
      RunStep(self, ops);
      RunIsMembers(self, Earlier(ops));
      var t, m := Run(self, Earlier(ops)), Members(self, Earlier(ops));
      hide Run, Legal;
      match ops[|ops| - 1] {
        case Update(x) => UpdateMembers(t, m, x);
        case Remove(x) => RemoveMembers(t, m, x);
      }
    }
  }

  lemma OneBucketChanges(t: Table, m: set<ID>, k: nat, b: seq<ID>, m': set<ID>)
    requires SameMembers(t, m) && InTable(t, k) && Elements(b) == InBucket(t.self, m', k)
    requires forall p: ID | BucketID(t.self.key, p.key) != k :: p in m <==> p in m'
    ensures SameMembers(t.(buckets := t.buckets[k := b]), m')
  {
    hide BucketID;
    forall j | 0 <= j < |t.buckets| && j != k
      ensures InBucket(t.self, m, j) == InBucket(t.self, m', j)
    {
    }
  }

  lemma UpdateMembers(t: Table, m: set<ID>, x: ID)
    requires Sound(t) && SameMembers(t, m)
    ensures SameMembers(Updated(t, x),
              if |x.key| == |t.self.key| && (forall p | p in m :: p.key != x.key)
                 && |InBucket(t.self, m, BucketID(t.self.key, x.key))| < 17
              then m + {x} else m)
  {
    hide BucketID, UpdatedBucket, Find;
    if |x.key| == |t.self.key| {
      var k := BucketID(t.self.key, x.key);
      BucketInTable(t, x);
      var b := t.buckets[k];
      assert BucketSound(t.self, b, k);
      assert Elements(b) == InBucket(t.self, m, k);
      DistinctCount(b);
      UpdatedBucketSound(t.self, b, k, x);
      KeyIsKnown(t, m, x);
      hide Sound, SameMembers, BucketSound;
      var b' := UpdatedBucket(b, x);
      if (forall p | p in m :: p.key != x.key) && |b| <= BUCKET_SIZE {
        forall p
          ensures p in Elements(b') <==> p in InBucket(t.self, m + {x}, k)
        {
          assert p in Elements(b) <==> p in InBucket(t.self, m, k);
        }
        OneBucketChanges(t, m, k, b', m + {x});
      } else {
        assert Elements(b') == InBucket(t.self, m, k);
        OneBucketChanges(t, m, k, b', m);
      }
    }
  }

  /** Looking through one bucket tells whether a key is a member at all. */
  lemma KeyIsKnown(t: Table, m: set<ID>, x: ID)
    requires Sound(t) && SameMembers(t, m) && InTable(t, BucketID(t.self.key, x.key))
    ensures var b := t.buckets[BucketID(t.self.key, x.key)]; Find(b, x.key) == |b| <==> forall p | p in m :: p.key != x.key
  {
    var k := BucketID(t.self.key, x.key);
    var b := t.buckets[k];
    if Find(b, x.key) < |b| {
      var p := b[Find(b, x.key)];
      assert p in Elements(b);
    }
    forall p | p in m && p.key == x.key
      ensures Find(b, x.key) < |b|
    {
      assert p in InBucket(t.self, m, k);
      assert p in Elements(b);
    }
  }

  lemma RemoveMembers(t: Table, m: set<ID>, x: ID)
    requires Sound(t) && SameMembers(t, m) && HasBucket(t.self.key, x.key)
    ensures Removed(t, x).Removal? && SameMembers(Removed(t, x).table, set p | p in m && p.key != x.key)
  {
    hide BucketID, RemovedBucket, Find;
    BucketOnKeys(t.self.key, x.key);
    var k := BucketID(t.self.key, x.key);
    assert BucketSound(t.self, t.buckets[k], k);
    assert Elements(t.buckets[k]) == InBucket(t.self, m, k);
    RemovedBucketSound(t.self, t.buckets[k], k, x);
    hide Sound, SameMembers;
    var m' := set p | p in m && p.key != x.key;
    forall p
      ensures p in Elements(RemovedBucket(t.buckets[k], x)) <==> p in InBucket(t.self, m', k)
    {
      assert p in Elements(t.buckets[k]) <==> p in InBucket(t.self, m, k);
    }
    OneBucketChanges(t, m, k, RemovedBucket(t.buckets[k], x), m');
  }
}
