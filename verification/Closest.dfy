/**
 The search for the peers nearest to a key, over a window of buckets that widens until
 it holds enough of them (dht/routes.go).
 */
module Closest {

  import Bits
  import opened Identity
  import opened Dht

  // ----- Buckets and distance -----

  /** Bit k of the distance between the node and the target. */
  predicate Toward(s: Key, t: Key, k: nat)
    requires k < 8 * |s| && |s| == |t|
  {
    Bit(t, k) != Bit(s, k)
  }

  lemma SharedPrefix(s: Key, p: Key)
    requires |s| == |p| && s != []
    ensures var k := BucketID(s, p);
      && 0 <= k < 8 * |s|
      && (forall j | 0 <= j < k :: Bit(p, j) == Bit(s, j))
      && (k < 8 * |s| - 1 ==> Bit(p, k) != Bit(s, k))
      && (Bit(p, k) != Bit(s, k) || forall j | 0 <= j < 8 * |s| :: Bit(p, j) == Bit(s, j))
  {
    var x := XorKey(p, s);
    PrefixLenMeans(x);
    hide Bit, PrefixLen;
    forall j | 0 <= j < 8 * |s|
      ensures Bit(x, j) <==> Bit(p, j) != Bit(s, j)
    {
      XorKeyBit(p, s, j);
    }
  }

  /**
   Between two buckets the distance from the target is decided by one bit: the peers of
   the lower bucket are nearer than those of the higher one exactly when the target
   itself leaves the node's prefix at the lower bucket's bit.
   */
  lemma ByBucket(s: Key, t: Key, p: Key, q: Key)
    requires s != [] && |p| == |s| == |q| == |t| && BucketID(s, p) < BucketID(s, q)
    ensures 0 <= BucketID(s, p) < 8 * |s|
    ensures Closer(t, p, q) <==> Toward(s, t, BucketID(s, p))
    ensures Closer(t, q, p) <==> !Toward(s, t, BucketID(s, p))
  {
    hide Bit, BucketID;
    SharedPrefix(s, p);
    SharedPrefix(s, q);
    var k := BucketID(s, p);
    CloserAt(t, p, q, k);
    CloserAt(t, q, p, k);
  }

  /** The target's own bucket is nearer than all above it, and those are nearer than all below it. */
  lemma OwnBit(s: Key, t: Key)
    requires |s| == |t| && s != []
    ensures var b := BucketID(s, t);
      && 0 <= b < 8 * |s|
      && (forall k | 0 <= k < b :: !Toward(s, t, k))
      && (b < 8 * |s| - 1 ==> Toward(s, t, b))
  {
    SharedPrefix(s, t);
  }

  // ----- The window -----

  function BucketAt(t: Table, k: int): seq<ID> {
    if InTable(t, k) then t.buckets[k] else []
  }

  /** The peers of the buckets at most w away from b, in the order they are visited. */
  function Gathered(t: Table, b: int, w: nat): seq<ID> {
    if w == 0 then BucketAt(t, b)
    else Gathered(t, b, w - 1) + BucketAt(t, b - w) + BucketAt(t, b + w)
  }

  /** The window at which the search stops, if it has come to w. */
  function Widened(t: Table, b: int, count: nat, w: nat): (r: nat)
    requires InTable(t, b)
    ensures r >= w
    ensures |Gathered(t, b, r)| >= count || (b - r <= 0 && b + r >= |t.buckets| - 1)
    decreases |t.buckets| - w
  {
    if |Gathered(t, b, w)| < count && (b - (w + 1) >= 0 || b + w + 1 < |t.buckets|)
    then Widened(t, b, count, w + 1) else w
  }

  lemma GatheredFirst(t: Table, b: int)
    ensures Gathered(t, b, 0) == BucketAt(t, b)
  {
  }

  lemma WindowStep(t: Table, b: int, count: nat, w: nat)
    requires InTable(t, b)
    ensures Gathered(t, b, w + 1) == Gathered(t, b, w) + BucketAt(t, b - (w + 1)) + BucketAt(t, b + w + 1)
    ensures Widened(t, b, count, w) ==
              if |Gathered(t, b, w)| < count && (b - (w + 1) >= 0 || b + w + 1 < |t.buckets|)
              then Widened(t, b, count, w + 1) else w
  {
  }

  /** What is in a window, by bucket. */
  predicate Within(t: Table, b: int, w: nat, p: ID) {
    b - w <= BucketID(t.self.key, p.key) <= b + w
  }

  lemma BucketMembers(t: Table, k: int, p: ID)
    requires Sound(t)
    ensures p in BucketAt(t, k) <==> p in Peers(t) && BucketID(t.self.key, p.key) == k
    ensures p in BucketAt(t, k) ==> |p.key| == |t.self.key|
  {
    hide BucketID;
    if p in BucketAt(t, k) {
      assert BucketSound(t.self, t.buckets[k], k);
    }
    if p in Peers(t) {
      var j :| 0 <= j < |t.buckets| && p in t.buckets[j];
      assert BucketSound(t.self, t.buckets[j], j);
    }
  }

  lemma {:induction false} GatheredMembers(t: Table, b: int, w: nat, p: ID)
    requires Sound(t)
    ensures p in Gathered(t, b, w) <==> p in Peers(t) && Within(t, b, w, p)
  {
    hide BucketID, Peers, BucketAt;
    if w == 0 {
      BucketMembers(t, b, p);
    } else {
      GatheredMembers(t, b, w - 1, p);
      BucketMembers(t, b - w, p);
      BucketMembers(t, b + w, p);
    }
  }

  lemma DistinctJoin(a: seq<ID>, b: seq<ID>)
    requires Distinct(a) && Distinct(b) && forall p, q | p in a && q in b :: p.key != q.key
    ensures Distinct(a + b)
  {
    var c := a + b;
    forall i, j | 0 <= i < j < |c|
      ensures c[i].key != c[j].key
    {
      if i < |a| <= j {
        assert c[i] in a && c[j] in b;
      }
    }
  }

  lemma BucketDistinct(t: Table, k: int)
    requires Sound(t)
    ensures Distinct(BucketAt(t, k))
  {
    if InTable(t, k) {
      assert BucketSound(t.self, t.buckets[k], k);
    }
  }

  lemma {:induction false} GatheredDistinct(t: Table, b: int, w: nat)
    requires Sound(t)
    ensures Distinct(Gathered(t, b, w))
  {
    hide BucketAt, BucketID, Peers, Distinct, Sound;
    if w == 0 {
      BucketDistinct(t, b);
    } else {
      var g, lo, hi := Gathered(t, b, w - 1), BucketAt(t, b - w), BucketAt(t, b + w);
      GatheredDistinct(t, b, w - 1);
      BucketDistinct(t, b - w);
      BucketDistinct(t, b + w);
      forall p
        ensures p in g ==> Within(t, b, w - 1, p)
        ensures p in lo ==> BucketID(t.self.key, p.key) == b - w
        ensures p in hi ==> BucketID(t.self.key, p.key) == b + w
      {
        GatheredMembers(t, b, w - 1, p);
        BucketMembers(t, b - w, p);
        BucketMembers(t, b + w, p);
      }
      hide Gathered;
      DistinctJoin(g, lo);
      DistinctJoin(g + lo, hi);
    }
  }

  // ----- Sorting by distance -----

  /** Keys of the right length, all different. */
  predicate Comparable(t: Key, s: seq<ID>) {
    Distinct(s) && forall p | p in s :: |p.key| == |t|
  }

  predicate Sorted(t: Key, s: seq<ID>) {
    forall i, j | 0 <= i < j < |s| :: Closer(t, s[i].key, s[j].key)
  }

  function Inserted(t: Key, p: ID, s: seq<ID>): (r: seq<ID>)
    ensures |r| == |s| + 1 && forall q :: q in r <==> q == p || q in s
  {
    if s == [] || Closer(t, p.key, s[0].key) then [p] + s
    else
      assert s == [s[0]] + s[1..];
      [s[0]] + Inserted(t, p, s[1..])
  }

  /** The peers in the order of their distance; as no two are at the same distance there is only one. */
  function Sort(t: Key, s: seq<ID>): (r: seq<ID>)
    ensures |r| == |s| && forall q :: q in r <==> q in s
  {
    if s == [] then []
    else
      assert s == [s[0]] + s[1..];
      Inserted(t, s[0], Sort(t, s[1..]))
  }

  lemma {:induction false} InsertedSorted(t: Key, p: ID, s: seq<ID>)
    requires Sorted(t, s) && |p.key| == |t| && forall q | q in s :: |q.key| == |t| && q.key != p.key
    ensures Sorted(t, Inserted(t, p, s))
  {
    hide Closer;
    if s != [] {
      var r, rest := Inserted(t, p, s), s[1..];
      CloserTotal(t, p.key, s[0].key);
      if Closer(t, p.key, s[0].key) {
        forall j | 1 <= j < |s|
          ensures Closer(t, p.key, s[j].key)
        {
          CloserTransitive(t, p.key, s[0].key, s[j].key);
        }
      } else {
        InsertedSorted(t, p, rest);
        var tail := Inserted(t, p, rest);
        assert r == [s[0]] + tail;
        forall j | 0 <= j < |tail|
          ensures Closer(t, s[0].key, tail[j].key)
        {
          assert tail[j] in tail;
        }
        hide Inserted;
      }
    }
  }

  lemma {:induction false} SortSorted(t: Key, s: seq<ID>)
    requires Comparable(t, s)
    ensures Sorted(t, Sort(t, s))
  {
    if s != [] {
      SortSorted(t, s[1..]);
      hide Inserted, Sorted;
      InsertedSorted(t, s[0], Sort(t, s[1..]));
    }
  }

  lemma SortedDistinct(t: Key, s: seq<ID>)
    requires Sorted(t, s) && forall p | p in s :: |p.key| == |t|
    ensures Distinct(s)
  {
    forall i, j | 0 <= i < j < |s|
      ensures s[i].key != s[j].key
    {
      assert s[i] in s && s[j] in s;
      CloserTotal(t, s[i].key, s[j].key);
    }
  }

  // ----- The search -----

  function Take(s: seq<ID>, count: nat): (r: seq<ID>)
    ensures |r| == if |s| > count then count else |s|
  {
    if |s| > count then s[..count] else s
  }

  /** `FindClosestPeers`. */
  function FoundClosest(t: Table, target: Key, count: nat): seq<ID>
    requires Sound(t)
  {
    if |t.self.key| != |target| then []
    else
      OwnBit(t.self.key, target);
      var b := BucketID(t.self.key, target);
      Take(Sort(target, Gathered(t, b, Widened(t, b, count, 0))), count)
  }

  lemma FoundIs(t: Table, target: Key, count: nat)
    requires Sound(t)
    ensures |t.self.key| != |target| ==> FoundClosest(t, target, count) == []
    ensures |t.self.key| == |target| ==>
              && InTable(t, BucketID(t.self.key, target))
              && var b := BucketID(t.self.key, target);
                 FoundClosest(t, target, count) == Take(Sort(target, Gathered(t, b, Widened(t, b, count, 0))), count)
  {
    if |t.self.key| == |target| {
      OwnBit(t.self.key, target);
    }
  }

  /** r is sorted and is made of the peers of `all` that are nearest to the target. */
  ghost predicate Nearest(target: Key, r: seq<ID>, all: set<ID>) {
    && Sorted(target, r) && Distinct(r)
    && (forall p | p in r :: p in all)
    && forall p, q | p in all && p !in r && q in r :: Closer(target, q.key, p.key)
  }

  lemma SubsetSize(a: set<ID>, b: set<ID>)
    requires a <= b
    ensures |a| <= |b|
  {
    assert b == a + (b - a);
  }

  lemma TakenNearest(target: Key, g: seq<ID>, count: nat)
    requires Comparable(target, g)
    ensures Nearest(target, Take(Sort(target, g), count), Elements(g))
  {
    var s := Sort(target, g);
    var r := Take(s, count);
    SortSorted(target, g);
    hide Sort, Closer;
    assert forall i | 0 <= i < |r| :: r[i] == s[i];
    assert Sorted(target, r);
    SortedDistinct(target, r);
    forall p, q | p in Elements(g) && p !in r && q in r
      ensures Closer(target, q.key, p.key)
    {
      var i :| 0 <= i < |s| && s[i] == p;
      var j :| 0 <= j < |r| && r[j] == q;
      assert i >= |r|;
    }
  }

  lemma GatheredComparable(t: Table, target: Key, b: int, w: nat)
    requires Sound(t) && |target| == |t.self.key|
    ensures Comparable(target, Gathered(t, b, w))
  {
    GatheredDistinct(t, b, w);
    forall p | p in Gathered(t, b, w)
      ensures |p.key| == |target|
    {
      GatheredMembers(t, b, w, p);
      BucketMembers(t, BucketID(t.self.key, p.key), p);
    }
  }

  lemma GatheredSize(t: Table, b: int, w: nat)
    requires Sound(t) && InTable(t, b)
    ensures |Gathered(t, b, w)| <= |Peers(t)|
    ensures b - w <= 0 && b + w >= |t.buckets| - 1 ==> |Gathered(t, b, w)| == |Peers(t)|
  {
    var g := Gathered(t, b, w);
    hide BucketID, Gathered, Sound, Distinct;
    GatheredDistinct(t, b, w);
    DistinctCount(g);
    forall p
      ensures p in g ==> p in Peers(t)
      ensures b - w <= 0 && b + w >= |t.buckets| - 1 && p in Peers(t) ==> p in g
    {
      GatheredMembers(t, b, w, p);
      if p in Peers(t) {
        HeldInTable(t, p);
      }
    }
    SubsetSize(Elements(g), Peers(t));
    if b - w <= 0 && b + w >= |t.buckets| - 1 {
      assert Elements(g) == Peers(t);
    }
  }

  lemma HeldInTable(t: Table, p: ID)
    requires Sound(t) && p in Peers(t)
    ensures InTable(t, BucketID(t.self.key, p.key)) && |p.key| == |t.self.key|
  {
    var k :| 0 <= k < |t.buckets| && p in t.buckets[k];
    assert BucketSound(t.self, t.buckets[k], k);
  }

  /**
   The search returns as many peers as asked for, or all there are; they are sorted, all
   different, and the nearest of the buckets visited.
   */
  lemma ClosestOfWindow(t: Table, target: Key, count: nat)
    requires Sound(t) && |target| == |t.self.key|
    ensures InTable(t, BucketID(t.self.key, target))
    ensures var b, r := BucketID(t.self.key, target), FoundClosest(t, target, count);
            && Nearest(target, r, Elements(Gathered(t, b, Widened(t, b, count, 0))))
            && |r| == (if |Peers(t)| > count then count else |Peers(t)|)
  {
    OwnBit(t.self.key, target);
    var b := BucketID(t.self.key, target);
    var w := Widened(t, b, count, 0);
    GatheredComparable(t, target, b, w);
    TakenNearest(target, Gathered(t, b, w), count);
    GatheredSize(t, b, w);
  }

  // ----- When the window is enough -----

  /** 0 in the target's own bucket, 1 in the buckets above it, 2 below. */
  function Tier(s: Key, target: Key, p: ID): nat {
    if BucketID(s, p.key) == BucketID(s, target) then 0
    else if BucketID(s, p.key) > BucketID(s, target) then 1 else 2
  }

  lemma TiersInOrder(s: Key, target: Key, p: ID, q: ID)
    requires s != [] && |p.key| == |s| == |q.key| == |target|
    requires Tier(s, target, p) < Tier(s, target, q)
    ensures Closer(target, p.key, q.key)
  {
    hide BucketID, Closer, Toward;
    OwnBit(s, target);
    SharedPrefix(s, p.key);
    SharedPrefix(s, q.key);
    if BucketID(s, p.key) < BucketID(s, q.key) {
      ByBucket(s, target, p.key, q.key);
    } else {
      ByBucket(s, target, q.key, p.key);
    }
  }

  /** In the result, peers of the target's own bucket come first, then those above it, then those below. */
  lemma ResultByTiers(t: Table, target: Key, count: nat, i: nat, j: nat)
    requires Sound(t) && |target| == |t.self.key| && i < j < |FoundClosest(t, target, count)|
    ensures var r := FoundClosest(t, target, count);
            Tier(t.self.key, target, r[i]) <= Tier(t.self.key, target, r[j])
  {
    var r := FoundClosest(t, target, count);
    ClosestOfWindow(t, target, count);
    var b := BucketID(t.self.key, target);
    GatheredComparable(t, target, b, Widened(t, b, count, 0));
    assert r[i] in r && r[j] in r;
    hide FoundClosest, BucketID, Closer, Gathered;
    if Tier(t.self.key, target, r[i]) > Tier(t.self.key, target, r[j]) {
      TiersInOrder(t.self.key, target, r[j], r[i]);
      CloserTotal(target, r[i].key, r[j].key);
    }
  }

  /** Within the window, the peers no unvisited one can be nearer than. */
  predicate IsNear(s: Key, target: Key, w: nat, p: ID)
    requires |s| == |target| == |p.key| && s != []
  {
    var b, k := BucketID(s, target), BucketID(s, p.key);
    SharedPrefix(s, p.key);
    k == b || (b < k <= b + w && Toward(s, target, k))
  }

  function NearBucket(t: Table, target: Key, k: int): seq<ID>
    requires |t.self.key| == |target| && |t.buckets| == 8 * |target|
  {
    if InTable(t, k) && Toward(t.self.key, target, k) then BucketAt(t, k) else []
  }

  /** The peers of the target's own bucket and of those above it, up to w away, whose bit the target has left too. */
  function NearPeers(t: Table, target: Key, w: nat): seq<ID>
    requires |t.self.key| == |target| && |t.buckets| == 8 * |target|
  {
    var b := BucketID(t.self.key, target);
    if w == 0 then BucketAt(t, b) else NearPeers(t, target, w - 1) + NearBucket(t, target, b + w)
  }

  lemma {:induction false} NearMembers(t: Table, target: Key, w: nat, p: ID)
    requires Sound(t) && |target| == |t.self.key|
    ensures p in NearPeers(t, target, w) <==> p in Peers(t) && |p.key| == |target| && IsNear(t.self.key, target, w, p)
  {
    hide BucketID, Peers, BucketAt, Toward;
    var b := BucketID(t.self.key, target);
    if p in Peers(t) {
      HeldInTable(t, p);
    }
    if w == 0 {
      BucketMembers(t, b, p);
    } else {
      NearMembers(t, target, w - 1, p);
      BucketMembers(t, b + w, p);
    }
  }

  lemma {:induction false} NearDistinct(t: Table, target: Key, w: nat)
    requires Sound(t) && |target| == |t.self.key|
    ensures Distinct(NearPeers(t, target, w))
  {
    hide BucketAt, BucketID, Peers, Distinct, Toward;
    var b := BucketID(t.self.key, target);
    if w == 0 {
      BucketDistinct(t, b);
    } else {
      var n, hi := NearPeers(t, target, w - 1), NearBucket(t, target, b + w);
      NearDistinct(t, target, w - 1);
      BucketDistinct(t, b + w);
      assert Distinct(hi) by {
        EmptyDistinct();
      }
      forall p
        ensures p in n ==> |p.key| == |target| && IsNear(t.self.key, target, w - 1, p)
        ensures p in hi ==> BucketID(t.self.key, p.key) == b + w
      {
        NearMembers(t, target, w - 1, p);
        BucketMembers(t, b + w, p);
      }
      assert NearPeers(t, target, w) == n + hi;
      hide NearPeers, NearBucket;
      DistinctJoin(n, hi);
    }
  }

  lemma EmptyDistinct()
    ensures Distinct([])
  {
  }

  /** Near peers are nearer than all others of the table. */
  lemma NearIsNearer(s: Key, target: Key, w: nat, p: ID, q: ID)
    requires s != [] && |p.key| == |s| == |q.key| == |target|
    requires IsNear(s, target, w, p) && !IsNear(s, target, w, q)
    ensures Closer(target, p.key, q.key)
  {
    hide BucketID, Closer, Toward;
    OwnBit(s, target);
    SharedPrefix(s, p.key);
    SharedPrefix(s, q.key);
    if BucketID(s, p.key) < BucketID(s, q.key) {
      ByBucket(s, target, p.key, q.key);
    } else {
      ByBucket(s, target, q.key, p.key);
    }
  }

  /** Peers above the window are nearer than every visited peer that is not near. */
  lemma AboveIsNearer(s: Key, target: Key, w: nat, u: ID, q: ID)
    requires s != [] && |u.key| == |s| == |q.key| == |target|
    requires BucketID(s, u.key) > BucketID(s, target) + w >= BucketID(s, q.key) && !IsNear(s, target, w, q)
    ensures Closer(target, u.key, q.key)
  {
    hide BucketID, Closer, Toward;
    OwnBit(s, target);
    SharedPrefix(s, q.key);
    ByBucket(s, target, q.key, u.key);
  }

  predicate EmptyAbove(t: Table, k: int) {
    forall j | 0 <= j < |t.buckets| && k < j :: t.buckets[j] == []
  }

  lemma ResultInWindow(t: Table, target: Key, b: int, w: nat, r: seq<ID>, q: ID)
    requires Sound(t) && |target| == |t.self.key| && q in r
    requires Nearest(target, r, Elements(Gathered(t, b, w)))
    ensures q in Peers(t) && Within(t, b, w, q) && |q.key| == |target|
  {
    GatheredMembers(t, b, w, q);
    HeldInTable(t, q);
  }

  /** With enough near peers in the window, only near ones are returned. */
  lemma ResultIsNear(t: Table, target: Key, w: nat, r: seq<ID>, q: ID)
    requires Sound(t) && |target| == |t.self.key| && q in r && |q.key| == |target|
    requires Nearest(target, r, Elements(Gathered(t, BucketID(t.self.key, target), w)))
    requires |r| <= |NearPeers(t, target, w)|
    ensures IsNear(t.self.key, target, w, q)
  {
    hide BucketID, Closer, Toward, Peers, NearPeers, Gathered, Sorted, BucketSound;
    var b, n := BucketID(t.self.key, target), NearPeers(t, target, w);
    if !IsNear(t.self.key, target, w, q) {
      forall p | p in n
        ensures p in r && p != q
      {
        NearMembers(t, target, w, p);
        GatheredMembers(t, b, w, p);
        NearIsNearer(t.self.key, target, w, p, q);
        CloserTotal(target, p.key, q.key);
      }
      NearDistinct(t, target, w);
      DistinctCount(n);
      DistinctCount(r);
      assert q !in Elements(n);
      SubsetSize(Elements(n) + {q}, Elements(r));
    }
  }

  lemma FartherBelow(t: Table, target: Key, w: nat, p: ID, q: ID)
    requires t.self.key != [] && |target| == |t.self.key| == |p.key| == |q.key|
    requires BucketID(t.self.key, p.key) < BucketID(t.self.key, target) - w <= BucketID(t.self.key, q.key)
    ensures Closer(target, q.key, p.key)
  {
    hide BucketID, Closer, Toward;
    OwnBit(t.self.key, target);
    ByBucket(t.self.key, target, p.key, q.key);
  }

  lemma EnoughIsExact(t: Table, target: Key, w: nat, r: seq<ID>)
    requires Sound(t) && |target| == |t.self.key|
    requires Nearest(target, r, Elements(Gathered(t, BucketID(t.self.key, target), w)))
    requires EmptyAbove(t, BucketID(t.self.key, target) + w) || |r| <= |NearPeers(t, target, w)|
    ensures Nearest(target, r, Peers(t))
  {
    var b := BucketID(t.self.key, target);
    forall q | q in r
      ensures q in Peers(t) && Within(t, b, w, q) && |q.key| == |target|
    {
      ResultInWindow(t, target, b, w, r, q);
    }
    forall p, q | p in Peers(t) && p !in r && q in r
      ensures Closer(target, q.key, p.key)
    {
      HeldInTable(t, p);
      GatheredMembers(t, b, w, p);
      hide BucketID, Closer, NearPeers, Gathered, Sorted;
      var k := BucketID(t.self.key, p.key);
      if k < b - w {
        FartherBelow(t, target, w, p, q);
      } else if k > b + w {
        BucketMembers(t, k, p);
        ResultIsNear(t, target, w, r, q);
        NearIsNearer(t.self.key, target, w, q, p);
      }
    }
  }

  lemma TooFewIsInexact(t: Table, target: Key, w: nat, r: seq<ID>, u: ID)
    requires Sound(t) && |target| == |t.self.key| && u in Peers(t)
    requires Nearest(target, r, Elements(Gathered(t, BucketID(t.self.key, target), w)))
    requires BucketID(t.self.key, u.key) > BucketID(t.self.key, target) + w
    requires |r| > |NearPeers(t, target, w)|
    ensures !Nearest(target, r, Peers(t))
  {
    var b, n := BucketID(t.self.key, target), NearPeers(t, target, w);
    HeldInTable(t, u);
    hide BucketID, Closer, NearPeers, Gathered, Sorted, Sound, Toward, Peers;
    if forall q | q in r :: q in n {
      NearDistinct(t, target, w);
      DistinctCount(n);
      DistinctCount(r);
      SubsetSize(Elements(r), Elements(n));
      assert false;
    }
    var q :| q in r && q !in n;
    ResultInWindow(t, target, b, w, r, q);
    NearMembers(t, target, w, q);
    AboveIsNearer(t.self.key, target, w, u, q);
    GatheredMembers(t, b, w, u);
    assert u !in r;
    CloserTotal(target, u.key, q.key);
  }

  /**
   The result is made of the nearest peers of the whole table exactly when no bucket above
   the window holds a peer, or the window holds enough peers that are near: in the
   target's own bucket, or in buckets above it at bits where the target differs from
   the node.
   */
  lemma ExactWhen(t: Table, target: Key, count: nat)
    requires Sound(t) && |target| == |t.self.key|
    ensures InTable(t, BucketID(t.self.key, target))
    ensures var b := BucketID(t.self.key, target);
            var w := Widened(t, b, count, 0);
            Nearest(target, FoundClosest(t, target, count), Peers(t))
            <==> EmptyAbove(t, b + w) || |NearPeers(t, target, w)| >= count
  {
    hide BucketID, FoundClosest, Widened, NearPeers, Gathered, Nearest, Peers, BucketSound;
    ClosestOfWindow(t, target, count);
    var b, r := BucketID(t.self.key, target), FoundClosest(t, target, count);
    var w := Widened(t, b, count, 0);
    GatheredSize(t, b, w);
    if EmptyAbove(t, b + w) || |NearPeers(t, target, w)| >= count {
      EnoughIsExact(t, target, w, r);
    } else {
      var j :| 0 <= j < |t.buckets| && b + w < j && t.buckets[j] != [];
      var u := t.buckets[j][0];
      BucketMembers(t, j, u);
      TooFewIsInexact(t, target, w, r, u);
    }
  }

  lemma OwnBucketIsEnough(t: Table, target: Key, count: nat)
    requires Sound(t) && |target| == |t.self.key|
    requires |BucketAt(t, BucketID(t.self.key, target))| >= count || target == t.self.key
    ensures Nearest(target, FoundClosest(t, target, count), Peers(t))
  {
    hide BucketID, FoundClosest, Nearest, Gathered, Toward, BucketSound, Peers;
    OwnBit(t.self.key, target);
    ExactWhen(t, target, count);
    var b := BucketID(t.self.key, target);
    if target == t.self.key {
      NotToward(target);
    } else {
      assert Gathered(t, b, 0) == BucketAt(t, b) by {
        GatheredFirst(t, b);
      }
      assert Widened(t, b, count, 0) == 0;
      assert NearPeers(t, target, 0) == BucketAt(t, b);
    }
  }

  lemma NotToward(s: Key)
    requires s != []
    ensures forall k | 0 <= k < 8 * |s| :: !Toward(s, s, k)
  {
  }

  lemma {:induction false} XorZero(x: nat)
    ensures Bits.Xor(x, 0) == x
  {
    if x > 0 {
      XorZero(x / 2);
    }
  }

  lemma BucketOfByte(x: Bits.Byte)
    ensures BucketID([0], [x]) == if x == 0 then 7 else 8 - Len(x)
  {
    XorZero(x);
    assert XorKey([x], [0]) == [x];
    hide XorKey, Len, Bits.Xor;
    assert FirstByte([x]) == if x == 0 then 1 else 0;
  }

  lemma {:induction false} LenDoubles(x: nat)
    requires x > 0
    ensures Len(2 * x) == Len(x) + 1
  {
    hide Bits.Pow2;
    assert (2 * x) / 2 == x;
  }

  lemma BucketsOfZero()
    ensures BucketID([0], [0]) == 7 && BucketID([0], [0x20]) == 2
    ensures BucketID([0], [0x40]) == 1 && BucketID([0], [0x80]) == 0
  {
    assert Len(1) == 1;
    hide *;
    LenDoubles(1);
    LenDoubles(2);
    LenDoubles(4);
    LenDoubles(8);
    LenDoubles(0x10);
    LenDoubles(0x20);
    LenDoubles(0x40);
    BucketOfByte(0);
    BucketOfByte(0x20);
    BucketOfByte(0x40);
    BucketOfByte(0x80);
  }

  lemma SecondBit()
    ensures !Toward([0], [0x80], 1)
  {
    assert Bits.Pow2(6) == 64 by {
      assert Bits.Pow2(3) == 8;
    }
    hide Bits.Pow2;
  }

  lemma NearerByByte()
    requires BucketID([0], [0x40]) == 1 && BucketID([0], [0x20]) == 2
    ensures Closer([0x80], [0x20], [0x40])
  {
    hide *;
    SecondBit();
    ByBucket([0], [0x80], [0x40], [0x20]);
  }

  lemma SmallTable(self: ID, p: ID, u: ID)
    requires self.key == [0] && p.key == [0x40] && u.key == [0x20]
    ensures Sound(Table(self, [[], [p], [u], [], [], [], [], [self]]))
  {
    hide BucketID;
    BucketsOfZero();
    var t := Table(self, [[], [p], [u], [], [], [], [], [self]]);
    assert BucketSound(self, [], 0) && BucketSound(self, [p], 1) && BucketSound(self, [u], 2);
    assert BucketSound(self, [], 3) && BucketSound(self, [], 4) && BucketSound(self, [], 5);
    assert BucketSound(self, [], 6) && BucketSound(self, [self], 7);
    hide BucketSound;
  }

  /** A table in which the search misses the nearest peer: it sits above the window, which is full without it. */
  lemma MissesNearest(self: ID, p: ID, u: ID)
    requires self.key == [0] && p.key == [0x40] && u.key == [0x20]
    ensures var t := Table(self, [[], [p], [u], [], [], [], [], [self]]);
            Sound(t) && FoundClosest(t, [0x80], 1) == [p] && Closer([0x80], u.key, p.key)
  {
    hide BucketID, Closer, FoundClosest, Sound;
    var t := Table(self, [[], [p], [u], [], [], [], [], [self]]);
    BucketsOfZero();
    NearerByByte();
    SmallTable(self, p, u);
    FoundIs(t, [0x80], 1);
    assert Gathered(t, 0, 0) == [] && Gathered(t, 0, 1) == [p];
    hide Gathered;
    assert Widened(t, 0, 1, 0) == 1;
    hide Widened;
    assert Sort([0x80], [p]) == [p];
  }
}
