/**
 The node lookup of network/components/discovery/rpc.go: queries sent to several peers
 at a time, whose answers come back in any order and name further peers to ask.
 */
module Lookup {

  /** A peer, by the hexadecimal form of its public key. */
  type Peer = string

  /**
   The state of a lookup between two answers.  `outstanding` are the queries whose answer
   has not been received, `asked` all queries sent so far.
   */
  datatype State = State(
    pending: int, queue: seq<Peer>, outstanding: seq<Peer>, visited: set<Peer>, results: seq<Peer>, asked: seq<Peer>)

  function Initial(queue: seq<Peer>, visited: set<Peer>): State {
    State(0, queue, [], visited, [], [])
  }

  function Query(s: State, p: Peer): State {
    s.(pending := s.pending + 1, outstanding := s.outstanding + [p], asked := s.asked + [p])
  }

  /** The loop that asks peers from the front of the queue, as long as fewer than alpha queries are pending. */
  function Dispatched(s: State, alpha: int): State
    decreases |s.queue|
  {
    if s.pending < alpha && s.queue != []
    then Dispatched(Query(s, s.queue[0]).(queue := s.queue[1..]), alpha) else s
  }

  /** An answer is received from one of the peers asked. */
  function Answered(s: State, i: nat): State
    requires i < |s.outstanding|
  {
    s.(pending := s.pending - 1, outstanding := s.outstanding[..i] + s.outstanding[i + 1..])
  }

  // ----- performLookup -----

  /** The peers asked first are results; the others in the queue are forgotten. */
  function Start(queue: seq<Peer>, visited: set<Peer>, alpha: int): State {
    var s := Dispatched(Initial(queue, visited), alpha);
    s.(results := s.asked, queue := [])
  }

  /** Peers of an answer that were not visited before become results and are queued. */
  function Admitted(s: State, response: seq<Peer>): State
    decreases |response|
  {
    if response == [] then s
    else
      var p := response[0];
      var s' := if p in s.visited then s
                else s.(visited := s.visited + {p}, results := s.results + [p], queue := s.queue + [p]);
      Admitted(s', response[1..])
  }

  function Received(s: State, i: nat, response: seq<Peer>, alpha: int): State
    requires i < |s.outstanding|
  {
    Dispatched(Admitted(Answered(s, i), response), alpha).(queue := [])
  }

  // ----- performLookupClosest -----

  function StartClosest(queue: seq<Peer>, visited: set<Peer>, alpha: int): State {
    Dispatched(Initial(queue, visited), alpha)
  }

  /** Peers of an answer that are not among those asked first become results and are queued. */
  function AdmittedClosest(s: State, known: set<Peer>, response: seq<Peer>): State
    decreases |response|
  {
    if response == [] then s
    else
      var p := response[0];
      var s' := if p in known then s else s.(results := s.results + [p], queue := s.queue + [p]);
      AdmittedClosest(s', known, response[1..])
  }

  const BUCKET_SIZE := 16

  /** The queue in the order the sort leaves it, cut to the bucket size. */
  function Reordered(s: State, order: seq<Peer>): State {
    s.(queue := if |order| > BUCKET_SIZE then order[..BUCKET_SIZE] else order)
  }

  /** The loop that asks the peers of the queue from position i on that were not visited before. */
  function Scheduled(s: State, alpha: int, i: nat): State
    requires i <= |s.queue|
    decreases |s.queue| - i
  {
    if s.pending < alpha && i < |s.queue|
    then
      var p := s.queue[i];
      Scheduled(if p in s.visited then s else Query(s, p).(visited := s.visited + {p}), alpha, i + 1)
    else s
  }

  function ReceivedClosest(s: State, known: set<Peer>, i: nat, response: seq<Peer>, order: seq<Peer>, alpha: int): State
    requires i < |s.outstanding|
  {
    Scheduled(Reordered(AdmittedClosest(Answered(s, i), known, response), order), alpha, 0)
  }

  /** What is sorted when an answer has been taken in; the comparison reads `results` at positions of the queue. */
  function BeforeSort(s: State, known: set<Peer>, i: nat, response: seq<Peer>): State
    requires i < |s.outstanding|
  {
    AdmittedClosest(Answered(s, i), known, response)
  }

  // ----- Invariant -----

  predicate NoRepeats(s: seq<Peer>) {
    forall i, j | 0 <= i < j < |s| :: s[i] != s[j]
  }

  /** Pending counts the outstanding queries, of which there are at most alpha, and nobody was asked twice. */
  ghost predicate Sound(s: State, alpha: int) {
    && s.pending == |s.outstanding|
    && (s.pending <= alpha || s.pending == 0)
    && NoRepeats(s.asked)
    && (forall p | p in s.asked :: p in s.visited)
    && (forall p | p in s.outstanding :: p in s.asked)
  }

  /** How much is left: peers of the universe not visited, plus answers to come. */
  ghost function Left(s: State, universe: set<Peer>): int {
    |universe - s.visited| + |s.outstanding|
  }

  lemma QueryKeeps(s: State, p: Peer, alpha: int)
    requires Sound(s, alpha) && s.pending < alpha && p in s.visited && p !in s.asked
    ensures Sound(Query(s, p), alpha)
  {
  }

  /** The queue holds visited peers that were not asked, each once. */
  ghost predicate Queued(s: State) {
    && NoRepeats(s.queue)
    && forall p | p in s.queue :: p in s.visited && p !in s.asked
  }

  /** How many of n peers are asked while `pending` queries are out. */
  function Asks(pending: int, n: nat, alpha: int): (d: nat)
    ensures d <= n
  {
    if pending >= alpha then 0 else if alpha - pending < n then alpha - pending else n
  }

  lemma {:induction false} DispatchedKeeps(s: State, alpha: int)
    requires Sound(s, alpha) && Queued(s)
    ensures var r, d := Dispatched(s, alpha), Asks(s.pending, |s.queue|, alpha);
      && Sound(r, alpha) && r.visited == s.visited && r.results == s.results
      && r.asked == s.asked + s.queue[..d] && r.queue == s.queue[d..] && |r.outstanding| == |s.outstanding| + d
    decreases |s.queue|
  {
    if s.pending < alpha && s.queue != [] {
      var p, d := s.queue[0], Asks(s.pending, |s.queue|, alpha);
      var s' := Query(s, p).(queue := s.queue[1..]);
      hide Sound, Queued, NoRepeats;
      assert Dispatched(s, alpha) == Dispatched(s', alpha);
      hide Dispatched;
      FirstQueryKeeps(s, alpha);
      DispatchedKeeps(s', alpha);
      assert s.queue[..d] == [p] + s'.queue[..d - 1];
      assert s.queue[d..] == s'.queue[d - 1..];
      assert s.asked + s.queue[..d] == s'.asked + s'.queue[..d - 1];
    } else {
      assert s.asked == s.asked + s.queue[..0] && s.queue == s.queue[0..];
    }
  }

  lemma FirstQueryKeeps(s: State, alpha: int)
    requires Sound(s, alpha) && Queued(s) && s.pending < alpha && s.queue != []
    ensures var s' := Query(s, s.queue[0]).(queue := s.queue[1..]); Sound(s', alpha) && Queued(s')
  {
    QueryKeeps(s, s.queue[0], alpha);
  }

  lemma AnsweredKeeps(s: State, i: nat, alpha: int)
    requires Sound(s, alpha) && i < |s.outstanding|
    ensures Sound(Answered(s, i), alpha) && |Answered(s, i).outstanding| == |s.outstanding| - 1
  {
  }

  /** The results are the peers asked first and those visited since, each once. */
  ghost predicate Complete(s: State, first: seq<Peer>, visited: set<Peer>) {
    && NoRepeats(s.results)
    && visited <= s.visited
    && forall p :: p in s.results <==> p in first || (p in s.visited && p !in visited)
  }

  lemma {:induction false} AdmittedKeeps(s: State, response: seq<Peer>, alpha: int, first: seq<Peer>, visited: set<Peer>,
                                         universe: set<Peer>)
    requires Sound(s, alpha) && Queued(s) && Complete(s, first, visited)
    requires (forall p | p in first :: p in visited) && forall p | p in response :: p in universe
    ensures var r := Admitted(s, response);
      && Sound(r, alpha) && Queued(r) && Complete(r, first, visited) && r.outstanding == s.outstanding
      && |universe - r.visited| + |r.queue| == |universe - s.visited| + |s.queue|
    decreases |response|
  {
    if response != [] {
      var p := response[0];
      if p in s.visited {
        AdmittedKeeps(s, response[1..], alpha, first, visited, universe);
      } else {
        var s' := s.(visited := s.visited + {p}, results := s.results + [p], queue := s.queue + [p]);
        assert universe - s.visited == (universe - s'.visited) + {p};
        AdmitOne(s, p, alpha, first, visited);
        AdmittedKeeps(s', response[1..], alpha, first, visited, universe);
      }
      hide Sound, Queued, Complete;
    }
  }

  lemma AdmitOne(s: State, p: Peer, alpha: int, first: seq<Peer>, visited: set<Peer>)
    requires Sound(s, alpha) && Queued(s) && Complete(s, first, visited) && p !in s.visited
    requires forall q | q in first :: q in visited
    ensures var r := s.(visited := s.visited + {p}, results := s.results + [p], queue := s.queue + [p]);
            Sound(r, alpha) && Queued(r) && Complete(r, first, visited)
  {
    assert p !in s.results && p !in s.queue && p !in s.asked;
  }

  /** One round of `performLookup` keeps the invariant and leaves less to do. */
  lemma ReceivedKeeps(s: State, i: nat, response: seq<Peer>, alpha: int, first: seq<Peer>, visited: set<Peer>,
                      universe: set<Peer>)
    requires i < |s.outstanding| && Sound(s, alpha) && s.queue == [] && Complete(s, first, visited)
    requires (forall p | p in first :: p in visited) && forall p | p in response :: p in universe
    ensures var r := Received(s, i, response, alpha);
            Sound(r, alpha) && r.queue == [] && Complete(r, first, visited) && Left(r, universe) < Left(s, universe)
  {
    AnsweredKeeps(s, i, alpha);
    var a := Answered(s, i);
    assert Queued(a) && Complete(a, first, visited);
    AdmittedKeeps(a, response, alpha, first, visited, universe);
    DispatchedKeeps(Admitted(a, response), alpha);
    hide Admitted, Dispatched, NoRepeats;
  }

  // ----- Who is asked -----

  /** The peers of a list that were not visited before, each once, in the order they are first named. */
  function Fresh(visited: set<Peer>, list: seq<Peer>): seq<Peer>
    decreases |list|
  {
    if list == [] then []
    else if list[0] in visited then Fresh(visited, list[1..])
    else [list[0]] + Fresh(visited + {list[0]}, list[1..])
  }

  lemma {:induction false} FreshMeans(visited: set<Peer>, list: seq<Peer>)
    ensures NoRepeats(Fresh(visited, list))
    ensures forall p :: p in Fresh(visited, list) <==> p in list && p !in visited
    decreases |list|
  {
    if list != [] {
      FreshMeans(visited, list[1..]);
      FreshMeans(visited + {list[0]}, list[1..]);
    }
  }

  ghost function Elements(list: seq<Peer>): set<Peer> {
    set p | p in list
  }

  lemma {:induction false} DispatchedIs(s: State, alpha: int)
    ensures var d := Asks(s.pending, |s.queue|, alpha);
            Dispatched(s, alpha) == State(s.pending + d, s.queue[d..], s.outstanding + s.queue[..d], s.visited, s.results,
                                          s.asked + s.queue[..d])
    decreases |s.queue|
  {
    var d := Asks(s.pending, |s.queue|, alpha);
    if d > 0 {
      var p := s.queue[0];
      var t := Query(s, p).(queue := s.queue[1..]);
      DispatchedIs(t, alpha);
      assert s.queue[..d] == [p] + t.queue[..d - 1];
      assert t.queue[d - 1..] == s.queue[d..];
      assert forall q: seq<Peer> :: q + [p] + t.queue[..d - 1] == q + ([p] + t.queue[..d - 1]);
    } else {
      assert s.queue[..0] == [] && s.queue[0..] == s.queue;
      assert s.outstanding + [] == s.outstanding && s.asked + [] == s.asked;
    }
  }

  lemma {:induction false} AdmittedIs(s: State, response: seq<Peer>)
    ensures var f := Fresh(s.visited, response);
            Admitted(s, response) == s.(visited := s.visited + Elements(f), results := s.results + f, queue := s.queue + f)
    decreases |response|
  {
    if response == [] {
      assert s.visited + Elements([]) == s.visited && s.results + [] == s.results && s.queue + [] == s.queue;
    } else {
      var p := response[0];
      if p in s.visited {
        AdmittedIs(s, response[1..]);
      } else {
        var t := s.(visited := s.visited + {p}, results := s.results + [p], queue := s.queue + [p]);
        AdmittedIs(t, response[1..]);
        FreshStep(s.visited, s.results, s.queue, response);
      }
    }
  }

  lemma FreshStep(visited: set<Peer>, results: seq<Peer>, queue: seq<Peer>, list: seq<Peer>)
    requires list != [] && list[0] !in visited
    ensures var p, f := list[0], Fresh(visited + {list[0]}, list[1..]);
      && Fresh(visited, list) == [p] + f
      && visited + {p} + Elements(f) == visited + Elements([p] + f)
      && results + [p] + f == results + ([p] + f) && queue + [p] + f == queue + ([p] + f)
  {
    var p, f := list[0], Fresh(visited + {list[0]}, list[1..]);
    assert Fresh(visited, list) == [p] + f;
    hide Fresh;
    VisitedGrows(visited, [p], f);
    Regroup(results, [p], f);
    Regroup(queue, [p], f);
    assert Elements([p]) == {p};
  }

  lemma VisitedGrows(visited: set<Peer>, a: seq<Peer>, b: seq<Peer>)
    ensures visited + Elements(a) + Elements(b) == visited + Elements(a + b)
  {
  }

  lemma Regroup(a: seq<Peer>, b: seq<Peer>, c: seq<Peer>)
    ensures a + b + c == a + (b + c)
  {
  }

  /** One round of `performLookup`, exactly: what is new is a result, and as much of it as there is room for is asked. */
  lemma ReceivedIs(s: State, i: nat, response: seq<Peer>, alpha: int)
    requires i < |s.outstanding| && s.queue == []
    ensures var f := Fresh(s.visited, response);
            var d := Asks(s.pending - 1, |f|, alpha);
            Received(s, i, response, alpha)
            == State(s.pending - 1 + d, [], s.outstanding[..i] + s.outstanding[i + 1..] + f[..d],
                     s.visited + Elements(f), s.results + f, s.asked + f[..d])
  {
    hide Admitted, Dispatched, Fresh, Elements;
    AdmittedIs(Answered(s, i), response);
    var f := Fresh(s.visited, response);
    assert [] + f == f;
    DispatchedIs(Admitted(Answered(s, i), response), alpha);
  }

  lemma {:induction false} ScheduledIs(s: State, alpha: int, i: nat)
    requires i <= |s.queue|
    ensures var f := Fresh(s.visited, s.queue[i..]);
            var d := Asks(s.pending, |f|, alpha);
            Scheduled(s, alpha, i) == s.(pending := s.pending + d, outstanding := s.outstanding + f[..d],
                                         visited := s.visited + Elements(f[..d]), asked := s.asked + f[..d])
    decreases |s.queue| - i
  {
    var list := s.queue[i..];
    var f := Fresh(s.visited, list);
    var d := Asks(s.pending, |f|, alpha);
    if s.pending < alpha && i < |s.queue| {
      var p := s.queue[i];
      assert list[0] == p && list[1..] == s.queue[i + 1..];
      if p in s.visited {
        ScheduledIs(s, alpha, i + 1);
      } else {
        ScheduledIs(Query(s, p).(visited := s.visited + {p}), alpha, i + 1);
        AskStep(s, p, Fresh(s.visited + {p}, list[1..]), d);
      }
    } else {
      assert d == 0 && f[..0] == [];
      AskNone(s);
    }
  }

  lemma AskStep(s: State, p: Peer, f: seq<Peer>, d: nat)
    requires 0 < d <= |f| + 1
    ensures ([p] + f)[..d] == [p] + f[..d - 1]
    ensures s.outstanding + [p] + f[..d - 1] == s.outstanding + ([p] + f[..d - 1])
    ensures s.asked + [p] + f[..d - 1] == s.asked + ([p] + f[..d - 1])
    ensures s.visited + {p} + Elements(f[..d - 1]) == s.visited + Elements([p] + f[..d - 1])
  {
  }

  lemma AskNone(s: State)
    ensures s.outstanding + [] == s.outstanding && s.asked + [] == s.asked && s.visited + Elements([]) == s.visited
  {
  }

  // ----- Runs of performLookup -----

  /** The answer of the i-th outstanding query. */
  datatype Answer = Answer(i: nat, response: seq<Peer>)

  function Earlier<T>(run: seq<T>): (r: seq<T>)
    requires run != []
    ensures |r| == |run| - 1
  {
    run[..|run| - 1]
  }

  /** The answers can come in this order, and name only peers of the universe. */
  predicate Possible(s: State, run: seq<Answer>, alpha: int, universe: set<Peer>)
    decreases |run|, 0
  {
    run == [] ||
    (&& Possible(s, Earlier(run), alpha, universe)
     && run[|run| - 1].i < |After(s, Earlier(run), alpha, universe).outstanding|
     && forall p | p in run[|run| - 1].response :: p in universe)
  }

  function After(s: State, run: seq<Answer>, alpha: int, universe: set<Peer>): State
    requires Possible(s, run, alpha, universe)
    decreases |run|, 1
  {
    if run == [] then s
    else
      var a := run[|run| - 1];
      Received(After(s, Earlier(run), alpha, universe), a.i, a.response, alpha)
  }

  lemma StartSound(queue: seq<Peer>, visited: set<Peer>, alpha: int)
    requires NoRepeats(queue) && forall p | p in queue :: p in visited
    ensures var s := Start(queue, visited, alpha);
      && Sound(s, alpha) && s.queue == [] && Complete(s, s.asked, visited) && s.visited == visited
      && |s.outstanding| == |s.asked| <= |queue| && s.asked == queue[..|s.asked|]
      && (|s.asked| == |queue| || s.pending >= alpha)
  {
    DispatchedKeeps(Initial(queue, visited), alpha);
  }

  /**
   Every run of `performLookup`, whatever order the answers come in: pending counts the
   outstanding queries and never exceeds alpha, nobody is asked twice, the results are
   the peers asked first and those newly visited, and the number of answers is bounded,
   so that the lookup ends.
   */
  lemma {:induction false} LookupRun(queue: seq<Peer>, visited: set<Peer>, run: seq<Answer>, alpha: int, universe: set<Peer>)
    requires NoRepeats(queue) && forall p | p in queue :: p in visited
    requires Possible(Start(queue, visited, alpha), run, alpha, universe)
    ensures var s0 := Start(queue, visited, alpha);
            var s := After(s0, run, alpha, universe);
      && Sound(s, alpha) && s.queue == [] && Complete(s, s0.asked, visited)
      && |run| + Left(s, universe) <= |s0.asked| + |universe - visited|
      && |s.asked| == |run| + |s.outstanding|
      && (run != [] ==> AsksNew(After(s0, Earlier(run), alpha, universe), s, run[|run| - 1].response, alpha))
  {
    hide Sound, Complete, Start, Received;
    StartSound(queue, visited, alpha);
    if run != [] {
      LookupRun(queue, visited, Earlier(run), alpha, universe);
      var s0, a := Start(queue, visited, alpha), run[|run| - 1];
      AskedAreVisited(s0, alpha);
      ReceivedKeeps(After(s0, Earlier(run), alpha, universe), a.i, a.response, alpha, s0.asked, visited, universe);
      ReceivedAsks(After(s0, Earlier(run), alpha, universe), a.i, a.response, alpha);
    }
  }

  /**
   What a reply adds: the peers it names first become results, and all of them are asked, or
   the first of them up to the moment alpha queries are out.
   */
  ghost predicate AsksNew(before: State, s: State, response: seq<Peer>, alpha: int) {
    var f := Fresh(before.visited, response);
    && s.results == before.results + f && s.visited == before.visited + Elements(f)
    && exists d: nat :: d <= |f| && s.asked == before.asked + f[..d] && (d == |f| || s.pending >= alpha)
  }

  lemma ReceivedAsks(s: State, i: nat, response: seq<Peer>, alpha: int)
    requires i < |s.outstanding| && s.queue == []
    ensures AsksNew(s, Received(s, i, response, alpha), response, alpha)
    ensures var r := Received(s, i, response, alpha);
            |r.asked| - |r.outstanding| == |s.asked| - |s.outstanding| + 1
  {
    hide Received, Fresh, Elements;
    ReceivedIs(s, i, response, alpha);
  }

  /** If there is room for all of the universe, everybody who is newly visited is asked. */
  lemma {:induction false} RoomAsksAll(queue: seq<Peer>, visited: set<Peer>, run: seq<Answer>, alpha: int, universe: set<Peer>)
    requires NoRepeats(queue) && forall p | p in queue :: p in visited
    requires Possible(Start(queue, visited, alpha), run, alpha, universe)
    requires alpha >= |queue| + |universe - visited|
    ensures var s := After(Start(queue, visited, alpha), run, alpha, universe);
      && (forall p | p in s.visited && p !in visited :: p in s.asked)
      && (forall p | p in queue :: p in s.asked)
      && forall k, p | 0 <= k < |run| && p in run[k].response :: p in visited || p in s.asked
  {
    hide Received, Start, Sound, Complete, NoRepeats, Fresh, Elements, AsksNew;
    var s0 := Start(queue, visited, alpha);
    StartSound(queue, visited, alpha);
    if run != [] {
      var before, a := Earlier(run), run[|run| - 1];
      RoomAsksAll(queue, visited, before, alpha, universe);
      LookupRun(queue, visited, before, alpha, universe);
      var t := After(s0, before, alpha, universe);
      PendingCounts(t, alpha);
      ReceivedIs(t, a.i, a.response, alpha);
      RoomForAll(t, a.response, alpha, universe);
      var f := Fresh(t.visited, a.response);
      assert f[..|f|] == f;
      AsksAllNew(t, f, a.response, visited);
      assert forall k | 0 <= k < |run| - 1 :: before[k] == run[k];
    } else {
      PendingCounts(s0, alpha);
      assert queue[..|queue|] == queue;
    }
  }

  lemma AsksAllNew(t: State, f: seq<Peer>, response: seq<Peer>, visited: set<Peer>)
    requires f == Fresh(t.visited, response) && forall p | p in t.visited && p !in visited :: p in t.asked
    ensures forall p | p in t.visited + Elements(f) && p !in visited :: p in t.asked + f
    ensures forall p | p in response :: p in visited || p in t.asked + f
  {
    FreshMeans(t.visited, response);
    hide Fresh;
  }

  lemma RoomForAll(s: State, response: seq<Peer>, alpha: int, universe: set<Peer>)
    requires s.pending == |s.outstanding| > 0 && Left(s, universe) <= alpha
    requires forall p | p in response :: p in universe
    ensures var f := Fresh(s.visited, response); Asks(s.pending - 1, |f|, alpha) == |f|
  {
    var f := Fresh(s.visited, response);
    FreshMeans(s.visited, response);
    NoRepeatsCount(f);
    assert Elements(f) <= universe - s.visited;
    SubsetCount(Elements(f), universe - s.visited);
  }

  lemma {:induction false} NoRepeatsCount(list: seq<Peer>)
    requires NoRepeats(list)
    ensures |Elements(list)| == |list|
  {
    if list != [] {
      NoRepeatsCount(list[1..]);
      assert Elements(list) == {list[0]} + Elements(list[1..]);
      assert list[0] !in Elements(list[1..]);
    }
  }

  lemma SubsetCount(a: set<Peer>, b: set<Peer>)
    requires a <= b
    ensures |a| <= |b|
  {
    assert b == a + (b - a);
  }

  /** Everything the replies of a run named, in order. */
  function Named(run: seq<Answer>): seq<Peer> {
    if run == [] then [] else Named(Earlier(run)) + run[|run| - 1].response
  }

  lemma {:induction false} FreshSplits(visited: set<Peer>, a: seq<Peer>, b: seq<Peer>)
    ensures Fresh(visited, a + b) == Fresh(visited, a) + Fresh(visited + Elements(Fresh(visited, a)), b)
    decreases |a|
  {
    if a == [] {
      assert a + b == b && visited + Elements([]) == visited;
    } else {
      assert (a + b)[1..] == a[1..] + b;
      if a[0] in visited {
        FreshSplits(visited, a[1..], b);
      } else {
        var f := Fresh(visited + {a[0]}, a[1..]);
        FreshSplits(visited + {a[0]}, a[1..], b);
        assert visited + {a[0]} + Elements(f) == visited + Elements([a[0]] + f);
      }
    }
  }

  /** The results of a run, exactly and in order: the peers asked first, then those named that were not visited. */
  lemma {:induction false} ResultsAre(queue: seq<Peer>, visited: set<Peer>, run: seq<Answer>, alpha: int, universe: set<Peer>)
    requires NoRepeats(queue) && forall p | p in queue :: p in visited
    requires Possible(Start(queue, visited, alpha), run, alpha, universe)
    ensures var s0 := Start(queue, visited, alpha);
            var s, f := After(s0, run, alpha, universe), Fresh(visited, Named(run));
            s.results == s0.asked + f && s.visited == visited + Elements(f)
  {
    hide Received, Start, Sound, Complete, NoRepeats, Fresh, Elements, AsksNew;
    var s0 := Start(queue, visited, alpha);
    StartSound(queue, visited, alpha);
    if run != [] {
      var before, a := Earlier(run), run[|run| - 1];
      ResultsAre(queue, visited, before, alpha, universe);
      LookupRun(queue, visited, before, alpha, universe);
      var t := After(s0, before, alpha, universe);
      ReceivedIs(t, a.i, a.response, alpha);
      FreshSplits(visited, Named(before), a.response);
      var f, g := Fresh(visited, Named(before)), Fresh(t.visited, a.response);
      Regroup(s0.asked, f, g);
      VisitedGrows(visited, f, g);
    } else {
      StartResults(queue, visited, alpha);
      NothingFresh(visited);
      assert s0.asked + [] == s0.asked;
    }
  }

  lemma StartResults(queue: seq<Peer>, visited: set<Peer>, alpha: int)
    ensures Start(queue, visited, alpha).results == Start(queue, visited, alpha).asked
  {
  }

  lemma NothingFresh(visited: set<Peer>)
    ensures Fresh(visited, []) == [] && visited + Elements([]) == visited
  {
  }

  lemma AskedAreVisited(s: State, alpha: int)
    requires Sound(s, alpha)
    ensures forall p | p in s.asked :: p in s.visited
  {
  }

  // ----- performLookupClosest -----

  ghost predicate Reachable(s: State, universe: set<Peer>) {
    forall p | p in s.queue :: p in universe || p in s.visited
  }

  lemma {:induction false} AdmittedClosestKeeps(s: State, known: set<Peer>, response: seq<Peer>, universe: set<Peer>)
    requires Reachable(s, universe) && forall p | p in response :: p in universe
    ensures var r := AdmittedClosest(s, known, response);
      && Reachable(r, universe) && r == s.(queue := r.queue, results := r.results)
      && |r.queue| - |s.queue| == |r.results| - |s.results| >= 0
    decreases |response|
  {
    if response != [] {
      var p := response[0];
      AdmittedClosestKeeps(if p in known then s else s.(results := s.results + [p], queue := s.queue + [p]),
                           known, response[1..], universe);
    }
  }

  lemma {:induction false} ScheduledKeeps(s: State, alpha: int, i: nat, universe: set<Peer>)
    requires Sound(s, alpha) && Reachable(s, universe) && i <= |s.queue|
    ensures var r := Scheduled(s, alpha, i);
      && Sound(r, alpha) && Reachable(r, universe) && r.queue == s.queue && r.results == s.results
      && Left(r, universe) == Left(s, universe)
    decreases |s.queue| - i
  {
    if s.pending < alpha && i < |s.queue| {
      var p := s.queue[i];
      assert p in s.queue;
      if p in s.visited {
        ScheduledKeeps(s, alpha, i + 1, universe);
      } else {
        var v := s.(visited := s.visited + {p});
        assert Sound(v, alpha);
        QueryKeeps(v, p, alpha);
        assert universe - s.visited == (universe - v.visited) + {p};
        ScheduledKeeps(Query(v, p), alpha, i + 1, universe);
        hide Sound, Scheduled;
      }
    }
  }

  /** One round of `performLookupClosest` keeps the invariant and leaves less to do, however the queue is sorted. */
  lemma ReceivedClosestKeeps(s: State, known: set<Peer>, i: nat, response: seq<Peer>, order: seq<Peer>, alpha: int,
                             universe: set<Peer>)
    requires i < |s.outstanding| && Sound(s, alpha) && Reachable(s, universe)
    requires forall p | p in response :: p in universe
    requires multiset(order) == multiset(BeforeSort(s, known, i, response).queue)
    ensures var b, r := BeforeSort(s, known, i, response), ReceivedClosest(s, known, i, response, order, alpha);
      && Sound(r, alpha) && Reachable(r, universe) && Left(r, universe) < Left(s, universe)
      && |b.queue| - |s.queue| == |b.results| - |s.results| >= 0
      && r.results == b.results && |r.queue| == if |b.queue| > BUCKET_SIZE then BUCKET_SIZE else |b.queue|
  {
    var a, b := Answered(s, i), BeforeSort(s, known, i, response);
    AnsweredKeeps(s, i, alpha);
    AdmittedClosestKeeps(a, known, response, universe);
    SameSize(order, b.queue);
    var c := Reordered(b, order);
    forall p | p in c.queue
      ensures p in b.queue
    {
      assert p in multiset(order);
    }
    hide AdmittedClosest, Scheduled, Answered;
    ScheduledKeeps(c, alpha, 0, universe);
  }

  lemma SameSize(a: seq<Peer>, b: seq<Peer>)
    requires multiset(a) == multiset(b)
    ensures |a| == |b|
  {
    assert |multiset(a)| == |a| && |multiset(b)| == |b|;
  }

  /** The peers of a list that are not in a set. */
  function Others(known: set<Peer>, list: seq<Peer>): seq<Peer> {
    if list == [] then [] else (if list[0] in known then [] else [list[0]]) + Others(known, list[1..])
  }

  lemma {:induction false} AdmittedClosestIs(s: State, known: set<Peer>, response: seq<Peer>)
    ensures var o := Others(known, response);
            AdmittedClosest(s, known, response) == s.(results := s.results + o, queue := s.queue + o)
    decreases |response|
  {
    if response == [] {
      assert s.results + [] == s.results && s.queue + [] == s.queue;
    } else {
      var p, o := response[0], Others(known, response[1..]);
      if p in known {
        AdmittedClosestIs(s, known, response[1..]);
        assert [] + o == o;
      } else {
        AdmittedClosestIs(s.(results := s.results + [p], queue := s.queue + [p]), known, response[1..]);
        hide Others, AdmittedClosest;
        Regroup(s.results, [p], o);
        Regroup(s.queue, [p], o);
      }
    }
  }

  /**
   One round of `performLookupClosest`, exactly: the results grow by the peers not asked first,
   the queue is the first 16 of the sorted one, and of those peers the ones not visited are
   asked in order, as many as there is room for.
   */
  lemma ReceivedClosestIs(s: State, known: set<Peer>, i: nat, response: seq<Peer>, order: seq<Peer>, alpha: int)
    requires i < |s.outstanding|
    ensures var q := if |order| > 16 then order[..16] else order;
            var f := Fresh(s.visited, q);
            var d := Asks(s.pending - 1, |f|, alpha);
            ReceivedClosest(s, known, i, response, order, alpha)
            == State(s.pending - 1 + d, q, s.outstanding[..i] + s.outstanding[i + 1..] + f[..d],
                     s.visited + Elements(f[..d]), s.results + Others(known, response), s.asked + f[..d])
  {
    hide AdmittedClosest, Scheduled, Fresh, Elements, Others;
    AdmittedClosestIs(Answered(s, i), known, response);
    var c := Reordered(AdmittedClosest(Answered(s, i), known, response), order);
    assert c.queue[0..] == c.queue;
    ScheduledIs(c, alpha, 0);
  }

  /** After a reply alpha queries are out, or everybody in the queue, of at most 16 peers, is visited. */
  lemma ReceivedClosestAsks(s: State, known: set<Peer>, i: nat, response: seq<Peer>, order: seq<Peer>, alpha: int)
    requires i < |s.outstanding|
    ensures var r := ReceivedClosest(s, known, i, response, order, alpha);
      && |r.queue| <= 16 && (r.pending >= alpha || forall p | p in r.queue :: p in r.visited)
      && |r.asked| - |r.outstanding| == |s.asked| - |s.outstanding| + 1
      && r.results == s.results + Others(known, response)
  {
    hide ReceivedClosest, Fresh, Others;
    ReceivedClosestIs(s, known, i, response, order, alpha);
    var q := if |order| > 16 then order[..16] else order;
    var f := Fresh(s.visited, q);
    FreshMeans(s.visited, q);
    assert f[..|f|] == f;
  }

  // ----- Runs of performLookupClosest -----

  /** An answer, and the order the sort after it leaves the queue in. */
  datatype Reply = Reply(i: nat, response: seq<Peer>, order: seq<Peer>)

  predicate PossibleClosest(s: State, known: set<Peer>, run: seq<Reply>, alpha: int, universe: set<Peer>)
    decreases |run|, 0
  {
    run == [] ||
    (&& PossibleClosest(s, known, Earlier(run), alpha, universe)
     && var t, r := AfterClosest(s, known, Earlier(run), alpha, universe), run[|run| - 1];
     && r.i < |t.outstanding|
     && (forall p | p in r.response :: p in universe)
     && multiset(r.order) == multiset(BeforeSort(t, known, r.i, r.response).queue))
  }

  function AfterClosest(s: State, known: set<Peer>, run: seq<Reply>, alpha: int, universe: set<Peer>): State
    requires PossibleClosest(s, known, run, alpha, universe)
    decreases |run|, 1
  {
    if run == [] then s
    else
      var r := run[|run| - 1];
      ReceivedClosest(AfterClosest(s, known, Earlier(run), alpha, universe), known, r.i, r.response, r.order, alpha)
  }

  /**
   The comparison of the sort looks up positions of the queue in the results. A sort of
   two or more elements compares at every position, a sort of one compares nothing.
   */
  predicate SortSafe(b: State) {
    |b.queue| >= 2 ==> |b.queue| <= |b.results|
  }

  /** The last sort of the run finds what it looks up. */
  predicate LastSortSafe(s: State, known: set<Peer>, run: seq<Reply>, alpha: int, universe: set<Peer>)
    requires run != [] && PossibleClosest(s, known, run, alpha, universe)
  {
    var r := run[|run| - 1];
    SortSafe(BeforeSort(AfterClosest(s, known, Earlier(run), alpha, universe), known, r.i, r.response))
  }

  function Known(s: State): set<Peer> {
    set p | p in s.asked
  }

  lemma StartClosestSound(queue: seq<Peer>, visited: set<Peer>, alpha: int, universe: set<Peer>)
    requires NoRepeats(queue) && forall p | p in queue :: p in visited
    ensures var s := StartClosest(queue, visited, alpha);
      && Sound(s, alpha) && Reachable(s, universe) && s.visited == visited && s.results == []
      && |s.outstanding| == |s.asked| <= |queue| && |s.queue| == |queue| - |s.asked|
      && (s.queue == [] <==> |queue| <= alpha || queue == []) && (alpha > 0 && queue != [] ==> s.outstanding != [])
      && (alpha <= 0 ==> s.outstanding == [])
  {
    DispatchedKeeps(Initial(queue, visited), alpha);
  }

  /** Every run of `performLookupClosest`: see `LookupRun`. */
  lemma {:induction false} LookupClosestRun(queue: seq<Peer>, visited: set<Peer>, run: seq<Reply>, alpha: int,
                                            universe: set<Peer>)
    requires NoRepeats(queue) && forall p | p in queue :: p in visited
    requires var s0 := StartClosest(queue, visited, alpha); PossibleClosest(s0, Known(s0), run, alpha, universe)
    ensures var s0 := StartClosest(queue, visited, alpha);
            var s := AfterClosest(s0, Known(s0), run, alpha, universe);
      && Sound(s, alpha) && Reachable(s, universe)
      && |run| + Left(s, universe) <= |s0.asked| + |universe - visited|
      && (|queue| <= alpha ==> |s.queue| <= |s.results|)
      && (|queue| <= alpha && run != [] ==> LastSortSafe(s0, Known(s0), run, alpha, universe))
      && |s.asked| == |run| + |s.outstanding|
      && s.results == Others(Known(s0), NamedBy(run))
      && (run != [] ==> |s.queue| <= 16 && (s.pending >= alpha || forall p | p in s.queue :: p in s.visited))
  {
    hide Sound, Reachable, StartClosest, ReceivedClosest, BeforeSort, Others;
    StartClosestSound(queue, visited, alpha, universe);
    if run != [] {
      LookupClosestRun(queue, visited, Earlier(run), alpha, universe);
      var s0, r := StartClosest(queue, visited, alpha), run[|run| - 1];
      var s := AfterClosest(s0, Known(s0), Earlier(run), alpha, universe);
      ReceivedClosestKeeps(s, Known(s0), r.i, r.response, r.order, alpha, universe);
      ReceivedClosestAsks(s, Known(s0), r.i, r.response, r.order, alpha);
      OthersSplits(Known(s0), NamedBy(Earlier(run)), r.response);
    } else {
      NoOthers(Known(StartClosest(queue, visited, alpha)));
    }
  }

  /** Everything the replies of a run named, in order. */
  function NamedBy(run: seq<Reply>): seq<Peer> {
    if run == [] then [] else NamedBy(Earlier(run)) + run[|run| - 1].response
  }

  lemma NoOthers(known: set<Peer>)
    ensures Others(known, []) == []
  {
  }

  lemma {:induction false} OthersSplits(known: set<Peer>, a: seq<Peer>, b: seq<Peer>)
    ensures Others(known, a + b) == Others(known, a) + Others(known, b)
    decreases |a|
  {
    if a == [] {
      assert a + b == b;
    } else {
      assert (a + b)[1..] == a[1..] + b;
      OthersSplits(known, a[1..], b);
    }
  }

  /**
   The comparison of the sort finds what it looks up, in every run, exactly when all peers
   of the initial queue are asked at once, or all but one and no other peer is ever named.
   */
  lemma SortSafeIff(queue: seq<Peer>, visited: set<Peer>, alpha: int, universe: set<Peer>)
    requires NoRepeats(queue) && (forall p | p in queue :: p in visited) && alpha > 0
    ensures var s0 := StartClosest(queue, visited, alpha);
      (forall run: seq<Reply> | run != [] && PossibleClosest(s0, Known(s0), run, alpha, universe) ::
         LastSortSafe(s0, Known(s0), run, alpha, universe))
      <==> |queue| <= alpha || (|queue| == alpha + 1 && forall p | p in universe :: p in queue[..alpha])
  {
    var s0 := StartClosest(queue, visited, alpha);
    hide StartClosest, PossibleClosest, LastSortSafe;
    if |queue| > alpha {
      StartAsks(queue, visited, alpha);
    }
    if |queue| <= alpha {
      forall run: seq<Reply> | run != [] && PossibleClosest(s0, Known(s0), run, alpha, universe)
        ensures LastSortSafe(s0, Known(s0), run, alpha, universe)
      {
        LookupClosestRun(queue, visited, run, alpha, universe);
      }
    } else if |queue| > alpha + 1 {
      UnsafeReply(s0, [], alpha, universe);
    } else if forall p | p in universe :: p in queue[..alpha] {
      forall run: seq<Reply> | run != [] && PossibleClosest(s0, Known(s0), run, alpha, universe)
        ensures LastSortSafe(s0, Known(s0), run, alpha, universe)
      {
        NothingNew(s0, Known(s0), run, alpha, universe);
      }
    } else {
      var p :| p in universe && p !in queue[..alpha];
      UnsafeReply(s0, [p], alpha, universe);
    }
  }

  lemma StartAsks(queue: seq<Peer>, visited: set<Peer>, alpha: int)
    requires 0 < alpha < |queue| && NoRepeats(queue) && forall p | p in queue :: p in visited
    ensures var s := StartClosest(queue, visited, alpha);
            s.asked == queue[..alpha] && s.queue == queue[alpha..] && s.outstanding != [] && s.results == []
  {
    DispatchedKeeps(Initial(queue, visited), alpha);
    assert [] + queue[..alpha] == queue[..alpha];
  }

  /** A first reply after which the sort looks beyond the results. */
  lemma UnsafeReply(s: State, response: seq<Peer>, alpha: int, universe: set<Peer>)
    requires s.outstanding != [] && s.results == [] && s.queue != [] && |s.queue| + |response| >= 2
    requires |response| <= 1 && forall p | p in response :: p in universe && p !in Known(s)
    ensures exists run: seq<Reply> :: run != [] && PossibleClosest(s, Known(s), run, alpha, universe)
                                      && !LastSortSafe(s, Known(s), run, alpha, universe)
  {
    var run := [Reply(0, response, s.queue + response)];
    assert Earlier(run) == [];
    var b := BeforeSort(s, Known(s), 0, response);
    AdmitsFirst(Answered(s, 0), Known(s), response);
    assert b.queue == s.queue + response && b.results == response;
    assert PossibleClosest(s, Known(s), [], alpha, universe) && AfterClosest(s, Known(s), [], alpha, universe) == s;
    hide BeforeSort;
    assert run[0] == run[|run| - 1];
    assert PossibleClosest(s, Known(s), run, alpha, universe);
    assert !LastSortSafe(s, Known(s), run, alpha, universe);
  }

  lemma AdmitsFirst(s: State, known: set<Peer>, response: seq<Peer>)
    requires |response| <= 1 && forall p | p in response :: p !in known
    ensures AdmittedClosest(s, known, response) == s.(results := s.results + response, queue := s.queue + response)
  {
    if response == [] {
      assert s.results + [] == s.results && s.queue + [] == s.queue;
    } else {
      assert response == [response[0]] && response[1..] == [];
    }
  }

  /** If replies name only peers that were asked at first, nothing is ever added to a queue of one. */
  lemma {:induction false} NothingNew(s: State, known: set<Peer>, run: seq<Reply>, alpha: int, universe: set<Peer>)
    requires PossibleClosest(s, known, run, alpha, universe)
    requires universe <= known && |s.queue| <= 1
    ensures |AfterClosest(s, known, run, alpha, universe).queue| <= 1
    ensures run != [] ==> LastSortSafe(s, known, run, alpha, universe)
  {
    if run != [] {
      NothingNew(s, known, Earlier(run), alpha, universe);
      var t, r := AfterClosest(s, known, Earlier(run), alpha, universe), run[|run| - 1];
      AdmitsNone(Answered(t, r.i), known, r.response);
      SameSize(r.order, BeforeSort(t, known, r.i, r.response).queue);
      ScheduledQueue(Reordered(BeforeSort(t, known, r.i, r.response), r.order), alpha, 0);
      hide Scheduled, AdmittedClosest;
    }
  }

  lemma {:induction false} AdmitsNone(s: State, known: set<Peer>, response: seq<Peer>)
    requires forall p | p in response :: p in known
    ensures AdmittedClosest(s, known, response) == s
    decreases |response|
  {
    if response != [] {
      AdmitsNone(s, known, response[1..]);
    }
  }

  lemma {:induction false} ScheduledQueue(s: State, alpha: int, i: nat)
    requires i <= |s.queue|
    ensures Scheduled(s, alpha, i).queue == s.queue
    decreases |s.queue| - i
  {
    if s.pending < alpha && i < |s.queue| {
      var p := s.queue[i];
      if p in s.visited {
        ScheduledQueue(s, alpha, i + 1);
      } else {
        ScheduledQueue(Query(s.(visited := s.visited + {p}), p), alpha, i + 1);
      }
    }
  }

  // ----- Several lookups that share what was visited -----

  /** Beyond those of the initial queue, only peers not visited before are asked. */
  ghost predicate OnlyNew(s: State, queue: seq<Peer>, visited: set<Peer>) {
    visited <= s.visited && forall p | p in s.asked :: p in queue || p !in visited
  }

  lemma {:induction false} DispatchedAsks(s: State, alpha: int)
    ensures var r := Dispatched(s, alpha);
      r.visited == s.visited && forall p | p in r.asked :: p in s.asked || p in s.queue
    decreases |s.queue|
  {
    if s.pending < alpha && s.queue != [] {
      DispatchedAsks(Query(s, s.queue[0]).(queue := s.queue[1..]), alpha);
    }
  }

  lemma {:induction false} AdmittedClosestAsks(s: State, known: set<Peer>, response: seq<Peer>)
    ensures var r := AdmittedClosest(s, known, response); r.asked == s.asked && r.visited == s.visited
    decreases |response|
  {
    if response != [] {
      var p := response[0];
      AdmittedClosestAsks(if p in known then s else s.(results := s.results + [p], queue := s.queue + [p]), known, response[1..]);
    }
  }

  lemma {:induction false} ScheduledAsks(s: State, alpha: int, i: nat, queue: seq<Peer>, visited: set<Peer>)
    requires i <= |s.queue| && OnlyNew(s, queue, visited)
    ensures OnlyNew(Scheduled(s, alpha, i), queue, visited)
    decreases |s.queue| - i
  {
    if s.pending < alpha && i < |s.queue| {
      var p := s.queue[i];
      var s' := if p in s.visited then s else Query(s, p).(visited := s.visited + {p});
      assert OnlyNew(s', queue, visited);
      hide OnlyNew;
      ScheduledAsks(s', alpha, i + 1, queue, visited);
    }
  }

  lemma {:induction false} ClosestAsksNew(queue: seq<Peer>, visited: set<Peer>, run: seq<Reply>, alpha: int, universe: set<Peer>)
    requires var s0 := StartClosest(queue, visited, alpha); PossibleClosest(s0, Known(s0), run, alpha, universe)
    ensures var s0 := StartClosest(queue, visited, alpha);
            OnlyNew(AfterClosest(s0, Known(s0), run, alpha, universe), queue, visited)
  {
    if run == [] {
      DispatchedAsks(Initial(queue, visited), alpha);
    } else {
      ClosestAsksNew(queue, visited, Earlier(run), alpha, universe);
      var s0, r := StartClosest(queue, visited, alpha), run[|run| - 1];
      var s := AfterClosest(s0, Known(s0), Earlier(run), alpha, universe);
      var b := AdmittedClosest(Answered(s, r.i), Known(s0), r.response);
      AdmittedClosestAsks(Answered(s, r.i), Known(s0), r.response);
      assert OnlyNew(Reordered(b, r.order), queue, visited);
      hide OnlyNew, Scheduled, AdmittedClosest, StartClosest;
      ScheduledAsks(Reordered(b, r.order), alpha, 0, queue, visited);
    }
  }

  /** One of the lookups of `FindNode`: its share of the nearest peers, and the answers it gets. */
  datatype Search = Search(queue: seq<Peer>, run: seq<Reply>)

  /** The lookups, one after the other, can go this way. */
  predicate PossibleSearches(ss: seq<Search>, visited: set<Peer>, alpha: int, universe: set<Peer>)
    decreases |ss|
  {
    ss == [] ||
    (var s0 := StartClosest(ss[0].queue, visited, alpha);
     && PossibleClosest(s0, Known(s0), ss[0].run, alpha, universe)
     && PossibleSearches(ss[1..], AfterClosest(s0, Known(s0), ss[0].run, alpha, universe).visited, alpha, universe))
  }

  /** The queries each of the lookups sends. */
  function Asked(ss: seq<Search>, visited: set<Peer>, alpha: int, universe: set<Peer>): (r: seq<seq<Peer>>)
    requires PossibleSearches(ss, visited, alpha, universe)
    ensures |r| == |ss|
    decreases |ss|
  {
    if ss == [] then []
    else
      var s0 := StartClosest(ss[0].queue, visited, alpha);
      var s := AfterClosest(s0, Known(s0), ss[0].run, alpha, universe);
      [s.asked] + Asked(ss[1..], s.visited, alpha, universe)
  }

  /** The initial queues are without repetition, have no peer in common, and were all marked visited at the start. */
  predicate GoodShares(ss: seq<Search>, visited: set<Peer>) {
    && (forall i | 0 <= i < |ss| :: NoRepeats(ss[i].queue) && forall p | p in ss[i].queue :: p in visited)
    && forall i, j, p | 0 <= i < j < |ss| && p in ss[i].queue :: p !in ss[j].queue
  }

  lemma {:induction false} LaterAsksNew(ss: seq<Search>, visited: set<Peer>, alpha: int, universe: set<Peer>, j: nat, p: Peer)
    requires PossibleSearches(ss, visited, alpha, universe) && GoodShares(ss, visited) && j < |ss|
    requires p in Asked(ss, visited, alpha, universe)[j]
    ensures p in ss[j].queue || p !in visited
    decreases |ss|
  {
    var s0 := StartClosest(ss[0].queue, visited, alpha);
    var s := AfterClosest(s0, Known(s0), ss[0].run, alpha, universe);
    ClosestAsksNew(ss[0].queue, visited, ss[0].run, alpha, universe);
    hide StartClosest, AfterClosest, Known, PossibleClosest;
    if j > 0 {
      SharesOfRest(ss, visited, s.visited);
      LaterAsksNew(ss[1..], s.visited, alpha, universe, j - 1, p);
    }
  }

  lemma SharesOfRest(ss: seq<Search>, visited: set<Peer>, more: set<Peer>)
    requires GoodShares(ss, visited) && ss != [] && visited <= more
    ensures GoodShares(ss[1..], more)
  {
  }

  /** No peer is asked twice in all the lookups together. */
  lemma {:induction false} NobodyAskedTwice(ss: seq<Search>, visited: set<Peer>, alpha: int, universe: set<Peer>)
    requires PossibleSearches(ss, visited, alpha, universe) && GoodShares(ss, visited)
    ensures var asked := Asked(ss, visited, alpha, universe);
      && (forall i | 0 <= i < |ss| :: NoRepeats(asked[i]))
      && forall i, j, p | 0 <= i < j < |ss| && p in asked[i] :: p !in asked[j]
    decreases |ss|
  {
    if ss != [] {
      var asked := Asked(ss, visited, alpha, universe);
      var more := FirstSearch(ss, visited, alpha, universe);
      SharesOfRest(ss, visited, more);
      NobodyAskedTwice(ss[1..], more, alpha, universe);
      hide PossibleSearches, Asked, NoRepeats, GoodShares;
      forall i | 0 <= i < |ss|
        ensures NoRepeats(asked[i])
      {
        if i > 0 {
          assert asked[i] == asked[1..][i - 1];
        }
      }
      forall i, j, p | 0 <= i < j < |ss| && p in asked[i]
        ensures p !in asked[j]
      {
        assert asked[j] == asked[1..][j - 1];
        if i > 0 {
          assert asked[i] == asked[1..][i - 1];
        } else if p in asked[j] {
          LaterAsksNew(ss[1..], more, alpha, universe, j - 1, p);
          NotShared(ss, visited, j, p);
        }
      }
    }
  }

  lemma NotShared(ss: seq<Search>, visited: set<Peer>, j: nat, p: Peer)
    requires GoodShares(ss, visited) && 0 < j < |ss| && (p in ss[0].queue || p !in visited)
    ensures p !in ss[j].queue
  {
  }

  /** The first of several lookups, and what has been visited when it ends. */
  lemma FirstSearch(ss: seq<Search>, visited: set<Peer>, alpha: int, universe: set<Peer>) returns (more: set<Peer>)
    requires PossibleSearches(ss, visited, alpha, universe) && GoodShares(ss, visited) && ss != []
    ensures visited <= more && PossibleSearches(ss[1..], more, alpha, universe)
    ensures var asked := Asked(ss, visited, alpha, universe);
      && NoRepeats(asked[0]) && asked[1..] == Asked(ss[1..], more, alpha, universe)
      && forall p | p in asked[0] :: p in more && (p in ss[0].queue || p !in visited)
  {
    var s0 := StartClosest(ss[0].queue, visited, alpha);
    var s := AfterClosest(s0, Known(s0), ss[0].run, alpha, universe);
    more := s.visited;
    LookupClosestRun(ss[0].queue, visited, ss[0].run, alpha, universe);
    ClosestAsksNew(ss[0].queue, visited, ss[0].run, alpha, universe);
    hide StartClosest, AfterClosest, Known, PossibleClosest;
  }

  // ----- The loops -----

  lemma {:induction false} PossiblePrefix(s: State, run: seq<Answer>, k: nat, alpha: int, universe: set<Peer>)
    requires Possible(s, run, alpha, universe) && k <= |run|
    ensures Possible(s, run[..k], alpha, universe)
    decreases |run|
  {
    if k < |run| {
      PossiblePrefix(s, Earlier(run), k, alpha, universe);
      assert Earlier(run)[..k] == run[..k];
    } else {
      assert run[..k] == run;
    }
  }

  lemma NextAnswer(s: State, run: seq<Answer>, k: nat, alpha: int, universe: set<Peer>)
    requires Possible(s, run, alpha, universe) && k < |run|
    ensures Possible(s, run[..k], alpha, universe) && Possible(s, run[..k + 1], alpha, universe)
    ensures run[k].i < |After(s, run[..k], alpha, universe).outstanding|
    ensures After(s, run[..k + 1], alpha, universe)
         == Received(After(s, run[..k], alpha, universe), run[k].i, run[k].response, alpha)
  {
    PossiblePrefix(s, run, k, alpha, universe);
    PossiblePrefix(s, run, k + 1, alpha, universe);
    assert Earlier(run[..k + 1]) == run[..k];
    hide Received;
  }

  /** A lookup in progress; `outstanding` are the goroutines that will each send one answer. */
  class LookupBucket {
    var pending: int
    var queue: seq<Peer>
    var outstanding: seq<Peer>
    ghost var asked: seq<Peer>

    constructor (queue: seq<Peer>)
      ensures pending == 0 && this.queue == queue && outstanding == asked == []
    {
      pending, outstanding, asked := 0, [], [];
      this.queue := queue;
    }

    ghost function Current(visited: set<Peer>, results: seq<Peer>): State
      reads this
    {
      State(pending, queue, outstanding, visited, results, asked)
    }

    method Send(p: Peer)
      modifies this`outstanding, this`asked
      ensures outstanding == old(outstanding) + [p] && asked == old(asked) + [p]
    {
      outstanding, asked := outstanding + [p], asked + [p];
    }

    method Dispatch(alpha: int, ghost visited: set<Peer>, ghost results: seq<Peer>)
      modifies this
      ensures Current(visited, results) == Dispatched(old(Current(visited, results)), alpha)
    {
      while pending < alpha && |queue| > 0
        invariant Dispatched(Current(visited, results), alpha) == Dispatched(old(Current(visited, results)), alpha)
        decreases |queue|
      {
        Send(queue[0]);
        queue := queue[1..];
        pending := pending + 1;
      }
    }

    /**
     `performLookup`, with the answers that arrive given in `replies`: it takes all of them
     and stops when no query is outstanding.
     */
    method PerformLookup(alpha: int, visited0: set<Peer>, replies: seq<Answer>, ghost universe: set<Peer>)
      returns (results: seq<Peer>, visited: set<Peer>)
      requires pending == 0 && outstanding == asked == []
      requires NoRepeats(queue) && forall p | p in queue :: p in visited0
      requires Possible(Start(queue, visited0, alpha), replies, alpha, universe)
      requires After(Start(queue, visited0, alpha), replies, alpha, universe).outstanding == []
      modifies this
      ensures Current(visited, results) == After(Start(old(queue), visited0, alpha), replies, alpha, universe)
    {
      hide Received, Sound, Complete, Left;
      ghost var s0, q0 := Start(queue, visited0, alpha), queue;
      visited, results := visited0, [];
      while pending < alpha && |queue| > 0
        invariant Dispatched(Current(visited, []), alpha) == Dispatched(Initial(q0, visited), alpha)
        invariant results == asked
        decreases |queue|
      {
        Send(queue[0]);
        results := results + [queue[0]];
        queue := queue[1..];
        pending := pending + 1;
      }
      queue := [];
      assert Current(visited, results) == s0;
      var k := 0;
      assert replies[..0] == [] && replies[..|replies|] == replies;
      while pending > 0
        invariant k <= |replies| && Possible(s0, replies[..k], alpha, universe)
        invariant Current(visited, results) == After(s0, replies[..k], alpha, universe)
        decreases |replies| - k
      {
        LookupRun(q0, visited0, replies[..k], alpha, universe);
        PendingCounts(Current(visited, results), alpha);
        assert k < |replies|;
        NextAnswer(s0, replies, k, alpha, universe);
        results, visited := Receive(replies[k], alpha, visited, results);
        k := k + 1;
      }
      LookupRun(q0, visited0, replies[..k], alpha, universe);
      PendingCounts(Current(visited, results), alpha);
      if k < |replies| {
        NextAnswer(s0, replies, k, alpha, universe);
      }
    }

    /** One round of the loop of `performLookup`. */
    method Receive(a: Answer, alpha: int, visited0: set<Peer>, results0: seq<Peer>)
      returns (results: seq<Peer>, visited: set<Peer>)
      requires a.i < |outstanding|
      modifies this
      ensures Current(visited, results) == Received(old(Current(visited0, results0)), a.i, a.response, alpha)
    {
      visited, results := visited0, results0;
      outstanding := outstanding[..a.i] + outstanding[a.i + 1..];
      pending := pending - 1;
      ghost var s := Current(visited, results);
      var j := 0;
      assert a.response[0..] == a.response;
      while j < |a.response|
        invariant j <= |a.response| && pending == s.pending && outstanding == s.outstanding
        invariant Admitted(Current(visited, results), a.response[j..]) == Admitted(s, a.response)
      {
        var p := a.response[j];
        assert a.response[j..][1..] == a.response[j + 1..];
        if p !in visited {
          visited := visited + {p};
          results := results + [p];
          queue := queue + [p];
        }
        j := j + 1;
      }
      Dispatch(alpha, visited, results);
      queue := [];
    }

    /**
     `performLookupClosest`, with the answers that arrive and the orders the sorts leave
     given in `replies`.
     */
    method PerformLookupClosest(alpha: int, visited0: set<Peer>, replies: seq<Reply>, ghost universe: set<Peer>)
      returns (results: seq<Peer>, visited: set<Peer>, panicked: bool)
      requires pending == 0 && outstanding == asked == []
      requires NoRepeats(queue) && forall p | p in queue :: p in visited0
      requires var s0 := StartClosest(queue, visited0, alpha);
        && PossibleClosest(s0, Known(s0), replies, alpha, universe)
        && AfterClosest(s0, Known(s0), replies, alpha, universe).outstanding == []
      modifies this
      ensures !panicked ==>
                var s0 := StartClosest(old(queue), visited0, alpha);
                Current(visited, results) == AfterClosest(s0, Known(s0), replies, alpha, universe)
      ensures panicked <==>
                var s0 := StartClosest(old(queue), visited0, alpha);
                exists k | 0 <= k < |replies| :: UnsafeAt(s0, replies, k, alpha, universe)
      ensures |old(queue)| <= alpha ==> !panicked
    {
      hide Dispatched, PossibleClosest, AfterClosest, ReceivedClosest, BeforeSort, UnsafeAt, SortSafe, NoRepeats;
      ghost var s0, q0 := StartClosest(queue, visited0, alpha), queue;
      visited, results, panicked := visited0, [], false;
      var known := AskFirst(alpha, visited, results);
      assert known == Known(s0);
      var k := 0;
      StartsAt(s0, replies, alpha, universe);
      while pending > 0
        invariant k <= |replies| && RunsTo(s0, replies, k, alpha, universe) == Current(visited, results)
        invariant forall j | 0 <= j < k :: !UnsafeAt(s0, replies, j, alpha, universe)
        decreases |replies| - k
      {
        NextRound(q0, visited0, replies, k, alpha, universe);
        results, visited, panicked := ReceiveClosest(replies[k], alpha, known, visited, results);
        if panicked {
          return;
        }
        k := k + 1;
      }
      LastRound(q0, visited0, replies, k, alpha, universe);
    }

    /** The loop that asks the first alpha peers of the queue. */
    method AskFirst(alpha: int, ghost visited: set<Peer>, ghost results: seq<Peer>) returns (known: set<Peer>)
      requires asked == []
      modifies this
      ensures Current(visited, results) == Dispatched(old(Current(visited, results)), alpha)
      ensures known == set p | p in asked
    {
      ghost var s0 := Dispatched(Current(visited, results), alpha);
      known := {};
      while pending < alpha && |queue| > 0
        invariant Dispatched(Current(visited, results), alpha) == s0
        invariant known == set p | p in asked
        decreases |queue|
      {
        Send(queue[0]);
        known := known + {queue[0]};
        queue := queue[1..];
        pending := pending + 1;
      }
    }

    /** One round of the loop of `performLookupClosest`; the sort panics when it looks beyond the results. */
    method ReceiveClosest(a: Reply, alpha: int, known: set<Peer>, visited0: set<Peer>, results0: seq<Peer>)
      returns (results: seq<Peer>, visited: set<Peer>, panicked: bool)
      requires a.i < |outstanding|
      modifies this
      ensures panicked == !SortSafe(old(BeforeSort(Current(visited0, results0), known, a.i, a.response)))
      ensures !panicked ==>
                Current(visited, results)
                == ReceivedClosest(old(Current(visited0, results0)), known, a.i, a.response, a.order, alpha)
    {
      hide Scheduled, AdmittedClosest;
      visited := visited0;
      outstanding := outstanding[..a.i] + outstanding[a.i + 1..];
      pending := pending - 1;
      results := AdmitClosest(a.response, known, visited, results0);
      panicked := |queue| >= 2 && |queue| > |results|;
      if panicked {
        return;
      }
      queue := a.order;
      if |queue| > BUCKET_SIZE {
        queue := queue[..BUCKET_SIZE];
      }
      visited := Schedule(alpha, visited, results);
    }

    /** The loop over the peers of a response. */
    method AdmitClosest(response: seq<Peer>, known: set<Peer>, ghost visited: set<Peer>, results0: seq<Peer>)
      returns (results: seq<Peer>)
      modifies this`queue
      ensures Current(visited, results) == AdmittedClosest(old(Current(visited, results0)), known, response)
    {
      results := results0;
      ghost var s := Current(visited, results);
      var j := 0;
      assert response[0..] == response;
      while j < |response|
        invariant j <= |response|
        invariant AdmittedClosest(Current(visited, results), known, response[j..]) == AdmittedClosest(s, known, response)
      {
        var p := response[j];
        assert response[j..][1..] == response[j + 1..];
        if p !in known {
          results := results + [p];
          queue := queue + [p];
        }
        j := j + 1;
      }
    }

    /** The loop that asks the peers of the queue not visited yet. */
    method Schedule(alpha: int, visited0: set<Peer>, ghost results: seq<Peer>) returns (visited: set<Peer>)
      modifies this
      ensures Current(visited, results) == Scheduled(old(Current(visited0, results)), alpha, 0)
    {
      visited := visited0;
      ghost var t := Current(visited, results);
      var i := 0;
      while pending < alpha && i < |queue|
        invariant i <= |queue| && queue == t.queue
        invariant Scheduled(Current(visited, results), alpha, i) == Scheduled(t, alpha, 0)
      {
        var p := queue[i];
        if p !in visited {
          visited := visited + {p};
          Send(p);
          pending := pending + 1;
        }
        i := i + 1;
      }
    }
  }

  /** The sort after reply k looks beyond the results. */
  predicate UnsafeAt(s: State, replies: seq<Reply>, k: nat, alpha: int, universe: set<Peer>)
    requires PossibleClosest(s, Known(s), replies, alpha, universe) && k < |replies|
  {
    PossibleClosestPrefix(s, Known(s), replies, k + 1, alpha, universe);
    !LastSortSafe(s, Known(s), replies[..k + 1], alpha, universe)
  }

  lemma {:induction false} PossibleClosestPrefix(s: State, known: set<Peer>, run: seq<Reply>, k: nat, alpha: int,
                                                 universe: set<Peer>)
    requires PossibleClosest(s, known, run, alpha, universe) && k <= |run|
    ensures PossibleClosest(s, known, run[..k], alpha, universe)
    decreases |run|
  {
    if k < |run| {
      PossibleClosestPrefix(s, known, Earlier(run), k, alpha, universe);
      assert Earlier(run)[..k] == run[..k];
    } else {
      assert run[..k] == run;
    }
  }

  lemma NextReply(s: State, known: set<Peer>, run: seq<Reply>, k: nat, alpha: int, universe: set<Peer>)
    requires PossibleClosest(s, known, run, alpha, universe) && k < |run|
    ensures PossibleClosest(s, known, run[..k], alpha, universe)
    ensures PossibleClosest(s, known, run[..k + 1], alpha, universe)
    ensures var t := AfterClosest(s, known, run[..k], alpha, universe);
      && run[k].i < |t.outstanding|
      && AfterClosest(s, known, run[..k + 1], alpha, universe)
         == ReceivedClosest(t, known, run[k].i, run[k].response, run[k].order, alpha)
      && LastSortSafe(s, known, run[..k + 1], alpha, universe)
         == SortSafe(BeforeSort(t, known, run[k].i, run[k].response))
  {
    PossibleClosestPrefix(s, known, run, k, alpha, universe);
    PossibleClosestPrefix(s, known, run, k + 1, alpha, universe);
    assert Earlier(run[..k + 1]) == run[..k];
    hide ReceivedClosest, BeforeSort;
  }

  /** The state after k of the replies. */
  function RunsTo(s: State, replies: seq<Reply>, k: nat, alpha: int, universe: set<Peer>): State
    requires PossibleClosest(s, Known(s), replies, alpha, universe) && k <= |replies|
  {
    PossibleClosestPrefix(s, Known(s), replies, k, alpha, universe);
    AfterClosest(s, Known(s), replies[..k], alpha, universe)
  }

  lemma StartsAt(s: State, replies: seq<Reply>, alpha: int, universe: set<Peer>)
    requires PossibleClosest(s, Known(s), replies, alpha, universe)
    ensures RunsTo(s, replies, 0, alpha, universe) == s
    ensures RunsTo(s, replies, |replies|, alpha, universe) == AfterClosest(s, Known(s), replies, alpha, universe)
  {
    assert replies[..0] == [] && replies[..|replies|] == replies;
  }

  /** While queries are outstanding there is a reply to come; it leads to the next state of the run. */
  lemma NextRound(queue: seq<Peer>, visited: set<Peer>, replies: seq<Reply>, k: nat, alpha: int, universe: set<Peer>)
    requires NoRepeats(queue) && (forall p | p in queue :: p in visited) && k <= |replies|
    requires var s0 := StartClosest(queue, visited, alpha);
      && PossibleClosest(s0, Known(s0), replies, alpha, universe)
      && RunsTo(s0, replies, |replies|, alpha, universe).outstanding == []
      && RunsTo(s0, replies, k, alpha, universe).pending > 0
    ensures k < |replies|
    ensures var s0 := StartClosest(queue, visited, alpha);
      var t := RunsTo(s0, replies, k, alpha, universe);
      && replies[k].i < |t.outstanding|
      && RunsTo(s0, replies, k + 1, alpha, universe)
         == ReceivedClosest(t, Known(s0), replies[k].i, replies[k].response, replies[k].order, alpha)
      && UnsafeAt(s0, replies, k, alpha, universe)
         == !SortSafe(BeforeSort(t, Known(s0), replies[k].i, replies[k].response))
      && (|queue| <= alpha ==> !UnsafeAt(s0, replies, k, alpha, universe))
  {
    hide StartClosest, PossibleClosest, AfterClosest, ReceivedClosest, BeforeSort, SortSafe, LastSortSafe, NoRepeats, Left, Reachable;
    var s0 := StartClosest(queue, visited, alpha);
    PossibleClosestPrefix(s0, Known(s0), replies, k, alpha, universe);
    LookupClosestRun(queue, visited, replies[..k], alpha, universe);
    PendingCounts(RunsTo(s0, replies, k, alpha, universe), alpha);
    NextReply(s0, Known(s0), replies, k, alpha, universe);
    LookupClosestRun(queue, visited, replies[..k + 1], alpha, universe);
  }

  /** When nothing is outstanding, all replies have come. */
  lemma LastRound(queue: seq<Peer>, visited: set<Peer>, replies: seq<Reply>, k: nat, alpha: int, universe: set<Peer>)
    requires NoRepeats(queue) && (forall p | p in queue :: p in visited) && k <= |replies|
    requires var s0 := StartClosest(queue, visited, alpha);
      && PossibleClosest(s0, Known(s0), replies, alpha, universe)
      && RunsTo(s0, replies, k, alpha, universe).pending <= 0
    ensures k == |replies|
  {
    hide StartClosest, PossibleClosest, AfterClosest, ReceivedClosest, BeforeSort, SortSafe, LastSortSafe, NoRepeats, Left, Reachable;
    var s0 := StartClosest(queue, visited, alpha);
    PossibleClosestPrefix(s0, Known(s0), replies, k, alpha, universe);
    LookupClosestRun(queue, visited, replies[..k], alpha, universe);
    PendingCounts(RunsTo(s0, replies, k, alpha, universe), alpha);
    if k < |replies| {
      NextReply(s0, Known(s0), replies, k, alpha, universe);
    }
  }

  lemma PendingCounts(s: State, alpha: int)
    requires Sound(s, alpha)
    ensures s.pending == |s.outstanding|
  {
  }
}
