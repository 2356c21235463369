/**
 The flow meters of metric/go-flow-metrics as a step system: any number of
 goroutines call `Mark`, and one sweeper goroutine registers meters, takes
 snapshots of them and stops tracking the idle ones.  One step is one atomic
 memory operation (or a stretch of code only the sweeper can observe), so every
 interleaving of the goroutines is a sequence of steps.

 Accumulators and totals are 64-bit and wrap around, as in the source.
 */
module FlowMetrics {

  const TWO64: nat := 0x1_0000_0000_0000_0000

  type MeterId = nat
  type Word = x: nat | x < TWO64

  /** `atomic.AddUint64`. */
  function Add64(a: Word, b: Word): Word {
    (a + b) % TWO64
  }

  /** `^uint64(x-1)`: the word that, when added, subtracts `x`. */
  function Complement(x: Word): Word {
    TWO64 - 1 - (x + TWO64 - 1) % TWO64
  }

  /**
   One meter.  `marked` is history: the sum of the counts of all `Mark` calls.
   `inFlight` is the number of registrations that a `Mark` call has started and
   the sweeper has not yet received.
   */
  datatype Meter = Meter(accumulator: Word, total: Word, marked: nat, inFlight: nat)

  /** Where the sweeper goroutine stands. */
  datatype Control =
    | Select                                   // waiting for a tick or a registration
    | Received(m: MeterId)                     // register, before the add
    | Registered(m: MeterId)                   // register, before the append
    | Scan(i: nat)                             // update, at the loop test
    | Loaded(i: nat, loaded: Word)             // after the load
    | Idle(i: nat, loaded: Word)               // snapshot stored, found idle
    | Swapped(i: nat, swapped: Word)           // swapped out more than was loaded
    | Noticed(i: nat)                          // added back, but somebody noticed
    | Removing(i: nat)                         // about to drop element i

  /**
   History of the current `update` pass: the meters tracked when it began, those
   looked at, kept and dropped so far, and what had been marked when it began.
   */
  datatype Pass = Pass(start: seq<MeterId>, visited: seq<MeterId>, kept: seq<MeterId>,
                       dropped: seq<MeterId>, markedAt: map<MeterId, nat>)

  datatype State = State(meters: map<MeterId, Meter>, tracked: seq<MeterId>, control: Control, pass: Pass)

  datatype Step =
    | Mark(m: MeterId, count: nat)   // a marker's atomic add, and its decision to register
    | Receive(m: MeterId)            // the sweeper takes a registration from the channel
    | Advance(idle: bool)            // the sweeper's next step; `idle` is the rate test's outcome

  predicate Init(s: State) {
    && (forall m | m in s.meters :: s.meters[m] == Meter(0, 0, 0, 0))
    && s.tracked == []
    && s.control == Select
    && s.pass == Pass([], [], [], [], map[])
  }

  /** What `control` needs in order not to index out of range. */
  predicate Shape(s: State) {
    && (forall k | 0 <= k < |s.tracked| :: s.tracked[k] in s.meters)
    && match s.control
       case Select => true
       case Received(m) => m in s.meters
       case Registered(m) => m in s.meters
       case Scan(i) => i <= |s.tracked|
       case Loaded(i, _) => i < |s.tracked|
       case Idle(i, _) => i < |s.tracked|
       case Swapped(i, _) => i < |s.tracked|
       case Noticed(i) => i < |s.tracked|
       case Removing(i) => i < |s.tracked|
  }

  predicate Enabled(s: State, step: Step) {
    match step
    case Mark(m, count) => m in s.meters && 0 < count < TWO64
    case Receive(m) => s.control == Select && m in s.meters && s.meters[m].inFlight > 0
    case Advance(_) => s.control == Select ==> |s.tracked| > 0
  }

  function MarkMeter(x: Meter, count: nat): Meter
    requires count < TWO64
  {
    var sum := Add64(x.accumulator, count);
    Meter(sum, x.total, x.marked + count, if sum == count then x.inFlight + 1 else x.inFlight)
  }

  /** `meters[i] = meters[last]`, then the slice is cut by one. */
  function SwapRemove(tracked: seq<MeterId>, i: nat): seq<MeterId>
    requires i < |tracked|
  {
    tracked[i := tracked[|tracked| - 1]][..|tracked| - 1]
  }

  lemma SplitMultiset(s: seq<MeterId>, i: nat)
    requires i <= |s|
    ensures multiset(s) == multiset(s[..i]) + multiset(s[i..])
  {
    assert s == s[..i] + s[i..];
  }

  lemma SwapRemoveIsRemoval(tracked: seq<MeterId>, i: nat)
    requires i < |tracked|
    ensures var r := SwapRemove(tracked, i);
            && multiset(r) + multiset{tracked[i]} == multiset(tracked)
            && r[..i] == tracked[..i]
            && multiset(r[i..]) == multiset(tracked[i + 1..])
  {
    var r := SwapRemove(tracked, i);
    SwapRemoveTail(tracked, i);
    SplitMultiset(tracked, i);
    SplitMultiset(r, i);
    assert r[..i] == tracked[..i];
    assert tracked[i..] == [tracked[i]] + tracked[i + 1..];
  }

  lemma SwapRemoveTail(tracked: seq<MeterId>, i: nat)
    requires i < |tracked|
    ensures multiset(SwapRemove(tracked, i)[i..]) == multiset(tracked[i + 1..])
  {
    var last := |tracked| - 1;
    var tail := SwapRemove(tracked, i)[i..];
    if i == last {
      assert tail == [] == tracked[i + 1..];
    } else {
      assert tail == [tracked[last]] + tracked[i + 1..last];
      assert tracked[i + 1..] == tracked[i + 1..last] + [tracked[last]];
    }
  }

  function Advanced(s: State, idle: bool): (r: State)
    requires Shape(s) && Enabled(s, Advance(idle))
    ensures Shape(r)
  {
    match s.control
    case Received(m) =>
      var x := s.meters[m];
      s.(meters := s.meters[m := x.(accumulator := Add64(x.accumulator, x.total))], control := Registered(m))
    case Registered(m) =>
      s.(tracked := s.tracked + [m], control := Select)
    case Select =>
      s.(control := Scan(0),
         pass := Pass(s.tracked, [], [], [], map m | m in s.meters :: s.meters[m].marked))
    case Scan(i) =>
      if i == |s.tracked| then s.(control := Select)
      else s.(control := Loaded(i, s.meters[s.tracked[i]].accumulator))
    case Loaded(i, loaded) =>
      var m := s.tracked[i];
      var pass := s.pass.(visited := s.pass.visited + [m]);
      s.(meters := s.meters[m := s.meters[m].(total := loaded)],
         control := if idle then Idle(i, loaded) else Scan(i + 1),
         pass := if idle then pass else pass.(kept := pass.kept + [m]))
    case Idle(i, loaded) =>
      var m := s.tracked[i];
      var x := s.meters[m];
      s.(meters := s.meters[m := x.(accumulator := 0)],
         control := if x.accumulator > loaded then Swapped(i, x.accumulator) else Removing(i))
    case Swapped(i, swapped) =>
      var m := s.tracked[i];
      var sum := Add64(s.meters[m].accumulator, swapped);
      s.(meters := s.meters[m := s.meters[m].(accumulator := sum)],
         control := if sum == swapped then Scan(i + 1) else Noticed(i),
         pass := if sum == swapped then s.pass.(kept := s.pass.kept + [m]) else s.pass)
    case Noticed(i) =>
      var m := s.tracked[i];
      var x := s.meters[m];
      s.(meters := s.meters[m := x.(accumulator := Add64(x.accumulator, Complement(x.total)))],
         control := Removing(i))
    case Removing(i) =>
      s.(tracked := SwapRemove(s.tracked, i), control := Scan(i),
         pass := s.pass.(dropped := s.pass.dropped + [s.tracked[i]]))
  }

  function Apply(s: State, step: Step): (r: State)
    requires Shape(s) && Enabled(s, step)
    ensures Shape(r)
  {
    match step
    case Mark(m, count) =>
      s.(meters := s.meters[m := MarkMeter(s.meters[m], count)])
    case Receive(m) =>
      var x := s.meters[m];
      s.(meters := s.meters[m := x.(inFlight := x.inFlight - 1)], control := Received(m))
    case Advance(idle) =>
      Advanced(s, idle)
  }

  /** The steps can be taken one after another from `s`. */
  predicate CanRun(s: State, steps: seq<Step>)
    requires Shape(s)
    decreases |steps|
  {
    steps == [] || (Enabled(s, steps[0]) && CanRun(Apply(s, steps[0]), steps[1..]))
  }

  function Exec(s: State, steps: seq<Step>): (r: State)
    requires Shape(s) && CanRun(s, steps)
    ensures Shape(r)
    decreases |steps|
  {
    if steps == [] then s else Exec(Apply(s, steps[0]), steps[1..])
  }

  /** What the `Mark` calls of a run add up to on one meter. */
  function SumMarks(steps: seq<Step>, m: MeterId): nat {
    if steps == [] then 0
    else (if steps[0].Mark? && steps[0].m == m then steps[0].count else 0) + SumMarks(steps[1..], m)
  }

  // ----- One meter's invariant -----

  function Pending(b: bool): nat {
    if b then 1 else 0
  }

  /** The sweeper is inside `update`, at meter `m`. */
  predicate At(s: State, m: MeterId)
    requires Shape(s)
  {
    !s.control.Select? && !s.control.Received? && !s.control.Registered? && !s.control.Scan?
    && s.tracked[s.control.i] == m
  }

  /**
   Nothing marked on `m` has been lost or counted twice, at every point of every
   goroutine: the accumulator, the snapshot total and the value the sweeper holds
   in a local variable add up to exactly what was marked.
   */
  predicate Conserved(s: State, m: MeterId)
    requires Shape(s) && m in s.meters
  {
    var x := s.meters[m];
    var n := multiset(s.tracked)[m];
    && n <= 1
    && x.total <= x.marked
    && (s.control == Received(m) || s.control == Registered(m) ==> n == 0)
    && if s.control == Received(m) then
         x.inFlight == 0 && x.accumulator == x.marked - x.total > 0
       else if s.control == Registered(m) then
         x.inFlight == 0 && x.accumulator == x.marked > 0
       else if n == 0 then
         x.accumulator == x.marked - x.total && x.inFlight == Pending(x.accumulator > 0)
       else if At(s, m) && s.control.Swapped? then
         && x.total < s.control.swapped
         && x.accumulator + s.control.swapped == x.marked
         && x.inFlight == Pending(x.accumulator > 0)
       else if At(s, m) && s.control.Noticed? then
         x.inFlight == 1 && x.accumulator == x.marked > x.total
       else if At(s, m) && s.control.Removing? then
         x.accumulator == x.marked - x.total && x.inFlight == Pending(x.accumulator > 0)
       else
         && x.inFlight == 0
         && x.accumulator == x.marked > 0
         && (At(s, m) && s.control.Loaded? ==> x.total <= s.control.loaded <= x.marked)
         && (At(s, m) && s.control.Idle? ==> x.total == s.control.loaded)
  }

  /** A meter that no goroutine is working on. */
  predicate AtRest(s: State, m: MeterId)
    requires Shape(s) && m in s.meters
  {
    !At(s, m) && s.control != Received(m) && s.control != Registered(m) && s.meters[m].inFlight == 0
  }

  lemma MarkKeeps(s: State, m: MeterId, other: MeterId, count: nat)
    requires Shape(s) && Enabled(s, Mark(other, count)) && m in s.meters && Conserved(s, m)
    requires Apply(s, Mark(other, count)).meters[m].marked < TWO64
    ensures Conserved(Apply(s, Mark(other, count)), m)
  {
  }

  lemma RegisterKeeps(s: State, m: MeterId, idle: bool)
    requires Shape(s) && m in s.meters && Conserved(s, m) && s.meters[m].marked < TWO64
    requires s.control.Received? || s.control.Registered?
    ensures Conserved(Advanced(s, idle), m)
  {
  }

  lemma UpdateKeeps(s: State, m: MeterId, idle: bool)
    requires Shape(s) && Enabled(s, Advance(idle)) && m in s.meters && Conserved(s, m)
    requires s.meters[m].marked < TWO64
    requires s.control.Select? || s.control.Scan? || s.control.Loaded? || s.control.Idle? || s.control.Swapped?
    ensures Conserved(Advanced(s, idle), m)
  {
  }

  lemma RemoveKeeps(s: State, m: MeterId, idle: bool)
    requires Shape(s) && m in s.meters && Conserved(s, m) && s.meters[m].marked < TWO64
    requires s.control.Noticed? || s.control.Removing?
    ensures Conserved(Advanced(s, idle), m)
  {
    if s.control.Removing? {
      SwapRemoveIsRemoval(s.tracked, s.control.i);
    }
  }

  lemma ReceiveKeeps(s: State, m: MeterId, other: MeterId)
    requires Shape(s) && Enabled(s, Receive(other)) && m in s.meters && Conserved(s, m)
    ensures Conserved(Apply(s, Receive(other)), m)
  {
  }

  lemma StepKeeps(s: State, m: MeterId, step: Step)
    requires Shape(s) && Enabled(s, step) && m in s.meters && Conserved(s, m)
    requires Apply(s, step).meters[m].marked < TWO64
    ensures Conserved(Apply(s, step), m)
  {
    match step
    case Mark(other, count) => MarkKeeps(s, m, other, count);
    case Receive(other) => ReceiveKeeps(s, m, other);
    case Advance(idle) =>
      hide Conserved;
      if s.control.Received? || s.control.Registered? {
        RegisterKeeps(s, m, idle);
      } else if s.control.Noticed? || s.control.Removing? {
        RemoveKeeps(s, m, idle);
      } else {
        UpdateKeeps(s, m, idle);
      }
  }

  lemma StepGrows(s: State, m: MeterId, step: Step)
    requires Shape(s) && Enabled(s, step) && m in s.meters && Conserved(s, m)
    ensures s.meters[m].total <= Apply(s, step).meters[m].total
  {
  }

  // ----- The current pass -----

  /** The sweeper is inside `update` and has already looked at `tracked[i]`. */
  predicate Looked(c: Control) {
    c.Idle? || c.Swapped? || c.Noticed? || c.Removing?
  }

  predicate InUpdate(c: Control) {
    c.Scan? || c.Loaded? || Looked(c)
  }

  /**
   The kept meters are the slice up to `i`, in order; what was looked at and what
   is still to come make up the meters tracked when the pass began; and every
   meter looked at was kept or dropped, but for the one in hand (`looked`).
   */
  predicate PassAt(tracked: seq<MeterId>, i: nat, looked: bool, p: Pass)
    requires if looked then i < |tracked| else i <= |tracked|
  {
    && tracked[..i] == p.kept
    && if looked then
         && multiset(p.visited) + multiset(tracked[i + 1..]) == multiset(p.start)
         && multiset(p.visited) == multiset(p.kept) + multiset(p.dropped) + multiset{tracked[i]}
       else
         && multiset(p.visited) + multiset(tracked[i..]) == multiset(p.start)
         && multiset(p.visited) == multiset(p.kept) + multiset(p.dropped)
  }

  predicate PassOk(s: State)
    requires Shape(s)
  {
    InUpdate(s.control) ==> PassAt(s.tracked, s.control.i, Looked(s.control), s.pass)
  }

  /** Once looked at in this pass, a meter's total covers all that was marked before the pass began. */
  predicate Fresh(s: State, m: MeterId)
    requires Shape(s) && m in s.meters
  {
    InUpdate(s.control) ==>
      && m in s.pass.markedAt
      && s.pass.markedAt[m] <= s.meters[m].marked
      && (m in s.pass.visited ==> s.pass.markedAt[m] <= s.meters[m].total)
      && (At(s, m) && s.control.Loaded? ==> s.pass.markedAt[m] <= s.control.loaded)
  }

  lemma StartPass(tracked: seq<MeterId>, markedAt: map<MeterId, nat>)
    ensures PassAt(tracked, 0, false, Pass(tracked, [], [], [], markedAt))
  {
    assert tracked[0..] == tracked;
  }

  lemma LookKeepsPass(tracked: seq<MeterId>, i: nat, p: Pass)
    requires i < |tracked| && PassAt(tracked, i, false, p)
    ensures PassAt(tracked, i, true, p.(visited := p.visited + [tracked[i]]))
  {
    assert tracked[i..] == [tracked[i]] + tracked[i + 1..];
  }

  lemma KeepKeepsPass(tracked: seq<MeterId>, i: nat, p: Pass)
    requires i < |tracked| && PassAt(tracked, i, true, p)
    ensures PassAt(tracked, i + 1, false, p.(kept := p.kept + [tracked[i]]))
  {
    assert tracked[..i + 1] == tracked[..i] + [tracked[i]];
  }

  lemma DropKeepsPass(tracked: seq<MeterId>, i: nat, p: Pass)
    requires i < |tracked| && PassAt(tracked, i, true, p)
    ensures PassAt(SwapRemove(tracked, i), i, false, p.(dropped := p.dropped + [tracked[i]]))
  {
    SwapRemoveIsRemoval(tracked, i);
  }

  lemma StepKeepsPass(s: State, step: Step)
    requires Shape(s) && Enabled(s, step) && PassOk(s)
    ensures PassOk(Apply(s, step))
  {
    hide PassAt;
    if step.Advance? {
      match s.control
      case Select =>
        StartPass(s.tracked, Advanced(s, step.idle).pass.markedAt);
      case Loaded(i, _) =>
        LookKeepsPass(s.tracked, i, s.pass);
        KeepKeepsPass(s.tracked, i, s.pass.(visited := s.pass.visited + [s.tracked[i]]));
      case Swapped(i, _) =>
        KeepKeepsPass(s.tracked, i, s.pass);
      case Removing(i) =>
        DropKeepsPass(s.tracked, i, s.pass);
      case _ =>
    }
  }

  lemma StepKeepsFresh(s: State, m: MeterId, step: Step)
    requires Shape(s) && Enabled(s, step) && m in s.meters && Conserved(s, m) && Fresh(s, m)
    ensures Fresh(Apply(s, step), m)
  {
  }

  // ----- Whole runs -----

  lemma {:induction false} MarkedIsSum(s: State, steps: seq<Step>, m: MeterId)
    requires Shape(s) && CanRun(s, steps) && m in s.meters
    ensures m in Exec(s, steps).meters
    ensures Exec(s, steps).meters[m].marked == s.meters[m].marked + SumMarks(steps, m)
    decreases |steps|
  {
    if steps != [] {
      MarkedIsSum(Apply(s, steps[0]), steps[1..], m);
    }
  }

  lemma {:induction false} RunKeeps(s: State, steps: seq<Step>, m: MeterId)
    requires Shape(s) && CanRun(s, steps) && m in s.meters && Conserved(s, m) && Fresh(s, m)
    requires s.meters[m].marked + SumMarks(steps, m) < TWO64
    ensures var e := Exec(s, steps);
            m in e.meters && Conserved(e, m) && Fresh(e, m) && s.meters[m].total <= e.meters[m].total
    decreases |steps|
  {
    if steps != [] {
      MarkedIsSum(s, steps[..1], m);
      StepKeeps(s, m, steps[0]);
      StepGrows(s, m, steps[0]);
      StepKeepsFresh(s, m, steps[0]);
      RunKeeps(Apply(s, steps[0]), steps[1..], m);
    }
  }

  lemma {:induction false} RunKeepsPass(s: State, steps: seq<Step>)
    requires Shape(s) && CanRun(s, steps) && PassOk(s)
    ensures PassOk(Exec(s, steps))
    decreases |steps|
  {
    if steps != [] {
      StepKeepsPass(s, steps[0]);
      RunKeepsPass(Apply(s, steps[0]), steps[1..]);
    }
  }

  lemma {:induction false} RunsCompose(s: State, first: seq<Step>, rest: seq<Step>)
    requires Shape(s) && CanRun(s, first + rest)
    ensures CanRun(s, first) && CanRun(Exec(s, first), rest)
    ensures Exec(s, first + rest) == Exec(Exec(s, first), rest)
    decreases |first|
  {
    if first == [] {
      assert first + rest == rest;
    } else {
      assert (first + rest)[1..] == first[1..] + rest;
      RunsCompose(Apply(s, first[0]), first[1..], rest);
    }
  }

  lemma {:induction false} SumMarksSplits(first: seq<Step>, rest: seq<Step>, m: MeterId)
    ensures SumMarks(first + rest, m) == SumMarks(first, m) + SumMarks(rest, m)
    decreases |first|
  {
    if first == [] {
      assert first + rest == rest;
    } else {
      assert (first + rest)[1..] == first[1..] + rest;
      SumMarksSplits(first[1..], rest, m);
    }
  }

  /** In every interleaving, no marked count is lost or doubled while the marks fit in 64 bits. */
  lemma NothingLost(s: State, steps: seq<Step>, m: MeterId)
    requires Init(s) && CanRun(s, steps) && m in s.meters
    requires SumMarks(steps, m) < TWO64
    ensures var e := Exec(s, steps);
            m in e.meters && e.meters[m].marked == SumMarks(steps, m) && Conserved(e, m)
  {
    MarkedIsSum(s, steps, m);
    RunKeeps(s, steps, m);
  }

  /**
   A meter at rest holds all its marks where they belong exactly when they fit in 64 bits.
   Only the "if" needs a proof: both places are 64-bit words, so larger sums cannot be there.
   */
  lemma RestHoldsAllMarks(s: State, steps: seq<Step>, m: MeterId)
    requires Init(s) && CanRun(s, steps) && m in Exec(s, steps).meters && m in s.meters
    requires AtRest(Exec(s, steps), m)
    ensures var e := Exec(s, steps);
            var x := e.meters[m];
            var sum := SumMarks(steps, m);
            (if m in e.tracked then x.accumulator == sum else x.accumulator == 0 && x.total == sum)
            <==> sum < TWO64
  {
    if SumMarks(steps, m) < TWO64 {
      NothingLost(s, steps, m);
    }
  }

  /** Snapshot totals never go back, and never run ahead of what was marked. */
  lemma SnapshotsGrow(s: State, first: seq<Step>, rest: seq<Step>, m: MeterId)
    requires Init(s) && CanRun(s, first + rest) && m in s.meters
    requires SumMarks(first + rest, m) < TWO64
    ensures CanRun(s, first)
    ensures m in Exec(s, first).meters && m in Exec(s, first + rest).meters
    ensures Exec(s, first).meters[m].total <= Exec(s, first + rest).meters[m].total <= SumMarks(first + rest, m)
  {
    RunsCompose(s, first, rest);
    SumMarksSplits(first, rest, m);
    MarkedIsSum(s, first, m);
    MarkedIsSum(s, first + rest, m);
    RunKeeps(s, first, m);
    RunKeeps(Exec(s, first), rest, m);
  }

  /**
   When a pass is over it has looked at every meter it started with exactly as often
   as that meter was tracked, it keeps tracking exactly those that were not dropped,
   and each one's snapshot covers everything marked before the pass began.
   */
  lemma PassVisitsAll(s: State, steps: seq<Step>)
    requires Init(s) && CanRun(s, steps)
    requires Exec(s, steps).control == Scan(|Exec(s, steps).tracked|)
    ensures var e := Exec(s, steps);
            && multiset(e.pass.visited) == multiset(e.pass.start)
            && e.tracked == e.pass.kept
            && multiset(e.pass.start) == multiset(e.pass.kept) + multiset(e.pass.dropped)
  {
    RunKeepsPass(s, steps);
    var e := Exec(s, steps);
    assert e.tracked[..|e.tracked|] == e.tracked;
    assert e.tracked[|e.tracked|..] == [];
  }

  // ----- Which meters a pass drops -----

  /**
   What an observer writes down when the sweeper looks at a meter: what had been marked on
   it at the load, at the swap and at the add-back, and how the rate test came out.  The
   swap and the add-back are at first taken to be where the load was.
   */
  datatype Look = Look(m: MeterId, idle: bool, atLoad: nat, atSwap: nat, atBack: nat)

  /** The meters tracked when the current pass began, and the looks since. */
  datatype Watch = Watch(start: seq<MeterId>, looks: seq<Look>)

  function WithLast(looks: seq<Look>, l: Look): seq<Look> {
    if looks == [] then [] else looks[|looks| - 1 := l]
  }

  /** The observer only sees at which point the sweeper is, its steps, and the marks. */
  function Observe(s: State, step: Step, w: Watch): Watch
    requires Shape(s) && Enabled(s, step)
  {
    if !step.Advance? || (!s.control.Select? && !s.control.Scan? && w.looks == []) then w
    else
      match s.control
      case Select => Watch(s.tracked, [])
      case Scan(i) =>
        if i == |s.tracked| then w
        else
          var n := s.meters[s.tracked[i]].marked;
          w.(looks := w.looks + [Look(s.tracked[i], false, n, n, n)])
      case Loaded(_, _) =>
        w.(looks := WithLast(w.looks, w.looks[|w.looks| - 1].(idle := step.idle)))
      case Idle(i, _) =>
        var n := s.meters[s.tracked[i]].marked;
        w.(looks := WithLast(w.looks, w.looks[|w.looks| - 1].(atSwap := n, atBack := n)))
      case Swapped(i, _) =>
        w.(looks := WithLast(w.looks, w.looks[|w.looks| - 1].(atBack := s.meters[s.tracked[i]].marked)))
      case _ => w
  }

  function Watched(s: State, steps: seq<Step>, w: Watch): Watch
    requires Shape(s) && CanRun(s, steps)
    decreases |steps|
  {
    if steps == [] then w else Watched(Apply(s, steps[0]), steps[1..], Observe(s, steps[0], w))
  }

  /** Idle, and either nothing was marked before the swap, or something was and somebody noticed. */
  predicate Drops(l: Look) {
    l.idle && (l.atSwap == l.atLoad || l.atBack > l.atSwap)
  }

  function KeptBy(looks: seq<Look>): seq<MeterId> {
    if looks == [] then []
    else
      var l := looks[|looks| - 1];
      KeptBy(looks[..|looks| - 1]) + if Drops(l) then [] else [l.m]
  }

  function LookedAt(looks: seq<Look>): (ms: seq<MeterId>)
    ensures |ms| == |looks| && forall i | 0 <= i < |looks| :: ms[i] == looks[i].m
  {
    seq(|looks|, i requires 0 <= i < |looks| => looks[i].m)
  }

  /** The look in hand, as far as the sweeper has come with it. */
  predicate InHand(c: Control, l: Look) {
    match c
    case Loaded(_, loaded) => !l.idle && l.atLoad == l.atSwap == l.atBack == loaded
    case Idle(_, loaded) => l.idle && l.atLoad == l.atSwap == l.atBack == loaded
    case Swapped(_, swapped) => l.idle && l.atLoad < l.atSwap == l.atBack == swapped
    case Noticed(_) => l.idle && l.atLoad < l.atSwap < l.atBack
    case Removing(_) => Drops(l)
    case _ => true
  }

  predicate WatchOk(s: State, w: Watch)
    requires Shape(s)
  {
    InUpdate(s.control) ==>
      if s.control.Scan? then
        && KeptBy(w.looks) == s.tracked[..s.control.i]
        && multiset(LookedAt(w.looks)) + multiset(s.tracked[s.control.i..]) == multiset(w.start)
      else
        && w.looks != []
        && var n := |w.looks| - 1;
        && w.looks[n].m == s.tracked[s.control.i]
        && KeptBy(w.looks[..n]) == s.tracked[..s.control.i]
        && multiset(LookedAt(w.looks[..n])) + multiset(s.tracked[s.control.i..]) == multiset(w.start)
        && InHand(s.control, w.looks[n])
  }

  lemma LookedAtAll(looks: seq<Look>)
    requires looks != []
    ensures var n := |looks| - 1; LookedAt(looks) == LookedAt(looks[..n]) + [looks[n].m]
  {
  }

  lemma WatchMark(s: State, m: MeterId, count: nat, w: Watch)
    requires Shape(s) && Enabled(s, Mark(m, count)) && WatchOk(s, w)
    ensures WatchOk(Apply(s, Mark(m, count)), w)
  {
    hide KeptBy, LookedAt, InHand;
  }

  lemma WatchStart(s: State, idle: bool, w: Watch)
    requires Shape(s) && Enabled(s, Advance(idle)) && s.control.Select?
    ensures WatchOk(Advanced(s, idle), Observe(s, Advance(idle), w))
  {
    assert s.tracked[0..] == s.tracked;
    assert LookedAt([]) == [];
  }

  lemma WatchLoad(s: State, idle: bool, w: Watch)
    requires Shape(s) && s.control.Scan? && s.control.i < |s.tracked| && WatchOk(s, w)
    requires Conserved(s, s.tracked[s.control.i])
    ensures WatchOk(Advanced(s, idle), Observe(s, Advance(idle), w))
  {
    var m := s.tracked[s.control.i];
    assert m in multiset(s.tracked);
    var n := s.meters[m].marked;
    var looks := w.looks + [Look(m, false, n, n, n)];
    assert looks[..|looks| - 1] == w.looks;
    hide KeptBy, LookedAt;
  }

  /** The look in hand is over and the meter is kept. */
  lemma WatchKeep(tracked: seq<MeterId>, i: nat, looks: seq<Look>, start: seq<MeterId>)
    requires i < |tracked| && looks != [] && !Drops(looks[|looks| - 1]) && looks[|looks| - 1].m == tracked[i]
    requires KeptBy(looks[..|looks| - 1]) == tracked[..i]
    requires multiset(LookedAt(looks[..|looks| - 1])) + multiset(tracked[i..]) == multiset(start)
    ensures KeptBy(looks) == tracked[..i + 1]
    ensures multiset(LookedAt(looks)) + multiset(tracked[i + 1..]) == multiset(start)
  {
    hide *;
    LookedCount(looks);
    HeadCount(tracked, i);
    KeptUnfolds(looks);
    assert tracked[..i + 1] == tracked[..i] + [tracked[i]];
  }

  /** The look in hand is over and the meter is dropped. */
  lemma WatchDrop(tracked: seq<MeterId>, i: nat, looks: seq<Look>, start: seq<MeterId>)
    requires i < |tracked| && looks != [] && Drops(looks[|looks| - 1]) && looks[|looks| - 1].m == tracked[i]
    requires KeptBy(looks[..|looks| - 1]) == tracked[..i]
    requires multiset(LookedAt(looks[..|looks| - 1])) + multiset(tracked[i..]) == multiset(start)
    ensures var r := SwapRemove(tracked, i);
            KeptBy(looks) == r[..i] && multiset(LookedAt(looks)) + multiset(r[i..]) == multiset(start)
  {
    hide *;
    LookedCount(looks);
    HeadCount(tracked, i);
    SwapRemoveIsRemoval(tracked, i);
    KeptUnfolds(looks);
  }

  lemma LookedCount(looks: seq<Look>)
    requires looks != []
    ensures var n := |looks| - 1; multiset(LookedAt(looks)) == multiset(LookedAt(looks[..n])) + multiset{looks[n].m}
  {
    LookedAtAll(looks);
  }

  lemma HeadCount(tracked: seq<MeterId>, i: nat)
    requires i < |tracked|
    ensures multiset(tracked[i..]) == multiset{tracked[i]} + multiset(tracked[i + 1..])
  {
    assert tracked[i..] == [tracked[i]] + tracked[i + 1..];
  }

  lemma KeptUnfolds(looks: seq<Look>)
    requires looks != []
    ensures var n := |looks| - 1;
            KeptBy(looks) == if Drops(looks[n]) then KeptBy(looks[..n]) else KeptBy(looks[..n]) + [looks[n].m]
  {
    var n := |looks| - 1;
    assert KeptBy(looks[..n]) + [] == KeptBy(looks[..n]);
  }

  lemma WatchTest(s: State, idle: bool, w: Watch)
    requires Shape(s) && s.control.Loaded? && WatchOk(s, w)
    ensures WatchOk(Advanced(s, idle), Observe(s, Advance(idle), w))
  {
    var n, l := |w.looks| - 1, w.looks[|w.looks| - 1].(idle := idle);
    var looks := w.looks[n := l];
    assert looks[..n] == w.looks[..n];
    hide KeptBy, LookedAt;
    if !idle {
      WatchKeep(s.tracked, s.control.i, looks, w.start);
    }
  }

  lemma WatchSwap(s: State, idle: bool, w: Watch)
    requires Shape(s) && s.control.Idle? && WatchOk(s, w) && Conserved(s, s.tracked[s.control.i])
    ensures WatchOk(Advanced(s, idle), Observe(s, Advance(idle), w))
  {
    var m := s.tracked[s.control.i];
    assert m in multiset(s.tracked);
    var n := |w.looks| - 1;
    var l := w.looks[n].(atSwap := s.meters[m].marked, atBack := s.meters[m].marked);
    assert w.looks[n := l][..n] == w.looks[..n];
    hide KeptBy, LookedAt;
  }

  lemma WatchBack(s: State, idle: bool, w: Watch)
    requires Shape(s) && s.control.Swapped? && WatchOk(s, w) && Conserved(s, s.tracked[s.control.i])
    requires s.meters[s.tracked[s.control.i]].marked < TWO64
    ensures WatchOk(Advanced(s, idle), Observe(s, Advance(idle), w))
  {
    var m := s.tracked[s.control.i];
    assert m in multiset(s.tracked);
    var n := |w.looks| - 1;
    var looks := w.looks[n := w.looks[n].(atBack := s.meters[m].marked)];
    assert looks[..n] == w.looks[..n];
    hide KeptBy, LookedAt;
    if s.meters[m].accumulator == 0 {
      WatchKeep(s.tracked, s.control.i, looks, w.start);
    }
  }

  lemma WatchRemove(s: State, idle: bool, w: Watch)
    requires Shape(s) && (s.control.Noticed? || s.control.Removing?) && WatchOk(s, w)
    ensures WatchOk(Advanced(s, idle), Observe(s, Advance(idle), w))
  {
    hide KeptBy, LookedAt, SwapRemove;
    if s.control.Removing? {
      WatchDrop(s.tracked, s.control.i, w.looks, w.start);
    }
  }

  lemma WatchStep(s: State, step: Step, w: Watch)
    requires Shape(s) && Enabled(s, step) && WatchOk(s, w)
    requires forall m | m in s.meters :: Conserved(s, m) && s.meters[m].marked < TWO64
    ensures WatchOk(Apply(s, step), Observe(s, step, w))
  {
    hide WatchOk, Conserved, Advanced;
    match step
    case Mark(m, count) => WatchMark(s, m, count, w);
    case Receive(m) => WatchReceive(s, m, w);
    case Advance(idle) =>
      hide Observe;
      match s.control
      case Select => WatchStart(s, idle, w);
      case Scan(i) =>
        if i < |s.tracked| {
          WatchLoad(s, idle, w);
        } else {
          WatchEnd(s, idle, w);
        }
      case Loaded(_, _) => WatchTest(s, idle, w);
      case Idle(_, _) => WatchSwap(s, idle, w);
      case Swapped(_, _) => WatchBack(s, idle, w);
      case Noticed(_) => WatchRemove(s, idle, w);
      case Removing(_) => WatchRemove(s, idle, w);
      case Received(_) => WatchEnd(s, idle, w);
      case Registered(_) => WatchEnd(s, idle, w);
  }

  lemma WatchReceive(s: State, m: MeterId, w: Watch)
    requires Shape(s) && Enabled(s, Receive(m))
    ensures WatchOk(Apply(s, Receive(m)), w)
  {
  }

  /** Outside `update` there is nothing to watch. */
  lemma WatchEnd(s: State, idle: bool, w: Watch)
    requires Shape(s) && Enabled(s, Advance(idle))
    requires s.control.Received? || s.control.Registered? || s.control == Scan(|s.tracked|)
    ensures WatchOk(Advanced(s, idle), Observe(s, Advance(idle), w))
  {
  }

  lemma {:induction false} RunWatched(s: State, steps: seq<Step>, w: Watch)
    requires Shape(s) && CanRun(s, steps) && WatchOk(s, w)
    requires forall m | m in s.meters :: Conserved(s, m) && s.meters[m].marked + SumMarks(steps, m) < TWO64
    ensures WatchOk(Exec(s, steps), Watched(s, steps, w))
    decreases |steps|
  {
    if steps != [] {
      var t := Apply(s, steps[0]);
      hide WatchOk, Conserved, Observe;
      forall m | m in t.meters
        ensures Conserved(t, m) && t.meters[m].marked + SumMarks(steps[1..], m) < TWO64
      {
        StepMarks(s, steps, m);
        StepKeeps(s, m, steps[0]);
      }
      WatchStep(s, steps[0], w);
      RunWatched(t, steps[1..], Observe(s, steps[0], w));
    }
  }

  lemma StepMarks(s: State, steps: seq<Step>, m: MeterId)
    requires Shape(s) && steps != [] && Enabled(s, steps[0]) && m in Apply(s, steps[0]).meters
    ensures m in s.meters
    ensures Apply(s, steps[0]).meters[m].marked + SumMarks(steps[1..], m) == s.meters[m].marked + SumMarks(steps, m)
  {
  }

  /**
   For every run that ends a pass, exactly which meters it dropped, from the steps taken:
   the pass looked at the meters tracked when it began, and what is tracked now are, in the
   order they were looked at, those that were not idle, or on which something was marked
   between the load and the swap and nothing between the swap and the add-back.
   */
  lemma PassDrops(s: State, steps: seq<Step>)
    requires Init(s) && CanRun(s, steps) && forall m | m in s.meters :: SumMarks(steps, m) < TWO64
    requires Exec(s, steps).control == Scan(|Exec(s, steps).tracked|)
    ensures var e, w := Exec(s, steps), Watched(s, steps, Watch([], []));
            && e.tracked == KeptBy(w.looks)
            && multiset(LookedAt(w.looks)) == multiset(w.start)
  {
    var e, w := Exec(s, steps), Watched(s, steps, Watch([], []));
    RunWatched(s, steps, Watch([], []));
    assert e.tracked[..|e.tracked|] == e.tracked && e.tracked[|e.tracked|..] == [];
    hide KeptBy, LookedAt;
  }

  // ----- A pass without marks -----

  function Sweeps(n: nat): seq<Step> {
    if n == 0 then [] else [Advance(true)] + Sweeps(n - 1)
  }

  /** Four steps of the sweeper take an idle meter out. */
  lemma QuietLook(s: State, rest: seq<Step>)
    requires Shape(s) && s.control.Scan? && s.control.i < |s.tracked|
    requires var m := s.tracked[s.control.i]; s.meters[m].accumulator == s.meters[m].marked
    ensures var m, x := s.tracked[s.control.i], s.meters[s.tracked[s.control.i]];
            var t := s.(meters := s.meters[m := x.(accumulator := 0, total := x.accumulator)],
                        tracked := SwapRemove(s.tracked, s.control.i),
                        pass := s.pass.(visited := s.pass.visited + [m], dropped := s.pass.dropped + [m]));
            && Shape(t)
            && (CanRun(t, rest) ==>
                  var steps := [Advance(true)] + ([Advance(true)] + ([Advance(true)] + ([Advance(true)] + rest)));
                  CanRun(s, steps) && Exec(s, steps) == Exec(t, rest))
  {
    hide SwapRemove;
    var a := Advanced(s, true);
    var b := Advanced(a, true);
    var c := Advanced(b, true);
    var t := Advanced(c, true);
    var m, x := s.tracked[s.control.i], s.meters[s.tracked[s.control.i]];
    assert t.meters == s.meters[m := x.(accumulator := 0, total := x.accumulator)];
    if CanRun(t, rest) {
      Prepend(c, Advance(true), rest);
      Prepend(b, Advance(true), [Advance(true)] + rest);
      Prepend(a, Advance(true), [Advance(true)] + ([Advance(true)] + rest));
      Prepend(s, Advance(true), [Advance(true)] + ([Advance(true)] + ([Advance(true)] + rest)));
    }
  }

  /** Every meter that was tracked has its marks in its total and nothing in its accumulator. */
  predicate PutAway(s: State, e: State)
    requires Shape(s)
  {
    && e.meters.Keys == s.meters.Keys
    && forall m | m in s.meters ::
         if m in s.tracked
         then e.meters[m].accumulator == 0 && e.meters[m].total == e.meters[m].marked == s.meters[m].marked
         else e.meters[m] == s.meters[m]
  }

  lemma {:induction false} QuietScan(s: State)
    requires Shape(s) && s.control == Scan(0) && NoneTwice(s.tracked)
    requires forall m | m in s.tracked :: s.meters[m].accumulator == s.meters[m].marked
    ensures var steps := Sweeps(4 * |s.tracked|);
            && CanRun(s, steps)
            && var e := Exec(s, steps); e.tracked == [] && e.control == Scan(0) && PutAway(s, e)
    decreases |s.tracked|
  {
    if s.tracked != [] {
      var n := 4 * |s.tracked|;
      var m := s.tracked[0];
      var x := s.meters[m];
      var t := s.(meters := s.meters[m := x.(accumulator := 0, total := x.accumulator)],
                  tracked := SwapRemove(s.tracked, 0),
                  pass := s.pass.(visited := s.pass.visited + [m], dropped := s.pass.dropped + [m]));
      QuietLook(s, Sweeps(n - 4));
      SwapRemoveRest(s.tracked);
      QuietScan(t);
      QuietLook(s, Sweeps(n - 4));
      FourSweeps(n);
      hide SwapRemove, Sweeps;
    }
  }

  predicate NoneTwice(tracked: seq<MeterId>) {
    forall i, j | 0 <= i < j < |tracked| :: tracked[i] != tracked[j]
  }

  lemma SwapRemoveRest(tracked: seq<MeterId>)
    requires tracked != [] && NoneTwice(tracked)
    ensures var r := SwapRemove(tracked, 0);
            NoneTwice(r) && forall m :: m in r <==> m in tracked && m != tracked[0]
  {
    var r, last := SwapRemove(tracked, 0), |tracked| - 1;
    forall m
      ensures m in r <==> m in tracked && m != tracked[0]
    {
      if m in tracked && m != tracked[0] {
        var i :| 0 <= i < |tracked| && tracked[i] == m;
        assert r[if i == last then 0 else i] == m;
      }
    }
  }

  lemma FourSweeps(n: nat)
    requires n >= 4
    ensures Sweeps(n) == [Advance(true)] + ([Advance(true)] + ([Advance(true)] + ([Advance(true)] + Sweeps(n - 4))))
  {
    SweepsStep(n);
    SweepsStep(n - 1);
    SweepsStep(n - 2);
    SweepsStep(n - 3);
    hide Sweeps;
  }

  lemma SweepsStep(n: nat)
    requires n > 0
    ensures Sweeps(n) == [Advance(true)] + Sweeps(n - 1)
  {
  }

  /**
   If nothing is marked and every rate test comes out idle, one pass empties the slice of
   any number of tracked meters and leaves all their marks in the totals.
   */
  lemma QuietPass(s: State)
    requires Shape(s) && s.control == Select && s.tracked != []
    requires forall m | m in s.meters :: Conserved(s, m)
    ensures var steps := Sweeps(1 + 4 * |s.tracked|);
            && CanRun(s, steps)
            && var e := Exec(s, steps); e.tracked == [] && PutAway(s, e)
  {
    var t := Advanced(s, true);
    OnceTracked(s);
    forall m | m in t.tracked
      ensures t.meters[m].accumulator == t.meters[m].marked
    {
      assert m in multiset(s.tracked);
    }
    QuietScan(t);
    Prepend(s, Advance(true), Sweeps(4 * |s.tracked|));
  }

  lemma OnceTracked(s: State)
    requires Shape(s) && forall m | m in s.meters :: Conserved(s, m)
    ensures NoneTwice(s.tracked)
  {
    forall i, j | 0 <= i < j < |s.tracked|
      ensures s.tracked[i] != s.tracked[j]
    {
      assert Conserved(s, s.tracked[i]);
      TwiceCounts(s.tracked, i, j);
    }
  }

  lemma TwiceCounts(tracked: seq<MeterId>, i: nat, j: nat)
    requires i < j < |tracked|
    ensures tracked[i] == tracked[j] ==> multiset(tracked)[tracked[i]] >= 2
  {
    SplitMultiset(tracked, j);
    assert tracked[..j][i] == tracked[i] && tracked[j..][0] == tracked[j];
    assert tracked[i] in multiset(tracked[..j]) && tracked[j] in multiset(tracked[j..]);
  }

  lemma PassIsFresh(s: State, steps: seq<Step>, m: MeterId)
    requires Init(s) && CanRun(s, steps) && m in s.meters && SumMarks(steps, m) < TWO64
    requires Exec(s, steps).control == Scan(|Exec(s, steps).tracked|)
    requires m in Exec(s, steps).pass.start
    ensures var e := Exec(s, steps);
            m in e.pass.markedAt && m in e.meters
            && e.pass.markedAt[m] <= e.meters[m].total <= SumMarks(steps, m)
  {
    PassVisitsAll(s, steps);
    MarkedIsSum(s, steps, m);
    RunKeeps(s, steps, m);
    var e := Exec(s, steps);
    assert m in multiset(e.pass.start);
    assert m in multiset(e.pass.visited);
  }

  lemma Prepend(s: State, step: Step, rest: seq<Step>)
    requires Shape(s) && Enabled(s, step) && CanRun(Apply(s, step), rest)
    ensures CanRun(s, [step] + rest) && Exec(s, [step] + rest) == Exec(Apply(s, step), rest)
  {
    assert ([step] + rest)[1..] == rest;
  }

  /** A registration in flight on a meter whose total is still 0 ends with the meter appended. */
  lemma RegisterRun(s: State, a: Word, marked: nat, rest: seq<Step>)
    requires Shape(s) && s.control == Select && 0 in s.meters && s.meters[0] == Meter(a, 0, marked, 1)
    requires var t := s.(meters := s.meters[0 := Meter(a, 0, marked, 0)], tracked := s.tracked + [0]);
             CanRun(t, rest)
    ensures var t := s.(meters := s.meters[0 := Meter(a, 0, marked, 0)], tracked := s.tracked + [0]);
            var steps := [Receive(0)] + ([Advance(true)] + ([Advance(true)] + rest));
            CanRun(s, steps) && Exec(s, steps) == Exec(t, rest)
  {
    var b := Apply(s, Receive(0));
    var c := Apply(b, Advance(true));
    var t := s.(meters := s.meters[0 := Meter(a, 0, marked, 0)], tracked := s.tracked + [0]);
    assert c.meters == t.meters;
    assert Apply(c, Advance(true)) == t;
    Prepend(c, Advance(true), rest);
    Prepend(b, Advance(true), [Advance(true)] + rest);
    Prepend(s, Receive(0), [Advance(true)] + ([Advance(true)] + rest));
  }

  function OneMeter(x: Meter, tracked: seq<MeterId>): State {
    State(map[0 := x], tracked, Select, Pass([], [], [], [], map[]))
  }

  lemma WrapRegistersAgain() returns (d: State, steps: seq<Step>)
    ensures d == OneMeter(Meter(TWO64 - 1, 0, TWO64 - 1, 0), [0])
    ensures CanRun(d, steps) && Exec(d, steps) == OneMeter(Meter(5, 0, TWO64 + 5, 0), [0, 0])
  {
    var again := [Receive(0)] + ([Advance(true)] + ([Advance(true)] + []));
    var f := OneMeter(Meter(5, 0, TWO64 + 5, 1), [0]);
    var e := OneMeter(Meter(0, 0, TWO64, 0), [0]);
    d := OneMeter(Meter(TWO64 - 1, 0, TWO64 - 1, 0), [0]);
    RegisterRun(f, 5, TWO64 + 5, []);
    assert f.(meters := f.meters[0 := Meter(5, 0, TWO64 + 5, 0)], tracked := f.tracked + [0])
        == OneMeter(Meter(5, 0, TWO64 + 5, 0), [0, 0]);
    assert Apply(e, Mark(0, 5)) == f;
    Prepend(e, Mark(0, 5), again);
    assert Apply(d, Mark(0, 1)) == e;
    Prepend(d, Mark(0, 1), [Mark(0, 5)] + again);
    steps := [Mark(0, 1)] + ([Mark(0, 5)] + again);
  }

  /** Without the 64-bit premise the protocol breaks: a wrapped accumulator registers a tracked meter again. */
  lemma OverflowTracksTwice() returns (s: State, steps: seq<Step>)
    ensures Init(s) && CanRun(s, steps) && Exec(s, steps).tracked == [0, 0]
    ensures SumMarks(steps, 0) == TWO64 + 5
  {
    s := OneMeter(Meter(0, 0, 0, 0), []);
    var d, wrapped := WrapRegistersAgain();
    var a := OneMeter(Meter(TWO64 - 1, 0, TWO64 - 1, 1), []);
    assert d == a.(meters := a.meters[0 := Meter(TWO64 - 1, 0, TWO64 - 1, 0)], tracked := a.tracked + [0]);
    RegisterRun(a, TWO64 - 1, TWO64 - 1, wrapped);
    assert Apply(s, Mark(0, TWO64 - 1)) == a;
    var register := [Receive(0)] + ([Advance(true)] + ([Advance(true)] + wrapped));
    Prepend(s, Mark(0, TWO64 - 1), register);
    steps := [Mark(0, TWO64 - 1)] + register;
    MarkedIsSum(s, steps, 0);
  }
}
