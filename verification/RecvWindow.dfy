/**
 The receive window of network/recv_window.go: a ring buffer that puts messages back
 into the order of their nonces, although it remembers the next expected nonce only
 modulo its size.
 */
module RecvWindow {

  import opened Radix

  /** Nonces are 64-bit words. */
  const WORD: int := 0x1_0000_0000_0000_0000

  datatype Option<T> = None | Some(value: T)

  /** The fields of the window; `started` is the state of its `sync.Once`. */
  datatype Window<T> = Window(lastNonce: nat, started: bool, buf: seq<Option<T>>)

  /** `idx`: the slot of a nonce. */
  function Slot(n: nat, size: nat): (r: nat)
    requires size > 0
    ensures r < size && r <= n
  {
    n % size
  }

  /** `id++` on a 64-bit word. */
  function Next(id: nat): nat {
    if id + 1 < WORD then id + 1 else 0
  }

  function Fresh<T>(size: nat): Window<T> {
    Window(0, false, seq(size, _ => None))
  }

  function Pushed<T>(w: Window<T>, nonce: nat, v: Option<T>): (r: Window<T>)
    requires |w.buf| > 0
    ensures |r.buf| == |w.buf|
  {
    Window(if w.started then w.lastNonce else nonce, true, w.buf[Slot(nonce, |w.buf|) := v])
  }

  /** What the loop of `Range` does in its last `left` rounds, starting at nonce `id`. */
  function Ranged<T>(w: Window<T>, fn: (nat, Option<T>) -> bool, id: nat, left: nat): (r: (Window<T>, seq<Option<T>>))
    requires |w.buf| > 0
    ensures |r.0.buf| == |w.buf|
    decreases left
  {
    var idx := Slot(id, |w.buf|);
    if left == 0 then (w, [])
    else if !fn(id, w.buf[idx]) then (w.(lastNonce := idx), [])
    else
      var (w', res) := Ranged(w.(buf := w.buf[idx := None]), fn, Next(id), left - 1);
      (w', [w.buf[idx]] + res)
  }

  function Before<T>(res: seq<Option<T>>, r: (Window<T>, seq<Option<T>>)): (Window<T>, seq<Option<T>>) {
    (r.0, res + r.1)
  }

  lemma RangedStep<T>(w: Window<T>, fn: (nat, Option<T>) -> bool, id: nat, left: nat)
    requires |w.buf| > 0 && left > 0
    ensures var idx := Slot(id, |w.buf|);
      if fn(id, w.buf[idx]) then
        Ranged(w, fn, id, left)
        == Before([w.buf[idx]], Ranged(w.(buf := w.buf[idx := None]), fn, Next(id), left - 1))
      else
        Ranged(w, fn, id, left) == (w.(lastNonce := idx), [])
  {
  }

  lemma RangedEnd<T>(w: Window<T>, fn: (nat, Option<T>) -> bool, id: nat)
    requires |w.buf| > 0
    ensures Ranged(w, fn, id, 0) == (w, [])
  {
  }

  predicate Received<T>(nonce: nat, v: Option<T>) {
    v.Some?
  }

  function Popped<T>(w: Window<T>): (r: (Window<T>, seq<Option<T>>))
    requires |w.buf| > 0
    ensures |r.0.buf| == |w.buf|
  {
    Ranged(w, Received, w.lastNonce, |w.buf|)
  }

  class RecvWindow<T> {
    var lastNonce: nat
    var once: bool
    const size: nat
    const buf: array<Option<T>>

    ghost predicate Valid()
      reads this
    {
      0 < size == buf.Length && lastNonce < WORD
    }

    ghost function State(): Window<T>
      reads this, buf
    {
      Window(lastNonce, once, buf[..])
    }

    /** `NewRecvWindow`. */
    constructor (size: nat)
      requires 0 < size
      ensures Valid() && fresh(buf) && this.size == size && State() == Fresh(size)
    {
      this.size, lastNonce, once := size, 0, false;
      buf := new Option<T>[size](_ => None);
      new;
      assert buf[..] == seq(size, _ => None);
    }

    /** A nil value empties the slot. */
    method Push(nonce: nat, value: Option<T>)
      requires Valid() && nonce < WORD
      modifies this, buf
      ensures Valid() && State() == Pushed(old(State()), nonce, value)
    {
      if !once {
        once, lastNonce := true, nonce;
      }
      buf[Slot(nonce, size)] := value;
    }

    method Range(fn: (nat, Option<T>) -> bool) returns (res: seq<Option<T>>)
      requires Valid()
      modifies this, buf
      ensures Valid() && (State(), res) == Ranged(old(State()), fn, old(lastNonce), size)
    {
      hide Ranged;
      res := [];
      var id: nat := lastNonce;
      var i := 0;
      ghost var r0 := Ranged(State(), fn, id, size);
      assert [] + r0.1 == r0.1;
      while i < size
        invariant Valid() && id < WORD && i <= size
        invariant r0 == Before(res, Ranged(State(), fn, id, size - i))
      {
        ghost var w := State();
        RangedStep(w, fn, id, size - i);
        var idx := Slot(id, size);
        var val := buf[idx];
        if !fn(id, val) {
          lastNonce := idx;
          assert res + [] == res;
          return;
        }
        ghost var rest := Ranged(w.(buf := w.buf[idx := None]), fn, Next(id), size - i - 1);
        assert res + ([val] + rest.1) == res + [val] + rest.1;
        res := res + [val];
        buf[idx] := None;
        assert State() == w.(buf := w.buf[idx := None]);
        id := Next(id);
        i := i + 1;
      }
      RangedEnd(State(), fn, id);
      assert res + [] == res;
    }

    method Pop() returns (res: seq<Option<T>>)
      requires Valid()
      modifies this, buf
      ensures Valid() && (State(), res) == Popped(old(State()))
    {
      res := Range(Received);
    }
  }

  // ----- The stream a window puts back together -----

  /** All messages pushed so far, by the nonce they were sent with, and the part already popped. */
  datatype Stream<T> = Stream(started: bool, first: nat, next: nat, got: map<nat, T>)

  function NoStream<T>(): Stream<T> {
    Stream(false, 0, 0, map[])
  }

  /** Nonce `n` may be pushed next: it is new, inside the window, and its slot is that of the 64-bit word. */
  predicate MayPush<T>(s: Stream<T>, size: nat, n: nat)
    requires size > 0
  {
    && n !in s.got
    && (s.started ==> s.next <= n < s.next + size)
    && (n < WORD || WORD % size == 0)
  }

  function Extended<T>(s: Stream<T>, n: nat, v: T): Stream<T> {
    if s.started then s.(got := s.got[n := v]) else Stream(true, n, n, s.got[n := v])
  }

  /** The first of `left` nonces from `n` on that has not been pushed. */
  function Gap<T>(got: map<nat, T>, n: nat, left: nat): (g: nat)
    ensures n <= g <= n + left && (forall k | n <= k < g :: k in got) && (g < n + left ==> g !in got)
    decreases left
  {
    if left == 0 || n !in got then n else Gap(got, n + 1, left - 1)
  }

  /** The messages with nonces in [a, b), in order. */
  function Messages<T>(got: map<nat, T>, a: nat, b: nat): (r: seq<Option<T>>)
    requires a <= b && forall k | a <= k < b :: k in got
    ensures |r| == b - a && forall i | 0 <= i < b - a :: r[i] == Some(got[a + i])
    decreases b - a
  {
    if a == b then [] else [Some(got[a])] + Messages(got, a + 1, b)
  }

  // ----- Invariant -----

  function Lookup<T>(got: map<nat, T>, n: nat): Option<T> {
    if n in got then Some(got[n]) else None
  }

  ghost predicate Sound<T>(s: Stream<T>, size: nat)
    requires size > 0
  {
    && s.first <= s.next
    && (!s.started ==> s.got == map[] && s.first == s.next)
    && (forall n | s.first <= n < s.next :: n in s.got)
    && (forall n | n in s.got :: s.first <= n < s.next + size && (n < WORD || WORD % size == 0))
  }

  /** Each slot holds the one message of the current window that belongs there, if it has come. */
  ghost predicate Buffered<T>(buf: seq<Option<T>>, s: Stream<T>)
    requires |buf| > 0
  {
    forall n: nat | s.next <= n < s.next + |buf| :: buf[Slot(n, |buf|)] == Lookup(s.got, n)
  }

  /** The stream has used up all 64-bit nonces and the buffer stays empty. */
  predicate Exhausted(next: nat, size: nat)
    requires size > 0
  {
    next == WORD && WORD % size != 0
  }

  /** A nonce is only kept as a number in step with the next expected one. */
  predicate InStep(id: nat, next: nat, size: nat)
    requires size > 0
  {
    Slot(id, size) == Slot(next, size) || Exhausted(next, size)
  }

  ghost predicate Holds<T>(w: Window<T>, s: Stream<T>)
  {
    && |w.buf| > 0 && Sound(s, |w.buf|) && Buffered(w.buf, s) && w.started == s.started
    && (s.started ==> w.lastNonce < WORD && w.lastNonce <= s.next && InStep(w.lastNonce, s.next, |w.buf|))
  }

  lemma SlotsDiffer(m: nat, n: nat, size: nat)
    requires m < n < m + size
    ensures Slot(m, size) != Slot(n, size)
  {
    var d := n / size - m / size;
    if Slot(m, size) == Slot(n, size) {
      assert n - m == size * d;
      if d <= 0 {
        MulMonotone(size, d, 0);
      } else {
        MulMonotone(size, 1, d);
      }
    }
  }

  lemma SlotIsCovered(next: nat, size: nat, j: nat) returns (n: nat)
    requires j < size
    ensures next <= n < next + size && Slot(n, size) == j
  {
    var q, r := next / size, Slot(next, size);
    if r <= j {
      n := next + j - r;
      DivUnique(n, size, q, j);
    } else {
      n := next + size + j - r;
      assert size * (q + 1) == size * q + size;
      DivUnique(n, size, q + 1, j);
    }
  }

  lemma SlotSmall(n: nat, size: nat)
    requires n < size
    ensures Slot(n, size) == n
  {
    DivUnique(n, size, 0, n);
  }

  lemma SlotRepeats(n: nat, size: nat)
    requires size > 0
    ensures Slot(n + size, size) == Slot(n, size)
  {
    ModAdds(n, 1, size);
  }

  lemma SlotSteps(m: nat, n: nat, size: nat)
    requires size > 0 && Slot(m, size) == Slot(n, size)
    ensures Slot(m + 1, size) == Slot(n + 1, size)
  {
    StepsFrom(m, size);
    StepsFrom(n, size);
  }

  lemma StepsFrom(n: nat, size: nat)
    requires size > 0
    ensures Slot(n + 1, size) == Slot(Slot(n, size) + 1, size)
  {
    assert n + 1 == n % size + 1 + size * (n / size);
    ModAdds(n % size + 1, n / size, size);
  }

  // ----- Each step keeps the invariant -----

  lemma PushKeeps<T>(w: Window<T>, s: Stream<T>, n: nat, v: T)
    requires Holds(w, s) && MayPush(s, |w.buf|, n)
    ensures Holds(Pushed(w, n % WORD, Some(v)), Extended(s, n, v))
  {
    var size, s', w' := |w.buf|, Extended(s, n, v), Pushed(w, n % WORD, Some(v));
    WordSlot(n, size);
    hide Slot;
    forall m: nat | s'.next <= m < s'.next + size
      ensures w'.buf[Slot(m, size)] == Lookup(s'.got, m)
    {
      if m < n {
        SlotsDiffer(m, n, size);
      } else if n < m {
        SlotsDiffer(n, m, size);
      }
      if !s.started {
        var k := SlotIsCovered(s.next, size, Slot(m, size));
      }
    }
  }

  lemma WordSlot(n: nat, size: nat)
    requires size > 0 && (n < WORD || WORD % size == 0)
    ensures Slot(n % WORD, size) == Slot(n, size)
  {
    if n >= WORD {
      var c := WORD / size;
      assert n == n % WORD + WORD * (n / WORD);
      MulAssoc(size, c, n / WORD);
      ModAdds(n % WORD, c * (n / WORD), size);
    }
  }

  lemma NothingAbove<T>(w: Window<T>, s: Stream<T>, j: nat)
    requires |w.buf| > 0 && Sound(s, |w.buf|) && Buffered(w.buf, s) && j < |w.buf|
    requires Exhausted(s.next, |w.buf|)
    ensures w.buf[j] == None
  {
    var n := SlotIsCovered(s.next, |w.buf|, j);
  }

  /** The next nonce, after the message at `id` has been taken. */
  lemma StepsAlong<T>(s: Stream<T>, id: nat, size: nat)
    requires size > 0 && Sound(s, size) && s.next in s.got
    requires id < WORD && id <= s.next && Slot(id, size) == Slot(s.next, size)
    ensures InStep(Next(id), s.next + 1, size) && Next(id) <= s.next + 1 && Next(id) < WORD
  {
    assert WORD % size == 0 ==> Slot(WORD, size) == 0 == Slot(0, size);
    SlotSteps(id, s.next, size);
    hide Slot;
  }

  lemma TakenKeeps<T>(buf: seq<Option<T>>, s: Stream<T>, idx: nat)
    requires |buf| > 0 && Sound(s, |buf|) && Buffered(buf, s) && s.next in s.got
    requires idx == Slot(s.next, |buf|)
    ensures Sound(s.(next := s.next + 1), |buf|) && Buffered(buf[idx := None], s.(next := s.next + 1))
  {
    hide Slot;
    var size := |buf|;
    forall n: nat | s.next < n < s.next + 1 + size
      ensures buf[idx := None][Slot(n, size)] == Lookup(s.got, n)
    {
      if n < s.next + size {
        SlotsDiffer(s.next, n, size);
      } else {
        SlotRepeats(s.next, size);
      }
    }
  }

  lemma {:induction false} RangedDelivers<T>(w: Window<T>, s: Stream<T>, id: nat, left: nat)
    requires |w.buf| > 0 && w.started && s.started && Sound(s, |w.buf|) && Buffered(w.buf, s)
    requires id < WORD && id <= s.next && InStep(id, s.next, |w.buf|)
    requires w.lastNonce < WORD && w.lastNonce <= s.next
    requires Slot(w.lastNonce, |w.buf|) == Slot(s.next + left, |w.buf|) || Exhausted(s.next, |w.buf|)
    ensures var r, g := Ranged(w, Received, id, left), Gap(s.got, s.next, left);
            r.1 == Messages(s.got, s.next, g) && Holds(r.0, s.(next := g))
    decreases left
  {
    hide *;
    GapUnfolds(s.got, s.next, left);
    if left == 0 {
      RangedEnd(w, Received, id);
      StandsStill(w, s);
    } else {
      var idx := Slot(id, |w.buf|);
      SlotHasNext(w, s, id);
      RangedStep(w, Received, id, left);
      TakesReceived(s, id, w.buf[idx]);
      if s.next !in s.got {
        StopKeeps(w, s, id);
      } else {
        var w', s' := w.(buf := w.buf[idx := None]), s.(next := s.next + 1);
        TakenKeeps(w.buf, s, idx);
        StepsAlong(s, id, |w.buf|);
        NotExhausted(s, |w.buf|);
        RangedDelivers(w', s', Next(id), left - 1);
        BeforeIs([w.buf[idx]], Ranged(w', Received, Next(id), left - 1));
      }
    }
  }

  lemma GapUnfolds<T>(got: map<nat, T>, n: nat, left: nat)
    ensures Gap(got, n, left) == if left == 0 || n !in got then n else Gap(got, n + 1, left - 1)
    ensures Messages(got, n, Gap(got, n, left))
         == if left == 0 || n !in got then [] else [Some(got[n])] + Messages(got, n + 1, Gap(got, n + 1, left - 1))
  {
  }

  lemma StandsStill<T>(w: Window<T>, s: Stream<T>)
    requires |w.buf| > 0 && w.started && s.started && Sound(s, |w.buf|) && Buffered(w.buf, s)
    requires w.lastNonce < WORD && w.lastNonce <= s.next
    requires Slot(w.lastNonce, |w.buf|) == Slot(s.next, |w.buf|) || Exhausted(s.next, |w.buf|)
    ensures Holds(w, s.(next := s.next))
  {
    hide Slot, Sound, Buffered, Exhausted;
  }

  lemma TakesReceived<T>(s: Stream<T>, id: nat, v: Option<T>)
    requires v == Lookup(s.got, s.next)
    ensures Received(id, v) == (s.next in s.got)
    ensures s.next in s.got ==> v == Some(s.got[s.next])
  {
  }

  lemma NotExhausted<T>(s: Stream<T>, size: nat)
    requires size > 0 && Sound(s, size) && s.next in s.got
    ensures !Exhausted(s.next, size)
  {
  }

  lemma BeforeIs<T>(res: seq<Option<T>>, r: (Window<T>, seq<Option<T>>))
    ensures Before(res, r) == (r.0, res + r.1)
  {
  }

  lemma SlotHasNext<T>(w: Window<T>, s: Stream<T>, id: nat)
    requires |w.buf| > 0 && Sound(s, |w.buf|) && Buffered(w.buf, s) && InStep(id, s.next, |w.buf|)
    ensures w.buf[Slot(id, |w.buf|)] == Lookup(s.got, s.next)
    ensures s.next in s.got ==> Slot(id, |w.buf|) == Slot(s.next, |w.buf|)
  {
    if Exhausted(s.next, |w.buf|) {
      NothingAbove(w, s, Slot(id, |w.buf|));
    }
  }

  lemma StopKeeps<T>(w: Window<T>, s: Stream<T>, id: nat)
    requires |w.buf| > 0 && w.started && s.started && Sound(s, |w.buf|) && Buffered(w.buf, s)
    requires id < WORD && id <= s.next && InStep(id, s.next, |w.buf|)
    ensures Holds(w.(lastNonce := Slot(id, |w.buf|)), s)
  {
    hide Slot, Sound, Buffered;
    SlotSmall(Slot(id, |w.buf|), |w.buf|);
  }

  /** `Pop` hands out the messages from the next expected one up to the first gap. */
  lemma PopKeeps<T>(w: Window<T>, s: Stream<T>)
    requires Holds(w, s)
    ensures var r, g := Popped(w), Gap(s.got, s.next, |w.buf|);
            && r.1 == Messages(s.got, s.next, g)
            && Holds(r.0, s.(next := g))
            && g !in s.got
  {
    var size := |w.buf|;
    hide Slot;
    if s.started {
      SlotRepeats(s.next, size);
      RangedDelivers(w, s, w.lastNonce, size);
    } else {
      var n := SlotIsCovered(s.next, size, Slot(w.lastNonce, size));
    }
  }

  // ----- Whole runs -----

  /** A call on the window; a push is given the unwrapped nonce, the window sees its 64-bit word. */
  datatype Call<T> = Push(n: nat, value: T) | Pop

  function Earlier<T>(calls: seq<Call<T>>): (r: seq<Call<T>>)
    requires calls != []
    ensures |r| < |calls|
  {
    calls[..|calls| - 1]
  }

  /** The window after a run of calls and everything popped during it. */
  function Play<T>(size: nat, calls: seq<Call<T>>): (r: (Window<T>, seq<Option<T>>))
    requires size > 0
    ensures |r.0.buf| == size
  {
    if calls == [] then (Fresh(size), [])
    else
      var (w, out) := Play(size, Earlier(calls));
      match calls[|calls| - 1]
      case Push(n, v) => (Pushed(w, n % WORD, Some(v)), out)
      case Pop => var (w', res) := Popped(w); (w', out + res)
  }

  function Streamed<T>(size: nat, calls: seq<Call<T>>): Stream<T> {
    if calls == [] then NoStream()
    else
      var s := Streamed(size, Earlier(calls));
      match calls[|calls| - 1]
      case Push(n, v) => Extended(s, n, v)
      case Pop => s.(next := Gap(s.got, s.next, size))
  }

  /** Every push of the run is one the window has room for at that moment. */
  predicate Legal<T>(size: nat, calls: seq<Call<T>>)
    requires size > 0
  {
    calls == [] ||
    (Legal(size, Earlier(calls)) &&
     match calls[|calls| - 1]
     case Push(n, v) => MayPush(Streamed(size, Earlier(calls)), size, n)
     case Pop => true)
  }

  /** All messages pushed in a run. */
  function Sent<T>(calls: seq<Call<T>>): map<nat, T> {
    if calls == [] then map[]
    else
      match calls[|calls| - 1]
      case Push(n, v) => Sent(Earlier(calls))[n := v]
      case Pop => Sent(Earlier(calls))
  }

  lemma {:induction false} StreamIsSent<T>(size: nat, calls: seq<Call<T>>)
    ensures var s := Streamed(size, calls);
            s.got == Sent(calls) && (s.started <==> exists i | 0 <= i < |calls| :: calls[i].Push?)
    ensures forall i | 0 <= i < |calls| && calls[i].Push? && (forall j | 0 <= j < i :: calls[j].Pop?) ::
              Streamed(size, calls).first == calls[i].n
  {
    if calls != [] {
      StreamIsSent(size, Earlier(calls));
    }
  }

  lemma {:induction false} RunKeeps<T>(size: nat, calls: seq<Call<T>>)
    requires size > 0 && Legal(size, calls)
    ensures var r, s := Play(size, calls), Streamed(size, calls);
            Holds(r.0, s) && r.1 == Messages(s.got, s.first, s.next)
  {
    if calls != [] {
      var before := Earlier(calls);
      RunKeeps(size, before);
      var w, s := Play(size, before).0, Streamed(size, before);
      match calls[|calls| - 1] {
        case Push(n, v) =>
          PushKeeps(w, s, n, v);
          hide Holds, Popped, Pushed;
          SameMessages(s.got, Extended(s, n, v).got, s.first, s.next);
        case Pop =>
          PopKeeps(w, s);
          hide Popped, Pushed;
          MessagesJoin(s.got, s.first, s.next, Gap(s.got, s.next, size));
      }
    }
  }

  lemma SameMessages<T>(got: map<nat, T>, got': map<nat, T>, a: nat, b: nat)
    requires a <= b && forall k | a <= k < b :: k in got && k in got' && got[k] == got'[k]
    ensures Messages(got, a, b) == Messages(got', a, b)
  {
  }

  lemma MessagesJoin<T>(got: map<nat, T>, a: nat, b: nat, c: nat)
    requires a <= b <= c && forall k | a <= k < c :: k in got
    ensures Messages(got, a, b) + Messages(got, b, c) == Messages(got, a, c)
    decreases b - a
  {
  }

  /**
   However the pushes and pops of a run alternate, all pops together give the messages
   sent, each once and in the order of their nonces, from the first one pushed and
   without a gap; a pop leaves off only at a message that has not come.
   */
  lemma InOrder<T>(size: nat, calls: seq<Call<T>>)
    requires size > 0 && Legal(size, calls)
    ensures var sent, s := Sent(calls), Streamed(size, calls);
      && s.first <= s.next
      && (forall n | s.first <= n < s.next :: n in sent)
      && Play(size, calls).1 == Messages(sent, s.first, s.next)
      && (calls != [] && calls[|calls| - 1].Pop? ==> s.next !in sent)
  {
    StreamIsSent(size, calls);
    RunKeeps(size, calls);
    if calls != [] && calls[|calls| - 1].Pop? {
      RunKeeps(size, Earlier(calls));
      PopKeeps(Play(size, Earlier(calls)).0, Streamed(size, Earlier(calls)));
    }
  }

  /** A message pushed outside the window is taken for one inside it. */
  lemma AliasedPush<T>(w: Window<T>, s: Stream<T>, n: nat, v: Option<T>) returns (m: nat)
    requires Holds(w, s) && s.started && !(s.next <= n < s.next + |w.buf|)
    ensures s.next <= m < s.next + |w.buf| && m != n && Pushed(w, n, v) == Pushed(w, m, v)
  {
    m := SlotIsCovered(s.next, |w.buf|, Slot(n, |w.buf|));
  }

  /** With a size that does not divide 2^64, two messages of one window can share a slot where nonces wrap. */
  lemma WrapOverwrites<T>(a: T, b: T)
    ensures var calls := [Push(WORD - 1, a), Push(WORD, b), Pop];
            !Legal(3, calls) && Play(3, calls).1 == [Some(b)]
  {
    var calls := [Push(WORD - 1, a), Push(WORD, b), Pop];
    assert Earlier(calls) == [Push(WORD - 1, a), Push(WORD, b)];
    assert Earlier(Earlier(calls)) == [Push(WORD - 1, a)];
    assert Earlier(Earlier(Earlier(calls))) == [];
    assert Play(3, Earlier(Earlier(calls))).0 == Window(WORD - 1, true, [Some(a), None, None]);
    assert WORD % WORD == 0 && Slot(0, 3) == 0;
    assert [Some(a), None, None][0 := Some(b)] == [Some(b), None, None];
    assert Play(3, Earlier(calls)) == (Window(WORD - 1, true, [Some(b), None, None]), []);
    var w := Window(WORD - 1, true, [None, None, None]);
    RangedStep(w, Received, 0, 2);
    assert Ranged(w, Received, 0, 2) == (w.(lastNonce := 0), []);
    assert [Some(b), None, None][0 := None] == w.buf;
    RangedStep(Window(WORD - 1, true, [Some(b), None, None]), Received, WORD - 1, 3);
  }
}
