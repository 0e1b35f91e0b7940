/** The buffer pool shared by any number of threads: every interleaving of single pops, pushes, writes
    and zeroings. */
module PoolInterleaving {

  /** The call a thread is executing: `acquireBatch` before and after a failed pop, or `release` before and
      after the zeroing. */
  datatype Call =
    | NoCall
    | Batching(n: nat, got: seq<nat>)
    | RollingBack(left: seq<nat>)
    | Releasing(item: nat, zeroed: bool)

  /** A thread with the buffers it holds outside any call. */
  datatype Thread = Thread(held: multiset<nat>, call: Call)

  datatype Config = Config(poolSize: nat, itemSize: nat, zeroOnRelease: bool)

  /** Buffers are numbered; `queue` is the concurrent queue. */
  datatype System = System(queue: seq<nat>, threads: seq<Thread>, contents: map<nat, seq<int>>)

  datatype Action =
    | Acquire(t: nat)
    | BatchStart(t: nat, n: nat)
    | BatchPop(t: nat)
    | BatchFail(t: nat)
    | BatchReturn(t: nat)
    | RollbackPush(t: nat)
    | RollbackThrow(t: nat)
    | ReleaseStart(t: nat, item: nat)
    | ReleaseZero(t: nat)
    | ReleasePush(t: nat)
    | Write(t: nat, item: nat, data: seq<int>)
    | HandOver(t: nat, to: nat, item: nat)

  predicate Idle(th: Thread, item: nat) {
    th.call.NoCall? && item in th.held
  }

  predicate Enabled(c: Config, s: System, a: Action) {
    a.t < |s.threads|
    && var th := s.threads[a.t];
    match a
    case Acquire(_) => th.call.NoCall? && s.queue != []
    case BatchStart(_, _) => th.call.NoCall?
    case BatchPop(_) => th.call.Batching? && |th.call.got| < th.call.n && s.queue != []
    case BatchFail(_) => th.call.Batching? && |th.call.got| < th.call.n && s.queue == []
    case BatchReturn(_) => th.call.Batching? && |th.call.got| == th.call.n
    case RollbackPush(_) => th.call.RollingBack? && th.call.left != []
    case RollbackThrow(_) => th.call.RollingBack? && th.call.left == []
    case ReleaseStart(_, item) => Idle(th, item)
    case ReleaseZero(_) => c.zeroOnRelease && th.call.Releasing? && !th.call.zeroed
    case ReleasePush(_) => th.call.Releasing? && th.call.zeroed == c.zeroOnRelease
    case Write(_, item, data) => Idle(th, item) && |data| == c.itemSize
    case HandOver(_, to, item) =>
      Idle(th, item) && to < |s.threads| && to != a.t && s.threads[to].call.NoCall?
  }

  function Zeros(n: nat): seq<int> {
    seq(n, _ => 0)
  }

  function After(c: Config, s: System, a: Action): System
    requires Enabled(c, s, a)
  {
    var th := s.threads[a.t];
    match a
    case Acquire(t) =>
      s.(queue := s.queue[1..], threads := s.threads[t := th.(held := th.held + multiset{s.queue[0]})])
    case BatchStart(t, n) => s.(threads := s.threads[t := th.(call := Batching(n, []))])
    case BatchPop(t) =>
      s.(queue := s.queue[1..],
         threads := s.threads[t := th.(call := Batching(th.call.n, th.call.got + [s.queue[0]]))])
    case BatchFail(t) => s.(threads := s.threads[t := th.(call := RollingBack(th.call.got))])
    case BatchReturn(t) =>
      s.(threads := s.threads[t := Thread(th.held + multiset(th.call.got), NoCall)])
    case RollbackPush(t) =>
      s.(queue := s.queue + [th.call.left[0]],
         threads := s.threads[t := th.(call := RollingBack(th.call.left[1..]))])
    case RollbackThrow(t) => s.(threads := s.threads[t := th.(call := NoCall)])
    case ReleaseStart(t, item) =>
      s.(threads := s.threads[t := Thread(th.held - multiset{item}, Releasing(item, false))])
    case ReleaseZero(t) =>
      s.(contents := s.contents[th.call.item := Zeros(c.itemSize)],
         threads := s.threads[t := th.(call := Releasing(th.call.item, true))])
    case ReleasePush(t) =>
      s.(queue := s.queue + [th.call.item], threads := s.threads[t := th.(call := NoCall)])
    case Write(_, item, data) => s.(contents := s.contents[item := data])
    case HandOver(t, to, item) =>
      var other := s.threads[to];
      s.(threads := s.threads[t := th.(held := th.held - multiset{item})]
                             [to := other.(held := other.held + multiset{item})])
  }

  // ----- Where the buffers are ----------------------------------------------------------------

  /** How often `b` occurs in a sequence of buffers. */
  function Count(bs: seq<nat>, b: nat): nat {
    if bs == [] then 0 else Count(bs[..|bs| - 1], b) + if bs[|bs| - 1] == b then 1 else 0
  }

  function InCall(call: Call, b: nat): nat {
    match call
    case NoCall => 0
    case Batching(_, got) => Count(got, b)
    case RollingBack(left) => Count(left, b)
    case Releasing(item, _) => if item == b then 1 else 0
  }

  /** How often a thread has `b`, in its hands or in a call. */
  function Has(th: Thread, b: nat): nat {
    th.held[b] + InCall(th.call, b)
  }

  function AllHave(threads: seq<Thread>, b: nat): nat {
    if threads == [] then 0 else AllHave(threads[..|threads| - 1], b) + Has(threads[|threads| - 1], b)
  }

  /** How often `b` exists in the system. */
  function Total(s: System, b: nat): nat {
    Count(s.queue, b) + AllHave(s.threads, b)
  }

  lemma {:induction false} CountFront(x: nat, bs: seq<nat>, b: nat)
    ensures Count([x] + bs, b) == Count(bs, b) + if x == b then 1 else 0
    decreases |bs|
  {
    var all := [x] + bs;
    if bs == [] {
      assert all[..0] == [];
    } else {
      assert all[..|all| - 1] == [x] + bs[..|bs| - 1];
      CountFront(x, bs[..|bs| - 1], b);
    }
  }

  lemma CountSnoc(bs: seq<nat>, x: nat, b: nat)
    ensures Count(bs + [x], b) == Count(bs, b) + if x == b then 1 else 0
  {
    assert (bs + [x])[..|bs|] == bs;
  }

  lemma PopCount(bs: seq<nat>, b: nat)
    requires bs != []
    ensures Count(bs, b) == Count(bs[1..], b) + if bs[0] == b then 1 else 0
  {
    assert bs == [bs[0]] + bs[1..];
    CountFront(bs[0], bs[1..], b);
  }

  lemma {:induction false} CountIsMultiplicity(bs: seq<nat>, b: nat)
    ensures Count(bs, b) == multiset(bs)[b]
    decreases |bs|
  {
    if bs != [] {
      var n := |bs| - 1;
      assert bs == bs[..n] + [bs[n]];
      CountIsMultiplicity(bs[..n], b);
    }
  }

  lemma {:induction false} HaveUpdate(threads: seq<Thread>, t: nat, th: Thread, b: nat)
    requires t < |threads|
    ensures AllHave(threads[t := th], b) + Has(threads[t], b) == AllHave(threads, b) + Has(th, b)
    decreases |threads|
  {
    var n := |threads| - 1;
    if t == n {
      assert threads[t := th][..n] == threads[..n];
    } else {
      HaveUpdate(threads[..n], t, th, b);
      assert threads[t := th][..n] == threads[..n][t := th];
    }
  }

  lemma {:induction false} HaveAtLeast(threads: seq<Thread>, t: nat, b: nat)
    requires t < |threads|
    ensures Has(threads[t], b) <= AllHave(threads, b)
    decreases |threads|
  {
    if t < |threads| - 1 {
      HaveAtLeast(threads[..|threads| - 1], t, b);
    }
  }

  lemma {:induction false} TwoHave(threads: seq<Thread>, t: nat, u: nat, b: nat)
    requires t < u < |threads|
    ensures Has(threads[t], b) + Has(threads[u], b) <= AllHave(threads, b)
    decreases |threads|
  {
    var n := |threads| - 1;
    if u < n {
      TwoHave(threads[..n], t, u, b);
    } else {
      HaveAtLeast(threads[..n], t, b);
    }
  }

  /** Every step keeps every buffer: none is lost and none is duplicated. */
  lemma StepKeepsTotal(c: Config, s: System, a: Action, b: nat)
    requires Enabled(c, s, a)
    ensures Total(After(c, s, a), b) == Total(s, b)
  {
    var s' := After(c, s, a);
    if a.HandOver? {
      HandOverKeeps(s.threads, a.t, a.to, a.item, b);
    } else {
      HaveUpdate(s.threads, a.t, s'.threads[a.t], b);
      assert s'.threads == s.threads[a.t := s'.threads[a.t]];
      OwnStep(c, s, a, b);
    }
  }

  lemma HandOverKeeps(threads: seq<Thread>, t: nat, to: nat, item: nat, b: nat)
    requires t < |threads| && to < |threads| && t != to && item in threads[t].held
    ensures var th, other := threads[t], threads[to];
            AllHave(threads[t := th.(held := th.held - multiset{item})]
                           [to := other.(held := other.held + multiset{item})], b) == AllHave(threads, b)
  {
    var th, other := threads[t], threads[to];
    var mid := threads[t := th.(held := th.held - multiset{item})];
    HaveUpdate(threads, t, mid[t], b);
    HaveUpdate(mid, to, other.(held := other.held + multiset{item}), b);
  }

  /** The queue and the acting thread exchange what they have. */
  lemma OwnStep(c: Config, s: System, a: Action, b: nat)
    requires Enabled(c, s, a) && !a.HandOver?
    ensures Count(After(c, s, a).queue, b) + Has(After(c, s, a).threads[a.t], b)
         == Count(s.queue, b) + Has(s.threads[a.t], b)
  {
    if a.Acquire? || a.BatchPop? {
      PopStep(c, s, a, b);
    } else if a.RollbackPush? || a.ReleasePush? {
      PushStep(c, s, a, b);
    } else if a.BatchReturn? {
      CountIsMultiplicity(s.threads[a.t].call.got, b);
    }
  }

  lemma PopStep(c: Config, s: System, a: Action, b: nat)
    requires Enabled(c, s, a) && (a.Acquire? || a.BatchPop?)
    ensures Count(After(c, s, a).queue, b) + Has(After(c, s, a).threads[a.t], b)
         == Count(s.queue, b) + Has(s.threads[a.t], b)
  {
    PopCount(s.queue, b);
    if a.BatchPop? {
      CountSnoc(s.threads[a.t].call.got, s.queue[0], b);
    }
  }

  lemma PushStep(c: Config, s: System, a: Action, b: nat)
    requires Enabled(c, s, a) && (a.RollbackPush? || a.ReleasePush?)
    ensures Count(After(c, s, a).queue, b) + Has(After(c, s, a).threads[a.t], b)
         == Count(s.queue, b) + Has(s.threads[a.t], b)
  {
    var call := s.threads[a.t].call;
    if a.RollbackPush? {
      PopCount(call.left, b);
      CountSnoc(s.queue, call.left[0], b);
    } else {
      CountSnoc(s.queue, call.item, b);
    }
  }

  // ----- Runs ---------------------------------------------------------------------------------

  /** The queue as the constructor fills it. */
  function FirstBuffers(n: nat): seq<nat> {
    seq(n, i => i)
  }

  /** A constructed pool, with threads that hold nothing yet. */
  ghost predicate Initial(c: Config, s: System) {
    c.poolSize > 0
    && s.queue == FirstBuffers(c.poolSize)
    && (forall t :: 0 <= t < |s.threads| ==> s.threads[t] == Thread(multiset{}, NoCall))
    && forall b: nat :: b < c.poolSize ==> b in s.contents && s.contents[b] == Zeros(c.itemSize)
  }

  ghost predicate IsRun(c: Config, run: seq<System>, actions: seq<Action>) {
    |run| == |actions| + 1 && Initial(c, run[0])
    && forall i {:trigger actions[i]} :: 0 <= i < |actions| ==>
         Enabled(c, run[i], actions[i]) && run[i + 1] == After(c, run[i], actions[i])
  }

  lemma {:induction false} CountFirst(n: nat, b: nat)
    ensures Count(FirstBuffers(n), b) == if b < n then 1 else 0
  {
    if n > 0 {
      CountFirst(n - 1, b);
      assert FirstBuffers(n)[..n - 1] == FirstBuffers(n - 1);
    }
  }

  lemma {:induction false} NobodyHas(threads: seq<Thread>, b: nat)
    requires forall t :: 0 <= t < |threads| ==> threads[t] == Thread(multiset{}, NoCall)
    ensures AllHave(threads, b) == 0
    decreases |threads|
  {
    if threads != [] {
      NobodyHas(threads[..|threads| - 1], b);
    }
  }

  /** In every state of every run the queue, the batches in progress and the buffers in hand together are
      the original buffers, each exactly once. */
  lemma {:induction false} BuffersPartitioned(c: Config, run: seq<System>, actions: seq<Action>, n: nat, b: nat)
    requires IsRun(c, run, actions) && n < |run|
    ensures Total(run[n], b) == if b < c.poolSize then 1 else 0
    decreases n
  {
    if n == 0 {
      CountFirst(c.poolSize, b);
      NobodyHas(run[0].threads, b);
    } else {
      BuffersPartitioned(c, run, actions, n - 1, b);
      StepKeepsTotal(c, run[n - 1], actions[n - 1], b);
    }
  }

  // ----- Zeroed buffers -----------------------------------------------------------------------

  /** Buffers on their way to be handed out: queued, in a batch, being rolled back, or just zeroed. */
  ghost predicate Pending(s: System, b: nat) {
    Count(s.queue, b) > 0
    || exists t :: 0 <= t < |s.threads| && PendingIn(s.threads[t].call, b)
  }

  ghost predicate PendingIn(call: Call, b: nat) {
    InCall(call, b) > 0 && (call.Releasing? ==> call.zeroed)
  }

  /** Every pending buffer is all zeros. */
  ghost predicate Clean(c: Config, s: System) {
    forall b :: Pending(s, b) ==> b in s.contents && s.contents[b] == Zeros(c.itemSize)
  }

  /** A buffer in a thread's hands or in its unzeroed release is not pending anywhere. */
  lemma NotPending(s: System, t: nat, b: nat)
    requires t < |s.threads| && Total(s, b) <= 1 && Has(s.threads[t], b) > 0 && !PendingIn(s.threads[t].call, b)
    ensures !Pending(s, b)
  {
    HaveAtLeast(s.threads, t, b);
    forall u | 0 <= u < |s.threads|
      ensures !PendingIn(s.threads[u].call, b)
    {
      if u < t {
        TwoHave(s.threads, u, t, b);
      } else if t < u {
        TwoHave(s.threads, t, u, b);
      }
    }
  }

  /** With zeroing on release, whatever a step makes pending was pending before or has just been zeroed. */
  lemma PendingStep(c: Config, s: System, a: Action, b: nat)
    requires Enabled(c, s, a) && c.zeroOnRelease && Total(s, b) <= 1 && Pending(After(c, s, a), b)
    ensures Pending(s, b) || (a.ReleaseZero? && b == s.threads[a.t].call.item)
    ensures a.Write? ==> b != a.item
  {
    if Count(After(c, s, a).queue, b) > 0 {
      QueuedStep(c, s, a, b);
    } else {
      var t :| 0 <= t < |After(c, s, a).threads| && PendingIn(After(c, s, a).threads[t].call, b);
      if t == a.t {
        CallStep(c, s, a, b);
      } else {
        assert PendingIn(s.threads[t].call, b);
      }
    }
    if a.Write? {
      WrittenIsNotPending(c, s, a, b);
    }
  }

  /** What is queued after a step was queued before, or comes from the call of the acting thread. */
  lemma QueuedStep(c: Config, s: System, a: Action, b: nat)
    requires Enabled(c, s, a) && c.zeroOnRelease && Count(After(c, s, a).queue, b) > 0
    ensures Pending(s, b)
  {
    if Count(s.queue, b) == 0 {
      OwnStep(c, s, a, b);
      assert PendingIn(s.threads[a.t].call, b);
    }
  }

  lemma WrittenIsNotPending(c: Config, s: System, a: Action, b: nat)
    requires Enabled(c, s, a) && a.Write? && Total(s, b) <= 1 && Pending(s, b)
    ensures b != a.item
  {
    if b == a.item {
      HandsOnly(s, a.t, b);
      NotPending(s, a.t, b);
    }
  }

  lemma HandsOnly(s: System, t: nat, b: nat)
    requires t < |s.threads| && s.threads[t].call.NoCall? && b in s.threads[t].held
    ensures Has(s.threads[t], b) > 0 && !PendingIn(s.threads[t].call, b)
  {
  }

  lemma CallStep(c: Config, s: System, a: Action, b: nat)
    requires Enabled(c, s, a) && PendingIn(After(c, s, a).threads[a.t].call, b)
    ensures Pending(s, b) || (a.ReleaseZero? && b == s.threads[a.t].call.item)
  {
    var call := s.threads[a.t].call;
    match a {
      case BatchPop(_) =>
        PopCount(s.queue, b);
        CountSnoc(call.got, s.queue[0], b);
        assert PendingIn(call, b) || Count(s.queue, b) > 0;
      case RollbackPush(_) =>
        PopCount(call.left, b);
        assert PendingIn(call, b);
      case BatchFail(_) => assert PendingIn(call, b);
      case _ =>
    }
  }

  lemma StaysClean(c: Config, s: System, a: Action)
    requires Enabled(c, s, a) && c.zeroOnRelease && Clean(c, s) && forall b: nat :: Total(s, b) <= 1
    ensures Clean(c, After(c, s, a))
  {
    forall b | Pending(After(c, s, a), b)
      ensures b in After(c, s, a).contents && After(c, s, a).contents[b] == Zeros(c.itemSize)
    {
      PendingStep(c, s, a, b);
    }
  }

  lemma {:induction false} AlwaysClean(c: Config, run: seq<System>, actions: seq<Action>, n: nat)
    requires IsRun(c, run, actions) && n < |run| && c.zeroOnRelease
    ensures Clean(c, run[n])
    decreases n
  {
    forall b: nat, m: nat | m < |run|
      ensures Total(run[m], b) == if b < c.poolSize then 1 else 0
    {
      BuffersPartitioned(c, run, actions, m, b);
    }
    if n == 0 {
      forall b: nat | Pending(run[0], b)
        ensures b < c.poolSize
      {
        CountFirst(c.poolSize, b);
      }
    } else {
      AlwaysClean(c, run, actions, n - 1);
      StaysClean(c, run[n - 1], actions[n - 1]);
    }
  }

  /** With zeroing on release, every buffer that `acquire` returns is all zeros, although a rollback puts
      buffers back without zeroing them. */
  lemma AcquiredIsZero(c: Config, run: seq<System>, actions: seq<Action>, n: nat)
    requires IsRun(c, run, actions) && n < |actions| && c.zeroOnRelease && actions[n].Acquire?
    ensures var b := run[n].queue[0];
            b in run[n + 1].contents && run[n + 1].contents[b] == Zeros(c.itemSize)
            && run[n + 1].threads[actions[n].t].held == run[n].threads[actions[n].t].held + multiset{b}
  {
    AlwaysClean(c, run, actions, n);
    PopCount(run[n].queue, run[n].queue[0]);
    assert Pending(run[n], run[n].queue[0]);
  }

  /** So is every buffer of every batch that `acquireBatch` returns, and the batch has the requested size. */
  lemma BatchIsZero(c: Config, run: seq<System>, actions: seq<Action>, n: nat, i: nat)
    requires IsRun(c, run, actions) && n < |actions| && c.zeroOnRelease && actions[n].BatchReturn?
    requires var call := run[n].threads[actions[n].t].call; call.Batching? && i < |call.got|
    ensures var call := run[n].threads[actions[n].t].call;
            |call.got| == call.n && call.got[i] in run[n + 1].contents
            && run[n + 1].contents[call.got[i]] == Zeros(c.itemSize)
  {
    AlwaysClean(c, run, actions, n);
    var call := run[n].threads[actions[n].t].call;
    CountIsMultiplicity(call.got, call.got[i]);
    assert call.got[i] in multiset(call.got);
    assert PendingIn(call, call.got[i]);
    assert Pending(run[n], call.got[i]);
  }

  // ----- All or nothing -----------------------------------------------------------------------

  predicate InBatch(call: Call) {
    call.Batching? || call.RollingBack?
  }

  /** While a thread is inside `acquireBatch`, no step of any thread changes what it holds outside. */
  lemma HeldDuringBatch(c: Config, s: System, a: Action, t: nat)
    requires Enabled(c, s, a) && t < |s.threads| && InBatch(s.threads[t].call)
    ensures var th := After(c, s, a).threads[t];
            (InBatch(th.call) && th.held == s.threads[t].held
             && (th.call.Batching? ==> s.threads[t].call.Batching? && th.call.n == s.threads[t].call.n))
            || (a == BatchReturn(t) && th == Thread(s.threads[t].held + multiset(s.threads[t].call.got), NoCall))
            || (a == RollbackThrow(t) && th == Thread(s.threads[t].held, NoCall))
  {
  }

  lemma {:induction false} HeldSinceStart(c: Config, run: seq<System>, actions: seq<Action>, t: nat, i: nat, j: nat)
    requires IsRun(c, run, actions) && i < j <= |actions| && t < |run[i].threads|
    requires actions[i].BatchStart? && actions[i].t == t
    requires forall k :: i < k <= j ==> t < |run[k].threads| && InBatch(run[k].threads[t].call)
    ensures run[j].threads[t].held == run[i].threads[t].held
    ensures run[j].threads[t].call.Batching? ==> run[j].threads[t].call.n == actions[i].n
    decreases j
  {
    if j > i + 1 {
      HeldSinceStart(c, run, actions, t, i, j - 1);
      HeldDuringBatch(c, run[j - 1], actions[j - 1], t);
    }
  }

  /** An `acquireBatch(n)` that throws leaves its thread with exactly what it held before the call, and one
      that returns adds a batch of exactly `n` buffers, whatever the other threads did meanwhile. */
  lemma BatchAllOrNothing(c: Config, run: seq<System>, actions: seq<Action>, t: nat, i: nat, j: nat)
    requires IsRun(c, run, actions) && i < j < |actions| && t < |run[i].threads|
    requires actions[i].BatchStart? && actions[i].t == t
    requires forall k :: i < k <= j ==> t < |run[k].threads| && InBatch(run[k].threads[t].call)
    requires t < |run[j + 1].threads| && !InBatch(run[j + 1].threads[t].call)
    ensures run[j + 1].threads[t].call.NoCall?
    ensures actions[j] == RollbackThrow(t) ==> run[j + 1].threads[t].held == run[i].threads[t].held
    ensures actions[j] == BatchReturn(t) ==>
      var call := run[j].threads[t].call;
      call.Batching? && |call.got| == actions[i].n
      && run[j + 1].threads[t].held == run[i].threads[t].held + multiset(call.got)
    ensures actions[j] == RollbackThrow(t) || actions[j] == BatchReturn(t)
  {
    HeldSinceStart(c, run, actions, t, i, j);
    HeldDuringBatch(c, run[j], actions[j], t);
  }

  // ----- When a batch can fail ----------------------------------------------------------------

  /** The buffers that a batch still has to pop. */
  function Missing(call: Call): nat {
    if call.Batching? && |call.got| < call.n then call.n - |call.got| else 0
  }

  function AllMissing(threads: seq<Thread>): nat {
    if threads == [] then 0 else AllMissing(threads[..|threads| - 1]) + Missing(threads[|threads| - 1].call)
  }

  ghost predicate Possible(c: Config, s: System, actions: seq<Action>)
    decreases |actions|
  {
    actions == [] || (Enabled(c, s, actions[0]) && Possible(c, After(c, s, actions[0]), actions[1..]))
  }

  ghost function Ends(c: Config, s: System, actions: seq<Action>): System
    requires Possible(c, s, actions)
    decreases |actions|
  {
    if actions == [] then s else Ends(c, After(c, s, actions[0]), actions[1..])
  }

  /** No new acquisition; batches go on, roll back or return, and threads write and release as they like. */
  ghost predicate NoneStarts(actions: seq<Action>) {
    forall i :: 0 <= i < |actions| ==> !actions[i].Acquire? && !actions[i].BatchStart?
  }

  ghost predicate OnlyPops(actions: seq<Action>) {
    forall i :: 0 <= i < |actions| ==> actions[i].BatchPop?
  }

  ghost predicate CanFail(c: Config, s: System, actions: seq<Action>, t: nat) {
    Possible(c, s, actions) && NoneStarts(actions) && Enabled(c, Ends(c, s, actions), BatchFail(t))
  }

  ghost predicate NeverFails(c: Config, s: System) {
    forall actions, t :: !CanFail(c, s, actions, t)
  }

  lemma {:induction false} MissingUpdate(threads: seq<Thread>, t: nat, th: Thread)
    requires t < |threads|
    ensures AllMissing(threads[t := th]) + Missing(threads[t].call) == AllMissing(threads) + Missing(th.call)
    decreases |threads|
  {
    var n := |threads| - 1;
    if t == n {
      assert threads[t := th][..n] == threads[..n];
    } else {
      MissingUpdate(threads[..n], t, th);
      assert threads[t := th][..n] == threads[..n][t := th];
    }
  }

  lemma {:induction false} SomeMissing(threads: seq<Thread>) returns (t: nat)
    requires AllMissing(threads) > 0
    ensures t < |threads| && Missing(threads[t].call) > 0
    decreases |threads|
  {
    t := |threads| - 1;
    if Missing(threads[t].call) == 0 {
      t := SomeMissing(threads[..t]);
    }
  }

  lemma {:induction false} MissingAtLeast(threads: seq<Thread>, t: nat)
    requires t < |threads|
    ensures Missing(threads[t].call) <= AllMissing(threads)
    decreases |threads|
  {
    if t < |threads| - 1 {
      MissingAtLeast(threads[..|threads| - 1], t);
    }
  }

  /** Without new acquisitions, a step takes from the queue only what some batch no longer misses. */
  lemma StepKeepsSupply(c: Config, s: System, a: Action)
    requires Enabled(c, s, a) && !a.Acquire? && !a.BatchStart?
    ensures var s' := After(c, s, a);
            |s.queue| - AllMissing(s.threads) <= |s'.queue| - AllMissing(s'.threads)
  {
    var s' := After(c, s, a);
    var th := s.threads[a.t];
    if a.HandOver? {
      var mid := s.threads[a.t := th.(held := th.held - multiset{a.item})];
      MissingUpdate(s.threads, a.t, mid[a.t]);
      MissingUpdate(mid, a.to, s'.threads[a.to]);
    } else {
      MissingUpdate(s.threads, a.t, s'.threads[a.t]);
      assert s'.threads == s.threads[a.t := s'.threads[a.t]];
    }
  }

  lemma {:induction false} SupplyLasts(c: Config, s: System, actions: seq<Action>, t: nat)
    requires Possible(c, s, actions) && NoneStarts(actions) && AllMissing(s.threads) <= |s.queue|
    ensures !Enabled(c, Ends(c, s, actions), BatchFail(t))
    decreases |actions|
  {
    if actions == [] {
      if t < |s.threads| {
        MissingAtLeast(s.threads, t);
      }
    } else {
      StepKeepsSupply(c, s, actions[0]);
      SupplyLasts(c, After(c, s, actions[0]), actions[1..], t);
    }
  }

  /** With too few buffers queued, popping in any order ends in a failure. */
  lemma {:induction false} SupplyRunsOut(c: Config, s: System) returns (actions: seq<Action>, t: nat)
    requires AllMissing(s.threads) > |s.queue|
    ensures CanFail(c, s, actions, t) && OnlyPops(actions)
    decreases |s.queue|
  {
    t := SomeMissing(s.threads);
    actions := [];
    if s.queue != [] {
      var pop := BatchPop(t);
      var s' := After(c, s, pop);
      MissingUpdate(s.threads, t, s'.threads[t]);
      var rest, u := SupplyRunsOut(c, s');
      actions, t := [pop] + rest, u;
      assert actions[1..] == rest;
    }
  }

  /** From any state: no interleaving without new acquisitions lets a batch in progress fail, exactly when
      the queue holds as many buffers as those batches still miss together. Otherwise already some order of
      their pops makes one fail. */
  lemma NeverFailsIff(c: Config, s: System)
    ensures NeverFails(c, s) <==> AllMissing(s.threads) <= |s.queue|
    ensures !NeverFails(c, s) ==>
      exists actions, t :: CanFail(c, s, actions, t) && OnlyPops(actions)
  {
    if AllMissing(s.threads) <= |s.queue| {
      forall actions, t
        ensures !CanFail(c, s, actions, t)
      {
        if Possible(c, s, actions) && NoneStarts(actions) {
          SupplyLasts(c, s, actions, t);
        }
      }
    } else {
      var actions, t := SupplyRunsOut(c, s);
    }
  }

  // ----- Two batches at once ------------------------------------------------------------------

  function Started(c: Config, s: System, t: nat, n: nat): System
    requires Enabled(c, s, BatchStart(t, n))
  {
    After(c, s, BatchStart(t, n))
  }

  lemma BatchesMissing(threads: seq<Thread>, n: nat)
    requires |threads| == 2 && threads[0].call.NoCall? && threads[1].call.NoCall?
    ensures var a := threads[0 := threads[0].(call := Batching(n, []))];
            var b := threads[1 := threads[1].(call := Batching(n, []))];
            AllMissing(threads) == 0 && AllMissing(a) == n && AllMissing(b) == n
            && AllMissing(a[1 := threads[1].(call := Batching(n, []))]) == 2 * n
  {
    var batch := Batching(n, []);
    var a := threads[0 := threads[0].(call := batch)];
    assert AllMissing(threads) == 0 by {
      assert AllMissing(threads[..1][..0]) == 0;
      assert AllMissing(threads[..1]) == 0;
    }
    MissingUpdate(threads, 0, a[0]);
    MissingUpdate(threads, 1, threads[1].(call := batch));
    MissingUpdate(a, 1, threads[1].(call := batch));
  }

  /** Atomic it is not: in a pool of two, a batch of two can never fail while it is alone, and returns if left
      alone; but of two such batches both can fail. */
  lemma BothBatchesFail(c: Config, s: System)
    requires c.poolSize == 2 && Initial(c, s) && |s.threads| == 2
    ensures NeverFails(c, Started(c, s, 0, 2)) && NeverFails(c, Started(c, s, 1, 2))
    ensures !NeverFails(c, Started(c, Started(c, s, 0, 2), 1, 2))
    ensures var s1 := Started(c, Started(c, s, 0, 2), 1, 2);
            Possible(c, s1, [BatchPop(0), BatchPop(1), BatchFail(0), BatchFail(1)])
    ensures Returns(c, Started(c, s, 0, 2), 0) && Returns(c, Started(c, s, 1, 2), 1)
  {
    BatchesMissing(s.threads, 2);
    AloneReturns(c, Started(c, s, 0, 2), 0);
    AloneReturns(c, Started(c, s, 1, 2), 1);
    NeverFailsIff(c, Started(c, s, 0, 2));
    NeverFailsIff(c, Started(c, s, 1, 2));
    NeverFailsIff(c, Started(c, Started(c, s, 0, 2), 1, 2));
    BothFail(c, Started(c, Started(c, s, 0, 2), 1, 2));
  }

  lemma BothFail(c: Config, s: System)
    requires |s.threads| == 2 && |s.queue| == 2
    requires s.threads[0].call == Batching(2, []) && s.threads[1].call == Batching(2, [])
    ensures Possible(c, s, [BatchPop(0), BatchPop(1), BatchFail(0), BatchFail(1)])
  {
    var s1 := After(c, s, BatchPop(0));
    var s2 := After(c, s1, BatchPop(1));
    var s3 := After(c, s2, BatchFail(0));
    assert s2.queue == [];
    var all := [BatchPop(0), BatchPop(1), BatchFail(0), BatchFail(1)];
    assert all[1..][1..] == all[2..] && all[2..][1..] == all[3..] && all[3..][1..] == [];
    assert Possible(c, s3, all[3..]);
    assert Possible(c, s2, all[2..]);
    assert Possible(c, s1, all[1..]);
  }

  /** The threads after the batch of `t` has returned with the next buffers of the queue. */
  function Batched(s: System, t: nat): seq<Thread>
    requires t < |s.threads| && s.threads[t].call.Batching?
    requires 0 <= s.threads[t].call.n - |s.threads[t].call.got| <= |s.queue|
  {
    var call := s.threads[t].call;
    var batch := call.got + s.queue[..call.n - |call.got|];
    s.threads[t := Thread(s.threads[t].held + multiset(batch), NoCall)]
  }

  /** By its own steps alone, the batch returns with the next buffers of the queue. */
  ghost predicate Returns(c: Config, s: System, t: nat)
    requires t < |s.threads| && s.threads[t].call.Batching?
    requires 0 <= s.threads[t].call.n - |s.threads[t].call.got| <= |s.queue|
  {
    exists actions :: EndsWith(c, s, t, actions, Batched(s, t))
  }

  ghost predicate OwnSteps(c: Config, s: System, t: nat, actions: seq<Action>) {
    Possible(c, s, actions)
    && forall i :: 0 <= i < |actions| ==> actions[i] == BatchPop(t) || actions[i] == BatchReturn(t)
  }

  ghost predicate EndsWith(c: Config, s: System, t: nat, actions: seq<Action>, threads: seq<Thread>) {
    OwnSteps(c, s, t, actions) && Ends(c, s, actions).threads == threads
  }

  lemma OneMore(c: Config, s: System, t: nat, a: Action, rest: seq<Action>, threads: seq<Thread>)
    requires a == BatchPop(t) || a == BatchReturn(t)
    requires Enabled(c, s, a) && EndsWith(c, After(c, s, a), t, rest, threads)
    ensures EndsWith(c, s, t, [a] + rest, threads)
  {
    assert ([a] + rest)[1..] == rest;
  }

  /** With enough buffers queued, an undisturbed batch pops them and returns. */
  lemma {:induction false} AloneReturns(c: Config, s: System, t: nat)
    requires t < |s.threads| && s.threads[t].call.Batching?
    requires 0 <= s.threads[t].call.n - |s.threads[t].call.got| <= |s.queue|
    ensures Returns(c, s, t)
    decreases s.threads[t].call.n - |s.threads[t].call.got|
  {
    if s.threads[t].call.n == |s.threads[t].call.got| {
      LastStep(c, s, t);
    } else {
      var s' := After(c, s, BatchPop(t));
      AloneReturns(c, s', t);
      PopBatched(c, s, t);
      var rest :| EndsWith(c, s', t, rest, Batched(s', t));
      OneMore(c, s, t, BatchPop(t), rest, Batched(s, t));
    }
  }

  lemma LastStep(c: Config, s: System, t: nat)
    requires t < |s.threads| && s.threads[t].call.Batching? && s.threads[t].call.n == |s.threads[t].call.got|
    ensures Returns(c, s, t)
  {
    var got, s' := s.threads[t].call.got, After(c, s, BatchReturn(t));
    assert got + s.queue[..0] == got;
    assert EndsWith(c, s', t, [], Batched(s, t));
    OneMore(c, s, t, BatchReturn(t), [], Batched(s, t));
  }

  lemma PopBatched(c: Config, s: System, t: nat)
    requires t < |s.threads| && s.threads[t].call.Batching?
    requires 0 < s.threads[t].call.n - |s.threads[t].call.got| <= |s.queue|
    ensures Batched(After(c, s, BatchPop(t)), t) == Batched(s, t)
  {
    var call := s.threads[t].call;
    var k := call.n - |call.got|;
    assert call.got + [s.queue[0]] + s.queue[1..][..k - 1] == call.got + s.queue[..k];
  }
}
