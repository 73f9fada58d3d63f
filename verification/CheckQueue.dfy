// The parallel verification queue (src/checkqueue.h): one master adds checks and then
// joins any number of workers until all are accounted for. The state machine interleaves
// the critical sections of the threads in every possible way.

module CheckQueue {

  datatype Check = Check(id: nat, holds: bool)

  // The fields of CCheckQueue that its mutex protects.
  datatype Shared = Shared(queue: seq<Check>, nIdle: int, nTotal: int, fAllOk: bool, nTodo: int)

  // Where a thread stands in Loop: not in it, in cond.wait (perhaps notified already),
  // at the head of the inner loop with the lock, or running its batch without the lock,
  // k of its checks behind it.
  datatype Phase = Outside | Waiting(notified: bool) | Locking | Working(batch: seq<Check>, k: nat, fOk: bool)

  datatype Round = Round(added: seq<Check>, result: bool)

  // The queue, the threads (the master first), and for the specification what was added
  // in this round, what has been accounted for, and how earlier rounds ended.
  datatype State = State(shared: Shared, threads: seq<Phase>,
                         added: seq<Check>, finished: multiset<Check>, rounds: seq<Round>)

  const MASTER := 0

  // ---- the critical sections ----

  function Max(a: int, b: int): int {
    if a < b then b else a
  }

  function Min(a: int, b: int): int {
    if a < b then a else b
  }

  function BatchSize(q: Shared, limit: nat): (n: int)
    requires q.queue != [] && q.nTotal >= 0 && q.nIdle >= 0
    ensures 1 <= n <= |q.queue| && n <= Max(1, limit)
    ensures n == 1 || n * (q.nTotal + q.nIdle + 1) <= |q.queue|
    ensures n >= limit || (n + 1) * (q.nTotal + q.nIdle + 1) > |q.queue|
  {
    assert |q.queue| / (q.nTotal + q.nIdle + 1) <= |q.queue| by { QuotientAtMost(|q.queue|, q.nTotal + q.nIdle + 1); }
    Max(1, Min(limit, |q.queue| / (q.nTotal + q.nIdle + 1)))
  }

  lemma {:induction false} QuotientAtMost(a: nat, d: nat)
    requires d >= 1
    ensures a / d <= a
  {
    Grows(a / d, d);
    assert a / d * d <= a;
  }

  lemma {:induction false} Grows(r: nat, d: nat)
    requires d >= 1
    ensures r <= r * d
  {
    assert r * d == r + r * (d - 1);
  }

  // What a thread goes on to do once it holds the lock.
  datatype Next = Return(result: bool) | Sleep | Take(batch: seq<Check>)

  // The last n checks, the last one first.
  function Popped(queue: seq<Check>, n: nat): (batch: seq<Check>)
    requires n <= |queue|
    ensures |batch| == n
  {
    seq(n, i requires 0 <= i < n => queue[|queue| - 1 - i])
  }

  // From the head of the inner loop: return, wait, or take a batch.
  function Resume(q: Shared, limit: nat, master: bool): (r: (Shared, Next))
    requires q.nTotal >= 0 && q.nIdle >= 0
  {
    if q.queue == [] then
      if master && q.nTodo == 0 then (q.(nTotal := q.nTotal - 1, fAllOk := true), Return(q.fAllOk))
      else (q.(nIdle := q.nIdle + 1), Sleep)
    else
      var n := BatchSize(q, limit);
      (q.(queue := q.queue[..|q.queue| - n]), Take(Popped(q.queue, n)))
  }

  // The clean-up of the previous batch.
  function Settle(q: Shared, batch: seq<Check>, fOk: bool): Shared {
    q.(fAllOk := q.fAllOk && fOk, nTodo := q.nTodo - |batch|)
  }

  function Push(q: Shared, checks: seq<Check>): Shared {
    q.(queue := q.queue + checks, nTodo := q.nTodo + |checks|)
  }

  // The object itself: each method is one stay in the critical section.
  class CCheckQueue {
    const nBatchSize: nat
    var queue: seq<Check>
    var nIdle: int
    var nTotal: int
    var fAllOk: bool
    var nTodo: int

    ghost function Fields(): Shared
      reads this
    {
      Shared(queue, nIdle, nTotal, fAllOk, nTodo)
    }

    constructor (nBatchSizeIn: nat)
      ensures Fields() == Shared([], 0, 0, true, 0) && nBatchSize == nBatchSizeIn
    {
      nBatchSize := nBatchSizeIn;
      queue, nIdle, nTotal, fAllOk, nTodo := [], 0, 0, true, 0;
    }

    method Add(checks: seq<Check>)
      modifies this
      ensures Fields() == Push(old(Fields()), checks)
    {
      var i := 0;
      while i < |checks|
        invariant 0 <= i <= |checks|
        invariant Fields() == old(Fields()).(queue := old(queue) + checks[..i])
      {
        queue := queue + [checks[i]];
        assert checks[..i + 1] == checks[..i] + [checks[i]];
        i := i + 1;
      }
      assert checks[..i] == checks;
      nTodo := nTodo + |checks|;
    }

    // What a thread does under the lock when it enters Loop or is back with a batch.
    method Locked(first: bool, batch: seq<Check>, fOk: bool, master: bool) returns (next: Next)
      requires nTotal >= 0 && nIdle >= 0
      modifies this
      ensures (Fields(), next) ==
        Resume(if first then old(Fields()).(nTotal := old(nTotal) + 1) else Settle(old(Fields()), batch, fOk),
               nBatchSize, master)
    {
      if first {
        nTotal := nTotal + 1;
      } else {
        fAllOk := fAllOk && fOk;
        nTodo := nTodo - |batch|;
      }
      next := Continue(master);
    }

    method Continue(master: bool) returns (next: Next)
      requires nTotal >= 0 && nIdle >= 0
      modifies this
      ensures (Fields(), next) == Resume(old(Fields()), nBatchSize, master)
    {
      if queue == [] {
        if master && nTodo == 0 {
          nTotal := nTotal - 1;
          next := Return(fAllOk);
          fAllOk := true;
        } else {
          nIdle := nIdle + 1;
          next := Sleep;
        }
      } else {
        var nNow := BatchSize(Shared(queue, nIdle, nTotal, fAllOk, nTodo), nBatchSize);
        var taken := [];
        while |taken| < nNow
          invariant |taken| <= nNow && Fields() == old(Fields()).(queue := old(queue)[..|old(queue)| - |taken|])
          invariant taken == Popped(old(queue), |taken|)
        {
          taken := taken + [queue[|queue| - 1]];
          queue := queue[..|queue| - 1];
        }
        next := Take(taken);
      }
    }
  }

  // ---- sums over the threads ----

  ghost function Total(f: Phase -> int, threads: seq<Phase>): int {
    if threads == [] then 0 else Total(f, threads[..|threads| - 1]) + f(threads[|threads| - 1])
  }

  lemma {:induction false} TotalUpdate(f: Phase -> int, threads: seq<Phase>, t: nat, p: Phase)
    requires t < |threads|
    ensures Total(f, threads[t := p]) == Total(f, threads) - f(threads[t]) + f(p)
  {
    var n := |threads| - 1;
    if t == n {
      assert threads[t := p][..n] == threads[..n];
    } else {
      TotalUpdate(f, threads[..n], t, p);
      assert threads[t := p][..n] == threads[..n][t := p];
    }
  }

  lemma {:induction false} TotalAtLeast(f: Phase -> int, threads: seq<Phase>, t: nat)
    requires t < |threads| && forall p :: f(p) >= 0
    ensures Total(f, threads) >= f(threads[t]) >= 0
  {
    var n := |threads| - 1;
    TotalNonNegative(f, threads[..n]);
    if t < n {
      TotalAtLeast(f, threads[..n], t);
    }
  }

  lemma {:induction false} TotalNonNegative(f: Phase -> int, threads: seq<Phase>)
    requires forall p :: f(p) >= 0
    ensures Total(f, threads) >= 0
  {
    if threads != [] {
      TotalNonNegative(f, threads[..|threads| - 1]);
    }
  }

  // A positive total has a thread behind it.
  lemma {:induction false} TotalHasSource(f: Phase -> int, threads: seq<Phase>) returns (t: nat)
    requires Total(f, threads) > 0
    ensures t < |threads| && f(threads[t]) > 0
  {
    t := |threads| - 1;
    if f(threads[t]) <= 0 {
      t := TotalHasSource(f, threads[..t]);
    }
  }

  function Held(p: Phase): int {
    if p.Working? then |p.batch| else 0
  }

  function Idle(p: Phase): int {
    if p.Waiting? then 1 else 0
  }

  function Inside(p: Phase): int {
    if p.Outside? then 0 else 1
  }

  ghost function Batches(threads: seq<Phase>): multiset<Check> {
    if threads == [] then multiset{}
    else
      var last := threads[|threads| - 1];
      Batches(threads[..|threads| - 1]) + Batch(last)
  }

  ghost function Batch(p: Phase): multiset<Check> {
    if p.Working? then multiset(p.batch) else multiset{}
  }

  lemma {:induction false} BatchesUpdate(threads: seq<Phase>, t: nat, p: Phase)
    requires t < |threads|
    ensures Batches(threads[t := p]) + Batch(threads[t]) == Batches(threads) + Batch(p)
  {
    var n := |threads| - 1;
    var all, others, last := threads[t := p], Batches(threads[..n]), Batch(threads[n]);
    if t == n {
      assert all[..n] == threads[..n];
      Exchange(others, Batch(p), last);
    } else {
      BatchesUpdate(threads[..n], t, p);
      assert all[..n] == threads[..n][t := p];
      Exchange(Batches(all[..n]), last, Batch(threads[t]));
      Exchange(others, Batch(p), last);
    }
  }

  lemma {:induction false} Exchange(a: multiset<Check>, b: multiset<Check>, c: multiset<Check>)
    ensures a + b + c == a + c + b
  {
  }

  lemma {:induction false} BatchesEmpty(threads: seq<Phase>)
    requires forall t :: 0 <= t < |threads| ==> !threads[t].Working?
    ensures Batches(threads) == multiset{}
  {
    if threads != [] {
      BatchesEmpty(threads[..|threads| - 1]);
    }
  }

  // ---- the steps of the threads ----

  // Adding is the master's; a single check wakes one sleeping worker. Waking may also be spurious.
  datatype Event =
    Adding(checks: seq<Check>, chosen: nat) | Entering(t: nat) | Running(t: nat) | Returning(t: nat) | Waking(t: nat)

  predicate SleepingWorker(s: State, t: nat) {
    MASTER < t < |s.threads| && s.threads[t] == Waiting(false)
  }

  ghost predicate Enabled(s: State, e: Event) {
    match e
    case Adding(checks, chosen) =>
      && |s.threads| > 0 && s.threads[MASTER].Outside?
      && (|checks| == 1 ==> SleepingWorker(s, chosen) || !exists t :: SleepingWorker(s, t))
    case Entering(t) => t < |s.threads| && s.threads[t].Outside?
    case Running(t) => t < |s.threads| && s.threads[t].Working? && s.threads[t].k < |s.threads[t].batch|
    case Returning(t) => t < |s.threads| && s.threads[t].Working? && s.threads[t].k == |s.threads[t].batch|
    case Waking(t) => t < |s.threads| && s.threads[t].Waiting?
  }

  function Notify(threads: seq<Phase>, t: nat): seq<Phase> {
    if t < |threads| && threads[t].Waiting? then threads[t := Waiting(true)] else threads
  }

  function NotifyWorkers(threads: seq<Phase>, n: nat): (r: seq<Phase>)
    requires n <= |threads|
    ensures |r| == |threads|
  {
    if n <= 1 then threads else Notify(NotifyWorkers(threads, n - 1), n - 1)
  }

  // The threads after n checks were added.
  function Woken(threads: seq<Phase>, n: nat, chosen: nat): seq<Phase> {
    if n == 0 || (n == 1 && chosen == MASTER) then threads
    else if n == 1 then Notify(threads, chosen)
    else NotifyWorkers(threads, |threads|)
  }

  function Continue(s: State, t: nat, limit: nat): State
    requires t < |s.threads| && s.shared.nTotal >= 0 && s.shared.nIdle >= 0
  {
    var (q, next) := Resume(s.shared, limit, t == MASTER);
    match next
    case Return(result) =>
      State(q, s.threads[t := Outside], [], multiset{}, s.rounds + [Round(s.added, result)])
    case Sleep => s.(shared := q, threads := s.threads[t := Waiting(false)])
    case Take(batch) => s.(shared := q, threads := s.threads[t := Working(batch, 0, q.fAllOk)])
  }

  // The state at the head of the inner loop, once the thread of the event has the lock.
  function Acquire(s: State, e: Event): State
    requires Enabled(s, e) && (e.Entering? || e.Returning? || e.Waking?)
  {
    match e
    case Entering(t) =>
      s.(shared := s.shared.(nTotal := s.shared.nTotal + 1), threads := s.threads[t := Locking])
    case Waking(t) =>
      s.(shared := s.shared.(nIdle := s.shared.nIdle - 1), threads := s.threads[t := Locking])
    case Returning(t) =>
      var p := s.threads[t];
      var q := Settle(s.shared, p.batch, p.fOk);
      var threads := if q.nTodo == 0 && t != MASTER then Notify(s.threads, MASTER) else s.threads;
      State(q, threads[t := Locking], s.added, s.finished + multiset(p.batch), s.rounds)
  }

  ghost predicate Counted(s: State) {
    s.shared.nTotal >= 0 && s.shared.nIdle >= 0
  }

  ghost function Do(s: State, e: Event, limit: nat): State
    requires Enabled(s, e)
    requires e.Entering? || e.Returning? || e.Waking? ==> Counted(Acquire(s, e))
  {
    match e
    case Adding(checks, chosen) =>
      s.(shared := Push(s.shared, checks), added := s.added + checks,
         threads := Woken(s.threads, |checks|, chosen))
    case Running(t) =>
      var p := s.threads[t];
      s.(threads := s.threads[t := Working(p.batch, p.k + 1, if p.fOk then p.batch[p.k].holds else false)])
    case _ => Continue(Acquire(s, e), e.t, limit)
  }

  // ---- what every step keeps ----

  ghost predicate AllHold(checks: seq<Check>) {
    forall i :: 0 <= i < |checks| ==> checks[i].holds
  }

  ghost predicate CountersOk(s: State) {
    && s.shared.nTodo == |s.shared.queue| + Total(Held, s.threads)
    && s.shared.nIdle == Total(Idle, s.threads)
    && s.shared.nTotal == Total(Inside, s.threads)
  }

  // Every check added in this round is queued, in one batch, or accounted for.
  ghost predicate Conserved(s: State) {
    multiset(s.added) == multiset(s.shared.queue) + Batches(s.threads) + s.finished
  }

  // A batch in progress: its flag is true only if what it ran holds, and false only for a reason.
  ghost predicate PhaseOk(added: seq<Check>, p: Phase) {
    p.Working? ==>
      && p.k <= |p.batch| && p.batch != []
      && (p.fOk ==> AllHold(p.batch[..p.k])) && (!p.fOk ==> !AllHold(added))
  }

  ghost predicate ThreadsOk(s: State) {
    forall t :: 0 <= t < |s.threads| ==> PhaseOk(s.added, s.threads[t])
  }

  ghost predicate ResultOk(s: State) {
    && (s.shared.fAllOk ==> forall c :: c in s.finished ==> c.holds)
    && (!s.shared.fAllOk ==> !AllHold(s.added))
  }

  // A master that waits has taken all there was; one not notified has checks to wait for.
  ghost predicate MasterOk(s: State) {
    && |s.threads| > 0
    && (s.threads[MASTER].Waiting? ==> s.shared.queue == [])
    && (s.threads[MASTER] == Waiting(false) ==> s.shared.nTodo > 0)
  }

  ghost predicate RoundsOk(rounds: seq<Round>) {
    forall i :: 0 <= i < |rounds| ==> (rounds[i].result <==> AllHold(rounds[i].added))
  }

  ghost predicate Inv(s: State) {
    CountersOk(s) && Conserved(s) && ThreadsOk(s) && ResultOk(s) && MasterOk(s) && RoundsOk(s.rounds)
  }

  lemma {:induction false} CountersNonNegative(s: State)
    requires CountersOk(s)
    ensures Counted(s) && s.shared.nTodo >= 0
  {
    TotalNonNegative(Held, s.threads);
    TotalNonNegative(Idle, s.threads);
    TotalNonNegative(Inside, s.threads);
  }

  lemma {:induction false} MoveCounts(threads: seq<Phase>, t: nat, p: Phase)
    requires t < |threads|
    ensures Total(Held, threads[t := p]) == Total(Held, threads) - Held(threads[t]) + Held(p)
    ensures Total(Idle, threads[t := p]) == Total(Idle, threads) - Idle(threads[t]) + Idle(p)
    ensures Total(Inside, threads[t := p]) == Total(Inside, threads) - Inside(threads[t]) + Inside(p)
    ensures Batches(threads[t := p]) + Batch(threads[t]) == Batches(threads) + Batch(p)
  {
    TotalUpdate(Held, threads, t, p);
    TotalUpdate(Idle, threads, t, p);
    TotalUpdate(Inside, threads, t, p);
    BatchesUpdate(threads, t, p);
  }

  lemma {:induction false} NotifyCounts(threads: seq<Phase>, t: nat)
    ensures Total(Held, Notify(threads, t)) == Total(Held, threads)
    ensures Total(Idle, Notify(threads, t)) == Total(Idle, threads)
    ensures Total(Inside, Notify(threads, t)) == Total(Inside, threads)
    ensures Batches(Notify(threads, t)) == Batches(threads)
  {
    if t < |threads| && threads[t].Waiting? {
      MoveCounts(threads, t, Waiting(true));
      assert Batches(Notify(threads, t)) + multiset{} == Batches(Notify(threads, t));
      assert Batches(threads) + multiset{} == Batches(threads);
    }
  }

  lemma {:induction false} NotifyWorkersCounts(threads: seq<Phase>, n: nat)
    requires n <= |threads|
    ensures Total(Held, NotifyWorkers(threads, n)) == Total(Held, threads)
    ensures Total(Idle, NotifyWorkers(threads, n)) == Total(Idle, threads)
    ensures Total(Inside, NotifyWorkers(threads, n)) == Total(Inside, threads)
    ensures Batches(NotifyWorkers(threads, n)) == Batches(threads)
    ensures forall t :: 0 <= t < |threads| ==>
      NotifyWorkers(threads, n)[t] == if 0 < t < n && threads[t].Waiting? then Waiting(true) else threads[t]
  {
    if n > 1 {
      NotifyWorkersCounts(threads, n - 1);
      NotifyCounts(NotifyWorkers(threads, n - 1), n - 1);
    }
  }

  lemma {:induction false} PoppedIsPart(queue: seq<Check>, n: nat)
    requires n <= |queue|
    ensures multiset(queue) == multiset(queue[..|queue| - n]) + multiset(Popped(queue, n))
  {
    var m := |queue| - n;
    if n == 0 {
      assert queue[..m] == queue;
    } else {
      PoppedIsPart(queue, n - 1);
      assert Popped(queue, n) == Popped(queue, n - 1) + [queue[m]];
      assert queue[..m + 1] == queue[..m] + [queue[m]];
    }
  }

  // Whether all hold is a matter of the multiset alone.
  lemma {:induction false} AllHoldByContents(checks: seq<Check>, contents: multiset<Check>)
    requires multiset(checks) == contents
    ensures AllHold(checks) <==> forall c :: c in contents ==> c.holds
  {
    forall i | 0 <= i < |checks|
      ensures checks[i] in contents
    {
    }
    forall c | c in contents
      ensures c in checks
    {
    }
  }

  lemma {:induction false} AppendHolds(a: seq<Check>, b: seq<Check>)
    ensures AllHold(a + b) <==> AllHold(a) && AllHold(b)
  {
    if AllHold(a + b) {
      forall i | 0 <= i < |a|
        ensures a[i].holds
      {
        assert (a + b)[i].holds;
      }
      forall i | 0 <= i < |b|
        ensures b[i].holds
      {
        assert (a + b)[|a| + i].holds;
      }
    }
  }

  // ---- the steps keep the invariant ----

  lemma {:induction false} SleepKeeps(s: State, t: nat)
    requires Inv(s) && t < |s.threads| && s.threads[t].Locking? && s.shared.queue == []
    requires t == MASTER ==> s.shared.nTodo != 0
    ensures Inv(s.(shared := s.shared.(nIdle := s.shared.nIdle + 1), threads := s.threads[t := Waiting(false)]))
  {
    CountersNonNegative(s);
    MoveCounts(s.threads, t, Waiting(false));
    assert Batches(s.threads) + multiset{} == Batches(s.threads);
  }

  lemma {:induction false} TakeKeeps(s: State, t: nat, n: nat)
    requires Inv(s) && t < |s.threads| && s.threads[t].Locking? && 1 <= n <= |s.shared.queue|
    ensures Inv(s.(shared := s.shared.(queue := s.shared.queue[..|s.shared.queue| - n]),
                   threads := s.threads[t := Working(Popped(s.shared.queue, n), 0, s.shared.fAllOk)]))
  {
    hide Total, Batches;
    var p := Working(Popped(s.shared.queue, n), 0, s.shared.fAllOk);
    MoveCounts(s.threads, t, p);
    PoppedIsPart(s.shared.queue, n);
    Moved(multiset(s.added), multiset(s.shared.queue), multiset(s.shared.queue[..|s.shared.queue| - n]), multiset(p.batch),
          Batches(s.threads), Batches(s.threads[t := p]), s.finished);
    assert Conserved(s.(shared := s.shared.(queue := s.shared.queue[..|s.shared.queue| - n]), threads := s.threads[t := p]));
    hide Conserved;
  }

  lemma {:induction false} Moved(added: multiset<Check>, q: multiset<Check>, q': multiset<Check>, batch: multiset<Check>,
                                 b: multiset<Check>, b': multiset<Check>, f: multiset<Check>)
    requires added == q + b + f && q == q' + batch && b' + multiset{} == b + batch
    ensures added == q' + b' + f
  {
    assert b' == b + batch;
    assert q' + batch + b == q' + (b + batch);
  }

  // With nothing left to do the result is right and the round closes.
  lemma {:induction false} ResultIsRight(s: State)
    requires Inv(s) && s.shared.queue == [] && s.shared.nTodo == 0
    ensures forall t :: 0 <= t < |s.threads| ==> !s.threads[t].Working?
    ensures s.shared.fAllOk <==> AllHold(s.added)
  {
    forall t | 0 <= t < |s.threads|
      ensures !s.threads[t].Working?
    {
      TotalAtLeast(Held, s.threads, t);
      assert PhaseOk(s.added, s.threads[t]);
    }
    BatchesEmpty(s.threads);
    assert multiset(s.shared.queue) + multiset{} + s.finished == s.finished;
    AllHoldByContents(s.added, s.finished);
  }

  lemma {:induction false} ReturnKeeps(s: State)
    requires Inv(s) && s.threads[MASTER].Locking? && s.shared.queue == [] && s.shared.nTodo == 0
    ensures Inv(State(s.shared.(nTotal := s.shared.nTotal - 1, fAllOk := true), s.threads[MASTER := Outside], [],
                      multiset{}, s.rounds + [Round(s.added, s.shared.fAllOk)]))
  {
    ResultIsRight(s);
    MoveCounts(s.threads, MASTER, Outside);
    BatchesEmpty(s.threads[MASTER := Outside]);
    hide Total, Batches, AllHold, Conserved;
  }

  lemma {:induction false} ContinueKeeps(s: State, t: nat, limit: nat)
    requires Inv(s) && t < |s.threads| && s.threads[t].Locking? && Counted(s)
    ensures Inv(Continue(s, t, limit))
  {
    hide Inv;
    if s.shared.queue != [] {
      TakeKeeps(s, t, BatchSize(s.shared, limit));
    } else if t == MASTER && s.shared.nTodo == 0 {
      ReturnKeeps(s);
    } else {
      SleepKeeps(s, t);
    }
  }

  lemma {:induction false} EnterKeeps(s: State, t: nat)
    requires Inv(s) && Enabled(s, Entering(t))
    ensures Inv(Acquire(s, Entering(t))) && Counted(Acquire(s, Entering(t)))
  {
    CountersNonNegative(s);
    MoveCounts(s.threads, t, Locking);
    assert Batches(s.threads[t := Locking]) + multiset{} == Batches(s.threads[t := Locking]);
  }

  lemma {:induction false} WakeKeeps(s: State, t: nat)
    requires Inv(s) && Enabled(s, Waking(t))
    ensures Inv(Acquire(s, Waking(t))) && Counted(Acquire(s, Waking(t)))
  {
    CountersNonNegative(s);
    TotalAtLeast(Idle, s.threads, t);
    MoveCounts(s.threads, t, Locking);
    assert Batches(s.threads[t := Locking]) + multiset{} == Batches(s.threads[t := Locking]);
  }

  lemma {:induction false} FinishCounts(s: State, t: nat)
    requires CountersOk(s) && Conserved(s) && Enabled(s, Returning(t))
    ensures CountersOk(Acquire(s, Returning(t))) && Conserved(Acquire(s, Returning(t)))
  {
    hide Total, Batches;
    var s' := Acquire(s, Returning(t));
    var p := s.threads[t];
    NotifyCounts(s.threads, MASTER);
    var threads := if s'.shared.nTodo == 0 && t != MASTER then Notify(s.threads, MASTER) else s.threads;
    MoveCounts(threads, t, Locking);
    var q, b, f, a := multiset(s.shared.queue), Batches(s'.threads), s.finished, multiset(p.batch);
    assert b + multiset{} == b;
    assert q + (b + a) + f == q + b + (f + a);
  }

  lemma {:induction false} FinishResult(s: State, t: nat)
    requires ResultOk(s) && ThreadsOk(s) && Enabled(s, Returning(t))
    ensures ResultOk(Acquire(s, Returning(t))) && ThreadsOk(Acquire(s, Returning(t)))
  {
    var p := s.threads[t];
    assert PhaseOk(s.added, p);
    assert p.batch[..p.k] == p.batch;
    AllHoldByContents(p.batch, multiset(p.batch));
  }

  lemma {:induction false} FinishKeeps(s: State, t: nat)
    requires Inv(s) && Enabled(s, Returning(t))
    ensures Inv(Acquire(s, Returning(t))) && Counted(Acquire(s, Returning(t)))
  {
    FinishCounts(s, t);
    FinishResult(s, t);
    CountersNonNegative(Acquire(s, Returning(t)));
    hide CountersOk, Conserved, ThreadsOk, ResultOk, RoundsOk;
  }

  lemma {:induction false} Cancel(a: multiset<Check>, b: multiset<Check>, c: multiset<Check>)
    requires a + c == b + c
    ensures a == b
  {
    forall x: Check
      ensures a[x] == b[x]
    {
      assert (a + c)[x] == (b + c)[x];
    }
  }

  lemma {:induction false} RunKeeps(s: State, t: nat, limit: nat)
    requires Inv(s) && Enabled(s, Running(t))
    ensures Inv(Do(s, Running(t), limit))
  {
    hide Total, Batches, AllHold;
    var p := s.threads[t];
    var s' := Do(s, Running(t), limit);
    MoveCounts(s.threads, t, s'.threads[t]);
    Cancel(Batches(s'.threads), Batches(s.threads), Batch(p));
    RunFlag(s, t);
    assert Conserved(s') && CountersOk(s');
    hide Conserved, CountersOk;
  }

  lemma {:induction false} RunFlag(s: State, t: nat)
    requires Conserved(s) && ThreadsOk(s) && Enabled(s, Running(t))
    ensures var p := s.threads[t];
            PhaseOk(s.added, Working(p.batch, p.k + 1, if p.fOk then p.batch[p.k].holds else false))
  {
    hide Batches, Conserved;
    var p := s.threads[t];
    assert PhaseOk(s.added, p);
    assert p.batch[..p.k + 1] == p.batch[..p.k] + [p.batch[p.k]];
    InBatchInAdded(s, t, p.k);
  }

  lemma {:induction false} InBatchInAdded(s: State, t: nat, i: nat)
    requires Conserved(s) && t < |s.threads| && s.threads[t].Working? && i < |s.threads[t].batch|
    ensures s.threads[t].batch[i] in s.added
  {
    var c := s.threads[t].batch[i];
    InBatches(s.threads, t, c);
    assert c in multiset(s.added);
  }

  lemma {:induction false} InBatches(threads: seq<Phase>, t: nat, c: Check)
    requires t < |threads| && c in Batch(threads[t])
    ensures c in Batches(threads)
  {
    if t < |threads| - 1 {
      InBatches(threads[..|threads| - 1], t, c);
    }
  }

  lemma {:induction false} WokenFrame(threads: seq<Phase>, n: nat, chosen: nat)
    ensures |Woken(threads, n, chosen)| == |threads|
    ensures forall t :: 0 <= t < |threads| ==>
      || Woken(threads, n, chosen)[t] == threads[t]
      || (t != MASTER && threads[t].Waiting? && Woken(threads, n, chosen)[t].Waiting?)
    ensures Total(Held, Woken(threads, n, chosen)) == Total(Held, threads)
    ensures Total(Idle, Woken(threads, n, chosen)) == Total(Idle, threads)
    ensures Total(Inside, Woken(threads, n, chosen)) == Total(Inside, threads)
    ensures Batches(Woken(threads, n, chosen)) == Batches(threads)
  {
    hide Total, Batches;
    NotifyCounts(threads, chosen);
    NotifyWorkersCounts(threads, |threads|);
  }

  lemma {:induction false} AddKeeps(s: State, checks: seq<Check>, chosen: nat, limit: nat)
    requires Inv(s) && Enabled(s, Adding(checks, chosen))
    ensures Inv(Do(s, Adding(checks, chosen), limit))
  {
    hide Total, Batches, Woken, AllHold;
    var s' := Do(s, Adding(checks, chosen), limit);
    WokenFrame(s.threads, |checks|, chosen);
    AppendHolds(s.added, checks);
    assert Conserved(s') by {
      var q, b, f, a := multiset(s.shared.queue), Batches(s.threads), s.finished, multiset(checks);
      assert (q + b + f) + a == (q + a) + b + f;
    }
    hide Conserved;
    forall t | 0 <= t < |s'.threads|
      ensures PhaseOk(s'.added, s'.threads[t])
    {
      assert PhaseOk(s.added, s.threads[t]);
    }
  }

  lemma {:induction false} AcquireKeeps(s: State, e: Event)
    requires Inv(s) && Enabled(s, e) && (e.Entering? || e.Returning? || e.Waking?)
    ensures Inv(Acquire(s, e)) && Counted(Acquire(s, e)) && Acquire(s, e).threads[e.t].Locking?
  {
    match e
    case Entering(t) => EnterKeeps(s, t);
    case Returning(t) => FinishKeeps(s, t);
    case Waking(t) => WakeKeeps(s, t);
  }

  lemma {:induction false} StepKeeps(s: State, e: Event, limit: nat)
    requires Inv(s) && Enabled(s, e)
    ensures e.Entering? || e.Returning? || e.Waking? ==> Counted(Acquire(s, e))
    ensures Inv(Do(s, e, limit))
  {
    hide Inv;
    match e
    case Adding(checks, chosen) => AddKeeps(s, checks, chosen, limit);
    case Running(t) => RunKeeps(s, t, limit);
    case _ =>
      AcquireKeeps(s, e);
      ContinueKeeps(Acquire(s, e), e.t, limit);
  }

  // ---- whole runs ----

  function Initial(workers: nat): State {
    State(Shared([], 0, 0, true, 0), seq(workers + 1, i => Outside), [], multiset{}, [])
  }

  lemma {:induction false} NothingStarted(threads: seq<Phase>)
    requires forall t :: 0 <= t < |threads| ==> threads[t] == Outside
    ensures Total(Held, threads) == Total(Idle, threads) == Total(Inside, threads) == 0
    ensures Batches(threads) == multiset{}
  {
    if threads != [] {
      NothingStarted(threads[..|threads| - 1]);
    }
  }

  lemma {:induction false} InitialOk(workers: nat)
    ensures Inv(Initial(workers))
  {
    NothingStarted(Initial(workers).threads);
  }

  // A run of the machine: some enabled event at each step.
  ghost predicate RunFrom(s: State, events: seq<Event>, s': State, limit: nat)
    requires Inv(s)
    decreases |events|
  {
    if events == [] then s' == s
    else
      && Enabled(s, events[0])
      && (StepKeeps(s, events[0], limit); RunFrom(Do(s, events[0], limit), events[1..], s', limit))
  }

  lemma {:induction false} RunKeepsInv(s: State, events: seq<Event>, s': State, limit: nat)
    requires Inv(s) && RunFrom(s, events, s', limit)
    ensures Inv(s')
    decreases |events|
  {
    if events != [] {
      StepKeeps(s, events[0], limit);
      RunKeepsInv(Do(s, events[0], limit), events[1..], s', limit);
    }
  }

  ghost predicate Reaches(workers: nat, events: seq<Event>, s: State, limit: nat) {
    InitialOk(workers);
    RunFrom(Initial(workers), events, s, limit)
  }

  // For any number of workers and any interleaving: every Wait that has returned gave
  // true exactly when all the checks of its round hold, and the counters are exact.
  lemma {:induction false} EveryRunIsRight(workers: nat, events: seq<Event>, s: State, limit: nat)
    requires Reaches(workers, events, s, limit)
    ensures forall i :: 0 <= i < |s.rounds| ==> (s.rounds[i].result <==> AllHold(s.rounds[i].added))
    ensures s.shared.nTodo == |s.shared.queue| + Total(Held, s.threads)
    ensures multiset(s.added) == multiset(s.shared.queue) + Batches(s.threads) + s.finished
  {
    InitialOk(workers);
    RunKeepsInv(Initial(workers), events, s, limit);
  }

  // ---- no lost wake-up, and a bound on the work of a round ----

  // What each thread still has to do, and three units for every queued check.
  function Due(p: Phase): int {
    match p
    case Outside => 1
    case Waiting(notified) => if notified then 1 else 0
    case Locking => 0
    case Working(batch, k, _) => Max(0, |batch| - k) + 2
  }

  ghost function Potential(s: State): int {
    3 * |s.shared.queue| + Total(Due, s.threads)
  }

  // An event of this round that is not a spurious wake-up.
  ghost predicate Genuine(s: State, e: Event) {
    Enabled(s, e) && !e.Adding? && (e.Waking? ==> s.threads[e.t].notified)
  }

  // While the master is in Wait something can be done, and if the master sleeps without
  // a notification then a worker holds a batch.
  lemma {:induction false} WaitIsNeverStuck(s: State) returns (e: Event)
    requires Inv(s) && !s.threads[MASTER].Outside? && !s.threads[MASTER].Locking?
    ensures Genuine(s, e)
    ensures s.threads[MASTER] == Waiting(false) ==>
      exists t :: MASTER < t < |s.threads| && s.threads[t].Working?
  {
    var t := MASTER;
    if s.threads[MASTER] == Waiting(true) {
      return Waking(MASTER);
    }
    if s.threads[MASTER] == Waiting(false) {
      t := TotalHasSource(Held, s.threads);
      assert MASTER < t < |s.threads| && s.threads[t].Working?;
    }
    assert PhaseOk(s.added, s.threads[t]);
    e := if s.threads[t].k < |s.threads[t].batch| then Running(t) else Returning(t);
  }

  // Between two steps no thread is in the middle of a critical section.
  ghost predicate NoneLocking(s: State) {
    forall t :: 0 <= t < |s.threads| ==> !s.threads[t].Locking?
  }

  lemma {:induction false} ContinueUnlocks(s: State, t: nat, limit: nat)
    requires t < |s.threads| && Counted(s)
    requires forall i :: 0 <= i < |s.threads| && i != t ==> !s.threads[i].Locking?
    ensures NoneLocking(Continue(s, t, limit))
  {
    hide Resume;
  }

  lemma {:induction false} StepUnlocks(s: State, e: Event, limit: nat)
    requires Enabled(s, e) && NoneLocking(s)
    requires e.Entering? || e.Returning? || e.Waking? ==> Counted(Acquire(s, e))
    ensures NoneLocking(Do(s, e, limit))
  {
    if e.Adding? {
      WokenFrame(s.threads, |e.checks|, e.chosen);
      hide Woken, Total, Batches;
      assert NoneLocking(Do(s, e, limit));
    } else if !e.Running? {
      ContinueUnlocks(Acquire(s, e), e.t, limit);
    }
  }

  lemma {:induction false} RunUnlocks(s: State, events: seq<Event>, s': State, limit: nat)
    requires Inv(s) && RunFrom(s, events, s', limit) && NoneLocking(s)
    ensures NoneLocking(s')
    decreases |events|
  {
    if events != [] {
      StepKeeps(s, events[0], limit);
      StepUnlocks(s, events[0], limit);
      RunUnlocks(Do(s, events[0], limit), events[1..], s', limit);
    }
  }

  // No run of any number of workers leaves the master in Wait with nothing left to happen.
  lemma {:induction false} NoRunGetsStuck(workers: nat, events: seq<Event>, s: State, limit: nat) returns (e: Event)
    requires Reaches(workers, events, s, limit)
    requires |s.threads| > MASTER && !s.threads[MASTER].Outside?
    ensures Inv(s) && Genuine(s, e)
    ensures s.threads[MASTER] == Waiting(false) ==>
      exists t :: MASTER < t < |s.threads| && s.threads[t].Working?
  {
    InitialOk(workers);
    RunKeepsInv(Initial(workers), events, s, limit);
    RunUnlocks(Initial(workers), events, s, limit);
    e := WaitIsNeverStuck(s);
  }

  lemma {:induction false} NotifyDue(threads: seq<Phase>, t: nat)
    ensures Total(Due, threads) <= Total(Due, Notify(threads, t)) <= Total(Due, threads) + 1
  {
    if t < |threads| && threads[t].Waiting? {
      TotalUpdate(Due, threads, t, Waiting(true));
    }
  }

  lemma {:induction false} AcquireUsesUp(s: State, e: Event)
    requires Inv(s) && Genuine(s, e) && !e.Running?
    ensures Potential(Acquire(s, e)) < Potential(s)
  {
    hide Total, Inv;
    var threads := s.threads;
    if e.Returning? {
      NotifyDue(s.threads, MASTER);
      if Settle(s.shared, s.threads[e.t].batch, s.threads[e.t].fOk).nTodo == 0 && e.t != MASTER {
        threads := Notify(s.threads, MASTER);
      }
    }
    TotalUpdate(Due, threads, e.t, Locking);
  }

  lemma {:induction false} ContinueUsesUp(s: State, t: nat, limit: nat)
    requires Inv(s) && t < |s.threads| && s.threads[t].Locking? && Counted(s)
    ensures Continue(s, t, limit).rounds == s.rounds ==> Potential(Continue(s, t, limit)) <= Potential(s)
  {
    hide Total, Inv;
    if s.shared.queue != [] || t != MASTER || s.shared.nTodo != 0 {
      TotalUpdate(Due, s.threads, t, Continue(s, t, limit).threads[t]);
    }
  }

  lemma {:induction false} StepUsesUp(s: State, e: Event, limit: nat)
    requires Inv(s) && Genuine(s, e)
    requires e.Running? || Counted(Acquire(s, e))
    ensures Do(s, e, limit).rounds == s.rounds ==> Potential(Do(s, e, limit)) < Potential(s)
  {
    hide Total, Inv;
    if e.Running? {
      TotalUpdate(Due, s.threads, e.t, Do(s, e, limit).threads[e.t]);
    } else {
      AcquireKeeps(s, e);
      AcquireUsesUp(s, e);
      ContinueUsesUp(Acquire(s, e), e.t, limit);
    }
  }

  // A run of genuine events during which no Wait returns.
  ghost predicate GenuineRun(s: State, events: seq<Event>, limit: nat)
    requires Inv(s)
    decreases |events|
  {
    events == [] ||
    (Genuine(s, events[0]) &&
     (StepKeeps(s, events[0], limit);
      Do(s, events[0], limit).rounds == s.rounds && GenuineRun(Do(s, events[0], limit), events[1..], limit)))
  }

  // Only so many genuine steps fit into a round: with WaitIsNeverStuck, Wait returns
  // unless spurious wake-ups go on for ever.
  lemma {:induction false} WaitEnds(s: State, events: seq<Event>, limit: nat)
    requires Inv(s) && GenuineRun(s, events, limit)
    ensures |events| <= Potential(s)
    decreases |events|
  {
    TotalNonNegative(Due, s.threads);
    if events != [] {
      StepKeeps(s, events[0], limit);
      StepUsesUp(s, events[0], limit);
      WaitEnds(Do(s, events[0], limit), events[1..], limit);
    }
  }
}
