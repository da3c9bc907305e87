/** `mapWithConcurrencyLimit` of extensions/pi-subagent/index.ts: a bounded number of workers share
    one index and write into one results array. A call's completion and the claim that follows it
    run without interruption, so every execution is some order of completions.
 */
module WorkerPool {

  import opened Options

  // How a call settles.
  datatype Call<+O> = Resolved(value: O) | Rejected(error: string)

  datatype Worker = Running(index: nat) | Finished | Failed(index: nat, error: string)

  datatype Answer<+O> = Mapped(results: seq<O>) | Threw(error: string)

  function Min(a: int, b: int): int {
    if a < b then a else b
  }

  function Limit(concurrency: int, n: nat): (limit: nat)
    ensures limit >= 1 && limit >= Min(concurrency, n)
    ensures n > 0 ==> limit <= n && (concurrency >= 1 ==> limit <= concurrency)
  {
    var m := Min(concurrency, n);
    if m < 1 then 1 else m
  }

  predicate Busy(w: Worker) {
    w.Running? || w.Failed?
  }

  // Workers with a call in flight.
  function InFlight(workers: seq<Worker>): nat {
    if workers == [] then 0 else (if workers[0].Running? then 1 else 0) + InFlight(workers[1..])
  }

  lemma {:induction false} InFlightUpdate(workers: seq<Worker>, w: nat, after: Worker)
    requires w < |workers|
    ensures InFlight(workers[w := after])
            == InFlight(workers) - (if workers[w].Running? then 1 else 0) + (if after.Running? then 1 else 0)
  {
    if w == 0 {
      assert workers[w := after][1..] == workers[1..];
    } else {
      InFlightUpdate(workers[1..], w - 1, after);
      assert workers[w := after][1..] == workers[1..][w - 1 := after];
    }
  }

  lemma {:induction false} InFlightBounded(workers: seq<Worker>)
    ensures InFlight(workers) <= |workers|
    ensures InFlight(workers) == 0 <==> forall w :: 0 <= w < |workers| ==> !workers[w].Running?
  {
    if workers != [] {
      InFlightBounded(workers[1..]);
      assert forall w :: 1 <= w < |workers| ==> workers[1..][w - 1] == workers[w];
    }
  }

  // The shared index, the workers, the written results, and every index handed to a call so far.
  datatype Progress<O> = Progress(next: nat, workers: seq<Worker>, results: seq<Option<O>>, claims: seq<nat>)

  function Started<O>(n: nat, limit: nat): Progress<O> {
    Progress(limit, seq(limit, w requires 0 <= w < limit => Running(w)), seq(n, _ => None),
        seq(limit, k requires 0 <= k < limit => k))
  }

  // Worker `w`'s call settles; on an answer the worker writes it and claims the next index.
  function Settled<O>(p: Progress<O>, w: nat, call: Call<O>): Progress<O>
    requires w < |p.workers| && p.workers[w].Running? && p.workers[w].index < |p.results|
  {
    var current := p.workers[w].index;
    match call
    case Rejected(error) => p.(workers := p.workers[w := Failed(current, error)])
    case Resolved(value) =>
      if p.next < |p.results| then
        Progress(p.next + 1, p.workers[w := Running(p.next)], p.results[current := Some(value)], p.claims + [p.next])
      else
        Progress(p.next + 1, p.workers[w := Finished], p.results[current := Some(value)], p.claims)
  }

  // Each index is claimed once and in increasing order.
  ghost predicate ClaimsInOrder<O>(p: Progress<O>) {
    && |p.claims| == Min(p.next, |p.results|)
    && forall k :: 0 <= k < |p.claims| ==> p.claims[k] == k
  }

  ghost predicate HeldBy(workers: seq<Worker>, i: nat) {
    exists w :: 0 <= w < |workers| && Busy(workers[w]) && workers[w].index == i
  }

  // A busy worker holds a claimed index without a result, and no two hold the same one.
  ghost predicate BusyApart<O>(p: Progress<O>) {
    && |p.claims| <= |p.results|
    && (forall w :: 0 <= w < |p.workers| && Busy(p.workers[w])
                    ==> p.workers[w].index < |p.claims| && p.results[p.workers[w].index].None?)
    && (forall v, w :: 0 <= v < w < |p.workers| && Busy(p.workers[v]) && Busy(p.workers[w])
                       ==> p.workers[v].index != p.workers[w].index)
  }

  // A claimed index is held or answered; an unclaimed one has no result.
  ghost predicate Accounted<O>(p: Progress<O>) {
    && |p.claims| <= |p.results|
    && (forall i :: 0 <= i < |p.claims| && p.results[i].None? ==> HeldBy(p.workers, i))
    && (forall i :: |p.claims| <= i < |p.results| ==> p.results[i].None?)
    && (forall w :: 0 <= w < |p.workers| && p.workers[w].Finished? ==> |p.claims| == |p.results|)
  }

  // A result is the item's own answer, and a failure its own rejection.
  ghost predicate Answers<I, O>(items: seq<I>, fn: (I, nat) -> Call<O>, p: Progress<O>) {
    && |p.results| == |items|
    && (forall i :: 0 <= i < |items| && p.results[i].Some? ==> fn(items[i], i) == Resolved(p.results[i].value))
    && (forall w :: 0 <= w < |p.workers| && p.workers[w].Failed?
                    ==> p.workers[w].index < |items|
                        && fn(items[p.workers[w].index], p.workers[w].index) == Rejected(p.workers[w].error))
  }

  ghost predicate Sound<I, O>(items: seq<I>, fn: (I, nat) -> Call<O>, p: Progress<O>) {
    ClaimsInOrder(p) && BusyApart(p) && Accounted(p) && Answers(items, fn, p)
  }

  // Indexes not handed out plus calls in flight: every completion lowers it.
  ghost function Remaining<O>(p: Progress<O>): nat
    requires |p.claims| <= |p.results|
  {
    |p.results| - |p.claims| + InFlight(p.workers)
  }

  lemma StartIsSound<I, O>(items: seq<I>, fn: (I, nat) -> Call<O>, limit: nat)
    requires 1 <= limit <= |items|
    ensures Sound(items, fn, Started(|items|, limit))
  {
    var p: Progress<O> := Started(|items|, limit);
    forall i | 0 <= i < limit
      ensures HeldBy(p.workers, i)
    {
      assert Busy(p.workers[i]) && p.workers[i].index == i;
    }
  }

  lemma SettleKeepsAccounted<O>(p: Progress<O>, w: nat, call: Call<O>)
    requires ClaimsInOrder(p) && BusyApart(p) && Accounted(p)
    requires w < |p.workers| && p.workers[w].Running?
    ensures Accounted(Settled(p, w, call))
  {
    var q := Settled(p, w, call);
    forall i | 0 <= i < |q.claims| && q.results[i].None?
      ensures HeldBy(q.workers, i)
    {
      if !(Busy(q.workers[w]) && q.workers[w].index == i) {
        var v :| 0 <= v < |p.workers| && Busy(p.workers[v]) && p.workers[v].index == i;
        assert q.workers[v] == p.workers[v];
      }
    }
  }

  // Whichever worker settles, the pool stays sound and comes closer to its end.
  lemma SettleIsSound<I, O>(items: seq<I>, fn: (I, nat) -> Call<O>, p: Progress<O>, w: nat)
    requires Sound(items, fn, p) && w < |p.workers| && p.workers[w].Running?
    ensures p.workers[w].index < |items|
    ensures var q := Settled(p, w, fn(items[p.workers[w].index], p.workers[w].index));
            Sound(items, fn, q) && Remaining(q) < Remaining(p)
  {
    var call := fn(items[p.workers[w].index], p.workers[w].index);
    SettleKeepsAccounted(p, w, call);
    InFlightUpdate(p.workers, w, Settled(p, w, call).workers[w]);
  }

  predicate NoneFailed(workers: seq<Worker>) {
    forall w :: 0 <= w < |workers| ==> !workers[w].Failed?
  }

  predicate SomeRunning(workers: seq<Worker>) {
    exists w :: 0 <= w < |workers| && workers[w].Running?
  }

  // Until every worker has ended some step is enabled; then, unless one failed, every item is answered.
  lemma EndIsComplete<I, O>(items: seq<I>, fn: (I, nat) -> Call<O>, p: Progress<O>)
    requires Sound(items, fn, p) && p.workers != []
    requires InFlight(p.workers) == 0 && NoneFailed(p.workers)
    ensures forall i :: 0 <= i < |items| ==> p.results[i].Some?
  {
    InFlightBounded(p.workers);
    assert p.workers[0].Finished?;
    forall i | 0 <= i < |items|
      ensures p.results[i].Some?
    {
      assert i < |p.claims| && !HeldBy(p.workers, i);
    }
  }

  // The pool after any order of completions; a pick of a worker with no call in flight is no step.
  ghost function After<I, O>(items: seq<I>, fn: (I, nat) -> Call<O>, limit: nat, schedule: seq<nat>): Progress<O> {
    if schedule == [] then Started(|items|, limit)
    else
      var p := After(items, fn, limit, schedule[..|schedule| - 1]);
      var w := schedule[|schedule| - 1];
      if w < |p.workers| && p.workers[w].Running? && p.workers[w].index < Min(|items|, |p.results|)
      then Settled(p, w, fn(items[p.workers[w].index], p.workers[w].index))
      else p
  }

  // Whatever the order: no more calls in flight than the limit, indexes claimed once and in
  // increasing order, answers at their own index, and never more completions than items.
  lemma {:induction false} EveryScheduleIsSound<I, O>(items: seq<I>, fn: (I, nat) -> Call<O>, concurrency: int,
                                                      schedule: seq<nat>)
    requires items != []
    ensures
      var limit := Limit(concurrency, |items|);
      var p := After(items, fn, limit, schedule);
      && Sound(items, fn, p)
      && |p.workers| == limit
      && InFlight(p.workers) <= limit
      && Remaining(p) <= |items|
  {
    var limit := Limit(concurrency, |items|);
    if schedule == [] {
      StartIsSound(items, fn, limit);
    } else {
      var before := After(items, fn, limit, schedule[..|schedule| - 1]);
      var w := schedule[|schedule| - 1];
      EveryScheduleIsSound(items, fn, concurrency, schedule[..|schedule| - 1]);
      if w < |before.workers| && before.workers[w].Running? {
        SettleIsSound(items, fn, before, w);
      }
    }
    InFlightBounded(After(items, fn, limit, schedule).workers);
  }

  class Pool<I, O> {
    const items: seq<I>
    const fn: (I, nat) -> Call<O>
    const limit: nat
    const results: array<Option<O>>
    var nextIndex: nat
    var workers: seq<Worker>
    ghost var claims: seq<nat>

    ghost function State(): Progress<O>
      reads this, results
    {
      Progress(nextIndex, workers, results[..], claims)
    }

    ghost predicate Valid()
      reads this, results
    {
      && 1 <= limit == |workers|
      && Sound(items, fn, State())
    }

    constructor (items: seq<I>, concurrency: int, fn: (I, nat) -> Call<O>)
      requires items != []
      ensures Valid() && fresh(results)
      ensures this.items == items && this.fn == fn && limit == Limit(concurrency, |items|)
      ensures State() == Started(|items|, limit)
    {
      this.items, this.fn := items, fn;
      this.limit := Limit(concurrency, |items|);
      this.results := new Option<O>[|items|](i => None);
      this.nextIndex := 0;
      this.workers := [];
      this.claims := [];
      new;
      // each worker runs until its first call is in flight
      while |workers| < limit
        modifies this
        invariant nextIndex == |workers| == |claims| <= limit
        invariant forall k :: 0 <= k < |claims| ==> claims[k] == k && workers[k] == Running(k)
      {
        claims := claims + [nextIndex];
        workers := workers + [Running(nextIndex)];
        nextIndex := nextIndex + 1;
      }
      assert State() == Started(|items|, limit);
      StartIsSound(items, fn, limit);
    }

    method Settle(w: nat)
      requires Valid() && w < |workers| && workers[w].Running?
      modifies this, results
      ensures Valid()
      ensures old(workers[w].index) < |items|
      ensures State() == Settled(old(State()), w, fn(items[old(workers[w].index)], old(workers[w].index)))
      ensures Remaining(State()) < old(Remaining(State()))
    {
      ghost var before := State();
      SettleIsSound(items, fn, before, w);
      var current := workers[w].index;
      match fn(items[current], current) {
        case Rejected(error) =>
          workers := workers[w := Failed(current, error)];
        case Resolved(value) =>
          results[current] := Some(value);
          var following := nextIndex;
          nextIndex := nextIndex + 1;
          if following >= |items| {
            workers := workers[w := Finished];
          } else {
            claims := claims + [following];
            workers := workers[w := Running(following)];
          }
      }
      assert State() == Settled(before, w, fn(items[current], current));
    }
  }

  function Values<O>(results: seq<Option<O>>): (values: seq<O>)
    requires forall i :: 0 <= i < |results| ==> results[i].Some?
    ensures |values| == |results| && forall i :: 0 <= i < |values| ==> Some(values[i]) == results[i]
  {
    seq(|results|, i requires 0 <= i < |results| => results[i].value)
  }

  ghost predicate SomeRejects<I, O>(items: seq<I>, fn: (I, nat) -> Call<O>, error: string) {
    exists i :: 0 <= i < |items| && fn(items[i], i) == Rejected(error)
  }

  lemma FailureIsOwnRejection<I, O>(items: seq<I>, fn: (I, nat) -> Call<O>, p: Progress<O>, w: nat)
    requires Sound(items, fn, p) && w < |p.workers| && p.workers[w].Running?
    ensures p.workers[w].index < |items|
    ensures var q := Settled(p, w, fn(items[p.workers[w].index], p.workers[w].index));
            && w < |q.workers|
            && (q.workers[w].Failed? ==> SomeRejects(items, fn, q.workers[w].error))
            && (!q.workers[w].Failed? && NoneFailed(p.workers) ==> NoneFailed(q.workers))
  {}

  // Any worker whose call is in flight may settle next.
  method MapWithConcurrencyLimit<I, O>(items: seq<I>, concurrency: int, fn: (I, nat) -> Call<O>)
    returns (answer: Answer<O>)
    ensures answer.Mapped? <==> forall i :: 0 <= i < |items| ==> fn(items[i], i).Resolved?
    ensures answer.Mapped? ==> |answer.results| == |items|
    ensures answer.Mapped? ==> forall i :: 0 <= i < |items| ==> fn(items[i], i) == Resolved(answer.results[i])
    ensures answer.Threw? ==> SomeRejects(items, fn, answer.error)
  {
    if items == [] {
      return Mapped([]);
    }
    var pool := new Pool(items, concurrency, fn);
    var first: Option<string> := None;
    while SomeRunning(pool.workers)
      invariant pool.Valid() && fresh(pool) && fresh(pool.results)
      invariant first.None? ==> NoneFailed(pool.workers)
      invariant first.Some? ==> SomeRejects(items, fn, first.value)
      decreases Remaining(pool.State())
    {
      var w :| 0 <= w < |pool.workers| && pool.workers[w].Running?;
      FailureIsOwnRejection(items, fn, pool.State(), w);
      pool.Settle(w);
      if first.None? && pool.workers[w].Failed? {
        // the first rejection decides the whole map
        first := Some(pool.workers[w].error);
      }
    }
    if first.Some? {
      return Threw(first.value);
    }
    InFlightBounded(pool.workers);
    EndIsComplete(items, fn, pool.State());
    answer := Mapped(Values(pool.results[..]));
  }
}
