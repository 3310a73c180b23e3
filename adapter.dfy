/** The loop every `fetch_*` function runs over a platform's items: each
    item is turned into a record, skipped with `continue`, or (in the
    adapters without a per-item `try`) raises out of the adapter. */
module Adapter {
  import opened Contest

  /** What one item turns into. */
  datatype Step = Emit(contest: Contest) | Skip | Raise

  /** What a `fetch_*` call does: return its list, or raise. Nothing above
      the adapters catches, so a raise ends the whole run. */
  datatype Outcome = Raised | Returned(contests: seq<Contest>)

  /** The records the items emit, in item order. */
  function Emitted<T>(items: seq<T>, step: T -> Step): seq<Contest> {
    if items == [] then []
    else
      var last := step(items[|items| - 1]);
      Emitted(items[..|items| - 1], step) + (if last.Emit? then [last.contest] else [])
  }

  /** The positions of the items that emit a record, in increasing order. */
  function EmitIndices<T>(items: seq<T>, step: T -> Step): seq<int> {
    if items == [] then []
    else
      EmitIndices(items[..|items| - 1], step)
      + (if step(items[|items| - 1]).Emit? then [|items| - 1] else [])
  }

  /** The adapter's result for a list of items: it raises when some item
      raises, and otherwise returns the emitted records. */
  function Collect<T>(items: seq<T>, step: T -> Step): Outcome {
    if exists i :: 0 <= i < |items| && step(items[i]).Raise? then Raised
    else Returned(Emitted(items, step))
  }

  /** `contests = []; for data in items: ... continue ... contests.append(...)`. */
  method CollectItems<T>(items: seq<T>, step: T -> Step) returns (out: Outcome)
    ensures out == Collect(items, step)
  {
    var contests: seq<Contest> := [];
    var i := 0;
    while i < |items|
      invariant 0 <= i <= |items|
      invariant contests == Emitted(items[..i], step)
      invariant forall k :: 0 <= k < i ==> !step(items[k]).Raise?
    {
      var s := step(items[i]);
      if s.Raise? {
        return Raised;
      }
      assert items[..i + 1][..i] == items[..i];
      i := i + 1;
      if s.Skip? {
        continue;
      }
      contests := contests + [s.contest];
    }
    assert items[..i] == items;
    return Returned(contests);
  }

  /** The records form an order-preserving subsequence of the items: the
      k-th record comes from the k-th emitting item, and an item emits
      exactly when its position is listed. */
  lemma {:induction false} EmittedInOrder<T>(items: seq<T>, step: T -> Step)
    ensures var idx, out := EmitIndices(items, step), Emitted(items, step);
      |idx| == |out|
      && (forall k :: 0 <= k < |idx| ==> 0 <= idx[k] < |items| && step(items[idx[k]]) == Emit(out[k]))
      && (forall k, l :: 0 <= k < l < |idx| ==> idx[k] < idx[l])
      && (forall i :: 0 <= i < |items| ==> (step(items[i]).Emit? <==> i in idx))
  {
    if items != [] {
      var n := |items| - 1;
      var front := items[..n];
      EmittedInOrder(front, step);
      assert forall i :: 0 <= i < n ==> front[i] == items[i];
    }
  }

  /** Processing two lists one after the other gives both outputs in order. */
  lemma {:induction false} EmittedAppend<T>(a: seq<T>, b: seq<T>, step: T -> Step)
    ensures Emitted(a + b, step) == Emitted(a, step) + Emitted(b, step)
  {
    if b == [] {
      assert a + b == a;
    } else {
      var n := |b| - 1;
      assert (a + b)[..|a + b| - 1] == a + b[..n];
      assert (a + b)[|a + b| - 1] == b[n];
      EmittedAppend(a, b[..n], step);
    }
  }

  /** A skipped item drops only its own record; its neighbours come out as
      they would have without it. */
  lemma {:induction false} SkippedItemIsolated<T>(a: seq<T>, x: T, b: seq<T>, step: T -> Step)
    requires step(x).Skip?
    ensures Emitted(a + [x] + b, step) == Emitted(a, step) + Emitted(b, step)
  {
    EmittedAppend(a + [x], b, step);
    EmittedAppend(a, [x], step);
    assert [x][..0] == [];
    assert Emitted([x], step) == Emitted([], step) + [];
    assert Emitted(a, step) + [] == Emitted(a, step);
  }

  /** A property every emitted record has holds of the whole output. */
  lemma {:induction false} EmittedSatisfy<T>(items: seq<T>, step: T -> Step, p: Contest -> bool)
    requires forall x :: step(x).Emit? ==> p(step(x).contest)
    ensures forall c :: c in Emitted(items, step) ==> p(c)
  {
    if items != [] {
      EmittedSatisfy(items[..|items| - 1], step, p);
    }
  }

  /** With no item able to raise, the adapter always returns its records. */
  lemma CollectReturns<T>(items: seq<T>, step: T -> Step)
    requires forall x :: !step(x).Raise?
    ensures Collect(items, step) == Returned(Emitted(items, step))
  {
  }
}
