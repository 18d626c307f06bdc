/** Histories of operations on a collection of error_or objects. Each step
    changes the states exactly as the corresponding member of ErrorOr.ErrorOr
    promises in its postcondition; running any history keeps the invariant of
    every live container. */
module ErrorOrHistory {
  import opened ErrorOrState

  /** Containers by index; None marks one that was destroyed. */
  type Pool<T> = seq<Option<State<T>>>

  /** One operation of the public interface, on containers named by index.
      The Make* operations append the newly built container. */
  datatype Op<T> =
    | MakeFromError(code: int)
    | MakeFromValue(v: T)
    | MakeCopy(src: nat)
    | MakeMove(src: nat)
    | CopyAssign(dst: nat, src: nat)
    | MoveAssign(dst: nat, src: nat)
    | Swap(a: nat, b: nat)
    | Take(i: nat)
    | Destroy(i: nat)

  predicate Alive<T>(pool: Pool<T>, i: nat)
  {
    i < |pool| && pool[i].Some?
  }

  ghost predicate AllValid<T>(pool: Pool<T>)
  {
    forall i :: 0 <= i < |pool| && pool[i].Some? ==> Valid(pool[i].value)
  }

  /** One operation. None when the operation is outside its contract: a zero
      error code, or a container that does not exist or was destroyed. */
  function Step<T>(pool: Pool<T>, op: Op<T>): (r: Option<Pool<T>>)
    requires AllValid(pool)
    ensures r.Some? ==> AllValid(r.value)
    ensures r.Some? ==> |r.value| >= |pool|
  {
    match op
    case MakeFromError(code) =>
      if code == NoError then None else Some(pool + [Some(ErrorState(code))])
    case MakeFromValue(v) =>
      Some(pool + [Some(ValueState(v))])
    case MakeCopy(src) =>
      if !Alive(pool, src) then None else Some(pool + [pool[src]])
    case MakeMove(src) =>
      if !Alive(pool, src) then None
      else
        var s := pool[src].value;
        Some(pool[src := Some(MovedOut(s))] + [Some(s)])
    case CopyAssign(dst, src) =>
      if !Alive(pool, dst) || !Alive(pool, src) then None
      else Some(pool[dst := pool[src]])
    case MoveAssign(dst, src) =>
      if !Alive(pool, dst) || !Alive(pool, src) then None
      else
        var s := pool[src].value;
        Some(pool[src := Some(MovedOut(s))][dst := Some(s)])
    case Swap(a, b) =>
      if !Alive(pool, a) || !Alive(pool, b) then None
      else Some(pool[a := pool[b]][b := pool[a]])
    case Take(i) =>
      if !Alive(pool, i) then None else Some(pool[i := Some(MovedOut(pool[i].value))])
    case Destroy(i) =>
      if !Alive(pool, i) then None else Some(pool[i := None])
  }

  /** A whole history, operation after operation. The invariant holds of
      every container after every prefix of it. */
  function Run<T>(pool: Pool<T>, ops: seq<Op<T>>): (r: Option<Pool<T>>)
    requires AllValid(pool)
    ensures r.Some? ==> AllValid(r.value)
    ensures r.Some? ==> |r.value| >= |pool|
    decreases |ops|
  {
    if ops == [] then Some(pool)
    else
      match Step(pool, ops[0])
      case None => None
      case Some(next) => Run(next, ops[1..])
  }

  /** Running two histories one after the other is running their concatenation. */
  lemma {:induction false} RunAppend<T>(pool: Pool<T>, first: seq<Op<T>>, second: seq<Op<T>>)
    requires AllValid(pool)
    ensures Run(pool, first + second) ==
              match Run(pool, first)
              case None => None
              case Some(mid) => Run(mid, second)
    decreases |first|
  {
    if first == [] {
      assert first + second == second;
    } else {
      assert (first + second)[0] == first[0];
      assert (first + second)[1..] == first[1..] + second;
      match Step(pool, first[0])
      case None =>
      case Some(next) =>
        RunAppend(next, first[1..], second);
    }
  }

  /** A history made only of swaps between live containers. */
  ghost predicate SwapsAmongLive<T>(pool: Pool<T>, ops: seq<Op<T>>)
  {
    forall k :: 0 <= k < |ops| ==> ops[k].Swap? && Alive(pool, ops[k].a) && Alive(pool, ops[k].b)
  }

  function Reversed<T>(ops: seq<Op<T>>): (r: seq<Op<T>>)
    ensures |r| == |ops|
    ensures forall k :: 0 <= k < |ops| ==> r[k] == ops[|ops| - 1 - k]
  {
    if ops == [] then [] else Reversed(ops[1..]) + [ops[0]]
  }

  /** Swap is its own inverse: any sequence of swaps followed by the same
      swaps in reverse order gives every container back its state. */
  lemma {:induction false} SwapsThenReversedRestore<T>(pool: Pool<T>, ops: seq<Op<T>>)
    requires AllValid(pool)
    requires SwapsAmongLive(pool, ops)
    ensures Run(pool, ops + Reversed(ops)) == Some(pool)
    decreases |ops|
  {
    if ops == [] {
      assert ops + Reversed(ops) == [];
    } else {
      var o, rest := ops[0], ops[1..];
      var middle := rest + Reversed(rest);
      assert ops + Reversed(ops) == [o] + (middle + [o]);
      var next := Step(pool, o).value;
      assert next == pool[o.a := pool[o.b]][o.b := pool[o.a]];
      assert forall i :: 0 <= i < |pool| ==> (next[i].Some? <==> pool[i].Some?);
      assert SwapsAmongLive(next, rest) by {
        forall k | 0 <= k < |rest|
          ensures rest[k].Swap? && Alive(next, rest[k].a) && Alive(next, rest[k].b)
        {
          assert rest[k] == ops[k + 1];
        }
      }
      calc {
        Run(pool, [o] + (middle + [o]));
        { assert ([o] + (middle + [o]))[1..] == middle + [o]; }
        Run(next, middle + [o]);
        { RunAppend(next, middle, [o]); SwapsThenReversedRestore(next, rest); }
        Run(next, [o]);
        { var back := next[o.a := next[o.b]][o.b := next[o.a]];
          assert forall i :: 0 <= i < |pool| ==> back[i] == pool[i];
          assert back == pool; }
        Some(pool);
      }
    }
  }
}
