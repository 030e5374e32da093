/** The reactor's unit of work: a callable run once on the loop thread, whose
    returned value or thrown exception is recorded in a result slot (a
    completable future) that the submitting thread can wait on. */
module NioReactorOp {
  import opened Common

  /** The result slot: still pending, or completed with exactly one of a value
      or an exception. */
  datatype FutureState<T> = Pending | Completed(value: T) | CompletedExceptionally(error: Throwable)

  /** A future has an identity (the object) and a state. */
  datatype CompletableFuture<T> = CompletableFuture(id: nat, state: FutureState<T>)

  /** `complete(v)` / `completeExceptionally(e)`: only the first completion of a
      future takes effect; later ones leave it as it is. */
  function Settle<T>(f: CompletableFuture<T>, o: Result<T>): (r: CompletableFuture<T>)
    ensures r.id == f.id
    ensures !r.state.Pending?
    ensures !f.state.Pending? ==> r == f
    ensures f.state.Pending? && o.Ok? ==> r.state == Completed(o.value)
    ensures f.state.Pending? && o.Err? ==> r.state == CompletedExceptionally(o.error)
  {
    if !f.state.Pending? then f
    else
      match o
      case Ok(v) => f.(state := Completed(v))
      case Err(e) => f.(state := CompletedExceptionally(e))
  }

  /** The future after a series of completion attempts, in order. */
  function SettleAll<T>(f: CompletableFuture<T>, attempts: seq<Result<T>>): CompletableFuture<T>
    decreases |attempts|
  {
    if attempts == [] then f else SettleAll(Settle(f, attempts[0]), attempts[1..])
  }

  /** A completed future ignores every later completion attempt. */
  lemma {:induction false} CompletedFutureIsStable<T>(f: CompletableFuture<T>, attempts: seq<Result<T>>)
    requires !f.state.Pending?
    ensures SettleAll(f, attempts) == f
    decreases |attempts|
  {
    if attempts != [] {
      CompletedFutureIsStable(Settle(f, attempts[0]), attempts[1..]);
    }
  }

  /** Whatever completion attempts are made on a pending future, it ends up
      holding exactly the first one. */
  lemma {:induction false} FirstCompletionWins<T>(f: CompletableFuture<T>, attempts: seq<Result<T>>)
    requires f.state.Pending? && |attempts| > 0
    ensures SettleAll(f, attempts) == Settle(f, attempts[0])
    ensures attempts[0].Ok? ==> SettleAll(f, attempts).state == Completed(attempts[0].value)
    ensures attempts[0].Err? ==> SettleAll(f, attempts).state == CompletedExceptionally(attempts[0].error)
  {
    CompletedFutureIsStable(Settle(f, attempts[0]), attempts[1..]);
  }

  /** An operation: the callable to run and the future its outcome goes to.
      The callable either returns a value (`Ok`) or throws (`Err`). */
  datatype Op<T> = Op(callable: () -> Result<T>, future: CompletableFuture<T>)

  /** The constructor: a fresh future, pending, for the given callable. */
  function New<T>(callable: () -> Result<T>, futureId: nat): (op: Op<T>)
    ensures op.callable == callable
    ensures op.future.state.Pending?
    ensures op.future.id == futureId
  {
    Op(callable, CompletableFuture(futureId, Pending))
  }

  /** `run()`: calls the callable and completes the future with what it
      returned or threw. It has no exception channel of its own: whatever the
      callable throws ends up in the future. */
  function Run<T>(op: Op<T>): (r: Op<T>)
    ensures r.callable == op.callable
    ensures r.future.id == op.future.id
    ensures r.future.state.Completed? != r.future.state.CompletedExceptionally?
    ensures op.future.state.Pending? && op.callable().Ok? ==>
      r.future.state == Completed(op.callable().value)
    ensures op.future.state.Pending? && op.callable().Err? ==>
      r.future.state == CompletedExceptionally(op.callable().error)
    ensures !op.future.state.Pending? ==> r.future == op.future
  {
    op.(future := Settle(op.future, op.callable()))
  }

  /** `getFuture()`: the op's own future, the one that `run` completes. */
  function GetFuture<T>(op: Op<T>): (f: CompletableFuture<T>)
    ensures f == op.future
    ensures f.id == Run(op).future.id
    ensures !f.state.Pending? ==> f == Run(op).future
  {
    op.future
  }

  /** A newly constructed operation, once run, holds in its future exactly what
      the callable it was constructed with returned or threw. */
  lemma RunFreshOp<T>(callable: () -> Result<T>, futureId: nat)
    ensures GetFuture(Run(New(callable, futureId))).id == futureId
    ensures callable().Ok? ==>
      GetFuture(Run(New(callable, futureId))).state == Completed(callable().value)
    ensures callable().Err? ==>
      GetFuture(Run(New(callable, futureId))).state == CompletedExceptionally(callable().error)
  {
  }

  /** The future handed out is the same object before and after running, and
      running again changes nothing in it. */
  lemma GetFutureIsStable<T>(op: Op<T>)
    ensures GetFuture(Run(op)).id == GetFuture(op).id
    ensures GetFuture(Run(Run(op))) == GetFuture(Run(op))
  {
  }
}
