/** The lifecycle of a UDP crusher: closed (no inner socket controller) or open
    (holding one inner), with open, close, crush, freeze and unfreeze as
    transitions and isOpen, isFrozen, getOuters and getInner as queries.
    Every public call is one atomic transition; locking is not modelled. */
module DatagramCrusher {
  import opened Common

  const AlreadyActive := "DatagramCrusher is already active"
  const NotOpen := "Crusher is not open"

  datatype ProtocolFamily = INET | INET6

  /** Options handed to both sockets; passed through untouched. */
  datatype SocketOptions = SocketOptions(broadcast: bool, protocolFamily: Option<ProtocolFamily>)

  const DefaultSocketOptions := SocketOptions(false, None)

  /** What a crusher is constructed with; it never changes afterwards. */
  datatype Config = Config(
    reactor: NioReactor,
    bindAddress: InetSocketAddress,
    connectAddress: InetSocketAddress,
    socketOptions: SocketOptions,
    maxIdleDurationMs: Long)

  /** A per-peer session, known here only by the client it serves. */
  datatype DatagramOuter = DatagramOuter(clientAddress: InetSocketAddress)

  /** The bound socket controller. Only what the crusher observes of it is kept:
      an identity, the configuration it was created with, the frozen flag,
      whether it has been closed, and its current sessions. */
  datatype DatagramInner = DatagramInner(
    id: nat,
    config: Config,
    frozen: bool,
    closed: bool,
    outers: seq<DatagramOuter>)

  /** A newly created inner: not yet reading (frozen), not closed, no sessions. */
  function NewInner(id: nat, config: Config): DatagramInner {
    DatagramInner(id, config, true, false, [])
  }

  /** The crusher's state. `inner` and `open` are the two mutable fields of the
      class; `nextInnerId` stands for object allocation, and `retired` records,
      oldest first, every inner this crusher has closed. */
  datatype Crusher = Crusher(
    config: Config,
    inner: Option<DatagramInner>,
    open: bool,
    nextInnerId: nat,
    retired: seq<DatagramInner>)

  /** Whether creating the inner binds its socket or fails with an I/O error. */
  datatype BindOutcome = Bound | BindFailed(reason: string)

  /** The state after a call, and the exception the call threw, if any. */
  datatype Transition = Transition(next: Crusher, thrown: Option<Throwable>)

  /** The class invariant: the crusher holds an inner exactly when it is open;
      that inner is live, was created with this crusher's configuration and is
      newer than every inner closed before it; retired inners are closed and
      were created in order. */
  predicate Valid(c: Crusher) {
    && (c.open <==> c.inner.Some?)
    && (forall k :: 0 <= k < |c.retired| ==>
          c.retired[k].closed && c.retired[k].config == c.config && c.retired[k].id < c.nextInnerId)
    && (forall k, l :: 0 <= k < l < |c.retired| ==> c.retired[k].id < c.retired[l].id)
    && (c.inner.Some? ==> LiveInner(c, c.inner.value))
  }

  predicate LiveInner(c: Crusher, i: DatagramInner) {
    && !i.closed
    && i.config == c.config
    && i.id < c.nextInnerId
    && forall k :: 0 <= k < |c.retired| ==> c.retired[k].id < i.id
  }

  /** The identities of every inner this crusher has created and still remembers. */
  function Issued(c: Crusher): set<nat> {
    (set k | 0 <= k < |c.retired| :: c.retired[k].id)
    + (if c.inner.Some? then {c.inner.value.id} else {})
  }

  /** The public constructor: a closed crusher holding its configuration. */
  function New(
    reactor: NioReactor,
    bindAddress: InetSocketAddress,
    connectAddress: InetSocketAddress,
    socketOptions: SocketOptions,
    maxIdleDurationMs: Long): (c: Crusher)
    ensures Valid(c)
    ensures !IsOpen(c) && IsFrozen(c)
    ensures Issued(c) == {}
    ensures c.config.reactor == reactor && c.config.bindAddress == bindAddress
    ensures c.config.connectAddress == connectAddress && c.config.socketOptions == socketOptions
    ensures c.config.maxIdleDurationMs == maxIdleDurationMs
  {
    Crusher(Config(reactor, bindAddress, connectAddress, socketOptions, maxIdleDurationMs), None, false, 0, [])
  }

  /** `isOpen()`: in a valid state, open exactly when an inner is held. */
  function IsOpen(c: Crusher): (r: bool)
    ensures Valid(c) ==> (r <==> c.inner.Some?)
  {
    c.open
  }

  /** A closed crusher reports frozen; an open one reports its inner's flag. */
  function IsFrozen(c: Crusher): (r: bool)
    requires Valid(c)
    ensures r <==> c.inner.None? || c.inner.value.frozen
  {
    !c.open || c.inner.value.frozen
  }

  function Open(c: Crusher, bind: BindOutcome): (t: Transition)
    requires Valid(c)
    ensures Valid(t.next)
    ensures c.open ==> t == Transition(c, Some(IllegalStateException(AlreadyActive)))
    ensures !c.open && bind.BindFailed? ==> t == Transition(c, Some(IOException(bind.reason)))
    ensures !c.open && bind.Bound? ==>
      && t.thrown.None?
      && IsOpen(t.next) && !IsFrozen(t.next)
      && t.next.inner.value.id !in Issued(c)
      && t.next.inner.value.config == c.config
      && t.next.inner.value.outers == []
      && t.next.config == c.config && t.next.retired == c.retired
  {
    if c.open then
      Transition(c, Some(IllegalStateException(AlreadyActive)))
    else
      match bind
      case BindFailed(reason) => Transition(c, Some(IOException(reason)))
      case Bound =>
        var inner := NewInner(c.nextInnerId, c.config).(frozen := false);
        Transition(c.(inner := Some(inner), open := true, nextInnerId := c.nextInnerId + 1), None)
  }

  function Close(c: Crusher): (t: Transition)
    requires Valid(c)
    ensures Valid(t.next) && t.thrown.None?
    ensures !c.open ==> t.next == c
    ensures c.open ==>
      && !IsOpen(t.next) && t.next.inner.None?
      && t.next.config == c.config && t.next.nextInnerId == c.nextInnerId
      && |t.next.retired| == |c.retired| + 1
      && t.next.retired[..|c.retired|] == c.retired
      && t.next.retired[|c.retired|] == c.inner.value.(closed := true)
  {
    if c.open then
      var closed := c.inner.value.(closed := true);
      Transition(c.(inner := None, open := false, retired := c.retired + [closed]), None)
    else
      Transition(c, None)
  }

  /** Close followed by open: the old inner is closed and a new one takes its
      place. If the new inner cannot bind, the crusher is left closed. */
  function Crush(c: Crusher, bind: BindOutcome): (t: Transition)
    requires Valid(c)
    ensures Valid(t.next)
    ensures !c.open ==> t == Transition(c, Some(IllegalStateException(NotOpen)))
    ensures c.open ==>
      && t.next.config == c.config
      && |t.next.retired| == |c.retired| + 1
      && t.next.retired[..|c.retired|] == c.retired
      && t.next.retired[|c.retired|] == c.inner.value.(closed := true)
    ensures c.open && bind.Bound? ==>
      && t.thrown.None?
      && IsOpen(t.next) && !IsFrozen(t.next)
      && t.next.inner.value.id !in Issued(c)
      && t.next.inner.value.outers == []
    ensures c.open && bind.BindFailed? ==>
      t.thrown == Some(IOException(bind.reason)) && !IsOpen(t.next)
  {
    if c.open then
      Open(Close(c).next, bind)
    else
      Transition(c, Some(IllegalStateException(NotOpen)))
  }

  /** A closed crusher ignores freeze; an open one freezes its inner. */
  function Freeze(c: Crusher): (t: Transition)
    requires Valid(c)
    ensures Valid(t.next) && t.thrown.None?
    ensures IsFrozen(t.next)
    ensures !c.open ==> t.next == c
    ensures DiffersOnlyInFrozen(c, t.next)
  {
    if c.open then
      Transition(c.(inner := Some(c.inner.value.(frozen := true))), None)
    else
      Transition(c, None)
  }

  /** A closed crusher rejects unfreeze; an open one unfreezes its inner. */
  function Unfreeze(c: Crusher): (t: Transition)
    requires Valid(c)
    ensures Valid(t.next)
    ensures !c.open ==> t == Transition(c, Some(IllegalStateException(NotOpen)))
    ensures c.open ==> t.thrown.None? && !IsFrozen(t.next)
    ensures DiffersOnlyInFrozen(c, t.next)
  {
    if c.open then
      Transition(c.(inner := Some(c.inner.value.(frozen := false))), None)
    else
      Transition(c, Some(IllegalStateException(NotOpen)))
  }

  /** The two states agree on everything but the frozen flag of the inner. */
  predicate DiffersOnlyInFrozen(a: Crusher, b: Crusher) {
    && a.config == b.config && a.open == b.open
    && a.nextInnerId == b.nextInnerId && a.retired == b.retired
    && a.inner.Some? == b.inner.Some?
    && (a.inner.Some? ==> a.inner.value.(frozen := b.inner.value.frozen) == b.inner.value)
  }

  function GetOuters(c: Crusher): (r: Result<seq<DatagramOuter>>)
    requires Valid(c)
    ensures r.Ok? <==> IsOpen(c)
    ensures r.Ok? ==> r.value == c.inner.value.outers
    ensures r.Err? ==> r.error == IllegalStateException(NotOpen)
  {
    if c.open then Ok(c.inner.value.outers) else Err(IllegalStateException(NotOpen))
  }

  function GetInner(c: Crusher): (r: Result<DatagramInner>)
    requires Valid(c)
    ensures r.Ok? <==> IsOpen(c)
    ensures r.Ok? ==> Some(r.value) == c.inner && LiveInner(c, r.value)
    ensures r.Err? ==> r.error == IllegalStateException(NotOpen)
  {
    if c.open then Ok(c.inner.value) else Err(IllegalStateException(NotOpen))
  }

  // ---------------------------------------------------------------------------
  // Properties of the lifecycle

  /** A closed crusher always reports frozen; an open one reports frozen
      exactly when its inner is frozen. */
  lemma FrozenReflectsInner(c: Crusher)
    requires Valid(c)
    ensures !IsOpen(c) ==> IsFrozen(c)
    ensures IsOpen(c) ==> (IsFrozen(c) <==> GetInner(c).value.frozen)
  {
  }

  /** Closing twice is the same as closing once, and never throws. */
  lemma CloseIdempotent(c: Crusher)
    requires Valid(c)
    ensures Close(Close(c).next) == Transition(Close(c).next, None)
  {
  }

  /** Freezing an open, running crusher and unfreezing it again restores the
      exact state it started from. */
  lemma FreezeUnfreezeRestores(c: Crusher)
    requires Valid(c) && IsOpen(c) && !IsFrozen(c)
    ensures Unfreeze(Freeze(c).next) == Transition(c, None)
  {
  }

  /** A successful crush swaps the inner reported by getInner for a different,
      running one, and the one it replaces ends up closed. */
  lemma CrushReplacesInner(c: Crusher, before: DatagramInner)
    requires Valid(c) && GetInner(c) == Ok(before)
    ensures GetInner(Crush(c, Bound).next).Ok?
    ensures GetInner(Crush(c, Bound).next).value.id != before.id
    ensures !GetInner(Crush(c, Bound).next).value.frozen
    ensures before.(closed := true) in Crush(c, Bound).next.retired
  {
  }

  /** Every inner the crusher ever created has its own identity: no two
      retired inners share one, and the live inner is none of them. */
  lemma InnersAreDistinct(c: Crusher)
    requires Valid(c)
    ensures forall k, l :: 0 <= k < |c.retired| && 0 <= l < |c.retired| && k != l ==>
      c.retired[k].id != c.retired[l].id
    ensures c.inner.Some? ==> forall k :: 0 <= k < |c.retired| ==> c.retired[k].id != c.inner.value.id
  {
    forall k, l | 0 <= k < |c.retired| && 0 <= l < |c.retired| && k != l
      ensures c.retired[k].id != c.retired[l].id
    {
      if k < l {
        assert c.retired[k].id < c.retired[l].id;
      } else {
        assert c.retired[l].id < c.retired[k].id;
      }
    }
  }

  /** The lifecycle calls, with the bind outcome for those that create an inner. */
  datatype Call =
    | OpenCall(bind: BindOutcome)
    | CloseCall
    | CrushCall(bind: BindOutcome)
    | FreezeCall
    | UnfreezeCall

  function Apply(c: Crusher, call: Call): (t: Transition)
    requires Valid(c)
    ensures Valid(t.next)
    ensures t.next.config == c.config
    ensures c.retired <= t.next.retired
    ensures c.nextInnerId <= t.next.nextInnerId
  {
    match call
    case OpenCall(bind) => Open(c, bind)
    case CloseCall => Close(c)
    case CrushCall(bind) => Crush(c, bind)
    case FreezeCall => Freeze(c)
    case UnfreezeCall => Unfreeze(c)
  }

  /** The state after a sequence of calls, each exception caught by the caller.
      Whatever the calls, the invariant holds, the configuration is untouched,
      and the log of closed inners only grows. */
  function RunCalls(c: Crusher, calls: seq<Call>): (r: Crusher)
    requires Valid(c)
    ensures Valid(r)
    ensures r.config == c.config
    ensures c.retired <= r.retired
    ensures c.nextInnerId <= r.nextInnerId
    decreases |calls|
  {
    if calls == [] then c else RunCalls(Apply(c, calls[0]).next, calls[1..])
  }

  /** An inner, once closed, is never handed out again: after any sequence of
      calls, the live inner differs from every inner that was closed before. */
  lemma ClosedInnerNeverReturns(c: Crusher, calls: seq<Call>, k: nat)
    requires Valid(c) && k < |c.retired|
    ensures RunCalls(c, calls).inner.Some? ==> RunCalls(c, calls).inner.value.id != c.retired[k].id
  {
    InnersAreDistinct(RunCalls(c, calls));
  }

  /** isOpen and isFrozen through open, freeze, unfreeze, crush and close. */
  lemma LifecycleScenario(reactor: NioReactor, bind: InetSocketAddress, connect: InetSocketAddress)
    ensures var c0 := New(reactor, bind, connect, DefaultSocketOptions, 0);
      && !IsOpen(c0) && IsFrozen(c0)
      && var c1 := Open(c0, Bound).next;
      && IsOpen(c1) && !IsFrozen(c1)
      && var c2 := Freeze(c1).next;
      && IsOpen(c2) && IsFrozen(c2)
      && var c3 := Unfreeze(c2).next;
      && IsOpen(c3) && !IsFrozen(c3)
      && var c4 := Crush(c3, Bound).next;
      && IsOpen(c4) && !IsFrozen(c4) && c4.inner.value.id != c3.inner.value.id
      && var c5 := Close(c4).next;
      && !IsOpen(c5) && IsFrozen(c5) && |c5.retired| == 2
  {
  }
}
