# netcrusher: UDP crusher lifecycle, its builder, and the reactor operation

A Dafny model of three pieces of control logic from netcrusher, a TCP/UDP
proxy for injecting network failures into tests:

- **DatagramCrusher**: the UDP proxy's lifecycle. A crusher is closed (it
  holds no inner socket controller) or open (it holds one `DatagramInner`).
  `open`, `close`, `crush`, `freeze` and `unfreeze` are transitions;
  `isOpen`, `isFrozen`, `getOuters` and `getInner` are queries. Each call is one
  atomic transition returning the next state and the exception it threw, if
  any. The class invariant `Valid` (open exactly when an inner is held, the
  held inner live and newer than every inner closed before it) is proved to be
  kept by every call and by every sequence of calls.
- **DatagramCrusherBuilder**: a record of optional settings with
  last-write-wins setters; `build` checks bind address, connect address and
  reactor in that order and yields the first error or a closed crusher;
  `buildAndOpen` is `build` followed by `open`.
- **NioReactorOp**: the reactor's one-shot unit of work. `run` calls the
  callable and completes the operation's future with the returned value or the
  thrown exception; nothing escapes `run`. The future records only its first
  completion.

Files: `common.dfy` (nullable references, Java exceptions, Java `int`/`long`
ranges, socket addresses), `datagram_crusher.dfy`,
`datagram_crusher_builder.dfy`, `nio_reactor_op.dfy`.

Modelling choices:

- `DatagramInner` is not part of this model. It is an opaque record with an
  identity, the configuration it was created with, a frozen flag (set by
  `freeze`, cleared by `unfreeze`), a closed flag (set by `closeExternal`) and
  its list of sessions. A newly created inner is taken to be frozen, not
  closed, with no sessions; `open` unfreezes it at once.
- Object identity is a number drawn from a counter in the crusher
  (`nextInnerId`). The crusher also keeps a log (`retired`) of the inners it
  has closed, so that closing is visible in the state.
- Creating the inner binds a socket and may throw `IOException`; this is the
  `BindOutcome` parameter of `Open`, `Crush` and `BuildAndOpen`. A crush whose
  rebind fails leaves the crusher closed, because `close()` has already run.
- The callable of a reactor operation is an abstract function returning
  `Ok(v)` (it returned `v`) or `Err(e)` (it threw `e`).
- `CompletableFuture.complete`/`completeExceptionally` take effect only on a
  pending future; `Settle` models both.

Where the source disagrees with itself: `DatagramCrusherBuilder.java:143`
passes `(bindAddress, connectAddress, options, reactor, idle)` while the
constructor at `DatagramCrusher.java:56-61` takes
`(reactor, bindAddress, connectAddress, options, idle)`. Those argument types do
not line up, so the call as written would not compile. The model follows the
evident intent and maps each setting to the constructor parameter of the same
name (`Build` ensures `Carries`).

## Model

| member | source | states |
|---|---|---|
| DatagramCrusher.New | core/src/main/java/org/netcrusher/datagram/DatagramCrusher.java:56-70 | a new crusher is closed and reports frozen, holds no inner, and stores each constructor argument in its configuration |
| DatagramCrusher.IsOpen | core/src/main/java/org/netcrusher/datagram/DatagramCrusher.java:109-112 | in a valid state the crusher reports open exactly when it holds an inner |
| DatagramCrusher.IsFrozen | core/src/main/java/org/netcrusher/datagram/DatagramCrusher.java:132-135 | reports frozen exactly when no inner is held or the held inner is frozen |
| DatagramCrusher.Open | core/src/main/java/org/netcrusher/datagram/DatagramCrusher.java:72-85 | on an open crusher throws IllegalStateException "DatagramCrusher is already active" and changes nothing; if binding fails throws IOException and changes nothing; otherwise the crusher is open, not frozen, and holds a never-before-issued inner with the crusher's configuration and no sessions; the invariant is kept |
| DatagramCrusher.Close | core/src/main/java/org/netcrusher/datagram/DatagramCrusher.java:87-97 | never throws; on a closed crusher does nothing; on an open one closes the inner (appended to the retired log), drops it and marks the crusher closed |
| DatagramCrusher.CloseIdempotent | core/src/main/java/org/netcrusher/datagram/DatagramCrusher.java:87-97 | closing a second time changes nothing and throws nothing |
| DatagramCrusher.Crush | core/src/main/java/org/netcrusher/datagram/DatagramCrusher.java:99-107 | on a closed crusher throws IllegalStateException "Crusher is not open" and changes nothing; on an open one closes the old inner and, if rebinding succeeds, ends open and unfrozen (frozen or not before) with a fresh inner; if rebinding fails, ends closed with the IOException |
| DatagramCrusher.CrushReplacesInner | core/src/main/java/org/netcrusher/datagram/DatagramCrusher.java:99-107 | after a successful crush getInner returns an unfrozen inner with a different identity, and the previous inner is among the closed ones |
| DatagramCrusher.Freeze | core/src/main/java/org/netcrusher/datagram/DatagramCrusher.java:114-121 | never throws; on a closed crusher does nothing; afterwards the crusher reports frozen; only the inner's frozen flag may change |
| DatagramCrusher.Unfreeze | core/src/main/java/org/netcrusher/datagram/DatagramCrusher.java:123-130 | on a closed crusher throws IllegalStateException "Crusher is not open" and changes nothing; on an open one the crusher reports not frozen and only the inner's frozen flag changed |
| DatagramCrusher.FreezeUnfreezeRestores | core/src/main/java/org/netcrusher/datagram/DatagramCrusher.java:114-130 | freeze then unfreeze on a running open crusher restores exactly the original state without an exception |
| DatagramCrusher.FrozenReflectsInner | core/src/main/java/org/netcrusher/datagram/DatagramCrusher.java:132-135 | a closed crusher reports frozen; an open one reports frozen exactly when its inner is frozen |
| DatagramCrusher.GetOuters | core/src/main/java/org/netcrusher/datagram/DatagramCrusher.java:156-162 | succeeds exactly when open, returning the inner's sessions; otherwise IllegalStateException "Crusher is not open" |
| DatagramCrusher.GetInner | core/src/main/java/org/netcrusher/datagram/DatagramCrusher.java:168-174 | succeeds exactly when open, returning the held inner, which is live; otherwise IllegalStateException "Crusher is not open" |
| DatagramCrusher.InnersAreDistinct | core/src/main/java/org/netcrusher/datagram/DatagramCrusher.java:78-79 | every inner the crusher created has its own identity: closed inners are pairwise distinct and distinct from the held one |
| DatagramCrusher.Apply | core/src/main/java/org/netcrusher/datagram/DatagramCrusher.java:72-130 | any single lifecycle call keeps the invariant and the configuration and only extends the log of closed inners |
| DatagramCrusher.RunCalls | core/src/main/java/org/netcrusher/datagram/DatagramCrusher.java:72-130 | any sequence of lifecycle calls keeps the invariant and the configuration and only extends the log of closed inners |
| DatagramCrusher.ClosedInnerNeverReturns | core/src/main/java/org/netcrusher/datagram/DatagramCrusher.java:87-107 | after any sequence of calls the held inner is none of the inners closed earlier |
| DatagramCrusher.LifecycleScenario | core/src/main/java/org/netcrusher/datagram/DatagramCrusher.java:72-135 | isOpen and isFrozen through construct, open, freeze, unfreeze, crush (new inner) and close |
| DatagramCrusherBuilder.NewBuilder | core/src/main/java/org/netcrusher/datagram/DatagramCrusherBuilder.java:24-36 | a new builder has no addresses or reactor, default socket options, and maximum idle duration 0 |
| DatagramCrusherBuilder.WithBindAddress | core/src/main/java/org/netcrusher/datagram/DatagramCrusherBuilder.java:43-46 | stores the bind address and changes no other field |
| DatagramCrusherBuilder.MakeAddress | core/src/main/java/org/netcrusher/datagram/DatagramCrusherBuilder.java:54-57 | the socket address the `(hostname, port)` overloads construct: succeeds exactly for a port in 0..65535, keeping hostname and port; otherwise IllegalArgumentException "port out of range:" followed by the port in decimal |
| Common.DecimalString | core/src/main/java/org/netcrusher/datagram/DatagramCrusherBuilder.java:75-78 | the decimal text of the port in the out-of-range message: a minus sign exactly for a negative value, then the canonical numeral (digits, no leading zero) whose value is the magnitude |
| Common.NatString | core/src/main/java/org/netcrusher/datagram/DatagramCrusherBuilder.java:54-57 | the decimal numeral of a natural number: only digits, no leading zero, and its value is the number |
| DatagramCrusherBuilder.WithBindHostPort | core/src/main/java/org/netcrusher/datagram/DatagramCrusherBuilder.java:54-57 | succeeds exactly for a port in 0..65535, then equals setting that address; otherwise IllegalArgumentException |
| DatagramCrusherBuilder.WithConnectAddress | core/src/main/java/org/netcrusher/datagram/DatagramCrusherBuilder.java:64-67 | stores the connect address and changes no other field |
| DatagramCrusherBuilder.WithConnectHostPort | core/src/main/java/org/netcrusher/datagram/DatagramCrusherBuilder.java:75-78 | succeeds exactly for a port in 0..65535, then equals setting that address; otherwise IllegalArgumentException |
| DatagramCrusherBuilder.WithReactor | core/src/main/java/org/netcrusher/datagram/DatagramCrusherBuilder.java:85-88 | stores the reactor and changes no other field |
| DatagramCrusherBuilder.WithBroadcast | core/src/main/java/org/netcrusher/datagram/DatagramCrusherBuilder.java:98-101 | sets the broadcast option, keeps the protocol family, changes no other field |
| DatagramCrusherBuilder.WithProtocolFamily | core/src/main/java/org/netcrusher/datagram/DatagramCrusherBuilder.java:109-112 | sets the protocol family, keeps the broadcast option, changes no other field |
| DatagramCrusherBuilder.WithMaxIdleDurationMs | core/src/main/java/org/netcrusher/datagram/DatagramCrusherBuilder.java:121-124 | stores the maximum idle duration and changes no other field |
| DatagramCrusherBuilder.SettersLastWriteWins | core/src/main/java/org/netcrusher/datagram/DatagramCrusherBuilder.java:43-124 | calling a setter twice is the same as calling it once with the second value |
| DatagramCrusherBuilder.Build | core/src/main/java/org/netcrusher/datagram/DatagramCrusherBuilder.java:130-145 | succeeds exactly when bind, connect and reactor are set; a missing bind address wins over everything, a missing connect address over a missing reactor, each with its IllegalArgumentException message; on success a valid, closed, frozen crusher carrying each setting under its own name |
| DatagramCrusherBuilder.BuildReportsFirstMissing | core/src/main/java/org/netcrusher/datagram/DatagramCrusherBuilder.java:130-141 | build fails exactly when the list of missing required settings is non-empty, and then reports the first of them in the order bind, connect, reactor |
| DatagramCrusherBuilder.BuiltOptionsMatchBuilder | core/src/main/java/org/netcrusher/datagram/DatagramCrusherBuilder.java:143-144 | a crusher holds the socket options of the builder at build time, and changed options show up in crushers built from the changed builder (a corollary of Build's field mapping; copy versus sharing is not observable between values) |
| DatagramCrusherBuilder.BuildAndOpen | core/src/main/java/org/netcrusher/datagram/DatagramCrusherBuilder.java:152-156 | yields build's error, or opening's IOException, or an open, unfrozen crusher carrying the builder's settings; with a successful build and bind it succeeds |
| DatagramCrusherBuilder.BuildAndOpenScenario | core/src/main/java/org/netcrusher/datagram/DatagramCrusherBuilder.java:152-156 | setting reactor, bind and connect address is enough for buildAndOpen to succeed, with idle duration 0; clearing the bind address makes build fail with "Bind address is not set" |
| NioReactorOp.New | core/src/main/java/org/netcrusher/common/NioReactorOp.java:12-15 | a new operation holds the callable it was given, and its future is pending and has the freshly allocated identity |
| NioReactorOp.Settle | core/src/main/java/org/netcrusher/common/NioReactorOp.java:19-24 | completing a pending future records the value or the exception; a completed future is left as it is; either way it keeps its identity and is no longer pending |
| NioReactorOp.Run | core/src/main/java/org/netcrusher/common/NioReactorOp.java:17-25 | after run the future is completed with exactly one of value or exception: the callable's value if it returned, its exception if it threw; run has no exception of its own; the callable and the future's identity are kept |
| NioReactorOp.CompletedFutureIsStable | core/src/main/java/org/netcrusher/common/NioReactorOp.java:19-24 | any number of later completion attempts leave a completed future unchanged |
| NioReactorOp.FirstCompletionWins | core/src/main/java/org/netcrusher/common/NioReactorOp.java:19-24 | after any series of completion attempts on a pending future it holds exactly the first attempt's value or exception |
| NioReactorOp.RunFreshOp | core/src/main/java/org/netcrusher/common/NioReactorOp.java:12-25 | running a new operation completes its future with exactly what the constructor's callable returned or threw |
| NioReactorOp.GetFuture | core/src/main/java/org/netcrusher/common/NioReactorOp.java:27-29 | returns the op's own future, which has the identity of the future run completes, and once completed is exactly the future run leaves |
| NioReactorOp.GetFutureIsStable | core/src/main/java/org/netcrusher/common/NioReactorOp.java:27-29 | getFuture returns the same future before and after run, and a second run changes nothing in it |

## Left out

- Sockets, the reactor's selector loop, and the internals of `DatagramInner` and `DatagramOuter`: these are not part of this model. The inner is an opaque record (identity, frozen and closed flags, sessions).
- `IOException` from `inner.unfreeze()`, `inner.freeze()` and `inner.closeExternal()`: these calls are assumed to succeed. Only the failure to create (bind) the inner is modelled.
- `synchronized` and `volatile`: each public call is one atomic transition. Blocking on the future from another thread is not modelled.
- Logging, `getFilters` and the filter repository, `getBindAddress` and `getConnectAddress`: plain field reads with no logic of their own.
- Socket option semantics (broadcast, protocol family): options are carried through as a record. `DatagramCrusherSocketOptions` is not part of this model. Its defaults are taken as broadcast off and no protocol family, and its `copy()` is value semantics.
- The meaning of a maximum idle duration of 0 (no idle eviction) belongs to `DatagramInner`. The model only shows that the builder's default is 0 and that the value reaches the crusher.
- Null hostnames in the `(hostname, port)` setters. Hostname resolution is also left out.
- The public crusher constructor called with null references: the model's constructor takes present values, as `build` guarantees.
- `Open`, `Close`, `Crush`, `Freeze`, `Unfreeze`, `IsFrozen`, `GetOuters`, `GetInner`: each requires the class invariant `Valid`. Every constructed crusher satisfies it and every call keeps it, so the null-pointer case it excludes cannot arise.
