/** The builder for a UDP crusher: a record of optional settings with
    last-write-wins setters, and `build`, which checks the required settings in
    a fixed order and yields either an error or a closed crusher. */
module DatagramCrusherBuilder {
  import opened Common
  import DatagramCrusher

  const BindNotSet := "Bind address is not set"
  const ConnectNotSet := "Connect address is not set"
  const ReactorNotSet := "Reactor is not set"
  const PortOutOfRange := "port out of range:"

  /** The builder's fields; absent references are `None`. */
  datatype Builder = Builder(
    bindAddress: Option<InetSocketAddress>,
    connectAddress: Option<InetSocketAddress>,
    reactor: Option<NioReactor>,
    socketOptions: DatagramCrusher.SocketOptions,
    maxIdleDurationMs: Long)

  /** `builder()`: nothing set, default socket options, no idle limit (0). */
  function NewBuilder(): (b: Builder)
    ensures b.bindAddress.None? && b.connectAddress.None? && b.reactor.None?
    ensures b.socketOptions == DatagramCrusher.DefaultSocketOptions
    ensures b.maxIdleDurationMs == 0
  {
    Builder(None, None, None, DatagramCrusher.DefaultSocketOptions, 0)
  }

  // Each setter stores its argument and leaves every other field as it was:
  // putting the old value back yields the builder the setter was called on.

  function WithBindAddress(b: Builder, address: Option<InetSocketAddress>): (r: Builder)
    ensures r.bindAddress == address
    ensures r.(bindAddress := b.bindAddress) == b
  {
    b.(bindAddress := address)
  }

  function WithConnectAddress(b: Builder, address: Option<InetSocketAddress>): (r: Builder)
    ensures r.connectAddress == address
    ensures r.(connectAddress := b.connectAddress) == b
  {
    b.(connectAddress := address)
  }

  function WithReactor(b: Builder, reactor: Option<NioReactor>): (r: Builder)
    ensures r.reactor == reactor
    ensures r.(reactor := b.reactor) == b
  {
    b.(reactor := reactor)
  }

  function WithBroadcast(b: Builder, broadcast: bool): (r: Builder)
    ensures r.socketOptions.broadcast == broadcast
    ensures r.socketOptions.protocolFamily == b.socketOptions.protocolFamily
    ensures r.(socketOptions := b.socketOptions) == b
  {
    b.(socketOptions := b.socketOptions.(broadcast := broadcast))
  }

  function WithProtocolFamily(b: Builder, family: Option<DatagramCrusher.ProtocolFamily>): (r: Builder)
    ensures r.socketOptions.protocolFamily == family
    ensures r.socketOptions.broadcast == b.socketOptions.broadcast
    ensures r.(socketOptions := b.socketOptions) == b
  {
    b.(socketOptions := b.socketOptions.(protocolFamily := family))
  }

  function WithMaxIdleDurationMs(b: Builder, maxIdleDurationMs: Long): (r: Builder)
    ensures r.maxIdleDurationMs == maxIdleDurationMs
    ensures r.(maxIdleDurationMs := b.maxIdleDurationMs) == b
  {
    b.(maxIdleDurationMs := maxIdleDurationMs)
  }

  /** `new InetSocketAddress(hostname, port)`, which rejects a port outside 0..65535. */
  function MakeAddress(hostname: string, port: Int): (r: Result<InetSocketAddress>)
    ensures r.Ok? <==> 0 <= port <= 0xFFFF
    ensures r.Ok? ==> r.value.hostname == hostname && r.value.port == port
    ensures r.Err? ==> r.error == IllegalArgumentException(PortOutOfRange + DecimalString(port))
  {
    if 0 <= port <= 0xFFFF then Ok(InetSocketAddress(hostname, port))
    else Err(IllegalArgumentException(PortOutOfRange + DecimalString(port)))
  }

  /** The `(hostname, port)` overload of `withBindAddress`. */
  function WithBindHostPort(b: Builder, hostname: string, port: Int): (r: Result<Builder>)
    ensures r.Ok? <==> 0 <= port <= 0xFFFF
    ensures r.Ok? ==> r.value == WithBindAddress(b, Some(InetSocketAddress(hostname, port)))
    ensures r.Err? ==> r.error.IllegalArgumentException?
  {
    match MakeAddress(hostname, port)
    case Ok(address) => Ok(WithBindAddress(b, Some(address)))
    case Err(e) => Err(e)
  }

  /** The `(hostname, port)` overload of `withConnectAddress`. */
  function WithConnectHostPort(b: Builder, hostname: string, port: Int): (r: Result<Builder>)
    ensures r.Ok? <==> 0 <= port <= 0xFFFF
    ensures r.Ok? ==> r.value == WithConnectAddress(b, Some(InetSocketAddress(hostname, port)))
    ensures r.Err? ==> r.error.IllegalArgumentException?
  {
    match MakeAddress(hostname, port)
    case Ok(address) => Ok(WithConnectAddress(b, Some(address)))
    case Err(e) => Err(e)
  }

  /** `build()`: the bind address, then the connect address, then the reactor
      must be set; the first one missing is reported. Otherwise a new closed
      crusher receives each setting under its own name and a snapshot of the
      socket options. */
  function Build(b: Builder): (r: Result<DatagramCrusher.Crusher>)
    ensures r.Ok? <==> b.bindAddress.Some? && b.connectAddress.Some? && b.reactor.Some?
    ensures b.bindAddress.None? ==> r == Err(IllegalArgumentException(BindNotSet))
    ensures b.bindAddress.Some? && b.connectAddress.None? ==>
      r == Err(IllegalArgumentException(ConnectNotSet))
    ensures b.bindAddress.Some? && b.connectAddress.Some? && b.reactor.None? ==>
      r == Err(IllegalArgumentException(ReactorNotSet))
    ensures r.Ok? ==>
      && DatagramCrusher.Valid(r.value)
      && !DatagramCrusher.IsOpen(r.value)
      && DatagramCrusher.IsFrozen(r.value)
      && Carries(r.value, b)
  {
    if b.bindAddress.None? then
      Err(IllegalArgumentException(BindNotSet))
    else if b.connectAddress.None? then
      Err(IllegalArgumentException(ConnectNotSet))
    else if b.reactor.None? then
      Err(IllegalArgumentException(ReactorNotSet))
    else
      Ok(DatagramCrusher.New(b.reactor.value, b.bindAddress.value, b.connectAddress.value,
        b.socketOptions, b.maxIdleDurationMs))
  }

  /** The crusher's configuration holds the builder's settings, field by field. */
  predicate Carries(c: DatagramCrusher.Crusher, b: Builder) {
    && Some(c.config.bindAddress) == b.bindAddress
    && Some(c.config.connectAddress) == b.connectAddress
    && Some(c.config.reactor) == b.reactor
    && c.config.socketOptions == b.socketOptions
    && c.config.maxIdleDurationMs == b.maxIdleDurationMs
  }

  /** `buildAndOpen()`: build's error, or the I/O error of opening, or an open,
      running crusher carrying the builder's settings. */
  function BuildAndOpen(b: Builder, bind: DatagramCrusher.BindOutcome): (r: Result<DatagramCrusher.Crusher>)
    ensures Build(b).Err? ==> r == Err(Build(b).error)
    ensures Build(b).Ok? && bind.BindFailed? ==> r == Err(IOException(bind.reason))
    ensures Build(b).Ok? && bind.Bound? ==> r.Ok?
    ensures r.Ok? ==>
      && DatagramCrusher.Valid(r.value)
      && DatagramCrusher.IsOpen(r.value)
      && !DatagramCrusher.IsFrozen(r.value)
      && Carries(r.value, b)
  {
    match Build(b)
    case Err(e) => Err(e)
    case Ok(c) =>
      var t := DatagramCrusher.Open(c, bind);
      if t.thrown.Some? then Err(t.thrown.value) else Ok(t.next)
  }

  // ---------------------------------------------------------------------------
  // Properties of the builder

  /** The settings build requires, in the order it checks them. */
  datatype RequiredSetting = BindAddressSetting | ConnectAddressSetting | ReactorSetting

  function Missing(b: Builder): seq<RequiredSetting> {
    (if b.bindAddress.None? then [BindAddressSetting] else [])
    + (if b.connectAddress.None? then [ConnectAddressSetting] else [])
    + (if b.reactor.None? then [ReactorSetting] else [])
  }

  function NotSetMessage(s: RequiredSetting): string {
    match s
    case BindAddressSetting => BindNotSet
    case ConnectAddressSetting => ConnectNotSet
    case ReactorSetting => ReactorNotSet
  }

  /** build fails exactly when some required setting is missing, and then
      reports the first one missing in the order bind, connect, reactor. */
  lemma BuildReportsFirstMissing(b: Builder)
    ensures Build(b).Err? <==> |Missing(b)| > 0
    ensures |Missing(b)| > 0 ==> Build(b) == Err(IllegalArgumentException(NotSetMessage(Missing(b)[0])))
  {
  }

  /** A later call of the same setter overrides an earlier one. */
  lemma SettersLastWriteWins(b: Builder, a1: Option<InetSocketAddress>, a2: Option<InetSocketAddress>,
                             r1: Option<NioReactor>, r2: Option<NioReactor>, x1: bool, x2: bool,
                             f1: Option<DatagramCrusher.ProtocolFamily>, f2: Option<DatagramCrusher.ProtocolFamily>,
                             m1: Long, m2: Long)
    ensures WithBindAddress(WithBindAddress(b, a1), a2) == WithBindAddress(b, a2)
    ensures WithConnectAddress(WithConnectAddress(b, a1), a2) == WithConnectAddress(b, a2)
    ensures WithReactor(WithReactor(b, r1), r2) == WithReactor(b, r2)
    ensures WithBroadcast(WithBroadcast(b, x1), x2) == WithBroadcast(b, x2)
    ensures WithProtocolFamily(WithProtocolFamily(b, f1), f2) == WithProtocolFamily(b, f2)
    ensures WithMaxIdleDurationMs(WithMaxIdleDurationMs(b, m1), m2) == WithMaxIdleDurationMs(b, m2)
  {
  }

  /** A built crusher holds the socket options the builder had when it was
      built, and an options setter reaches only crushers built afterwards. This
      is a corollary of `Carries` and the setter contracts: builders and
      crushers are values here, so the copy made by `build` cannot be told
      apart from sharing the options object. */
  lemma BuiltOptionsMatchBuilder(b: Builder, broadcast: bool, family: Option<DatagramCrusher.ProtocolFamily>)
    requires Build(b).Ok?
    ensures Build(WithBroadcast(b, broadcast)).value.config.socketOptions.broadcast == broadcast
    ensures Build(WithProtocolFamily(b, family)).value.config.socketOptions.protocolFamily == family
    ensures Build(b).value.config.socketOptions == b.socketOptions
  {
  }

  /** The canonical use: bind, connect and reactor set, then build and open. */
  lemma BuildAndOpenScenario(reactor: NioReactor, bind: InetSocketAddress, connect: InetSocketAddress)
    ensures var b := WithConnectAddress(WithBindAddress(WithReactor(NewBuilder(), Some(reactor)), Some(bind)), Some(connect));
      && BuildAndOpen(b, DatagramCrusher.Bound).Ok?
      && BuildAndOpen(b, DatagramCrusher.Bound).value.config.maxIdleDurationMs == 0
      && Build(WithBindAddress(b, None)) == Err(IllegalArgumentException(BindNotSet))
  {
  }
}
