/** The process-wide `ygg` record of main.go and the exported entry points that change it. Outcomes of the
    external collaborators (configuration parsing, core.New, the netstack, net.Listen) are inputs; a
    collaborator that fails is assumed to hand back nil, as Go convention has it. */
module Lifecycle {
  import opened Wrappers

  /** Identity of an object built by a collaborator: a *core.Core or a *netstack.YggdrasilNetstack. */
  type Handle = nat

  /** A TCP port the operating system hands out for "127.0.0.1:0". */
  type Port = p: int | 0 < p < 65536 witness 1

  /** The SOCKS5 listening socket; `closed` records that StopSocks5Proxy closed it. */
  datatype Listener = Listener(port: Port, closed: bool)

  /** The process-wide state: the `ygg` record (the core, the netstack built on it and the SOCKS5 listener;
      None is nil) and whether the package `logger` has been created. */
  datatype Ygg = Ygg(core: Option<Handle>, net: Option<Handle>, socks5: Option<Listener>, logger: bool)

  /** The state as the process starts: everything nil, no logger yet. */
  const Fresh: Ygg := Ygg(None, None, None, false)

  /** A netstack never exists without the core it was created from, and a core only exists once Init
      has created the logger. */
  predicate Valid(s: Ygg)
  {
    && (s.net.Some? ==> s.core.Some?)
    && (s.core.Some? ==> s.logger)
  }

  /** Codes returned by Init. */
  const Ok: int := 0
  const NoConfig: int := -1
  const AlreadyInitialized: int := -2
  const ConfigParse: int := -3
  const CoreCreateFailed: int := -4
  const NetstackCreateFailed: int := -5

  /** Codes returned by CreateProxyServerTCP in place of a port. */
  const NotInitialized: int := -1
  const ListenFailed: int := -2

  /** The integer an entry point returns, and the record after the call. */
  datatype Reply = Reply(code: int, next: Ygg)

  /** Init. `conf` is the host's C string (None for a NULL pointer), `parses` whether cfg.ReadFrom accepts
      it, `coreNew` what core.New returns, `netNew` what netstack.CreateYggdrasilNetstack returns. The
      logger is created first, on every call, whatever the outcome. */
  function Init(s: Ygg, conf: Option<string>, parses: bool, coreNew: Option<Handle>, netNew: Option<Handle>): (r: Reply)
    ensures r.code in {Ok, NoConfig, AlreadyInitialized, ConfigParse, CoreCreateFailed, NetstackCreateFailed}
    ensures r.next.logger
    ensures r.code == Ok <==> s.core.None? && r.next.core.Some? && r.next.net.Some?
    ensures r.code != Ok && r.code != NetstackCreateFailed ==> r.next == s.(logger := true)
    ensures r.code == NetstackCreateFailed ==> r.next.core.Some? && r.next.net.None?
    ensures r.code == Ok || r.code == NetstackCreateFailed ==> r.next.core == coreNew
    ensures r.code == Ok ==> r.next.net == netNew
    ensures r.next.socks5 == s.socks5
    ensures Valid(s) ==> Valid(r.next)
  {
    var s0 := s.(logger := true);
    if conf.None? then Reply(NoConfig, s0)
    else if s0.core.Some? then Reply(AlreadyInitialized, s0)
    else if !parses then Reply(ConfigParse, s0)
    else
      var s1 := s0.(core := coreNew);
      if coreNew.None? then Reply(CoreCreateFailed, s1)
      else
        var s2 := s1.(net := netNew);
        if netNew.None? then Reply(NetstackCreateFailed, s2)
        else Reply(Ok, s2)
  }

  /** Shutdown: forgets the core and the netstack by setting both references to nil; it does not stop
      them, so the old core keeps running after Shutdown and after a later Init. The SOCKS5 listener and
      the logger are left as they are. */
  function Shutdown(s: Ygg): (r: Ygg)
    ensures r.core.None? && r.net.None?
    ensures r.socks5 == s.socks5 && r.logger == s.logger
    ensures Valid(r)
  {
    var s1 := if s.core.Some? then s.(core := None) else s;
    if s1.net.Some? then s1.(net := None) else s1
  }

  /** What StartSocks5Proxy leads to: a returned integer, or the end of the process. */
  datatype StartOutcome = Started(reply: Reply) | Exited

  /** StartSocks5Proxy. `listen` is what net.Listen("tcp", "127.0.0.1:0") yields: the port, or None on
      failure. Nothing here looks at the core or the netstack. The process ends in two ways: the
      "already started" message goes through a logger that is still nil when Init was never called, which
      panics; and a failed listen ends it through logger.Fatalln (or the same nil-logger panic). */
  function StartSocks5Proxy(s: Ygg, listen: Option<Port>): (r: StartOutcome)
    ensures s.socks5.Some? && s.logger ==> r == Started(Reply(0, s))
    ensures r.Exited? <==> (s.socks5.Some? && !s.logger) || (s.socks5.None? && listen.None?)
    ensures r.Started? ==> (r.reply.code == 0 <==> s.socks5.Some?)
    ensures r.Started? && s.socks5.None? ==>
      && listen.Some? && r.reply.code == listen.value
      && r.reply.next.socks5 == Some(Listener(listen.value, false))
    ensures r.Started? ==> r.reply.next.core == s.core && r.reply.next.net == s.net && r.reply.next.logger == s.logger
  {
    if s.socks5.Some? then (if s.logger then Started(Reply(0, s)) else Exited)
    else if listen.None? then Exited
    else
      var l := Listener(listen.value, false);
      Started(Reply(l.port, s.(socks5 := Some(l))))
  }

  /** StopSocks5Proxy: closes the listener if there is one, but keeps the reference to it. */
  function StopSocks5Proxy(s: Ygg): (r: Ygg)
    ensures r.core == s.core && r.net == s.net && r.logger == s.logger
    ensures r.socks5.Some? <==> s.socks5.Some?
    ensures s.socks5.Some? ==> r.socks5.value.port == s.socks5.value.port && r.socks5.value.closed
  {
    if s.socks5.Some? then s.(socks5 := Some(s.socks5.value.(closed := true))) else s
  }

  /** The synchronous part of CreateProxyServerTCP: the netstack guard and the relay listener.
      `listen` is what net.ListenTCP yields. The relay itself runs on a goroutine and keeps no state in
      the record. The -2 branch logs through the logger; that is safe because a netstack only exists
      once Init has created the logger (`Valid`), which every reachable state satisfies. */
  function CreateProxyServerTCP(s: Ygg, address: string, listen: Option<Port>): (r: Reply)
    ensures r.next == s
    ensures r.code == NotInitialized <==> s.net.None?
    ensures r.code == ListenFailed <==> s.net.Some? && listen.None?
    ensures r.code > 0 <==> s.net.Some? && listen.Some?
    ensures r.code > 0 ==> Some(r.code) == listen
  {
    if s.net.None? then Reply(NotInitialized, s)
    else if listen.None? then Reply(ListenFailed, s)
    else Reply(listen.value, s)
  }

  lemma InitNilConfig(s: Ygg, parses: bool, coreNew: Option<Handle>, netNew: Option<Handle>)
    ensures Init(s, None, parses, coreNew, netNew) == Reply(NoConfig, s.(logger := true))
  {
  }

  lemma InitTwice(s: Ygg, conf: string, parses: bool, coreNew: Option<Handle>, netNew: Option<Handle>)
    requires s.core.Some?
    ensures Init(s, Some(conf), parses, coreNew, netNew) == Reply(AlreadyInitialized, s.(logger := true))
  {
  }

  lemma InitParseFailure(s: Ygg, conf: string, coreNew: Option<Handle>, netNew: Option<Handle>)
    requires s.core.None?
    ensures Init(s, Some(conf), false, coreNew, netNew) == Reply(ConfigParse, s.(logger := true))
  {
  }

  lemma InitCoreFailure(s: Ygg, conf: string, netNew: Option<Handle>)
    requires s.core.None?
    ensures Init(s, Some(conf), true, None, netNew) == Reply(CoreCreateFailed, s.(logger := true))
  {
  }

  /** A netstack failure leaves the core in place: the next Init is refused as a second initialisation
      and the relay still reports that there is no netstack. */
  lemma InitNetstackFailure(s: Ygg, conf: string, core: Handle, conf2: string, parses2: bool,
                            coreNew2: Option<Handle>, netNew2: Option<Handle>, address: string, listen: Option<Port>)
    requires s.core.None?
    ensures var r := Init(s, Some(conf), true, Some(core), None);
      && r.code == NetstackCreateFailed
      && r.next.core == Some(core)
      && Init(r.next, Some(conf2), parses2, coreNew2, netNew2) == Reply(AlreadyInitialized, r.next)
      && CreateProxyServerTCP(r.next, address, listen) == Reply(NotInitialized, r.next)
  {
  }

  lemma InitSuccess(s: Ygg, conf: string, core: Handle, net: Handle)
    requires s.core.None?
    ensures Init(s, Some(conf), true, Some(core), Some(net)) == Reply(Ok, s.(core := Some(core), net := Some(net), logger := true))
  {
  }

  lemma ShutdownIdempotent(s: Ygg)
    ensures Shutdown(Shutdown(s)) == Shutdown(s)
  {
  }

  /** Stop keeps the listener, so a later Start reports "already started" and opens nothing; before any
      Init that report goes through the nil logger and ends the process instead. */
  lemma StartAfterStop(s: Ygg, listen: Option<Port>)
    requires s.socks5.Some?
    ensures s.logger ==> StartSocks5Proxy(StopSocks5Proxy(s), listen) == Started(Reply(0, StopSocks5Proxy(s)))
    ensures !s.logger ==> StartSocks5Proxy(StopSocks5Proxy(s), listen) == Exited
  {
  }

  /** Nothing stops the SOCKS5 proxy from starting before Init: it is handed the nil netstack. */
  lemma StartWithoutInstance(listen: Port)
    ensures StartSocks5Proxy(Fresh, Some(listen)) == Started(Reply(listen, Fresh.(socks5 := Some(Listener(listen, false)))))
  {
  }

  /** Before any Init, a second Start finds the listener of the first and reports it through the nil
      logger: the process ends. */
  lemma StartTwiceBeforeInit(p: Port, listen: Option<Port>)
    ensures StartSocks5Proxy(Fresh, Some(p)).Started?
    ensures StartSocks5Proxy(StartSocks5Proxy(Fresh, Some(p)).reply.next, listen) == Exited
  {
  }
}
