/** The proxy's `remoteClient.Connect`: the stage machine that opens an outbound
    SSH session for an endpoint and relays the inbound session into it.

    The SSH library calls are oracles (`Oracles`): what finding an auth method,
    creating the session, requesting the pty and running the shell answer.
    Connect returns the trace of what it does (`Effect`) and its error result.
    Go's `defer` is modelled by an explicit stack of deferred actions, which
    `Unwind` runs last-registered first when Connect returns. */
module RemoteClient {
  import opened Outcomes
  import opened Sessions

  /** The terminal control sequences resetPty writes, as termenv tokens. */
  datatype Control = ExitAltScreen | ResetAttributes | EraseDisplay(mode: nat)

  /** The trust store the host-key check consults. */
  const KnownHostsPath: string := ".wishlist/known_hosts"

  const AuthFailed: string := "failed to find an auth method"
  const SessionFailed: string := "failed to create session"
  const PtyFailed: string := "failed to request pty"

  datatype AuthMethod = AuthMethod(id: nat)

  /** `hostKeyCallback(e, path)`: the host-key check for an endpoint against a trust store. */
  datatype HostKeyCheck = HostKeyCheck(endpoint: Endpoint, knownHosts: string)

  /** The `gossh.ClientConfig` Connect builds. */
  datatype ClientConfig = ClientConfig(user: string, hostKey: HostKeyCheck, auth: seq<AuthMethod>)

  /** An `io.Reader` handed to the client. */
  datatype Reader = Reader(id: nat)

  /** The inbound session's output and error streams, named by the session's id. */
  datatype Stream = SessionOut(session: nat) | SessionErr(session: nat)

  /** `remoteClient`: the inbound session and the reader to use as the outbound stdin. */
  datatype Client = Client(session: Inbound, stdin: Reader)

  /** The deferred actions, in the order Connect registers them: release the
      auth method's closers, release the session's closers, send on `done`. */
  datatype Deferred = CloseAuthClosers | CloseSessionClosers | SignalDone

  datatype Effect =
    | Write(ctl: Control)
    | ResolveAuth
    | CreateSession(config: ClientConfig, endpoint: Endpoint)
    | LogConnect(user: string, name: string, remoteAddr: string)
    | Wire(stdout: Stream, stderr: Stream, stdin: Reader)
    | RequestPty(term: string, height: int, width: int)
    | StartRelay
    | RunShell
    | RunDeferred(action: Deferred)

  /** What the collaborators answer: `remoteBestAuthMethod`, `createSession`,
      `RequestPty` and `shellAndWait`. The closers of the first two are returned
      whatever the answer. */
  datatype Oracles = Oracles(auth: Result<AuthMethod>, session: Outcome, pty: Outcome, shell: Outcome)

  datatype Run = Run(trace: seq<Effect>, result: Outcome)

  /** resetPty: leave the alternate screen, reset attributes, erase the whole display. */
  function ResetPty(): seq<Effect>
  {
    [Write(ExitAltScreen), Write(ResetAttributes), Write(EraseDisplay(2))]
  }

  /** Whatever the collaborators answer, Connect's first three effects are the
      terminal reset: leave the alternate screen, reset the attributes, erase
      the whole display (mode 2), in that order and before anything else. */
  lemma ConnectResetsTerminalFirst(c: Client, e: Endpoint, firstNonEmpty: (string, string) -> string, o: Oracles)
    ensures var t := Connect(c, e, firstNonEmpty, o).trace;
      && |t| > 3
      && t[0] == Write(ExitAltScreen) && t[1] == Write(ResetAttributes) && t[2] == Write(EraseDisplay(2))
      && t[3] == ResolveAuth
  {
  }

  /** Runs the deferred actions as Go does on return: the last registered first. */
  function Unwind(stack: seq<Deferred>): seq<Effect>
  {
    if stack == [] then [] else [RunDeferred(stack[|stack| - 1])] + Unwind(stack[..|stack| - 1])
  }

  /** Unwinding runs every deferred action once, in exactly the reverse of
      the order in which they were registered. */
  lemma {:induction false} UnwindReverses(stack: seq<Deferred>)
    ensures |Unwind(stack)| == |stack|
    ensures forall i :: 0 <= i < |stack| ==> Unwind(stack)[i] == RunDeferred(stack[|stack| - 1 - i])
  {
    if stack != [] {
      var front := stack[..|stack| - 1];
      UnwindReverses(front);
      forall i | 0 <= i < |stack|
        ensures Unwind(stack)[i] == RunDeferred(stack[|stack| - 1 - i])
      {
        if i > 0 {
          assert Unwind(stack)[i] == Unwind(front)[i - 1];
        }
      }
    }
  }

  /** Returning from Connect: the deferred actions run after everything else. */
  function Return(trace: seq<Effect>, deferred: seq<Deferred>, result: Outcome): Run
  {
    Run(trace + Unwind(deferred), result)
  }

  /** `remoteClient.Connect(e)`: the terminal reset comes first, and each
      failing stage returns its cause wrapped with its own context; once the
      shell has run, Connect returns exactly what `shellAndWait` returned. */
  function Connect(c: Client, e: Endpoint, firstNonEmpty: (string, string) -> string, o: Oracles): (r: Run)
    ensures |r.trace| >= 3 && r.trace[..3] == ResetPty()
    ensures o.auth.Failure? ==> r.result == Err(Wrap(AuthFailed, o.auth.error))
    ensures o.auth.Success? && o.session.Err? ==> r.result == Err(Wrap(SessionFailed, o.session.error))
    ensures o.auth.Success? && o.session.Ok? && o.pty.Err? ==> r.result == Err(Wrap(PtyFailed, o.pty.error))
    ensures o.auth.Success? && o.session.Ok? && o.pty.Ok? ==> r.result == o.shell
  {
    var t1 := ResetPty() + [ResolveAuth];
    var d1 := [CloseAuthClosers];
    if o.auth.Failure? then
      Return(t1, d1, Err(Wrap(AuthFailed, o.auth.error)))
    else
      var conf := ClientConfig(firstNonEmpty(e.user, c.session.user),
                               HostKeyCheck(e, KnownHostsPath), [o.auth.value]);
      var t2 := t1 + [CreateSession(conf, e)];
      var d2 := d1 + [CloseSessionClosers];
      if o.session.Err? then
        Return(t2, d2, Err(Wrap(SessionFailed, o.session.error)))
      else
        var s := c.session;
        var t3 := t2 + [LogConnect(s.user, e.name, s.remoteAddr),
                        Wire(SessionOut(s.id), SessionErr(s.id), c.stdin),
                        RequestPty(s.pty.term, s.pty.window.height, s.pty.window.width)];
        if o.pty.Err? then
          Return(t3, d2, Err(Wrap(PtyFailed, o.pty.error)))
        else
          var d3 := d2 + [SignalDone];
          Return(t3 + [StartRelay, RunShell], d3, o.shell)
  }

  /** Everything Connect does, in order, when no stage fails, before it returns. */
  function Pipeline(c: Client, e: Endpoint, firstNonEmpty: (string, string) -> string, m: AuthMethod): seq<Effect>
  {
    var s := c.session;
    ResetPty() + [
      ResolveAuth,
      CreateSession(ClientConfig(firstNonEmpty(e.user, s.user), HostKeyCheck(e, KnownHostsPath), [m]), e),
      LogConnect(s.user, e.name, s.remoteAddr),
      Wire(SessionOut(s.id), SessionErr(s.id), c.stdin),
      RequestPty(s.pty.term, s.pty.window.height, s.pty.window.width),
      StartRelay,
      RunShell
    ]
  }

  /** How many of the pipeline's effects happen: up to and including the stage that fails. */
  function StagesRun(o: Oracles): nat
  {
    if o.auth.Failure? then 4
    else if o.session.Err? then 5
    else if o.pty.Err? then 8
    else 10
  }

  /** The deferred actions registered by the time Connect returns: each defer
      statement that was reached, in the order reached. */
  function Registered(o: Oracles): seq<Deferred>
  {
    if o.auth.Failure? then [CloseAuthClosers]
    else if o.session.Err? || o.pty.Err? then [CloseAuthClosers, CloseSessionClosers]
    else [CloseAuthClosers, CloseSessionClosers, SignalDone]
  }

  /** Connect runs a prefix of the fixed pipeline, cut right after the first
      stage that fails, and then only the deferred actions registered so far,
      in reverse order of registration. */
  lemma ConnectFollowsPipeline(c: Client, e: Endpoint, firstNonEmpty: (string, string) -> string, o: Oracles, m: AuthMethod)
    requires o.auth.Success? ==> m == o.auth.value
    ensures Connect(c, e, firstNonEmpty, o).trace
         == Pipeline(c, e, firstNonEmpty, m)[..StagesRun(o)] + Unwind(Registered(o))
  {
    var p := Pipeline(c, e, firstNonEmpty, m);
    var reset := ResetPty();
    UnwindRegistered(o);
    assert p[..4] == reset + [ResolveAuth];
    if o.auth.Success? {
      assert p[..5] == reset + [ResolveAuth, p[4]];
      assert p[..8] == reset + [ResolveAuth, p[4], p[5], p[6], p[7]];
      assert p[..10] == p;
      assert [CloseAuthClosers] + [CloseSessionClosers] == [CloseAuthClosers, CloseSessionClosers];
      if o.session.Ok? && o.pty.Ok? {
        assert [CloseAuthClosers] + [CloseSessionClosers] + [SignalDone] == Registered(o);
        assert p == p[..8] + [StartRelay, RunShell];
      }
    }
  }

  /** No deferred action runs before Connect returns. */
  predicate NoDeferred(t: seq<Effect>)
  {
    forall i :: 0 <= i < |t| ==> !t[i].RunDeferred?
  }

  lemma PipelineRunsNoDeferred(c: Client, e: Endpoint, firstNonEmpty: (string, string) -> string, m: AuthMethod, k: nat)
    requires k <= 10
    ensures NoDeferred(Pipeline(c, e, firstNonEmpty, m)[..k])
    ensures forall d :: multiset(Pipeline(c, e, firstNonEmpty, m)[..k])[RunDeferred(d)] == 0
  {
    var b := Pipeline(c, e, firstNonEmpty, m)[..k];
    forall d: Deferred
      ensures multiset(b)[RunDeferred(d)] == 0
    {
      assert RunDeferred(d) !in b;
    }
  }

  /** The registered actions, unwound: what each exit path releases, in order. */
  lemma UnwindRegistered(o: Oracles)
    ensures o.auth.Failure? ==> Unwind(Registered(o)) == [RunDeferred(CloseAuthClosers)]
    ensures o.auth.Success? && (o.session.Err? || o.pty.Err?) ==>
      Unwind(Registered(o)) == [RunDeferred(CloseSessionClosers), RunDeferred(CloseAuthClosers)]
    ensures o.auth.Success? && o.session.Ok? && o.pty.Ok? ==>
      Unwind(Registered(o)) == [RunDeferred(SignalDone), RunDeferred(CloseSessionClosers), RunDeferred(CloseAuthClosers)]
  {
    var a, b, c := CloseAuthClosers, CloseSessionClosers, SignalDone;
    assert [a, b, c][..2] == [a, b];
    assert [a, b][..1] == [a];
    assert [a][..0] == [];
    assert Unwind([a]) == [RunDeferred(a)];
    assert Unwind([a, b]) == [RunDeferred(b), RunDeferred(a)];
    assert Unwind([a, b, c]) == [RunDeferred(c)] + Unwind([a, b]);
  }

  /** Unwinding the registered actions runs each of them once and nothing else. */
  lemma UnwindRunsEachOnce(o: Oracles)
    ensures forall d :: multiset(Unwind(Registered(o)))[RunDeferred(d)] == (if d in Registered(o) then 1 else 0)
  {
    UnwindRegistered(o);
  }

  lemma DeferredCounts(t: seq<Effect>, body: seq<Effect>, o: Oracles)
    requires t == body + Unwind(Registered(o))
    requires forall d :: multiset(body)[RunDeferred(d)] == 0
    ensures forall d :: multiset(t)[RunDeferred(d)] == (if d in Registered(o) then 1 else 0)
  {
    UnwindRunsEachOnce(o);
    assert multiset(t) == multiset(body) + multiset(Unwind(Registered(o)));
  }

  /** Whatever the collaborators answer, every deferred action Connect registers
      runs exactly once, after everything else, and none that it did not register runs. */
  lemma ConnectReleasesEachOnce(c: Client, e: Endpoint, firstNonEmpty: (string, string) -> string, o: Oracles)
    ensures var r := Connect(c, e, firstNonEmpty, o);
      var k := |r.trace| - |Registered(o)|;
      && 0 <= k
      && NoDeferred(r.trace[..k])
      && r.trace[k..] == Unwind(Registered(o))
      && forall d :: multiset(r.trace)[RunDeferred(d)] == (if d in Registered(o) then 1 else 0)
  {
    var m := if o.auth.Success? then o.auth.value else AuthMethod(0);
    ConnectFollowsPipeline(c, e, firstNonEmpty, o, m);
    UnwindReverses(Registered(o));
    var t := Connect(c, e, firstNonEmpty, o).trace;
    var body := Pipeline(c, e, firstNonEmpty, m)[..StagesRun(o)];
    var tail := Unwind(Registered(o));
    assert |body| == StagesRun(o);
    assert t == body + tail;
    assert t[..|body|] == body;
    assert t[|body|..] == tail;
    PipelineRunsNoDeferred(c, e, firstNonEmpty, m, StagesRun(o));
    DeferredCounts(t, body, o);
  }

  /** No session is created when no auth method is found, and the auth closers
      are still released, once, as the last thing Connect does. */
  lemma AuthFailureReleasesAuthClosers(c: Client, e: Endpoint, firstNonEmpty: (string, string) -> string, o: Oracles)
    requires o.auth.Failure?
    ensures var t := Connect(c, e, firstNonEmpty, o).trace;
      && t == ResetPty() + [ResolveAuth, RunDeferred(CloseAuthClosers)]
      && (forall i :: 0 <= i < |t| ==> !t[i].CreateSession?)
  {
    ConnectFollowsPipeline(c, e, firstNonEmpty, o, AuthMethod(0));
    UnwindRegistered(o);
    var p := Pipeline(c, e, firstNonEmpty, AuthMethod(0));
    assert p[..4] == ResetPty() + [ResolveAuth];
  }

  /** When the session cannot be created, no pty is requested, and the
      session's closers are released before the auth closers, each once. */
  lemma SessionFailureReleasesBoth(c: Client, e: Endpoint, firstNonEmpty: (string, string) -> string, o: Oracles)
    requires o.auth.Success? && o.session.Err?
    ensures var t := Connect(c, e, firstNonEmpty, o).trace;
      && |t| == 7
      && (forall i :: 0 <= i < |t| ==> !t[i].RequestPty?)
      && t[5..] == [RunDeferred(CloseSessionClosers), RunDeferred(CloseAuthClosers)]
  {
    ConnectFollowsPipeline(c, e, firstNonEmpty, o, o.auth.value);
    UnwindRegistered(o);
    var p := Pipeline(c, e, firstNonEmpty, o.auth.value);
    assert p[..5] == ResetPty() + [ResolveAuth, p[4]];
  }

  /** When the pty request fails, the relay is never started, the shell never
      runs and `done` is never sent; both closer sets are still released,
      the session's first. */
  lemma PtyFailureStartsNothing(c: Client, e: Endpoint, firstNonEmpty: (string, string) -> string, o: Oracles)
    requires o.auth.Success? && o.session.Ok? && o.pty.Err?
    ensures var t := Connect(c, e, firstNonEmpty, o).trace;
      && StartRelay !in t && RunShell !in t && RunDeferred(SignalDone) !in t
      && |t| == 10
      && t[8..] == [RunDeferred(CloseSessionClosers), RunDeferred(CloseAuthClosers)]
  {
    ConnectFollowsPipeline(c, e, firstNonEmpty, o, o.auth.value);
    UnwindRegistered(o);
    var p := Pipeline(c, e, firstNonEmpty, o.auth.value);
    assert p[..8] == ResetPty() + [ResolveAuth, p[4], p[5], p[6], p[7]];
  }

  /** Once the shell has run, Connect ends by sending `done`, then releasing
      the session's closers, then the auth closers, after the relay was
      started and the shell run. */
  lemma ShellPathReleasesInOrder(c: Client, e: Endpoint, firstNonEmpty: (string, string) -> string, o: Oracles)
    requires o.auth.Success? && o.session.Ok? && o.pty.Ok?
    ensures var t := Connect(c, e, firstNonEmpty, o).trace;
      && |t| == 13
      && t[8..] == [StartRelay, RunShell, RunDeferred(SignalDone),
                    RunDeferred(CloseSessionClosers), RunDeferred(CloseAuthClosers)]
  {
    var p := Pipeline(c, e, firstNonEmpty, o.auth.value);
    var t := Connect(c, e, firstNonEmpty, o).trace;
    ConnectFollowsPipeline(c, e, firstNonEmpty, o, o.auth.value);
    UnwindRegistered(o);
    assert p[..10] == p;
    var u := Unwind(Registered(o));
    assert t == p + u;
    assert t[8..] == [p[8], p[9]] + u;
    assert p[8] == StartRelay && p[9] == RunShell;
  }

  /** On the shell path every deferred action, the `done` signal included,
      runs exactly once. */
  lemma ShellPathRunsEachDeferredOnce(c: Client, e: Endpoint, firstNonEmpty: (string, string) -> string, o: Oracles)
    requires o.auth.Success? && o.session.Ok? && o.pty.Ok?
    ensures forall d :: multiset(Connect(c, e, firstNonEmpty, o).trace)[RunDeferred(d)] == 1
  {
    ConnectReleasesEachOnce(c, e, firstNonEmpty, o);
    var registered := Registered(o);
    assert registered == [CloseAuthClosers, CloseSessionClosers, SignalDone];
    forall d: Deferred
      ensures d in registered
    {
      match d
      case CloseAuthClosers => assert d == registered[0];
      case CloseSessionClosers => assert d == registered[1];
      case SignalDone => assert d == registered[2];
    }
  }

  /** The first of two strings that is non-empty: the contract of `firstNonEmpty`. */
  ghost predicate FirstNonEmptyLaw(firstNonEmpty: (string, string) -> string)
  {
    forall a, b :: firstNonEmpty(a, b) == (if a != "" then a else b)
  }

  /** The outbound user is the endpoint's user when that is set, and the
      inbound session's user otherwise. */
  lemma OutboundUser(c: Client, e: Endpoint, firstNonEmpty: (string, string) -> string, o: Oracles)
    requires FirstNonEmptyLaw(firstNonEmpty)
    requires o.auth.Success?
    ensures exists conf :: CreateSession(conf, e) in Connect(c, e, firstNonEmpty, o).trace
              && conf.user == (if e.user != "" then e.user else c.session.user)
  {
    var conf := ClientConfig(firstNonEmpty(e.user, c.session.user),
                             HostKeyCheck(e, KnownHostsPath), [o.auth.value]);
    assert CreateSession(conf, e) in Connect(c, e, firstNonEmpty, o).trace;
  }
}
