/** The directory listing and the session-exit state machine.

    `model` shows the endpoints that pass `Valid()`; Enter hands the selected
    endpoint to `noopModel` through a `connectMsg`, and `noopModel` connects,
    prints the outcome on the inbound session and exits it with a status.
    The list component itself is a collaborator: what it reports as selected,
    and what its own `Update` does, are parameters. */
module Wishlist {
  import opened Outcomes
  import opened Sessions
  import opened Format
  import RemoteClient

  const ListTitle: string := "Directory Listing"

  /** The keys bound to the SSH action. */
  const EnterKeys: seq<string> := ["enter"]

  newtype int64 = x: int | -0x8000_0000_0000_0000 <= x < 0x8000_0000_0000_0000

  /** The state of the list component this model reads or sets. */
  datatype ListState = ListState(items: seq<Endpoint>, title: string, width: int, height: int)

  /** `model`: the list, every endpoint (valid or not), and the inbound session. */
  datatype Model = Model(list: ListState, endpoints: seq<Endpoint>, session: Inbound)

  /** The messages the models react to; `OtherMsg` stands for every other message. */
  datatype Msg =
    | KeyMsg(key: string)
    | WindowSizeMsg(width: int, height: int)
    | ConnectMsg(sess: Inbound, name: string, addr: string)
    | OtherMsg(tag: nat)

  /** A command: none, one that yields a message, or one the list component returned. */
  datatype Cmd = NoCmd | Yield(msg: Msg) | ListCmd(tag: nat)

  /** The program's current `tea.Model`. */
  datatype App = Listing(model: Model) | Noop

  /** What `Update` returns; `Panic` when the type assertion on the selected item fails. */
  datatype Step = Step(app: App, cmd: Cmd) | Panic

  /** lipgloss margins, in the order `GetMargin` returns them. */
  datatype Margins = Margins(top: int, right: int, bottom: int, left: int)

  /** docStyle's `Margin(1, 2)`: one cell above and below, two left and right. */
  const DocMargins: Margins := Margins(1, 2, 1, 2)

  /** The endpoints for which `valid` holds, in their original order. */
  function ValidEndpoints(endpoints: seq<Endpoint>, valid: Endpoint -> bool): seq<Endpoint>
  {
    if endpoints == [] then []
    else (if valid(endpoints[0]) then [endpoints[0]] else []) + ValidEndpoints(endpoints[1..], valid)
  }

  lemma {:induction false} ValidEndpointsAppend(endpoints: seq<Endpoint>, e: Endpoint, valid: Endpoint -> bool)
    ensures ValidEndpoints(endpoints + [e], valid)
         == ValidEndpoints(endpoints, valid) + (if valid(e) then [e] else [])
  {
    if endpoints == [] {
      assert [e][1..] == [];
    } else {
      assert (endpoints + [e])[1..] == endpoints[1..] + [e];
      ValidEndpointsAppend(endpoints[1..], e, valid);
    }
  }

  /** `a` is `b` with some elements dropped: the order of what remains is kept. */
  predicate Subsequence(a: seq<Endpoint>, b: seq<Endpoint>)
    decreases |b|
  {
    if a == [] then true
    else if b == [] then false
    else (a[0] == b[0] && Subsequence(a[1..], b[1..])) || Subsequence(a, b[1..])
  }

  /** The listing holds each valid endpoint as often as it occurs among all
      endpoints, and no endpoint that is not valid. */
  lemma {:induction false} ValidEndpointsCounts(endpoints: seq<Endpoint>, valid: Endpoint -> bool)
    ensures forall x :: multiset(ValidEndpoints(endpoints, valid))[x]
                     == (if valid(x) then multiset(endpoints)[x] else 0)
  {
    if endpoints != [] {
      ValidEndpointsCounts(endpoints[1..], valid);
      assert endpoints == [endpoints[0]] + endpoints[1..];
      assert multiset(endpoints) == multiset([endpoints[0]]) + multiset(endpoints[1..]);
    }
  }

  /** An endpoint is listed exactly when it is one of the endpoints and valid. */
  lemma ValidEndpointsMembers(endpoints: seq<Endpoint>, valid: Endpoint -> bool)
    ensures forall x :: x in ValidEndpoints(endpoints, valid) <==> x in endpoints && valid(x)
  {
    ValidEndpointsCounts(endpoints, valid);
    forall x
      ensures x in ValidEndpoints(endpoints, valid) <==> x in endpoints && valid(x)
    {
      assert x in ValidEndpoints(endpoints, valid) <==> x in multiset(ValidEndpoints(endpoints, valid));
      assert x in endpoints <==> x in multiset(endpoints);
    }
  }

  /** The listing keeps the endpoints' original order. */
  lemma {:induction false} ValidEndpointsInOrder(endpoints: seq<Endpoint>, valid: Endpoint -> bool)
    ensures Subsequence(ValidEndpoints(endpoints, valid), endpoints)
  {
    if endpoints != [] {
      ValidEndpointsInOrder(endpoints[1..], valid);
      var v := ValidEndpoints(endpoints, valid);
      var rest := ValidEndpoints(endpoints[1..], valid);
      if valid(endpoints[0]) {
        assert v[0] == endpoints[0] && v[1..] == rest;
      } else {
        assert v == rest;
      }
    }
  }

  /** `newListing`: a list of the valid endpoints titled "Directory Listing",
      not yet sized, while the model keeps every endpoint. */
  method NewListing(endpoints: seq<Endpoint>, s: Inbound, valid: Endpoint -> bool) returns (m: Model)
    ensures m.list.items == ValidEndpoints(endpoints, valid)
    ensures forall x :: x in m.list.items <==> x in endpoints && valid(x)
    ensures m.list.title == ListTitle && m.list.width == 0 && m.list.height == 0
    ensures m.endpoints == endpoints && m.session == s
  {
    var items: seq<Endpoint> := [];
    for i := 0 to |endpoints|
      invariant items == ValidEndpoints(endpoints[..i], valid)
    {
      ValidEndpointsAppend(endpoints[..i], endpoints[i], valid);
      assert endpoints[..i + 1] == endpoints[..i] + [endpoints[i]];
      if valid(endpoints[i]) {
        items := items + [endpoints[i]];
      }
    }
    assert endpoints[..|endpoints|] == endpoints;
    ValidEndpointsMembers(endpoints, valid);
    m := Model(ListState(items, ListTitle, 0, 0), endpoints, s);
  }

  /** `toAddress`: the listen host and the port as `host:port`. */
  function ToAddress(listen: string, port: int64): (a: string)
    ensures SplitAddress(a) == Some((listen, port as int))
    ensures |a| > |listen| && a[..|listen|] == listen && a[|listen|] == ':'
  {
    SplitJoinedAddress(listen, port as int);
    listen + ":" + Decimal(port as int)
  }

  /** Hands a message to the list component and keeps what it returns. */
  function Delegate(m: Model, msg: Msg, listUpdate: (ListState, Msg) -> (ListState, Cmd)): Step
  {
    var (l, cmd) := listUpdate(m.list, msg);
    Step(Listing(m.(list := l)), cmd)
  }

  predicate IsEnter(msg: Msg)
  {
    msg.KeyMsg? && msg.key in EnterKeys
  }

  /** `model.Update`. `selected` is what the list reports as its selected item
      (`None` when it has none); `listUpdate` is the list's own `Update`. */
  function Update(m: Model, msg: Msg, selected: Option<Endpoint>,
                  listUpdate: (ListState, Msg) -> (ListState, Cmd)): (r: Step)
    ensures IsEnter(msg) && selected.Some? ==>
      && r.Step? && r.app == Noop && r.cmd.Yield? && r.cmd.msg.ConnectMsg?
      && r.cmd.msg.sess == m.session
      && r.cmd.msg.name == selected.value.name
      && r.cmd.msg.addr == selected.value.address
    ensures IsEnter(msg) && selected.None? ==> r.Panic?
    ensures msg.WindowSizeMsg? ==>
      var sized := ListState(m.list.items, m.list.title, msg.width - 4, msg.height - 2);
      r == Step(Listing(Model(listUpdate(sized, msg).0, m.endpoints, m.session)), listUpdate(sized, msg).1)
    ensures !IsEnter(msg) && !msg.WindowSizeMsg? ==>
      r == Step(Listing(Model(listUpdate(m.list, msg).0, m.endpoints, m.session)), listUpdate(m.list, msg).1)
    ensures !IsEnter(msg) ==>
      && r.Step? && r.app.Listing?
      && r.app.model.endpoints == m.endpoints && r.app.model.session == m.session
  {
    match msg
    case KeyMsg(k) =>
      if k in EnterKeys then
        match selected
        case None => Panic
        case Some(e) => Step(Noop, Yield(ConnectMsg(m.session, e.name, e.address)))
      else Delegate(m, msg, listUpdate)
    case WindowSizeMsg(w, h) =>
      var Margins(top, right, bottom, left) := DocMargins;
      Delegate(m.(list := m.list.(width := w - left - right, height := h - top - bottom)), msg, listUpdate)
    case _ => Delegate(m, msg, listUpdate)
  }

  /** What `noopModel` logs. */
  datatype LogLine = Connecting(addr: string) | Finished(name: string, addr: string) | Ignored(msg: Msg)

  /** Effects on the inbound session, and log lines. */
  datatype SessionEffect = Log(line: LogLine) | Print(sess: Inbound, text: string) | Exit(sess: Inbound, code: int)

  /** What `noopModel.Update` does; the model itself stays `noopModel{}`. */
  datatype NoopRun = NoopRun(effects: seq<SessionEffect>, cmd: Cmd)

  const ClosedPrefix: string := "Closed connection to "

  /** `fmt.Sprintf("Closed connection to %q (%s)\n", name, addr)`. */
  function ClosedLine(name: string, addr: string): string
  {
    ClosedPrefix + Quote(name) + " (" + addr + ")\n"
  }

  /** `noopModel.Update`. `connect` is the connection the message asks for. */
  function NoopUpdate(msg: Msg, connect: (Inbound, string) -> Outcome): (r: NoopRun)
    ensures r.cmd == NoCmd
    ensures msg.ConnectMsg? ==>
      && |r.effects| >= 2
      && r.effects[|r.effects| - 1] == Exit(msg.sess, if connect(msg.sess, msg.addr).Ok? then 0 else 1)
      && forall i :: 0 <= i < |r.effects| - 1 ==> !r.effects[i].Exit?
    ensures msg.ConnectMsg? && connect(msg.sess, msg.addr).Err? ==>
      r.effects[|r.effects| - 2] == Print(msg.sess, connect(msg.sess, msg.addr).error.Text() + "\n")
    ensures msg.ConnectMsg? && connect(msg.sess, msg.addr).Ok? ==>
      r.effects[|r.effects| - 2] == Print(msg.sess, ClosedLine(msg.name, msg.addr))
    ensures !msg.ConnectMsg? ==> forall i :: 0 <= i < |r.effects| ==> r.effects[i].Log?
  {
    match msg
    case ConnectMsg(sess, name, addr) =>
      var start := [Log(Connecting(addr))];
      (match connect(sess, addr)
       case Err(err) =>
         NoopRun(start + [Print(sess, err.Text() + "\n"), Exit(sess, 1)], NoCmd)
       case Ok =>
         NoopRun(start + [Log(Finished(name, addr)), Print(sess, ClosedLine(name, addr)), Exit(sess, 0)], NoCmd))
    case _ =>
      NoopRun([Log(Ignored(msg))], NoCmd)
  }

  /** The closing line names the endpoint so that it reads back exactly: the
      quoted name between the fixed prefix and " (" unquotes to the name. */
  lemma ClosedLineNamesEndpoint(name: string, addr: string)
    ensures var line := ClosedLine(name, addr); var q := Quote(name);
      && line[..|ClosedPrefix|] == ClosedPrefix
      && line[|ClosedPrefix|..|ClosedPrefix| + |q|] == q
      && Unquote(line[|ClosedPrefix|..|ClosedPrefix| + |q|]) == Some(name)
      && line[|ClosedPrefix| + |q|..] == " (" + addr + ")\n"
  {
    QuoteRoundTrip(name);
  }

  /** Enter on a listing built from the endpoints connects only to a valid one:
      the selected item's address is dialled on the model's own session, and
      that session is exited with status 0 exactly when the connection succeeded. */
  lemma EnterConnectsToValidEndpoint(m: Model, valid: Endpoint -> bool, e: Endpoint,
                                     listUpdate: (ListState, Msg) -> (ListState, Cmd),
                                     connect: (Inbound, string) -> Outcome)
    requires m.list.items == ValidEndpoints(m.endpoints, valid)
    requires e in m.list.items
    ensures var r := Update(m, KeyMsg("enter"), Some(e), listUpdate);
      && r.Step? && r.app == Noop && r.cmd.Yield?
      && exists x :: x in m.endpoints && valid(x) && r.cmd.msg == ConnectMsg(m.session, x.name, x.address)
    ensures var r := Update(m, KeyMsg("enter"), Some(e), listUpdate);
      var n := NoopUpdate(r.cmd.msg, connect);
      n.effects[|n.effects| - 1] == Exit(m.session, if connect(m.session, e.address).Ok? then 0 else 1)
  {
    ValidEndpointsMembers(m.endpoints, valid);
  }

  /** When the connection is the proxy's Connect, run on the session and
      address the message carries, the inbound session exits
      with status 0 exactly when every stage and the remote shell succeeded,
      and a failed stage prints its own context before the cause. */
  lemma ExitMirrorsConnect(sess: Inbound, name: string, addr: string, c: RemoteClient.Client,
                           e: Endpoint, firstNonEmpty: (string, string) -> string, o: RemoteClient.Oracles)
    ensures var n := NoopUpdate(ConnectMsg(sess, name, addr),
                                (s: Inbound, a: string) =>
                                  RemoteClient.Connect(RemoteClient.Client(s, c.stdin), e.(address := a), firstNonEmpty, o).result);
      && (n.effects[|n.effects| - 1] == Exit(sess, 0)
          <==> o.auth.Success? && o.session.Ok? && o.pty.Ok? && o.shell.Ok?)
      && (o.auth.Failure? ==>
            n.effects[|n.effects| - 2] == Print(sess, RemoteClient.AuthFailed + ": " + o.auth.error.Text() + "\n"))
      && (o.auth.Success? && o.session.Err? ==>
            n.effects[|n.effects| - 2] == Print(sess, RemoteClient.SessionFailed + ": " + o.session.error.Text() + "\n"))
      && (o.auth.Success? && o.session.Ok? && o.pty.Err? ==>
            n.effects[|n.effects| - 2] == Print(sess, RemoteClient.PtyFailed + ": " + o.pty.error.Text() + "\n"))
  {
  }
}
