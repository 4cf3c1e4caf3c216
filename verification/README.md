# Wishlist session proxy — a Dafny model

Wishlist is an SSH directory: a user connected to it picks an endpoint from a
list and is proxied into a fresh outbound SSH session to that endpoint. This
project models the control flow layered on top of the SSH library:

- **`remoteClient.Connect`** (module `RemoteClient`) as a stage machine: terminal
  reset, auth-method resolution, session creation, stdio wiring, pty request,
  start of the window-change relay, shell. The SSH library calls
  (`remoteBestAuthMethod`, `createSession`, `RequestPty`, `shellAndWait`) are
  oracle answers (`Oracles`). Connect returns a trace of effects and its error
  result. Go's `defer` is an explicit stack of deferred actions (release the
  auth closers, release the session closers, send on `done`) that `Unwind`
  runs last-registered first on every return path.
- **`notifyWindowChanges`** (module `WindowRelay`) as a loop over a finite
  sequence of events (`Done`, or a resize carrying what `WindowChange`
  answers for it), checked against a recursive fold.
- **`resetPty`**: the three control sequences, as tokens, that open every Connect trace.
- **The listing** (module `Wishlist`): `newListing`'s filtering by an abstract
  `valid` predicate, `toAddress`, `model.Update` (Enter and window-size),
  `noopModel.Update` (connect outcome to output line and exit status).
- **Endpoint accessors** (module `Sessions`): `Title`, `Description`, `FilterValue`.
- **`fmt` verbs** the listing prints with (module `Format`): `%d` with a reader
  for it, `%q` with a reader for it, and splitting `host:port` at its last colon.

Functions that are not shown in the source are parameters: `firstNonEmpty`
is a function argument of `Connect` (its "first non-empty" contract is the
hypothesis `FirstNonEmptyLaw` of `OutboundUser`), `Endpoint.Valid` is the
`valid` argument of `NewListing`, the `connect(sess, addr)` of `noopModel` is
the `connect` argument of `NoopUpdate`, and the list component's
`SelectedItem` and `Update` are the `selected` and `listUpdate` arguments of
`Update`.

Notes on what the code does:

- Connect returns the error of `shellAndWait` unwrapped; only the auth,
  session and pty stages add a context (client_remote.go:56).
- `noopModel` exits the inbound session with status 1 on any connect error
  and 0 otherwise; the remote command's own exit status is not relayed
  (wishlist.go:105-112).
- Enter while the list has no selected item reaches a type assertion on a
  nil interface (wishlist.go:74), which panics in Go; `Update` returns `Panic` there.

## Model

| member | source | states |
|---|---|---|
| `RemoteClient.Connect` | client_remote.go:18-57 | the first three effects are the terminal reset; each failing stage returns its cause wrapped with that stage's own context ("failed to find an auth method", "failed to create session", "failed to request pty"); once the pty is granted the result is exactly what `shellAndWait` returned |
| `RemoteClient.ConnectResetsTerminalFirst` | client_remote.go:77-81 | `resetPty` (modelled by `ResetPty`) writes exit-alternate-screen, reset-attributes, erase-display(2), in that order, and Connect makes these three writes before anything else, whatever the collaborators answer |
| `RemoteClient.UnwindReverses` | client_remote.go:22-52 | deferred actions run once each, in exactly the reverse of their registration order |
| `RemoteClient.ConnectFollowsPipeline` | client_remote.go:18-57 | every Connect trace is a prefix of the fixed stage sequence, cut right after the first failing stage, followed by the unwinding of exactly the defers reached so far |
| `RemoteClient.ConnectReleasesEachOnce` | client_remote.go:21-56 | for any oracle answers, each registered deferred action runs exactly once, all of them after every stage effect, and unregistered ones never run |
| `RemoteClient.AuthFailureReleasesAuthClosers` | client_remote.go:21-25 | when no auth method is found, no session is created and the auth closers are released anyway, as the last effect |
| `RemoteClient.SessionFailureReleasesBoth` | client_remote.go:33-37 | when session creation fails, no pty is requested and the session's closers are released before the auth closers |
| `RemoteClient.PtyFailureStartsNothing` | client_remote.go:45-54 | when the pty request fails, the relay is not started, the shell is not run and `done` is never sent, while both closer sets are released, session's first |
| `RemoteClient.ShellPathReleasesInOrder` | client_remote.go:51-56 | on the shell path Connect ends with: relay started, shell run, `done` sent, session closers released, auth closers released |
| `RemoteClient.ShellPathRunsEachDeferredOnce` | client_remote.go:22-56 | on the shell path each of the three deferred actions runs exactly once |
| `RemoteClient.OutboundUser` | client_remote.go:27-31 | the outbound user is the endpoint's user when non-empty and the inbound session's user otherwise, given that `firstNonEmpty` picks the first non-empty string |
| `WindowRelay.NotifyWindowChanges` | client_remote.go:59-75 | the loop agrees with the reference fold; what it forwards is a prefix of the events, each with the event's own height and width |
| `WindowRelay.FoldStopsAtStopIndex` | client_remote.go:60-74 | the relay forwards every event before the first Done, 0/0 or failed forward, also forwards the failing resize itself, and reports the stopping event's reason |
| `WindowRelay.ForwardedArePrefix` | client_remote.go:60-74 | forwarded sizes are the sizes of the leading events of the input, in input order, all of them real resizes |
| `WindowRelay.NothingForwardedPastStop` | client_remote.go:62-71 | nothing is forwarded at or after a Done or a 0/0 event, nor after the first forward that fails |
| `WindowRelay.OnlyZeroZeroIsSentinel` | client_remote.go:65-68 | a resize with a single zero dimension is forwarded and the relay goes on |
| `WindowRelay.AllForwardedWhenNoStop` | client_remote.go:69-72 | a run of successful real resizes is forwarded in full |
| `Wishlist.NewListing` | wishlist.go:21-38 | the list holds exactly the valid endpoints, titled "Directory Listing" and unsized, while the model keeps all endpoints and the session |
| `Wishlist.ValidEndpointsCounts` | wishlist.go:22-27 | each valid endpoint is listed as often as it occurs among the endpoints; invalid ones never |
| `Wishlist.ValidEndpointsMembers` | wishlist.go:22-27 | an endpoint is listed if and only if it is one of the endpoints and valid |
| `Wishlist.ValidEndpointsInOrder` | wishlist.go:22-27 | the listed endpoints keep their original relative order |
| `Sessions.Title` | wishlist.go:46-48 | the title and the filter value (`FilterValue`) of an endpoint are the same text, so the list filters on what it shows |
| `Sessions.Description` | wishlist.go:47 | the description is "ssh://" followed by exactly the endpoint's address |
| `Wishlist.ToAddress` | wishlist.go:91-93 | the listen host, a colon and the decimal port, which splits back at its last colon into the same host and port |
| `Format.DecimalRoundTrip` | wishlist.go:92 | the decimal form of any integer reads back as that integer |
| `Format.SplitJoinedAddress` | wishlist.go:91-93 | joining any host and any port with ":" splits back into the same host and port, even when the host holds colons |
| `Outcomes.Wrap` | client_remote.go:24 | a wrapped error unwraps to its cause and its text is the context, ": ", then the cause's text |
| `Wishlist.Update` | wishlist.go:70-85 | Enter switches to `noopModel` with a command yielding a `connectMsg` for the same session and the selected endpoint's name and address (a panic if nothing is selected); a window-size message hands the list its items and title with the window's width less 4 and height less 2 (the style's 1/2/1/2 margins) and keeps what the list returns; other messages go to the list unchanged and the model keeps what it returns; the endpoints and session are kept |
| `Wishlist.NoopUpdate` | wishlist.go:98-117 | on a `connectMsg` the session gets exactly one exit, as the last effect, with status 0 exactly when the connection succeeded, right after the error text and a newline or the closing line; other messages only log; the command is always nil |
| `Wishlist.ClosedLineNamesEndpoint` | wishlist.go:111 | the closing line holds the endpoint name quoted so that it reads back exactly, then the address in parentheses |
| `Format.QuoteRoundTrip` | wishlist.go:111 | the `%q` form of any string reads back as that string |
| `Wishlist.EnterConnectsToValidEndpoint` | wishlist.go:72-76 | Enter on a listing built from the endpoints only ever connects to a valid endpoint, on the model's own session, and that session's exit status reports the connection's outcome |
| `Wishlist.ExitMirrorsConnect` | wishlist.go:105-112 | when the connection is the proxy's Connect run on the message's session and address, the inbound session exits with 0 exactly when every stage and the shell succeed, and a failing stage prints its context before its cause |

## Left out

- `remoteBestAuthMethod`, `createSession`, `hostKeyCallback`, `shellAndWait` and the `connect` used by `noopModel`: their code is not part of this model; they are oracle answers or parameters. The trust-on-first-use host-key policy and known_hosts file I/O live in them and are not modelled.
- `firstNonEmpty` and `Endpoint.Valid`: their bodies are not part of this model; they are parameters, and `FirstNonEmptyLaw` states the contract assumed of the first.
- `multiplex`: only its test is available, so the stream multiplexer is not modelled.
- Concurrency: the relay goroutine, the `select`, the buffered `done` channel and the relay outliving Connect are modelled as a sequential fold over a finite event sequence; `OutOfEvents` stands for the goroutine blocking on an empty channel.
- The list, style and rendering libraries: `View`, `Init` (both models return a nil command), the help-key binding, and the list's own filtering, cursor and `Update` are not modelled beyond the `selected` and `listUpdate` parameters; the list state keeps only its items, title and size.
- Log lines are abstract tokens; their text is not modelled. The escape bytes of termenv's sequences are tokens as well.
- The writes of stdio wiring are one `Wire` effect naming where each stream goes; no bytes are relayed.
- Format.Quote: escapes `"`, `\`, the letter escapes and ASCII control characters as `strconv.Quote` does, but passes non-ASCII non-printable characters through unescaped, because Go's printability table is not modelled.
- Integer widths: the port of `toAddress` is a 64-bit integer as in the source and its decimal form cannot overflow; window sizes are unbounded integers.
