/** The inbound SSH session as far as the proxy and the listing read it, and
    the endpoints they connect to. */
module Sessions {

  /** A terminal size, as `ssh.Window` carries it. */
  datatype Window = Window(height: int, width: int)

  /** What `Pty()` reports for the inbound session: terminal type and initial size. */
  datatype Pty = Pty(term: string, window: Window)

  /** The inbound `ssh.Session`. `id` tells one session handle from another, so
      that "the same session" can be stated. */
  datatype Inbound = Inbound(id: nat, user: string, remoteAddr: string, pty: Pty)

  /** A named proxy target: a display name, a "host:port" address and an
      optional user override (empty when none). */
  datatype Endpoint = Endpoint(name: string, address: string, user: string)

  const SchemePrefix: string := "ssh://"

  /** The list item title shown for an endpoint. */
  function Title(e: Endpoint): (t: string)
    ensures t == FilterValue(e)
  {
    e.name
  }

  /** The text the list's fuzzy filter matches an endpoint against: its name. */
  function FilterValue(e: Endpoint): string
  {
    e.name
  }

  /** The list item description: the endpoint's address as an ssh:// URL. */
  function Description(e: Endpoint): (d: string)
    ensures |d| == |SchemePrefix| + |e.address|
    ensures d[..|SchemePrefix|] == SchemePrefix
    ensures d[|SchemePrefix|..] == e.address
  {
    SchemePrefix + e.address
  }
}
