/** `Client#initialize`, without the reactor thread and the blocking wait:
    the options are defaulted, the latch is sized to the batch, and one
    connect request is issued per URI, in order. */
module Client {
  import opened RequestExecution
  import Options
  import Latch

  datatype Uri = Uri(host: string, port: int, path: string)

  /** `java.net.InetSocketAddress.new(uri.host, uri.port)`. */
  datatype SocketAddress = SocketAddress(host: string, port: int)

  /** One `io_reactor.connect` call: the remote address and the attachment
      (the local address is always nil and the callback a fresh
      `SessionRequestCallback` on the shared latch). */
  datatype ConnectRequest = ConnectRequest(address: SocketAddress, attachment: Attachment)

  datatype Batch = Batch(options: Options.Options, latch: nat, connects: seq<ConnectRequest>)

  /** The connect request for one URI. */
  function ConnectFor(u: Uri): ConnectRequest {
    ConnectRequest(SocketAddress(u.host, u.port), Attachment(Host(u.host), u.path))
  }

  /** `uris.each { |uri| io_reactor.connect(...) }`. */
  function Connects(uris: seq<Uri>): (r: seq<ConnectRequest>)
    ensures |r| == |uris|
    ensures forall i :: 0 <= i < |uris| ==>
              && r[i].address == SocketAddress(uris[i].host, uris[i].port)
              && r[i].attachment == Attachment(Host(uris[i].host), uris[i].path)
  {
    if uris == [] then []
    else Connects(uris[..|uris| - 1]) + [ConnectFor(uris[|uris| - 1])]
  }

  /** The connect-time part of `Client#initialize`. */
  function Setup(uris: seq<Uri>, options: Options.Options): (b: Batch)
    ensures b.latch == |uris|
    ensures |b.connects| == |uris|
    ensures forall i :: 0 <= i < |uris| ==>
              && b.connects[i].address == SocketAddress(uris[i].host, uris[i].port)
              && b.connects[i].attachment == Attachment(Host(uris[i].host), uris[i].path)
    ensures Latch.Released(b.latch) <==> uris == []
    ensures forall i :: 0 <= i < |Options.Defaults| ==>
              Options.Get(b.options, Options.Defaults[i].0)
                == Options.Defaulted(options, Options.Defaults[i].0, Options.Defaults[i].1)
    ensures b.options.Keys == options.Keys + Options.KeysOf(Options.Defaults)
    ensures forall k :: (forall i :: 0 <= i < |Options.Defaults| ==> Options.Defaults[i].0 != k) ==>
              Options.Get(b.options, k) == Options.Get(options, k)
  {
    Batch(Options.InitializeOptions(options), |uris|, Connects(uris))
  }

  /** The attachments handed to the reactor, indexed like the URIs. */
  function Attachments(b: Batch): seq<Attachment> {
    seq(|b.connects|, i requires 0 <= i < |b.connects| => b.connects[i].attachment)
  }
}
