# jruby-http-reactor: completion accounting of the reactor client

This project models the per-connection bookkeeping of the JRuby HTTP reactor
client (`lib/http_reactor/client.rb`). The client connects to a batch of URIs
through Apache HttpCore's non-blocking reactor. It then blocks on a
`CountDownLatch` sized to the batch until every connection has counted it
down. The model covers the parts of the client that decide when a GET is
emitted and when the latch is counted down:

- `RequestExecutionHandler` (module `RequestExecution`). The context's
  attribute bag becomes a `Context` record: target host, target path, and the
  sticky `REQUEST_SENT` and `RESPONSE_RECEIVED` flags. Each callback is a pure
  function from a context to an `Effect`. An effect holds the new context,
  the request handed back to the reactor (if any), and whether
  `count_down()` was called.
- `SessionRequestCallback` (module `SessionCallback`). Says which
  connect outcomes count down.
- `Client#initialize_options` (module `Options`). Ruby `||=` defaulting over a
  hash, with Ruby truthiness: only `nil` and `false` are falsy.
- The connect-time part of `Client#initialize` (module `Client`). This is the
  latch sizing and one connect request per URI, in order.
- The latch (module `Latch`). A `nat` whose `countDown()` is absorbed at zero.
- A sequential replay of the callbacks of one batch (module `Trace`).
  - The reactor's threads are replaced by a trace of events. Each event names
    its connection by the URI's index.
  - A small automaton (`Advance`/`Replay`) states the order in which the
    reactor may fire callbacks for one connection:
    - a cancelled, failed or timed-out connect ends a pending connection;
    - `initalize_context` opens it;
    - any number of `submit_request` calls may follow;
    - at most one `handle_response` arrives;
    - `finalize_context` closes it.
  - The completed-connect report is a no-op. It may arrive at any point
    before an abandonment.
  - The state also holds two logs that the source does not keep: the
    requests handed out and the connection behind each `count_down()` call.
    These logs are how the theorems talk about them.

The main results:

- `Trace.BatchAccounting`. On every admissible trace:
  - the latch never saturates;
  - each abandoned, answered or closed connection has counted down exactly
    once, and every other connection not at all;
  - every request is the GET for its own URI's path;
  - no connection is given more than one request;
  - `await()` would return exactly when every connection has been abandoned,
    answered or closed.
- `Trace.BatchDrains`. Once every connection has reached a terminal outcome,
  each one has counted down exactly once and the latch is at zero.

Two facts about the code shape the model:

- `handle_response` (lib/http_reactor/client.rb:45-52) rescues nothing. A
  handler that raises skips both the flag and the count-down. The model treats
  the handler as an opaque no-op.
- `handle_response` counts down before `finalize_context` runs. So the latch
  can reach zero while answered connections are still open.
  `Trace.BatchAccounting` states when the latch is zero: every connection has
  been abandoned, answered or closed.

## Model

| member | source | states |
|---|---|---|
| Latch.CountDown | lib/http_reactor/client.rb:51 | `countDown()` lowers a positive count by exactly one and leaves a zero count at zero |
| Latch.CountDownTimesSaturates | lib/http_reactor/client.rb:145 | k calls of `countDown()` lower the latch by exactly k up to its count, and once it reaches zero it stays there |
| Latch.ReleasedAfterExactly | lib/http_reactor/client.rb:182 | a latch sized to n releases `await()` after n or more count-downs and never after fewer |
| RequestExecution.InitializeContext | lib/http_reactor/client.rb:17-20 | the context afterwards holds the attachment's host and path, and both flags are as they were |
| RequestExecution.SubmitRequest | lib/http_reactor/client.rb:27-43 | a GET for the stored path is returned iff `REQUEST_SENT` was unset; afterwards the flag is set, host, path and the response flag are unchanged, and the latch is untouched; with the flag already set the context is unchanged |
| RequestExecution.SubmitIdempotent | lib/http_reactor/client.rb:30-42 | a second `submit_request` on the same context returns nil and leaves the context as the first call left it |
| RequestExecution.SubmitAtMostOnce | lib/http_reactor/client.rb:27-43 | n calls in a row emit exactly one request when n > 0 and none was sent before, and none otherwise; any request emitted is the GET for the stored path |
| RequestExecution.HandleResponse | lib/http_reactor/client.rb:45-52 | the response flag is set, nothing else in the context changes, no request is emitted, and the latch is counted down once |
| RequestExecution.FinalizeContext | lib/http_reactor/client.rb:22-25 | counts down exactly when no response was recorded, and never changes the context |
| RequestExecution.ResponseThenFinalizeOnce | lib/http_reactor/client.rb:22-52 | a response followed by teardown makes exactly one count-down in total, and teardown without a response makes exactly one |
| RequestExecution.FlagsMonotone | lib/http_reactor/client.rb:17-52 | no callback clears a `REQUEST_SENT` or `RESPONSE_RECEIVED` flag that is set |
| SessionCallback.CountsDown | lib/http_reactor/client.rb:62-77 | the connect callback counts down exactly for cancelled, failed and timed-out connects, and not for a completed one |
| Options.OrAssign | lib/http_reactor/client.rb:194 | the or-assignment of `d` to key `k` leaves the old value when it is truthy and `d` otherwise, adds `k` to the keys and changes no other key |
| Options.ApplyDefaultsSpec | lib/http_reactor/client.rb:193-201 | a run of or-assignments on distinct keys defaults each key as if it were alone, adds exactly those keys, and keeps every other key |
| Options.InitializeOptions | lib/http_reactor/client.rb:193-201 | each of the six option keys ends up present, with the supplied value when truthy and the default otherwise; every other key is kept as supplied |
| Options.DefaultValues | lib/http_reactor/client.rb:194-199 | the defaults are 5000, 10000, 8192, false and "JRubyHttpReactor" for `so_timeout`, `connection_timeout`, `socket_buffer_size`, `stale_connection_check` and `user_agent` |
| Options.TcpNoDelayAlwaysOn | lib/http_reactor/client.rb:198 | `tcp_nodelay` always ends up truthy, and `true` when it was missing or supplied as a boolean, `false` included |
| Options.StaleCheckKeptIffTruthyOrFalse | lib/http_reactor/client.rb:197 | the supplied `stale_connection_check` is kept exactly when it is truthy or already `false` |
| Options.InitializeOptionsIdempotent | lib/http_reactor/client.rb:193-201 | defaulting an already defaulted hash changes nothing |
| Client.Connects | lib/http_reactor/client.rb:171-178 | one connect request per URI, in URI order, to the URI's host and port, with attachment `{host, path}` from that URI |
| Client.Setup | lib/http_reactor/client.rb:126-178 | the options are defaulted key by key as by `initialize_options` and every other supplied key keeps its value, the latch is sized to the number of URIs and released from the start exactly for an empty batch, and there is one connect per URI, in order, to the URI's host and port with attachment `{host, path}` from that URI |
| Trace.StepPreservesInv | lib/http_reactor/client.rb:17-77 | every callback the reactor may fire keeps the latch equal to the batch size minus the signalled connections, one count-down per signalled connection, and at most one request per connection, for its own path |
| Trace.BatchAccounting | lib/http_reactor/client.rb:17-182 | along any admissible trace the latch never saturates, every signalled connection has counted down exactly once and every other connection not at all, every emitted request is the GET for its own URI's path, no connection gets two requests, and the latch is zero iff every connection is abandoned, answered or closed |
| Trace.BatchDrains | lib/http_reactor/client.rb:145-182 | once every connection is abandoned or closed, each has counted down exactly once, there were exactly N count-downs, and the latch is at zero |
| Scenarios.OneFailedTwoServed | lib/http_reactor/client.rb:22-77 | three URIs, one failed connect and two answered connections: the latch reaches zero with one count-down per connection |
| Scenarios.AllServed | lib/http_reactor/client.rb:22-52 | three URIs, all answered with repeated write readiness: the latch reaches zero with one count-down per connection |
| Scenarios.ResetAfterSend | lib/http_reactor/client.rb:22-25 | a connection torn down after its request but before a response counts down through `finalize_context` |
| Scenarios.EmptyBatch | lib/http_reactor/client.rb:145 | an empty batch starts with a released latch |

## Left out

- The reactor thread, `io_reactor.execute` and `shutdown`, the blocking `request_count.await()`, and the rescue of `InterruptedIOException` and `IOException` (lines 158-169 and 182-188). These are concurrency and I/O. Callback interleavings are modelled as one sequential trace instead.
- The HttpCore objects: `BasicHttpProcessor` and its five interceptors, `BufferingHttpClientHandler`, `DefaultClientIOEventDispatch`, `DefaultConnectingIOReactor`, and `build_params` over `BasicHttpParams` (lines 134-141, 147-152, 156 and 203-218). Their behaviour is in a foreign library. The emitted request is only its method and path (`Get(path)`).
- The `:event_listener` option and `EventLogger` (lines 80-98 and 154). These are informational hooks that never touch the latch. All `puts` output is left out for the same reason.
- `default_handler_proc` and the user's `handler_proc` (lines 127 and 220-238). They read the response over I/O. The handler is treated as a no-op that leaves the context alone. A handler that raises would skip the flag and the count-down in `handle_response`. That path is not modelled.
- RequestExecution.SubmitRequest: on a context that `initalize_context` never filled, the source passes a nil path to `BasicHttpRequest.new`, which fails inside HttpCore. The model returns `Get(None)` there instead. In admissible traces `initalize_context` always comes first, and the trace theorems show every emitted path is present.
- The order of callbacks within one connection is not derived from HttpCore. It is stated as the automaton `Trace.Advance`, and the trace theorems assume the reactor keeps to it. In particular, `handle_response` has no guard of its own against a second call.
- The attachment's host is built from `uri.host` alone (`HttpHost.new(uri.host)`, line 175), and `Host` keeps only that name. The URI's port and scheme never reach it. `InetSocketAddress.new` raising on an out-of-range port or a nil host (line 173) is not modelled: `Uri.port` is any integer and the address is kept as given. No socket or timeout numerics beyond the literal defaults are modelled.
- Options.InitializeOptions: `initialize_options` (lines 130 and 193-201) updates the caller's hash in place, so the caller sees the defaults afterwards; the model returns a new map inside `Client.Batch` instead. Reusing an already defaulted hash changes nothing (`Options.InitializeOptionsIdempotent`). The map is keyed by the symbol's name, so a Ruby symbol key such as `:so_timeout` and a string key `"so_timeout"`, which Ruby keeps apart, are the same key here.
