# Stream server bridge, modelled in Dafny

The ESPHome `stream_server` component bridges a UART (any byte stream) to
any number of TCP clients. This model covers the component's runtime logic
in `components/stream_server/stream_server.cpp`:

- **Admission.** Accepted connections are admitted into a registry of clients.
- **Per-client callbacks.** Error, disconnect and timeout raise a client's
  `disconnected` flag. Data is appended to one inbound buffer shared by all
  clients.
- **The tick.** `loop` runs three steps in a fixed order:
  - `cleanup` reaps the disconnected clients through `std::partition` and `erase`;
  - `read` drains the UART in chunks of at most 1024 bytes and broadcasts each chunk to every client;
  - `write` flushes the shared buffer to the UART in one block and clears it.
- **Shutdown.** `on_shutdown` force-closes every connection.

The code updates state in place, so the model is imperative:

- `StreamServerComponent` is a class. Its fields are `clients` (the registry), `recvBuf` (`recv_buf_`) and `stream`.
- `Client` is a class holding its connection, a reference to the shared buffer and the `disconnected` flag.
- The asynchronous callbacks become methods. A caller interleaves them between ticks.

Files:

- `transport.dfy`, module `Transport`, models the two drivers the component talks to, reduced to the bytes they carry:
  - a `UartStream` holds the input not read yet, the blocks taken from it (one per `read_array` call), the bytes written to it and the blocks handed to `write_array` (one per call);
  - a `Connection` holds the bytes sent through it, the blocks handed to `write` (one per call) and whether it was closed.
- `stream_server.dfy`, module `StreamServer`, holds the component and its specification functions:
  - `Survivors(cs, dead)` is an order-preserving filter that serves as the reference for what `cleanup` keeps;
  - `Disconnected(cs)` is the set of flagged clients;
  - `ChunksOf(input)` is the chunks `read` drains the input in;
  - `Flatten` joins chunks back together; it is a left inverse of `ChunksOf` (`Flatten(ChunksOf(x)) == x`).
- `scenarios.dfy`, module `Scenarios`, holds whole runs of the component, from setup through callbacks and ticks, with their outcomes stated as postconditions.

`std::partition` is not stable, so `cleanup` promises the survivors as a multiset, not in order.

- **How it is modelled.** The model uses the two-index exchange the C++ library uses for bidirectional iterators. It is proved to return a permutation that is split into a live prefix and a disconnected suffix.
- **Survivors.** A separate lemma shows that the live prefix of any such permutation holds exactly the survivors of the original registry.
- **All-live registry.** When no client is disconnected, the exchange moves nothing. That is what makes a second `cleanup` a no-op.

Two consequences of the code are worth stating:

- **Registry order.** `std::partition` does not keep connection order, so after a reap the registry may be reordered.
- **Disconnect after shutdown.** A disconnect reported after `on_shutdown` raises the client's flag, and the next `cleanup` reaps that client.

## Model

| member | source | states |
|---|---|---|
| Transport.UartStream.Available | components/stream_server/stream_server.cpp:58 | `available()` reports exactly the number of bytes waiting to be read |
| Transport.UartStream.ReadArray | components/stream_server/stream_server.cpp:62 | `read_array(buf, len)` puts the next `len` waiting bytes into `buf`, in order, removes them from the input and records them as one block taken. The rest of `buf` and everything written are untouched |
| Transport.UartStream.WriteArray | components/stream_server/stream_server.cpp:71 | `write_array` appends the whole block to the UART's output, records it as one block written, and leaves the input alone |
| Transport.Connection.Write | components/stream_server/stream_server.cpp:64 | `write(buf, len)` appends exactly the first `len` bytes of `buf` to what the connection has sent, records them as one block, and leaves `closed` as it was |
| Transport.Connection.Close | components/stream_server/stream_server.cpp:85 | `close(true)` leaves the connection closed and sends nothing |
| StreamServer.Client.constructor | components/stream_server/stream_server.cpp:88-89 | a new client holds the connection it was given and the shared buffer, and starts not disconnected |
| StreamServer.Client.OnEnd | components/stream_server/stream_server.cpp:92-94 | the error, disconnect and timeout callbacks leave the flag raised whatever its value before, so they are idempotent and never lower it |
| StreamServer.Client.OnData | components/stream_server/stream_server.cpp:96-103 | a zero-length or null payload leaves the shared buffer unchanged; any other payload is appended to its end byte for byte, in order |
| StreamServer.SurvivorsMembership | components/stream_server/stream_server.cpp:48-53 | a client is among the survivors of a registry if and only if it is in the registry and not disconnected |
| StreamServer.SurvivorsOfPermutation | components/stream_server/stream_server.cpp:49 | reordering a registry changes neither which clients survive nor how many times each does |
| StreamServer.SurvivorsAreLive | components/stream_server/stream_server.cpp:49-53 | after any partition of the registry into a live prefix and a disconnected suffix, the prefix is, as a multiset, exactly the survivors. Its length is their number, and it holds exactly the live clients of the original registry |
| StreamServer.KeptConns | components/stream_server/stream_server.cpp:53 | keeping part of a registry keeps a subset of its connections, still with no two clients sharing one |
| StreamServer.Swap | components/stream_server/stream_server.cpp:49 | exchanging two clients is a permutation that leaves every other position alone and keeps connections distinct |
| StreamServer.Partition | components/stream_server/stream_server.cpp:48-49 | `std::partition` on "not disconnected" returns a permutation of the registry whose first `mid` clients are live and whose others are disconnected. It keeps connections distinct and moves nothing when no client is disconnected |
| StreamServer.ReapedOwnNoSurvivorConnection | components/stream_server/stream_server.cpp:41-45 | since every client owns its connection, no survivor shares a connection with a reaped client, so a broadcast to the survivors cannot reach a reaped client |
| StreamServer.FlattenChunksOf | components/stream_server/stream_server.cpp:57-62 | joining the chunks `read` takes gives back the drained input, byte for byte |
| StreamServer.ChunksOfBounds | components/stream_server/stream_server.cpp:57-62 | every chunk holds between 1 and 1024 bytes, and only the last one can be short |
| StreamServer.DrainStep | components/stream_server/stream_server.cpp:58-62 | one pass of the `read` loop takes the next chunk of the input and leaves exactly the chunks of what remains |
| StreamServer.StreamServerComponent.constructor | components/stream_server/stream_server.cpp:27-29 | `setup` starts with an empty registry and an empty, freshly allocated inbound buffer |
| StreamServer.StreamServerComponent.OnClient | components/stream_server/stream_server.cpp:33-38 | a null connection leaves the registry unchanged; any other appends exactly one fresh, not disconnected client holding that connection, and leaves the clients already registered in place |
| StreamServer.StreamServerComponent.Loop | components/stream_server/stream_server.cpp:41-45 | after one tick the registry holds exactly the clients that were live at its start. Each of them was sent all of the UART input, as one `write` per `ChunksOf` chunk. A client flagged before the tick was sent nothing. No connection's `closed` flag changes. The UART input was taken by one `read_array` per `ChunksOf` chunk, and the buffer accumulated before the tick is flushed to the UART by one `write_array` call (none if it was empty) and emptied |
| StreamServer.StreamServerComponent.Cleanup | components/stream_server/stream_server.cpp:47-54 | the remaining clients are, as a multiset, exactly the clients not disconnected before the call, so their count is the number of those clients. None of them is disconnected, and every live client remains. A registry with no disconnected client is left unchanged |
| StreamServer.StreamServerComponent.Read | components/stream_server/stream_server.cpp:56-66 | the UART input is drained completely, by one `read_array` per chunk of `ChunksOf`, so (by `ChunksOfBounds`) every read takes 1 to 1024 bytes. Every registered client's connection is sent exactly the drained bytes, in order, by one `write` per chunk. No connection's `closed` flag changes. The registry, the inbound buffer and the UART's output are untouched |
| StreamServer.StreamServerComponent.Broadcast | components/stream_server/stream_server.cpp:63-64 | every registered client's connection is sent exactly the first `len` bytes of the chunk, as one block, and keeps its `closed` flag |
| StreamServer.StreamServerComponent.Write | components/stream_server/stream_server.cpp:68-74 | a non-empty inbound buffer is appended to the UART's output by exactly one `write_array` call; an empty one causes no call and leaves the output unchanged. Either way the buffer is then empty and the UART input is untouched |
| StreamServer.StreamServerComponent.OnShutdown | components/stream_server/stream_server.cpp:83-86 | every registered client's connection is closed, and nothing is sent |
| Scenarios.PingIsFlushedOnce | components/stream_server/stream_server.cpp:41-45 | a client sends "ping": the next tick writes it to the UART in exactly one `write_array` call and empties the buffer, and a further tick makes no call |
| Scenarios.HelloReachesOnlyLiveClients | components/stream_server/stream_server.cpp:41-54 | with A and B live and C disconnected, a tick delivers "hello" to A and B, keeps both registered, delivers nothing to C and reaps it |
| Scenarios.TimeoutAfterBroadcast | components/stream_server/stream_server.cpp:41-54 | a client that times out after a tick's broadcast keeps the bytes it received and is reaped by the next tick |
| Scenarios.ShutdownClosesAll | components/stream_server/stream_server.cpp:83-94 | shutdown with two clients closes both connections; a disconnect reported afterwards only raises the client's flag |
| Scenarios.ClosedStaysClosed | components/stream_server/stream_server.cpp:41-45 | a tick after shutdown leaves the connections closed, though the broadcast still writes to them |
| Scenarios.BurstIsSentInTwoWrites | components/stream_server/stream_server.cpp:56-66 | 1500 bytes on the UART reach a client as two writes, of 1024 and 476 bytes |
| Scenarios.CleanupIsIdempotent | components/stream_server/stream_server.cpp:47-54 | with no callback in between, a second `cleanup` leaves the registry exactly as the first one left it, and that registry is, as a multiset, the survivors of the registry before the first |

## Left out

- Logging (`ESP_LOGD`, `ESP_LOGCONFIG`) and `dump_config` with its IP-address lookup, because they are diagnostics with no effect on state.
- `AsyncServer` construction, `begin()` and the listening port, because they are calls into the networking library. The connections it accepts are the `Connection` arguments to `OnClient`, and `OnClient` requires that no registered client already holds the connection, as a listener hands out new connections only.
- The real UART and TCP drivers are not part of this model. A `UartStream` is a queue of pending bytes plus logs of what was read and written, and a `Connection` is a log of what was sent plus a closed flag. Bytes arriving on the UART between ticks are a `Receive` call by the caller.
- The client's `identifier` (`remoteIP().toString()`), because it is only a display string.
- The destructor (`delete tcp_client`), `unique_ptr` ownership and `reserve(1024)`. Deleting the `AsyncClient` also releases the reaped client's connection; in the model a reaped client simply leaves the registry and its `Connection` keeps `closed == false`, because what releasing a connection does on the wire is the networking library's behaviour, not this component's.
- Partial writes. `read` ignores the value `tcp_client->write(buf, len)` returns, the number of bytes the connection accepted; `Connection.Write` accepts every byte. So "sent" in the contracts means handed to `write`, not queued by the TCP stack.
- Concurrency between callbacks and the tick, because callbacks are modelled as sequential method calls made between ticks. In particular, the model does not capture bytes arriving on the UART while `read` is draining it.
- The transport-level effect of a forced close, beyond the connection being marked closed. The model does not include a close triggering a disconnect callback, and a disconnect reported after shutdown raises the client's flag in the model.
- The registry order after `cleanup`. `Cleanup` promises the survivors as a multiset only, because `std::partition` is not stable. The model runs one fixed exchange algorithm, whereas the C++ standard promises only a permutation with a live prefix, and `Cleanup`'s contract uses only that promise plus "nothing moves when nothing is disconnected".
- StreamServer.StreamServerComponent.Loop: this does not state the registry's multiset or size after the tick, only which clients it holds, because `Cleanup` already states both and restating them in `Loop` makes that proof much costlier.
- `int8_t` error codes and `uint32_t` timeout times are unbounded integers in the model, because the callbacks ignore them.
