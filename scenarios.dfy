/** Whole runs of the component, from setup through callbacks and ticks, with
    what each run leaves on the UART and on the client connections. */
module Scenarios {
  import opened Transport
  import opened StreamServer

  /** "ping" and "hello" in ASCII. */
  const Ping: seq<byte> := [112, 105, 110, 103]
  const Hello: seq<byte> := [104, 101, 108, 108, 111]

  /** A client sends "ping": the next tick writes it to the UART in one
      `write_array` call and empties the inbound buffer, and the tick after
      that makes no call at all. */
  method PingIsFlushedOnce() returns (afterFirst: seq<byte>, afterSecond: seq<byte>, left: seq<byte>, writes: seq<seq<byte>>)
    ensures afterFirst == Ping && afterSecond == Ping && left == [] && writes == [Ping]
  {
    var uart := new UartStream([]);
    var server := new StreamServerComponent(uart);
    var conn := new Connection();
    server.OnClient(conn);
    var client := server.clients[0];
    var payload := new byte[4];
    payload[0], payload[1], payload[2], payload[3] := 112, 105, 110, 103;
    client.OnData(payload, 4);
    assert server.recvBuf.data == Ping;
    server.Loop();
    assert uart.written == [Ping];
    afterFirst := uart.output;
    left := server.recvBuf.data;
    server.Loop();
    afterSecond := uart.output;
    writes := uart.written;
  }

  /** Clients A, B and C are connected and C's connection drops; the UART then
      receives "hello". The tick reaps C before the broadcast, so A and B get
      "hello" and C gets nothing. */
  method HelloReachesOnlyLiveClients() returns (toA: seq<byte>, toB: seq<byte>, toC: seq<byte>, kept: bool, reaped: bool)
    ensures toA == Hello && toB == Hello && toC == [] && kept && reaped
  {
    var uart := new UartStream([]);
    var server := new StreamServerComponent(uart);
    var a := new Connection();
    var b := new Connection();
    var c := new Connection();
    server.OnClient(a);
    server.OnClient(b);
    server.OnClient(c);
    var ca, cb, cc := server.clients[0], server.clients[1], server.clients[2];
    assert server.clients == [ca, cb, cc];
    assert server.Conns() == {a, b, c};
    cc.OnEnd(Disconnect);
    uart.Receive(Hello);
    assert !ca.disconnected && !cb.disconnected && a.sent == [] && b.sent == [];
    server.Loop();
    assert ca in server.clients && cb in server.clients;
    toA, toB, toC := a.sent, b.sent, c.sent;
    kept := ca in server.clients && cb in server.clients;
    reaped := cc !in server.clients;
  }

  /** A's connection times out after a tick has already broadcast "hello": A
      keeps what it received, and the next tick removes it from the registry. */
  method TimeoutAfterBroadcast() returns (toA: seq<byte>, reaped: bool)
    ensures toA == Hello && reaped
  {
    var uart := new UartStream(Hello);
    var server := new StreamServerComponent(uart);
    var a := new Connection();
    server.OnClient(a);
    var ca := server.clients[0];
    server.Loop();
    assert ca in server.clients;
    ca.OnEnd(Timeout(5000));
    server.Loop();
    toA := a.sent;
    reaped := ca !in server.clients;
  }

  /** Shutdown with two clients closes both connections; a disconnect reported
      afterwards only raises a flag. */
  method ShutdownClosesAll() returns (closedA: bool, closedB: bool, flagA: bool)
    ensures closedA && closedB && flagA
  {
    var uart := new UartStream([]);
    var server := new StreamServerComponent(uart);
    var a := new Connection();
    var b := new Connection();
    server.OnClient(a);
    server.OnClient(b);
    var ca := server.clients[0];
    server.OnShutdown();
    ca.OnEnd(Disconnect);
    closedA, closedB, flagA := a.closed, b.closed, ca.disconnected;
  }

  /** A tick after shutdown leaves the connections closed: the next tick's
      broadcast still writes to them, but nothing reopens them. */
  method ClosedStaysClosed() returns (closedA: bool, toA: seq<byte>)
    ensures closedA && toA == Hello
  {
    var uart := new UartStream(Hello);
    var server := new StreamServerComponent(uart);
    var a := new Connection();
    server.OnClient(a);
    server.OnShutdown();
    assert server.Conns() == {a};
    server.Loop();
    closedA, toA := a.closed, a.sent;
  }

  /** A burst of 1500 bytes on the UART reaches a client as two writes, one
      of a full 1024-byte buffer and one of the 476 bytes left. */
  method BurstIsSentInTwoWrites() returns (writes: nat, first: nat, second: nat)
    ensures writes == 2 && first == 1024 && second == 476
  {
    var burst := seq(1500, i => 7 as byte);
    var uart := new UartStream(burst);
    var server := new StreamServerComponent(uart);
    var a := new Connection();
    server.OnClient(a);
    assert server.Conns() == {a};
    server.Loop();
    var rest := burst[1024..];
    assert ChunksOf(rest) == [rest] by {
      assert |rest| == 476 && rest[..476] == rest && rest[476..] == [];
      assert ChunksOf(rest) == [rest[..476]] + ChunksOf(rest[476..]);
    }
    assert ChunksOf(burst) == [burst[..1024]] + ChunksOf(rest);
    assert a.blocks == [burst[..1024], rest];
    writes, first, second := |a.blocks|, |a.blocks[0]|, |a.blocks[1]|;
  }

  /** `cleanup` is idempotent: with no callback in between, a second cleanup
      leaves the registry exactly as the first one left it. */
  method CleanupIsIdempotent(server: StreamServerComponent) returns (once: seq<Client>)
    requires server.Valid()
    modifies server
    ensures multiset(once) == multiset(Survivors(old(server.clients), Disconnected(old(server.clients))))
    ensures server.clients == once
  {
    server.Cleanup();
    once := server.clients;
    server.Cleanup();
  }
}
