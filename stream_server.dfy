/** The stream server component: a registry of TCP clients, a shared buffer
    of bytes the clients sent, and a periodic tick that reaps disconnected
    clients, broadcasts the UART's input to every client and flushes the
    shared buffer to the UART. */
module StreamServer {
  import opened Transport

  /** The size of the stack buffer `read` drains the UART through. */
  const ChunkSize: nat := 1024

  function Min(a: int, b: int): int {
    if a < b then a else b
  }

  /** `recv_buf_`: the one inbound buffer every client's data callback appends to. */
  class ByteBuffer {
    var data: seq<byte>

    constructor ()
      ensures data == []
    {
      data := [];
    }
  }

  /** The three ways a connection reports that it is over. */
  datatype EndEvent = Error(code: int) | Disconnect | Timeout(time: nat)

  /** A registered client: its connection, the shared buffer its data goes to,
      and whether its connection has been reported over. */
  class Client {
    const tcp: Connection
    const recvBuf: ByteBuffer
    var disconnected: bool

    constructor (tcp: Connection, recvBuf: ByteBuffer)
      ensures this.tcp == tcp && this.recvBuf == recvBuf && !disconnected
    {
      this.tcp := tcp;
      this.recvBuf := recvBuf;
      disconnected := false;
    }

    /** The error, disconnect and timeout callbacks: each only raises the flag,
        so any number of them, in any order, leaves it raised. */
    method OnEnd(event: EndEvent)
      modifies this
      ensures disconnected
    {
      disconnected := true;
    }

    /** The data callback: a payload of `len` bytes at `data` (which may be
        null) is appended to the shared buffer; an empty or null one is ignored. */
    method OnData(data: array?<byte>, len: nat)
      requires data != null ==> len <= data.Length
      modifies recvBuf
      ensures len == 0 || data == null ==> recvBuf.data == old(recvBuf.data)
      ensures len > 0 && data != null ==> recvBuf.data == old(recvBuf.data) + data[..len]
    {
      if len == 0 || data == null {
        return;
      }
      recvBuf.data := recvBuf.data + data[..len];
    }
  }

  // ---------------------------------------------------------------------
  // Specification functions over the registry

  /** The clients of `cs` that have been reported disconnected. */
  ghost function Disconnected(cs: seq<Client>): set<Client>
    reads cs
  {
    set c <- cs | c.disconnected
  }

  /** No two clients of `cs` share a connection (each owns its own). */
  ghost predicate DistinctConns(cs: seq<Client>) {
    forall i, j :: 0 <= i < |cs| && 0 <= j < |cs| && i != j ==> cs[i].tcp != cs[j].tcp
  }

  /** The clients of `cs` not in `dead`, in registry order: what an
      order-preserving reaper would keep. */
  function Survivors(cs: seq<Client>, dead: set<Client>): seq<Client> {
    if cs == [] then []
    else (if cs[0] in dead then [] else [cs[0]]) + Survivors(cs[1..], dead)
  }

  /** A client survives exactly when it is in `cs` and not in `dead`. */
  lemma {:induction false} SurvivorsMembership(cs: seq<Client>, dead: set<Client>, x: Client)
    ensures x in Survivors(cs, dead) <==> x in cs && x !in dead
  {
    if cs != [] {
      SurvivorsMembership(cs[1..], dead, x);
      assert cs == [cs[0]] + cs[1..];
    }
  }

  /** `Survivors` of a concatenation is the concatenation of the `Survivors`. */
  lemma {:induction false} SurvivorsAppend(a: seq<Client>, b: seq<Client>, dead: set<Client>)
    ensures Survivors(a + b, dead) == Survivors(a, dead) + Survivors(b, dead)
  {
    if a != [] {
      SurvivorsAppend(a[1..], b, dead);
      assert (a + b)[1..] == a[1..] + b;
    } else {
      assert a + b == b;
    }
  }

  /** A registry split into a surviving prefix and a dead suffix keeps exactly
      its prefix. */
  lemma {:induction false} SurvivorsOfPartitioned(r: seq<Client>, mid: nat, dead: set<Client>)
    requires mid <= |r|
    requires forall i :: 0 <= i < mid ==> r[i] !in dead
    requires forall i :: mid <= i < |r| ==> r[i] in dead
    ensures Survivors(r, dead) == r[..mid]
  {
    if r != [] {
      if mid == 0 {
        SurvivorsOfPartitioned(r[1..], 0, dead);
      } else {
        SurvivorsOfPartitioned(r[1..], mid - 1, dead);
        assert r[..mid] == [r[0]] + r[1..][..mid - 1];
      }
    }
  }

  /** Taking out the client at `k` takes one occurrence of it out of the multiset. */
  lemma RemoveAt(b: seq<Client>, k: nat)
    requires k < |b|
    ensures b == b[..k] + ([b[k]] + b[k + 1..])
    ensures multiset(b) == multiset(b[..k] + b[k + 1..]) + multiset{b[k]}
  {
  }

  lemma Cancel(m: multiset<Client>, n: multiset<Client>, x: Client)
    requires m + multiset{x} == n + multiset{x}
    ensures m == n
  {
    assert m == m + multiset{x} - multiset{x};
    assert n == n + multiset{x} - multiset{x};
  }

  /** Taking the client at `k` out of `b` takes its survival, if any, out of
      the survivors' multiset. */
  lemma SurvivorsRemoveAt(b: seq<Client>, k: nat, dead: set<Client>)
    requires k < |b|
    ensures multiset(Survivors(b, dead))
         == multiset(Survivors(b[..k] + b[k + 1..], dead)) + multiset(Survivors([b[k]], dead))
  {
    RemoveAt(b, k);
    SurvivorsAppend(b[..k], [b[k]] + b[k + 1..], dead);
    SurvivorsAppend([b[k]], b[k + 1..], dead);
    SurvivorsAppend(b[..k], b[k + 1..], dead);
  }

  /** Reordering a registry does not change which clients survive, nor how often. */
  lemma {:induction false} SurvivorsOfPermutation(a: seq<Client>, b: seq<Client>, dead: set<Client>)
    requires multiset(a) == multiset(b)
    ensures multiset(Survivors(a, dead)) == multiset(Survivors(b, dead))
    decreases |a|
  {
    if a == [] {
      assert |b| == |multiset(b)| == 0;
    } else {
      var x := a[0];
      assert x in multiset(b);
      var k :| 0 <= k < |b| && b[k] == x;
      var rest := b[..k] + b[k + 1..];
      RemoveAt(b, k);
      RemoveAt(a, 0);
      assert a[..0] + a[1..] == a[1..];
      Cancel(multiset(a[1..]), multiset(rest), x);
      SurvivorsOfPermutation(a[1..], rest, dead);
      SurvivorsRemoveAt(b, k, dead);
      SurvivorsRemoveAt(a, 0, dead);
    }
  }

  /** Whatever order a partition leaves the clients in, its live prefix holds
      exactly the clients of `cs` that are not disconnected, as many times each. */
  lemma SurvivorsAreLive(cs: seq<Client>, r: seq<Client>, mid: nat)
    requires mid <= |r| && multiset(r) == multiset(cs)
    requires forall i :: 0 <= i < mid ==> !r[i].disconnected
    requires forall i :: mid <= i < |r| ==> r[i].disconnected
    ensures multiset(r[..mid]) == multiset(Survivors(cs, Disconnected(cs)))
    ensures mid == |Survivors(cs, Disconnected(cs))|
    ensures forall c <- r[..mid] :: c in cs && !c.disconnected
    ensures forall c <- cs :: !c.disconnected ==> c in r[..mid]
  {
    var dead := Disconnected(cs);
    forall c <- r
      ensures c in cs
    {
      assert c in multiset(r);
    }
    SurvivorsOfPartitioned(r, mid, dead);
    SurvivorsOfPermutation(r, cs, dead);
    forall c <- cs | !c.disconnected
      ensures c in r[..mid]
    {
      SurvivorsMembership(cs, dead, c);
      assert c in multiset(Survivors(cs, dead));
    }
    calc {
      mid;
      |multiset(r[..mid])|;
      |multiset(Survivors(cs, dead))|;
      |Survivors(cs, dead)|;
    }
  }

  /** Keeping some of a registry's clients keeps some of its connections, and
      no two of them alike when no two were alike before. */
  lemma KeptConns(cs: seq<Client>, r: seq<Client>, mid: nat)
    requires mid <= |r| && forall c <- r[..mid] :: c in cs
    ensures DistinctConns(r) ==> DistinctConns(r[..mid])
    ensures (set c <- r[..mid] :: c.tcp) <= set c <- cs :: c.tcp
  {
  }

  /** `std::iter_swap` on the registry: the clients at `a` and `b` trade places. */
  function Swap(r: seq<Client>, a: nat, b: nat): (s: seq<Client>)
    requires a < |r| && b < |r|
    ensures |s| == |r| && s[a] == r[b] && s[b] == r[a]
    ensures forall i :: 0 <= i < |r| && i != a && i != b ==> s[i] == r[i]
    ensures multiset(s) == multiset(r)
    ensures DistinctConns(r) ==> DistinctConns(s)
  {
    r[a := r[b]][b := r[a]]
  }

  /** `std::partition` with the predicate "not disconnected", as the two-index
      exchange of the C++ library: the result is a permutation of `cs` whose
      first `mid` clients are live and whose others are disconnected; nothing
      moves when no client is disconnected. */
  method Partition(cs: seq<Client>) returns (r: seq<Client>, mid: nat)
    ensures mid <= |r| && multiset(r) == multiset(cs)
    ensures forall i :: 0 <= i < mid ==> !r[i].disconnected
    ensures forall i :: mid <= i < |r| ==> r[i].disconnected
    ensures DistinctConns(cs) ==> DistinctConns(r)
    ensures Disconnected(cs) == {} ==> r == cs && mid == |cs|
  {
    if Disconnected(cs) == {} {
      forall i | 0 <= i < |cs|
        ensures !cs[i].disconnected
      {
        assert cs[i] !in Disconnected(cs);
      }
    }
    r := cs;
    var first, last := 0, |cs|;
    while first < last
      invariant 0 <= first <= last <= |r| == |cs|
      invariant multiset(r) == multiset(cs)
      invariant forall i :: 0 <= i < first ==> !r[i].disconnected
      invariant forall i :: last <= i < |r| ==> r[i].disconnected
      invariant DistinctConns(cs) ==> DistinctConns(r)
      invariant Disconnected(cs) == {} ==> r == cs && last == |cs|
      decreases last - first
    {
      if !r[first].disconnected {
        first := first + 1;
      } else if r[last - 1].disconnected {
        last := last - 1;
      } else {
        r := Swap(r, first, last - 1);
        first, last := first + 1, last - 1;
      }
    }
    mid := first;
  }

  /** Survivors drawn from a registry whose clients own distinct connections
      share no connection with the clients that were reaped. */
  lemma ReapedOwnNoSurvivorConnection(before: seq<Client>, after: seq<Client>)
    requires DistinctConns(before)
    requires forall s <- after :: s in before && !s.disconnected
    ensures (set c <- before | c.disconnected :: c.tcp) !! (set s <- after :: s.tcp)
  {
  }

  // ---------------------------------------------------------------------
  // Specification functions over the UART input

  /** The chunks `read` drains `input` in: full buffers of `ChunkSize` bytes,
      then the remainder. */
  function ChunksOf(input: seq<byte>): seq<seq<byte>>
    decreases |input|
  {
    if input == [] then []
    else
      var n := Min(|input|, ChunkSize);
      [input[..n]] + ChunksOf(input[n..])
  }

  function Flatten(chunks: seq<seq<byte>>): seq<byte> {
    if chunks == [] then [] else chunks[0] + Flatten(chunks[1..])
  }

  /** Putting the chunks back together gives the input, byte for byte. */
  lemma {:induction false} FlattenChunksOf(input: seq<byte>)
    ensures Flatten(ChunksOf(input)) == input
  {
    if input != [] {
      var n := Min(|input|, ChunkSize);
      FlattenChunksOf(input[n..]);
      assert input == input[..n] + input[n..];
    }
  }

  /** Every chunk holds between 1 and `ChunkSize` bytes, and only the last one
      may be short. */
  lemma {:induction false} ChunksOfBounds(input: seq<byte>)
    ensures forall ch <- ChunksOf(input) :: 1 <= |ch| <= ChunkSize
    ensures forall i :: 0 <= i < |ChunksOf(input)| - 1 ==> |ChunksOf(input)[i]| == ChunkSize
  {
    if input != [] {
      var n := Min(|input|, ChunkSize);
      ChunksOfBounds(input[n..]);
      assert ChunksOf(input) == [input[..n]] + ChunksOf(input[n..]);
      assert n < ChunkSize ==> input[n..] == [];
    }
  }

  /** One pass of the `read` loop: taking the next chunk of what is left of
      `input` moves `consumed` forward by the chunk and peels the chunk off
      `ChunksOf`. */
  lemma DrainStep(input: seq<byte>, consumed: nat, len: nat, chunk: seq<byte>)
    requires consumed < |input| && len == Min(|input| - consumed, ChunkSize)
    requires chunk == input[consumed..][..len]
    ensures consumed + len <= |input|
    ensures input[..consumed] + chunk == input[..consumed + len]
    ensures input[consumed..][len..] == input[consumed + len..]
    ensures ChunksOf(input[consumed..]) == [chunk] + ChunksOf(input[consumed + len..])
  {
  }

  // ---------------------------------------------------------------------
  // The component

  class StreamServerComponent {
    const stream: UartStream
    const recvBuf: ByteBuffer
    var clients: seq<Client>

    /** Every client owns its own connection and appends to this component's buffer. */
    ghost predicate Valid()
      reads this
    {
      DistinctConns(clients) && forall c <- clients :: c.recvBuf == recvBuf
    }

    /** The connections of the registered clients. */
    ghost function Conns(): set<Connection>
      reads this
    {
      set c <- clients :: c.tcp
    }

    /** `setup`: an empty registry and an empty inbound buffer. */
    constructor (stream: UartStream)
      ensures Valid() && fresh(recvBuf)
      ensures this.stream == stream && clients == [] && recvBuf.data == []
    {
      this.stream := stream;
      recvBuf := new ByteBuffer();
      clients := [];
    }

    /** The admission callback: a null connection is ignored; any other gets a
        new client, not disconnected, at the end of the registry. The listener
        hands over connections that no registered client holds. */
    method OnClient(tcp: Connection?)
      requires Valid()
      requires tcp != null ==> tcp !in Conns()
      modifies this
      ensures Valid()
      ensures tcp == null ==> clients == old(clients)
      ensures tcp != null ==>
        && |clients| == |old(clients)| + 1
        && clients[..|old(clients)|] == old(clients)
        && fresh(clients[|old(clients)|])
        && clients[|old(clients)|].tcp == tcp
        && !clients[|old(clients)|].disconnected
    {
      if tcp == null {
        return;
      }
      var client := new Client(tcp, recvBuf);
      clients := clients + [client];
    }

    /** One tick: reap, then broadcast the UART's input, then flush the clients'
        input to the UART. A client disconnected before the tick is reaped
        before the broadcast and so receives none of it. */
    method Loop()
      requires Valid()
      modifies this, stream, recvBuf, Conns()
      ensures Valid()
      ensures forall c <- clients :: c in old(clients) && !c.disconnected
      ensures forall c <- old(clients) :: !old(c.disconnected) ==> c in clients
      ensures forall c <- clients ::
        && c.tcp.sent == old(c.tcp.sent) + old(stream.pending)
        && c.tcp.blocks == old(c.tcp.blocks) + ChunksOf(old(stream.pending))
        && c.tcp.closed == old(c.tcp.closed)
      ensures forall c <- old(clients) :: old(c.disconnected) ==>
        && c.tcp.sent == old(c.tcp.sent)
        && c.tcp.blocks == old(c.tcp.blocks)
        && c.tcp.closed == old(c.tcp.closed)
      ensures stream.taken == old(stream.taken) + ChunksOf(old(stream.pending))
      ensures stream.pending == [] && recvBuf.data == []
      ensures stream.output == old(stream.output) + old(recvBuf.data)
      ensures old(recvBuf.data) != [] ==> stream.written == old(stream.written) + [old(recvBuf.data)]
      ensures old(recvBuf.data) == [] ==> stream.written == old(stream.written)
    {
      ghost var before := clients;
      Cleanup();
      ReapedOwnNoSurvivorConnection(before, clients);
      Read();
      Write();
    }

    /** `cleanup`: the registry keeps exactly its live clients, in whatever
        order the partition leaves them; a registry with no disconnected
        client is left as it is, so a second cleanup changes nothing. */
    method Cleanup()
      requires Valid()
      modifies this
      ensures Valid() && Conns() <= old(Conns())
      ensures forall c <- clients :: c in old(clients) && !c.disconnected
      ensures forall c <- old(clients) :: !c.disconnected ==> c in clients
      ensures multiset(clients) == multiset(Survivors(old(clients), Disconnected(old(clients))))
      ensures |clients| == |Survivors(old(clients), Disconnected(old(clients)))|
      ensures Disconnected(clients) == {}
      ensures Disconnected(old(clients)) == {} ==> clients == old(clients)
    {
      var parted, last := Partition(clients);
      SurvivorsAreLive(clients, parted, last);
      KeptConns(clients, parted, last);
      clients := parted[..last];
    }

    /** `read`: drains the UART in chunks of at most `ChunkSize` bytes until it
        reports nothing available, each chunk taken by one `read_array` and
        sent by one `write` to every registered client; the registry and the
        inbound buffer are not touched, and no connection is closed. */
    method Read()
      requires Valid()
      modifies stream, Conns()
      ensures stream.pending == [] && stream.output == old(stream.output)
      ensures stream.taken == old(stream.taken) + ChunksOf(old(stream.pending))
      ensures stream.written == old(stream.written)
      ensures forall c <- clients ::
        && c.tcp.sent == old(c.tcp.sent) + old(stream.pending)
        && c.tcp.blocks == old(c.tcp.blocks) + ChunksOf(old(stream.pending))
        && c.tcp.closed == old(c.tcp.closed)
      ensures recvBuf.data == old(recvBuf.data)
    {
      ghost var input := stream.pending;
      ghost var consumed := 0;
      ghost var chunks: seq<seq<byte>> := [];
      var len := stream.Available();
      while len > 0
        invariant len == |stream.pending| && stream.output == old(stream.output) && stream.written == old(stream.written)
        invariant 0 <= consumed <= |input| && stream.pending == input[consumed..]
        invariant ChunksOf(input) == chunks + ChunksOf(stream.pending)
        invariant stream.taken == old(stream.taken) + chunks
        invariant forall c <- clients ::
          && c.tcp.sent == old(c.tcp.sent) + input[..consumed]
          && c.tcp.blocks == old(c.tcp.blocks) + chunks
          && c.tcp.closed == old(c.tcp.closed)
        decreases |stream.pending|
      {
        var buf := new byte[ChunkSize];
        len := Min(len, ChunkSize);
        stream.ReadArray(buf, len);
        ghost var chunk := buf[..len];
        DrainStep(input, consumed, len, chunk);
        Broadcast(buf, len);
        chunks := chunks + [chunk];
        consumed := consumed + len;
        len := stream.Available();
      }
      assert consumed == |input| && input[..consumed] == input;
      assert ChunksOf(stream.pending) == [];
    }

    /** The `for` loop of `read`: the first `len` bytes of `buf` go to every
        registered client's connection. */
    method Broadcast(buf: array<byte>, len: nat)
      requires Valid() && len <= buf.Length
      modifies Conns()
      ensures forall c <- clients ::
        && c.tcp.sent == old(c.tcp.sent) + buf[..len]
        && c.tcp.blocks == old(c.tcp.blocks) + [buf[..len]]
        && c.tcp.closed == old(c.tcp.closed)
    {
      for i := 0 to |clients|
        invariant forall j :: 0 <= j < i ==>
          && clients[j].tcp.sent == old(clients[j].tcp.sent) + buf[..len]
          && clients[j].tcp.blocks == old(clients[j].tcp.blocks) + [buf[..len]]
        invariant forall j :: i <= j < |clients| ==>
          && clients[j].tcp.sent == old(clients[j].tcp.sent)
          && clients[j].tcp.blocks == old(clients[j].tcp.blocks)
        invariant forall j :: 0 <= j < |clients| ==> clients[j].tcp.closed == old(clients[j].tcp.closed)
      {
        clients[i].tcp.Write(buf, len);
      }
    }

    /** `write`: a non-empty inbound buffer goes to the UART as one block and is
        then cleared; an empty one leaves the UART alone. */
    method Write()
      modifies stream, recvBuf
      ensures old(recvBuf.data) != [] ==>
        && stream.output == old(stream.output) + old(recvBuf.data)
        && stream.written == old(stream.written) + [old(recvBuf.data)]
      ensures old(recvBuf.data) == [] ==>
        stream.output == old(stream.output) && stream.written == old(stream.written)
      ensures recvBuf.data == [] && stream.pending == old(stream.pending)
      ensures stream.taken == old(stream.taken)
    {
      if recvBuf.data != [] {
        stream.WriteArray(recvBuf.data);
        recvBuf.data := [];
      }
    }

    /** `on_shutdown`: every registered client's connection is closed; nothing
        is sent and the registry is kept. */
    method OnShutdown()
      requires Valid()
      modifies Conns()
      ensures forall c <- clients ::
        c.tcp.closed && c.tcp.sent == old(c.tcp.sent) && c.tcp.blocks == old(c.tcp.blocks)
    {
      for i := 0 to |clients|
        invariant forall j :: 0 <= j < i ==> clients[j].tcp.closed
        invariant forall j :: 0 <= j < |clients| ==>
          clients[j].tcp.sent == old(clients[j].tcp.sent) && clients[j].tcp.blocks == old(clients[j].tcp.blocks)
      {
        clients[i].tcp.Close(true);
      }
    }
  }
}
