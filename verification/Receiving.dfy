/** From the packet driver's upcall to the server: what was received is handled
    once each, last come first served, and every buffer returns to the pool. */
module Receiving {
  import opened Protocol
  import opened BufferPool
  import opened FileServerSpec
  import FileServer
  import Wire

  // The buffers waiting for the protocol code, the next one first.
  ghost function Waiting(ready: seq<Buffer>): seq<seq<Byte>>
    reads set b <- ready :: b.data
  {
    if ready == [] then [] else [ready[0].data[..]] + Waiting(ready[1..])
  }

  twostate lemma {:induction false} WaitingSame(ready: seq<Buffer>)
    requires forall b <- ready :: b.data[..] == old(b.data[..])
    ensures Waiting(ready) == old(Waiting(ready))
    decreases |ready|
  {
    if ready != [] {
      WaitingSame(ready[1..]);
    }
  }

  function Reversed<T>(s: seq<T>): seq<T> {
    if s == [] then [] else Reversed(s[1..]) + [s[0]]
  }

  // The signed ones, which are dispatched.
  function Signed(buffers: seq<seq<Byte>>): seq<seq<Byte>> {
    if buffers == [] then []
    else (if Wire.Signed(buffers[0]) then [buffers[0]] else []) + Signed(buffers[1..])
  }

  // What one buffer does to the transfer state: unsigned ones and those that
  // carry no file request nothing.
  function Dispatched(g: FileState, b: seq<Byte>): FileState {
    if !Wire.Signed(b) then g
    else
      match Wire.ParseFrame(b)
      case None => g
      case Some(f) => Handle(g, f)
  }

  function AllDispatched(g: FileState, buffers: seq<seq<Byte>>): FileState
    decreases |buffers|
  {
    if buffers == [] then g else AllDispatched(Dispatched(g, buffers[0]), buffers[1..])
  }

  function AllHandled(g: FileState, frames: seq<Frame>): FileState
    decreases |frames|
  {
    if frames == [] then g else AllHandled(Handle(g, frames[0]), frames[1..])
  }

  predicate FileFrame(f: Frame) {
    |f.peer.mac| == ETH_ALEN && Wire.Sendable(f.body)
  }

  // The bytes of a frame as they lie in a zeroed buffer.
  predicate Holds(b: seq<Byte>, dest: seq<Byte>, ethertype: Word16, f: Frame)
    requires |dest| == ETH_ALEN && FileFrame(f)
  {
    |Wire.Encode(f.body)| < 0x1_0000 && Wire.FrameBytes(dest, ethertype, f) <= b
  }

  // Buffers that hold encoded requests do what the requests do.
  lemma {:induction false} FramesAreHandled(g: FileState, buffers: seq<seq<Byte>>, dest: seq<Byte>, ethertype: Word16, frames: seq<Frame>)
    requires |dest| == ETH_ALEN && |buffers| == |frames|
    requires forall i :: 0 <= i < |frames| ==> FileFrame(frames[i]) && Holds(buffers[i], dest, ethertype, frames[i])
    ensures AllDispatched(g, buffers) == AllHandled(g, frames) && Signed(buffers) == buffers
    decreases |frames|
  {
    hide Handle, Wire.FrameBytes, Wire.Signed, Wire.ParseFrame, Wire.Sendable, Wire.Encode;
    if frames != [] {
      var b, f := buffers[0], frames[0];
      var bytes := Wire.FrameBytes(dest, ethertype, f);
      assert Holds(b, dest, ethertype, f);
      assert b == bytes + b[|bytes|..];
      Wire.FrameTravels(dest, ethertype, f, b[|bytes|..]);
      FramesAreHandled(Handle(g, f), buffers[1..], dest, ethertype, frames[1..]);
    }
  }

  // A buffer without the signature is not for the server: it is not dispatched
  // and changes nothing.
  lemma UnsignedIsIgnored(g: FileState, b: seq<Byte>)
    requires |b| >= COMBINED_HEADER_LEN
    ensures Wire.Signed(b) <==> b[14..18] == [0x7b, 0x6e, 0x05, 0xb0]
    ensures b[14..18] != [0x7b, 0x6e, 0x05, 0xb0] ==> Signed([b]) == [] && Dispatched(g, b) == g
  {
    Wire.SignatureBytes(b);
    hide Wire.Signed;
  }

  // Of the others each is dispatched as often as it came.
  lemma {:induction false} EachSignedOnce(buffers: seq<seq<Byte>>, b: seq<Byte>)
    ensures multiset(Signed(buffers))[b] == if Wire.Signed(b) then multiset(buffers)[b] else 0
    decreases |buffers|
  {
    hide Wire.Signed;
    if buffers != [] {
      EachSignedOnce(buffers[1..], b);
      assert buffers == [buffers[0]] + buffers[1..];
    }
  }

  // Every request fits a buffer, and a buffer it arrived in holds it.
  lemma RequestsFitBuffers(dest: seq<Byte>, ethertype: Word16, f: Frame)
    requires |dest| == ETH_ALEN && FileFrame(f)
    ensures |Wire.Encode(f.body)| < 0x1_0000 && |Wire.FrameBytes(dest, ethertype, f)| <= BUFFER_MAX_SIZE
    ensures Holds(Padded(Wire.FrameBytes(dest, ethertype, f)), dest, ethertype, f)
  {
    Wire.EncodeLength(f.body);
    Wire.HeaderFields(dest, ethertype, f, []);
    assert Wire.FrameBytes(dest, ethertype, f) + [] == Wire.FrameBytes(dest, ethertype, f);
    hide Wire.Encode, Wire.FrameBytes;
  }

  class Receiver {
    const pool: Pool
    const server: FileServer.Server
    var packetsRecv: Word32
    var packetsDropped: Word32
    // Every buffer handed to a packet handler.
    var dispatched: seq<seq<Byte>>

    constructor (pool: Pool, server: FileServer.Server)
      ensures this.pool == pool && this.server == server && dispatched == [] && packetsRecv == packetsDropped == 0
    {
      this.pool, this.server := pool, server;
      packetsRecv, packetsDropped, dispatched := 0, 0, [];
    }

    // pktdrv_receive_func: AX = 0 asks for a buffer of CX bytes, AX = 1 hands
    // the filled one over.
    method ReceiveFunc(ax: Word16, cx: Word16, si: Buffer?) returns (di: Buffer?)
      requires pool.Valid()
      requires ax != 0 ==> si != null && si in pool.nodes && si.state == BufferPending
      modifies this, pool, pool.nodes
      ensures pool.Valid() && dispatched == old(dispatched)
      ensures ax != 0 ==> di == null && pool.free == old(pool.free) && pool.ready == [si] + old(pool.ready)
      ensures ax == 0 ==> pool.ready == old(pool.ready)
      ensures ax == 0 && di == null ==>
                (old(pool.free) == [] || cx > BUFFER_MAX_SIZE) && pool.free == old(pool.free)
                && packetsRecv == old(packetsRecv) && packetsDropped == (old(packetsDropped) + 1) % 0x1_0000_0000
      ensures ax == 0 && di != null ==>
                cx <= BUFFER_MAX_SIZE && old(pool.free) == [di] + pool.free
                && di in pool.nodes && di !in pool.ready && Zeroed(di.data[..]) && di.state == BufferPending && di.bytes == cx
                && packetsRecv == (old(packetsRecv) + 1) % 0x1_0000_0000 && packetsDropped == old(packetsDropped)
    {
      hide Chain, Distinct, Zeroed;
      di := null;
      if ax != 0 {
        pool.MarkReady(si);
      } else {
        di := pool.Acquire(cx);
        if di != null {
          packetsRecv := (packetsRecv + 1) % 0x1_0000_0000;
        } else {
          packetsDropped := (packetsDropped + 1) % 0x1_0000_0000;
        }
      }
    }

    // The driver copies the frame and makes its second call.
    method HandOver(node: Buffer, frame: seq<Byte>)
      requires pool.Valid() && node in pool.nodes && node !in pool.ready && node.state == BufferPending
      requires |frame| <= BUFFER_MAX_SIZE && Zeroed(node.data[..])
      modifies this, pool, pool.nodes, node.data
      ensures pool.Valid() && pool.free == old(pool.free)
      ensures Waiting(pool.ready) == [Padded(frame)] + old(Waiting(pool.ready))
    {
      pool.ReadyAreNodes();
      hide Pool.Valid, Padded, Zeroed;
      ghost var earlier := pool.ready;
      pool.DriverWrites(node, frame);
      var none := ReceiveFunc(1, 0, node);
      WaitingSame(earlier);
      assert pool.ready[1..] == earlier;
    }

    // One frame arrives. It is dropped exactly when no buffer is free or it is
    // too long; otherwise it waits, zero-padded, before everything that came
    // earlier.
    method Arrive(frame: seq<Byte>)
      requires pool.Valid() && |frame| < 0x1_0000
      modifies this, pool, pool.nodes, pool.Arrays()
      ensures pool.Valid()
      ensures old(pool.free) == [] || |frame| > BUFFER_MAX_SIZE ==>
                pool.ready == old(pool.ready) && pool.free == old(pool.free) && Waiting(pool.ready) == old(Waiting(pool.ready))
      ensures old(pool.free) != [] && |frame| <= BUFFER_MAX_SIZE ==>
                Waiting(pool.ready) == [Padded(frame)] + old(Waiting(pool.ready))
                && pool.free == old(pool.free)[1..]
    {
      var node := ReceiveFunc(0, |frame|, null);
      if node != null {
        assert old(pool.free)[1..] == pool.free;
        HandOver(node, frame);
      }
    }

    // The switch in protocol_process.
    method Dispatch(b: seq<Byte>)
      modifies this`dispatched, server`file
      ensures dispatched == old(dispatched) + Signed([b])
      ensures server.file == Dispatched(old(server.file), b)
    {
      if Wire.Signed(b) {
        dispatched := dispatched + [b];
        var request := Wire.ParseFrame(b);
        if request.Some? {
          server.HandlePacket(request.value);
        }
      }
    }

    // Buffers the packet driver still holds.
    twostate predicate PendingUntouched()
      reads this, pool, pool.nodes, pool.Arrays()
    {
      forall b <- pool.nodes :: old(b.state) == BufferPending ==>
        b.state == BufferPending && b.bytes == old(b.bytes) && b.data[..] == old(b.data[..])
    }

    method TakeOut() returns (node: Buffer)
      requires pool.Valid() && pool.ready != []
      modifies pool, pool.nodes
      ensures pool.Valid() && PendingUntouched()
      ensures node in pool.nodes && node.state == BufferUser && node.data in pool.Arrays()
      ensures pool.free == old(pool.free) && old(pool.ready) == [node] + pool.ready && node !in pool.ready
      ensures [node.data[..]] + Waiting(pool.ready) == old(Waiting(pool.ready))
    {
      pool.ReadyAreNodes();
      hide Pool.Valid;
      node := pool.GetReady();
      assert old(pool.ready)[1..] == pool.ready;
    }

    method GiveBack(node: Buffer)
      requires pool.Valid() && node in pool.nodes && node !in pool.ready && node.state == BufferUser
      modifies pool, node, node.data
      ensures pool.Valid() && PendingUntouched()
      ensures pool.ready == old(pool.ready) && pool.free == [node] + old(pool.free)
      ensures Waiting(pool.ready) == old(Waiting(pool.ready))
    {
      pool.ReadyAreNodes();
      hide Pool.Valid;
      pool.Release(node);
      WaitingSame(pool.ready);
    }

    // One turn of the loop.
    method Turn()
      requires pool.Valid() && pool.ready != []
      modifies this`dispatched, server`file, pool, pool.nodes, pool.Arrays()
      ensures pool.Valid() && PendingUntouched() && |pool.ready| < |old(pool.ready)|
      ensures Reversed(pool.ready) + pool.free == Reversed(old(pool.ready)) + old(pool.free)
      ensures dispatched + Signed(Waiting(pool.ready)) == old(dispatched) + Signed(old(Waiting(pool.ready)))
      ensures AllDispatched(server.file, Waiting(pool.ready)) == AllDispatched(old(server.file), old(Waiting(pool.ready)))
    {
      hide Pool.Valid, Dispatched;
      var node := TakeOut();
      Dispatch(node.data[..]);
      GiveBack(node);
      assert old(pool.ready)[1..] == pool.ready;
      assert old(Waiting(pool.ready))[1..] == Waiting(pool.ready);
      assert Reversed(pool.ready) + ([node] + old(pool.free)) == Reversed(old(pool.ready)) + old(pool.free);
    }

    // protocol_process, with no interrupt between its turns: it ends with no
    // buffer ready and all of them free again, has dispatched each signed one
    // once, last come first, and leaves pending buffers alone.
    method ProtocolProcess()
      requires pool.Valid()
      modifies this`dispatched, server`file, pool, pool.nodes, pool.Arrays()
      ensures pool.Valid() && PendingUntouched()
      ensures pool.ready == [] && pool.free == Reversed(old(pool.ready)) + old(pool.free)
      ensures dispatched == old(dispatched) + Signed(old(Waiting(pool.ready)))
      ensures server.file == AllDispatched(old(server.file), old(Waiting(pool.ready)))
    {
      hide Pool.Valid, Dispatched;
      while pool.readyList != null
        invariant pool.Valid() && PendingUntouched()
        invariant Reversed(pool.ready) + pool.free == Reversed(old(pool.ready)) + old(pool.free)
        invariant dispatched + Signed(Waiting(pool.ready)) == old(dispatched) + Signed(old(Waiting(pool.ready)))
        invariant AllDispatched(server.file, Waiting(pool.ready))
                  == AllDispatched(old(server.file), old(Waiting(pool.ready)))
        decreases |pool.ready|
      {
        pool.ReadyHead();
        Turn();
      }
      pool.ReadyHead();
    }
  }
}
