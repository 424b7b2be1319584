/** The session and screen code of the server, and the client's frame buffers,
    over their own state. */
module ScreenServer {
  import opened Protocol
  import opened Checksum
  import opened Sessions
  import opened Screen

  datatype ScreenPacket =
    | TextPacket(to: Key, rows: Byte, cols: Byte, cursorRow: Byte, cursorCol: Byte, chunk: Chunk)
    | CgaPacket(to: Key, mode: Byte, bpp: Byte, width: Word16, height: Word16, chunk: Chunk)

  // The sessions a packet goes to, in slot order.
  function Recipients(table: seq<Session>): seq<Key> {
    if table == [] then []
    else Recipients(table[..|table| - 1])
         + (if InUse(table[|table| - 1]) then [KeyOf(table[|table| - 1])] else [])
  }

  function PacketFor(to: Key, v: VideoState, chunk: Chunk): ScreenPacket {
    if IsCga(v.mode) then
      CgaPacket(to, v.mode, if v.mode == 6 then 1 else 2, if v.mode == 6 then 640 else 320, 200, chunk)
    else TextPacket(to, v.rows, v.cols, v.cursorRow, v.cursorCol, chunk)
  }

  function Packets(to: seq<Key>, v: VideoState, sent: Option<Chunk>): (r: seq<ScreenPacket>)
    ensures |r| == if sent == None then 0 else |to|
    ensures sent.Some? ==> forall i :: 0 <= i < |to| ==> r[i] == PacketFor(to[i], v, sent.value)
  {
    if sent == None then [] else seq(|to|, i requires 0 <= i < |to| => PacketFor(to[i], v, sent.value))
  }

  // What a packet says of the screen it belongs to.
  predicate Tells(p: ScreenPacket, v: VideoState) {
    match p
    case TextPacket(_, rows, cols, cursorRow, cursorCol, _) =>
      && v.mode !in {4, 5, 6}
      && rows == v.rows && cols == v.cols && cursorRow == v.cursorRow && cursorCol == v.cursorCol
    case CgaPacket(_, mode, bpp, width, height, _) =>
      && mode == v.mode && mode in {4, 5, 6} && (width == 640 <==> mode == 6) && (width == 320 || width == 640)
      && bpp * width * height == 8 * CGA_GRAPHICS_FRAME_BYTES
  }

  lemma PacketsTell(table: seq<Session>, v: VideoState, sent: Option<Chunk>)
    ensures var out := Packets(Recipients(table), v, sent);
            && (forall p <- out :: Tells(p, v) && sent.Some? && p.chunk == sent.value)
            && |out| == (if sent == None then 0 else |Recipients(table)|)
            && forall i :: 0 <= i < |out| ==> out[i].to == Recipients(table)[i]
  {
  }

  // One packet for each client of the table.
  lemma {:induction false} RecipientsAreClients(table: seq<Session>)
    requires WellFormed(table)
    ensures (set k <- Recipients(table)) == Clients(table).Keys
    ensures |Recipients(table)| == |Clients(table)|
    decreases |table|
  {
    hide WellFormed, Clients, InUse, KeyOf;
    if table == [] {
      NoClients();
    } else {
      var n := |table| - 1;
      assert table == table[..n] + [table[n]];
      LastClient(table[..n], table[n]);
      RecipientsAreClients(table[..n]);
    }
  }

  lemma NoClients()
    ensures Clients([]) == map[]
  {
  }

  lemma {:induction false} LastClient(table: seq<Session>, s: Session)
    requires WellFormed(table + [s])
    ensures Clients(table + [s]) == if InUse(s) then Clients(table)[KeyOf(s) := s.tLastRecv] else Clients(table)
    ensures WellFormed(table) && (InUse(s) ==> KeyOf(s) !in Clients(table))
    decreases |table|
  {
    var all := table + [s];
    assert forall i :: 0 <= i < |table| ==> all[i] == table[i];
    assert all[|table|] == s;
    assert WellFormed(table);
    ClientsAre(table);
    if table == [] {
      assert all == [s];
      assert all[1..] == [];
    } else {
      assert all[1..] == table[1..] + [s];
      LastClient(table[1..], s);
    }
  }

  class SessionManager {
    const sessions: array<Session>
    var nextRow: Word16
    var chksum: Word16
    var cgaNext: Word16
    var cgaChksum: Word16

    ghost predicate Valid()
      reads this
    {
      sessions.Length == MAX_SESSIONS
    }

    function Now(): Progress
      reads this
    {
      Progress(nextRow, chksum, cgaNext, cgaChksum)
    }

    constructor ()
      ensures Valid() && fresh(sessions) && Now() == Progress(0, 0, 0, 0)
      ensures forall i :: 0 <= i < MAX_SESSIONS ==> sessions[i] == EMPTY
    {
      sessions := new Session[MAX_SESSIONS](_ => EMPTY);
      nextRow, chksum, cgaNext, cgaChksum := 0, 0, 0, 0;
    }

    // session_mgr_find.
    method FindSlot(key: Key) returns (i: nat)
      requires Valid()
      ensures i == Find(sessions[..], key)
    {
      i := 0;
      while i < sessions.Length
        invariant i <= sessions.Length
        invariant Find(sessions[..], key) == i + Find(sessions[i..], key)
      {
        if KeyOf(sessions[i]) == key {
          return;
        }
        assert sessions[i..][1..] == sessions[i + 1..];
        i := i + 1;
      }
    }

    // session_mgr_start; the number of slots when it turns the client away.
    method StartSession(key: Key, now: Word32) returns (i: nat)
      requires Valid()
      modifies sessions
      ensures (sessions[..], i) == Start(old(sessions[..]), key, now)
    {
      i := FindSlot(key);
      if i == MAX_SESSIONS {
        i := FindSlot((NULL_MAC, 0));
        if i == MAX_SESSIONS {
          return;
        }
      }
      sessions[i] := Session(now, key.1, key.0, 0);
    }

    // The pruning loop.
    method Prune(now: Word32) returns (active: nat)
      requires Valid()
      modifies sessions
      ensures sessions[..] == Pruned(old(sessions[..]), now)
      ensures active == |Recipients(sessions[..])|
    {
      hide InUse, TimedOut, Pruned, KeyOf, Recipients;
      active := 0;
      ghost var all := Pruned(sessions[..], now);
      EmptyIsFree();
      RecipientsGrow(all, 0);
      for i := 0 to sessions.Length
        invariant forall j :: 0 <= j < i ==> sessions[j] == all[j]
        invariant forall j :: i <= j < sessions.Length ==> sessions[j] == old(sessions[j])
        invariant active == |Recipients(all[..i])|
      {
        if InUse(sessions[i]) {
          if TimedOut(sessions[i], now) {
            sessions[i] := EMPTY;
          } else {
            active := active + 1;
          }
        }
        RecipientsGrow(all, i);
      }
      assert all[..sessions.Length] == all;
    }

    static lemma RecipientsGrow(table: seq<Session>, i: nat)
      requires i < |table|
      ensures |Recipients(table[..0])| == 0
      ensures |Recipients(table[..i + 1])| == |Recipients(table[..i])| + (if InUse(table[i]) then 1 else 0)
    {
      assert table[..i + 1][..i] == table[..i];
    }

    lemma EmptyIsFree()
      ensures !InUse(EMPTY)
    {
    }

    method SendToAll(v: VideoState, chunk: Chunk) returns (out: seq<ScreenPacket>)
      requires Valid()
      ensures out == Packets(Recipients(sessions[..]), v, Some(chunk))
    {
      out := [];
      for i := 0 to sessions.Length
        invariant out == Packets(Recipients(sessions[..i]), v, Some(chunk))
      {
        if InUse(sessions[i]) {
          out := out + [PacketFor(KeyOf(sessions[i]), v, chunk)];
        }
        assert sessions[..i + 1][..i] == sessions[..i];
      }
      assert sessions[..] == sessions[..sessions.Length];
    }

    // session_mgr_send_cga_graphics.
    method SendCga(v: VideoState, m: Segment) returns (out: seq<ScreenPacket>)
      requires Valid() && IsCga(v.mode)
      modifies this
      ensures var (p, sent) := CgaTick(old(Now()), m);
              Now() == p && out == Packets(Recipients(sessions[..]), v, sent)
    {
      hide Recipients, CopyFrom;
      if cgaNext >= CGA_GRAPHICS_FRAME_BYTES {
        cgaNext := 0;
      }
      if cgaNext == 0 {
        var current := VideoChecksum(m, 0, CGA_GRAPHICS_FRAME_BYTES / VIDEO_WORD);
        if current == cgaChksum {
          return [];
        }
        cgaChksum := current;
      }
      var count := MAX_PAYLOAD_LENGTH - CGA_HEADER;
      count := count / 2 * 2;
      if count + cgaNext > CGA_GRAPHICS_FRAME_BYTES {
        count := CGA_GRAPHICS_FRAME_BYTES - cgaNext;
      }
      var offset := cgaNext;
      cgaNext := cgaNext + count;
      out := SendToAll(v, Chunk(offset, CopyFrom(m, offset, count / VIDEO_WORD)));
    }

    // The text part of session_mgr_update_all.
    method SendText(v: VideoState, m: Segment) returns (out: seq<ScreenPacket>)
      requires Valid() && !IsCga(v.mode) && v.cols >= 1
      modifies this
      ensures var (p, sent) := TextTick(old(Now()), v, m);
              Now() == p && out == Packets(Recipients(sessions[..]), v, sent)
    {
      hide Recipients, CopyFrom, RowBytes, RowsThatFit;
      if nextRow >= v.rows {
        nextRow := 0;
      }
      if nextRow == 0 {
        var current := VideoChecksum(m, 0, TextBytes(v) % 0x1_0000);
        if current == chksum {
          return [];
        }
        chksum := current;
      }
      RowsSentFit(nextRow, v);
      var rows := RowsThatFit(v);
      if rows + nextRow > v.rows {
        rows := v.rows - nextRow;
      }
      var offset := nextRow * RowBytes(v) % 0x1_0000;
      var words := rows * v.cols % 0x1_0000;
      nextRow := nextRow + rows;
      out := SendToAll(v, Chunk(offset, CopyFrom(m, offset, words)));
    }

    static lemma UpdateTells(table: seq<Session>, now: Word32, p: Progress, v: VideoState, m: Segment)
      requires v.cols >= 1
      ensures var table', sent := Pruned(table, now), Tick(p, v, m).1;
              var out := Packets(Recipients(table'), v, sent);
              && (forall p <- out :: Tells(p, v))
              && (WellFormed(table) ==>
                    var clients := Clients(table');
                    && (Recipients(table') == [] <==> clients == map[])
                    && if clients == map[] || sent == None then out == []
                       else |out| == |clients| && (set p <- out :: p.to) == clients.Keys)
    {
      hide Tick, Tells, Recipients, Clients, Pruned, Packets;
      hide WellFormed;
      var table', sent := Pruned(table, now), Tick(p, v, m).1;
      PacketsTell(table', v, sent);
      if WellFormed(table) {
        PruneRefinesMap(table, now);
        RecipientsAreClients(table');
        var out := Packets(Recipients(table'), v, sent);
        if sent.Some? {
          SameReceivers(out, Recipients(table'));
        }
      }
    }

    static lemma SameReceivers(out: seq<ScreenPacket>, to: seq<Key>)
      requires |out| == |to| && forall i :: 0 <= i < |out| ==> out[i].to == to[i]
      ensures (set p <- out :: p.to) == (set k <- to)
    {
      assert forall i :: 0 <= i < |out| ==> out[i] in out && out[i].to in to;
      assert forall k <- to :: exists i :: 0 <= i < |out| && out[i].to == k;
    }

    // session_mgr_update_all: stale sessions go, and everyone left gets the
    // same next piece of the screen; with no one left the cycle starts over.
    method UpdateAll(now: Word32, v: VideoState, m: Segment) returns (out: seq<ScreenPacket>)
      requires Valid() && v.cols >= 1
      modifies this, sessions
      ensures sessions[..] == Pruned(old(sessions[..]), now)
      ensures Recipients(sessions[..]) == [] ==> out == [] && Now() == old(Now()).(nextRow := 0, cgaNext := 0)
      ensures Recipients(sessions[..]) != [] ==>
                var (p, sent) := Tick(old(Now()), v, m);
                Now() == p && out == Packets(Recipients(sessions[..]), v, sent)
      ensures forall p <- out :: Tells(p, v)
      ensures WellFormed(old(sessions[..])) ==>
                var clients := Clients(Pruned(old(sessions[..]), now));
                if clients == map[] || Tick(old(Now()), v, m).1 == None then out == []
                else |out| == |clients| && (set p <- out :: p.to) == clients.Keys
    {
      UpdateTells(sessions[..], now, Now(), v, m);
      hide Recipients, CgaTick, TextTick, Packets, Clients, Tells, Tick, Pruned;
      assert Tick(Now(), v, m) == if IsCga(v.mode) then CgaTick(Now().(nextRow := 0), m) else TextTick(Now().(cgaNext := 0), v, m);
      var active := Prune(now);
      if active == 0 {
        nextRow, cgaNext := 0, 0;
        return [];
      }
      if IsCga(v.mode) {
        nextRow := 0;
        out := SendCga(v, m);
      } else {
        cgaNext := 0;
        out := SendText(v, m);
      }
    }
  }

  // What the client keeps of one server.
  class RemoteHost {
    const textBuffer: array<Byte>
    const cgaBuffer: array<Byte>
    var textRows: Byte
    var textCols: Byte
    var cursorRow: Byte
    var cursorCol: Byte
    var cgaMode: Byte
    var cgaBpp: Byte
    var cgaWidth: Word16
    var cgaHeight: Word16
    var cgaValid: bool
    var cgaGeneration: Word32
    // When the last packet came.
    var lastResponse: nat

    ghost predicate Valid()
      reads this
    {
      textBuffer.Length == TEXT_BUFFER_BYTES && cgaBuffer.Length == CGA_GRAPHICS_FRAME_BYTES && textBuffer != cgaBuffer
    }

    static method CopyInto(buffer: array<Byte>, c: Chunk)
      requires c.offset + |c.data| <= buffer.Length
      modifies buffer
      ensures buffer[..] == Applied(old(buffer[..]), c)
    {
      for i := 0 to |c.data|
        invariant forall j :: 0 <= j < buffer.Length ==>
                    buffer[j] == if c.offset <= j < c.offset + i then c.data[j - c.offset] else old(buffer[j])
      {
        buffer[c.offset + i] := c.data[i];
      }
    }

    // process_incoming_video_text.
    method ProcessText(p: ScreenPacket, now: nat)
      requires Valid() && p.TextPacket?
      modifies this`textRows, this`textCols, this`cursorRow, this`cursorCol, this`lastResponse, textBuffer
      ensures lastResponse == now && textBuffer[..] == Applied(old(textBuffer[..]), p.chunk)
      ensures (textRows, textCols, cursorRow, cursorCol) ==
              if p.chunk.offset + |p.chunk.data| <= TEXT_BUFFER_BYTES then (p.rows, p.cols, p.cursorRow, p.cursorCol)
              else old((textRows, textCols, cursorRow, cursorCol))
      ensures p.chunk.offset + |p.chunk.data| > TEXT_BUFFER_BYTES ==> textBuffer[..] == old(textBuffer[..])
      ensures p.chunk.offset + |p.chunk.data| <= TEXT_BUFFER_BYTES ==>
                forall v :: Tells(p, v) ==> (textRows, textCols, cursorRow, cursorCol) == (v.rows, v.cols, v.cursorRow, v.cursorCol)
    {
      lastResponse := now;
      if |p.chunk.data| + p.chunk.offset > textBuffer.Length {
        return;
      }
      CopyInto(textBuffer, p.chunk);
      textRows := p.rows;
      textCols := p.cols;
      cursorRow := p.cursorRow;
      cursorCol := p.cursorCol;
    }

    // process_incoming_cga_graphics.
    method ProcessCga(p: ScreenPacket, now: nat)
      requires Valid() && p.CgaPacket?
      modifies this`cgaMode, this`cgaBpp, this`cgaWidth, this`cgaHeight, this`cgaValid, this`cgaGeneration,
               this`lastResponse, cgaBuffer
      ensures lastResponse == now && cgaBuffer[..] == Applied(old(cgaBuffer[..]), p.chunk)
      ensures p.chunk.offset + |p.chunk.data| > CGA_GRAPHICS_FRAME_BYTES ==> cgaBuffer[..] == old(cgaBuffer[..])
      ensures (cgaMode, cgaBpp, cgaWidth, cgaHeight, cgaValid, cgaGeneration) ==
              if p.chunk.offset + |p.chunk.data| <= CGA_GRAPHICS_FRAME_BYTES then
                (p.mode, p.bpp, p.width, p.height, true, (old(cgaGeneration) + 1) % 0x1_0000_0000)
              else old((cgaMode, cgaBpp, cgaWidth, cgaHeight, cgaValid, cgaGeneration))
    {
      lastResponse := now;
      if |p.chunk.data| + p.chunk.offset > cgaBuffer.Length {
        return;
      }
      CopyInto(cgaBuffer, p.chunk);
      cgaMode := p.mode;
      cgaBpp := p.bpp;
      cgaWidth := p.width;
      cgaHeight := p.height;
      cgaValid := true;
      cgaGeneration := (cgaGeneration + 1) % 0x1_0000_0000;
    }
  }
}
