/** What one timer tick sends of the screen, and what a whole cycle of ticks
    amounts to at the client. */
module Screen {
  import opened Protocol
  import opened Checksum

  const TEXT_HEADER := 8
  const CGA_HEADER := 10
  const MAX_PAYLOAD_LENGTH := ETH_FRAME_LEN - COMBINED_HEADER_LEN
  const CGA_GRAPHICS_FRAME_BYTES := 16000
  const VIDEO_WORD := 2

  datatype VideoState = VideoState(mode: Byte, rows: Byte, cols: Byte, cursorRow: Byte, cursorCol: Byte)

  // Where the sender is in the screen, and the checksums of what it last sent.
  datatype Progress = Progress(nextRow: Word16, chksum: Word16, cgaNext: Word16, cgaChksum: Word16)

  datatype Chunk = Chunk(offset: Word16, data: seq<Byte>)

  predicate IsCga(mode: Byte) {
    mode == 4 || mode == 5 || mode == 6
  }

  // video_copy_from_frame_buffer.
  function CopyFrom(m: Segment, offset: Word16, words: Word16): (b: seq<Byte>)
    ensures |b| == words * VIDEO_WORD
    ensures offset + words * VIDEO_WORD <= 0x1_0000 ==> b == m[offset..offset + words * VIDEO_WORD]
  {
    seq(words * VIDEO_WORD, i requires 0 <= i < words * VIDEO_WORD => m[(offset + i) % 0x1_0000])
  }

  // ---- One tick ------------------------------------------------------------------

  function RowBytes(v: VideoState): nat {
    v.cols * VIDEO_WORD
  }

  function TextBytes(v: VideoState): nat {
    v.rows * RowBytes(v)
  }

  // The code passes twice the number of words of the screen.
  function TextChecksum(v: VideoState, m: Segment): Word16 {
    FrameChecksum(m, 0, TextBytes(v) % 0x1_0000)
  }

  function RowsThatFit(v: VideoState): nat
    requires v.cols >= 1
  {
    (MAX_PAYLOAD_LENGTH - TEXT_HEADER) / RowBytes(v)
  }

  function RowsSent(row: nat, v: VideoState): int
    requires v.cols >= 1
  {
    if RowsThatFit(v) + row > v.rows then v.rows - row else RowsThatFit(v)
  }

  function Low16(x: nat): Word16 {
    x % 0x1_0000
  }

  lemma Low16Keeps(x: nat)
    requires x < 0x1_0000
    ensures Low16(x) == x
  {
  }

  function TextTick(p: Progress, v: VideoState, m: Segment): (r: (Progress, Option<Chunk>))
    requires v.cols >= 1
  {
    RowsSentFit(if p.nextRow >= v.rows then 0 else p.nextRow, v);
    var row := if p.nextRow >= v.rows then 0 else p.nextRow;
    if row == 0 && TextChecksum(v, m) == p.chksum then (p.(nextRow := 0), None)
    else
      var sum := if row == 0 then TextChecksum(v, m) else p.chksum;
      var rows := RowsSent(row, v);
      (p.(nextRow := row + rows, chksum := sum),
       Some(Chunk(Low16(row * RowBytes(v)), CopyFrom(m, Low16(row * RowBytes(v)), Low16(rows * v.cols)))))
  }

  function CgaTick(p: Progress, m: Segment): (r: (Progress, Option<Chunk>)) {
    var next := if p.cgaNext >= CGA_GRAPHICS_FRAME_BYTES then 0 else p.cgaNext;
    var sum := FrameChecksum(m, 0, CGA_GRAPHICS_FRAME_BYTES / VIDEO_WORD);
    if next == 0 && sum == p.cgaChksum then (p.(cgaNext := 0), None)
    else
      var most := (MAX_PAYLOAD_LENGTH - CGA_HEADER) / 2 * 2;
      var count := if most + next > CGA_GRAPHICS_FRAME_BYTES then CGA_GRAPHICS_FRAME_BYTES - next else most;
      (p.(cgaNext := next + count, cgaChksum := if next == 0 then sum else p.cgaChksum),
       Some(Chunk(next, CopyFrom(m, next, count / VIDEO_WORD))))
  }

  // One tick with clients watching.
  function Tick(p: Progress, v: VideoState, m: Segment): (r: (Progress, Option<Chunk>))
    requires v.cols >= 1
  {
    if IsCga(v.mode) then CgaTick(p.(nextRow := 0), m) else TextTick(p.(cgaNext := 0), v, m)
  }

  // Whatever mode the screen was in before, a text packet fits its Ethernet
  // frame and the current screen, is empty only for a screen without rows, and
  // moves on. It takes all rows that fit.
  lemma {:induction false} TextPacketFits(p: Progress, v: VideoState, m: Segment)
    requires v.cols >= 1 && TextBytes(v) <= 0xffff
    ensures var (p', sent) := TextTick(p, v, m);
            sent.Some? ==>
              && COMBINED_HEADER_LEN + TEXT_HEADER + |sent.value.data| <= ETH_FRAME_LEN
              && sent.value.offset + |sent.value.data| <= TextBytes(v)
              && (sent.value.data == [] <==> v.rows == 0)
              && (v.rows > 0 ==> p'.nextRow > (if p.nextRow >= v.rows then 0 else p.nextRow) && p'.nextRow <= v.rows)
              && (p'.nextRow == v.rows || COMBINED_HEADER_LEN + TEXT_HEADER + |sent.value.data| + RowBytes(v) > ETH_FRAME_LEN)
  {
    hide RowsSent, TextChecksum, RowBytes, TextBytes, Low16;
    var row := if p.nextRow >= v.rows then 0 else p.nextRow;
    RowsSentFit(row, v);
    Low16Keeps(row * RowBytes(v));
    Low16Keeps(RowsSent(row, v) * v.cols);
  }

  // The rows of a packet stay on the screen and fit the frame.
  lemma RowsSentFit(row: nat, v: VideoState)
    requires v.cols >= 1 && (row < v.rows || row == 0)
    ensures var rows := RowsSent(row, v);
            && 0 <= rows <= v.rows - row && (rows == 0 <==> v.rows == 0)
            && 0 <= rows * v.cols <= 740 && rows * v.cols * VIDEO_WORD == rows * RowBytes(v)
            && (rows * v.cols == 0 <==> rows == 0)
            && 0 <= row * RowBytes(v) && row * RowBytes(v) + rows * RowBytes(v) == (row + rows) * RowBytes(v)
            && (row + rows) * RowBytes(v) <= v.rows * RowBytes(v) == TextBytes(v)
            && (row + rows == v.rows || rows * RowBytes(v) + RowBytes(v) > MAX_PAYLOAD_LENGTH - TEXT_HEADER)
  {
    var fit, rows := RowsThatFit(v), RowsSent(row, v);
    FitBounds(RowBytes(v));
    RowsTwice(rows, v.cols);
    hide RowsThatFit, RowBytes;
    RowsScale(rows, fit, RowBytes(v));
    RowsScale(row + rows, v.rows, RowBytes(v));
    RowsAdd(row, rows, RowBytes(v));
  }

  lemma FitBounds(w: nat)
    requires 2 <= w <= 510
    ensures 2 <= (MAX_PAYLOAD_LENGTH - TEXT_HEADER) / w <= 740
    ensures (MAX_PAYLOAD_LENGTH - TEXT_HEADER) / w * w <= MAX_PAYLOAD_LENGTH - TEXT_HEADER
    ensures (MAX_PAYLOAD_LENGTH - TEXT_HEADER) / w * w + w > MAX_PAYLOAD_LENGTH - TEXT_HEADER
  {
  }

  lemma RowsScale(a: nat, b: nat, w: nat)
    requires a <= b
    ensures a * w <= b * w
  {
  }

  lemma RowsAdd(a: nat, b: nat, w: nat)
    ensures (a + b) * w == a * w + b * w && a * w >= 0
  {
  }

  lemma RowsTwice(a: nat, b: nat)
    requires b >= 1
    ensures a * b * 2 == a * (b * 2) && (a * b == 0 <==> a == 0)
  {
  }

  // ---- A cycle of ticks ------------------------------------------------------------

  // Chunks that follow each other without gap or overlap from `from` to the end
  // of the frame, each with the frame's bytes.
  predicate Tiles(chunks: seq<Chunk>, frame: seq<Byte>, from: nat) {
    if chunks == [] then from == |frame|
    else
      && chunks[0].offset == from
      && |chunks[0].data| > 0
      && from + |chunks[0].data| <= |frame|
      && chunks[0].data == frame[from..from + |chunks[0].data|]
      && Tiles(chunks[1..], frame, from + |chunks[0].data|)
  }

  // The chunks of the ticks from here to the end of the screen.
  function TextCycle(p: Progress, v: VideoState, m: Segment): (r: (Progress, seq<Chunk>))
    requires v.cols >= 1 && TextBytes(v) <= 0xffff
    decreases v.rows - p.nextRow
  {
    if p.nextRow >= v.rows then (p, [])
    else
      var (p', sent) := TextTick(p, v, m);
      TextPacketFits(p, v, m);
      if sent == None then (p', [])
      else
        var (end, more) := TextCycle(p', v, m);
        (end, [sent.value] + more)
  }

  lemma {:induction false} TextTickSends(p: Progress, v: VideoState, m: Segment)
    requires v.cols >= 1 && TextBytes(v) <= 0xffff && p.nextRow < v.rows
    requires p.nextRow == 0 ==> TextChecksum(v, m) != p.chksum
    ensures var (p', sent) := TextTick(p, v, m);
            var from, to := p.nextRow * RowBytes(v), p'.nextRow * RowBytes(v);
            && p.nextRow < p'.nextRow <= v.rows && 0 <= from < to <= TextBytes(v)
            && sent == Some(Chunk(from, m[from..to]))
            && p'.chksum == (if p.nextRow == 0 then TextChecksum(v, m) else p.chksum)
  {
    hide RowsSent, TextChecksum, RowBytes, TextBytes, Low16;
    RowsSentFit(p.nextRow, v);
    Low16Keeps(p.nextRow * RowBytes(v));
    Low16Keeps(RowsSent(p.nextRow, v) * v.cols);
  }

  lemma {:induction false} TextCycleTiles(p: Progress, v: VideoState, m: Segment)
    requires v.cols >= 1 && TextBytes(v) <= 0xffff && p.nextRow <= v.rows
    requires p.nextRow == 0 ==> TextChecksum(v, m) != p.chksum && v.rows > 0
    ensures var (end, chunks) := TextCycle(p, v, m);
            && p.nextRow * RowBytes(v) <= TextBytes(v)
            && Tiles(chunks, m[..TextBytes(v)], p.nextRow * RowBytes(v))
            && end.nextRow == v.rows
            && end.chksum == (if p.nextRow == 0 then TextChecksum(v, m) else p.chksum)
    decreases v.rows - p.nextRow
  {
    hide RowsSent, TextChecksum, RowBytes, TextTick;
    RowsScale(p.nextRow, v.rows, RowBytes(v));
    if p.nextRow < v.rows {
      TextTickSends(p, v, m);
      TextCycleTiles(TextTick(p, v, m).0, v, m);
    }
  }

  function CgaCycle(p: Progress, m: Segment): (r: (Progress, seq<Chunk>))
    decreases CGA_GRAPHICS_FRAME_BYTES - p.cgaNext
  {
    if p.cgaNext >= CGA_GRAPHICS_FRAME_BYTES then (p, [])
    else
      var (p', sent) := CgaTick(p, m);
      if sent == None then (p', [])
      else
        var (end, more) := CgaCycle(p', m);
        (end, [sent.value] + more)
  }

  lemma CgaTickSends(p: Progress, m: Segment)
    requires p.cgaNext < CGA_GRAPHICS_FRAME_BYTES && p.cgaNext % 2 == 0
    requires p.cgaNext == 0 ==> FrameChecksum(m, 0, CGA_GRAPHICS_FRAME_BYTES / VIDEO_WORD) != p.cgaChksum
    ensures var (p', sent) := CgaTick(p, m);
            && p.cgaNext < p'.cgaNext <= CGA_GRAPHICS_FRAME_BYTES && p'.cgaNext % 2 == 0
            && sent == Some(Chunk(p.cgaNext, m[p.cgaNext..p'.cgaNext]))
            && COMBINED_HEADER_LEN + CGA_HEADER + |sent.value.data| <= ETH_FRAME_LEN
            && (p'.cgaNext == CGA_GRAPHICS_FRAME_BYTES
                || COMBINED_HEADER_LEN + CGA_HEADER + |sent.value.data| + VIDEO_WORD > ETH_FRAME_LEN)
            && p'.cgaChksum == (if p.cgaNext == 0 then FrameChecksum(m, 0, CGA_GRAPHICS_FRAME_BYTES / VIDEO_WORD) else p.cgaChksum)
  {
    hide FrameChecksum;
  }

  lemma {:induction false} CgaCycleTiles(p: Progress, m: Segment)
    requires p.cgaNext <= CGA_GRAPHICS_FRAME_BYTES && p.cgaNext % 2 == 0
    requires p.cgaNext == 0 ==> FrameChecksum(m, 0, CGA_GRAPHICS_FRAME_BYTES / VIDEO_WORD) != p.cgaChksum
    ensures var (end, chunks) := CgaCycle(p, m);
            && Tiles(chunks, m[..CGA_GRAPHICS_FRAME_BYTES], p.cgaNext)
            && (forall k :: 0 <= k < |chunks| ==> COMBINED_HEADER_LEN + CGA_HEADER + |chunks[k].data| <= ETH_FRAME_LEN)
            && end.cgaNext == CGA_GRAPHICS_FRAME_BYTES
            && end.cgaChksum == (if p.cgaNext == 0 then FrameChecksum(m, 0, CGA_GRAPHICS_FRAME_BYTES / VIDEO_WORD) else p.cgaChksum)
    decreases CGA_GRAPHICS_FRAME_BYTES - p.cgaNext
  {
    hide FrameChecksum, CgaTick;
    if p.cgaNext < CGA_GRAPHICS_FRAME_BYTES {
      CgaTickSends(p, m);
      CgaCycleTiles(CgaTick(p, m).0, m);
    }
  }

  // A screen that stays as it is through a cycle is sent once: the next tick
  // sends nothing.
  lemma {:induction false} QuietAfterCycle(p: Progress, v: VideoState, m: Segment)
    requires v.cols >= 1 && TextBytes(v) <= 0xffff
    ensures p.nextRow == 0 && TextChecksum(v, m) != p.chksum && v.rows > 0 ==>
              TextTick(TextCycle(p, v, m).0, v, m).1 == None
    ensures p.cgaNext == 0 && FrameChecksum(m, 0, CGA_GRAPHICS_FRAME_BYTES / VIDEO_WORD) != p.cgaChksum ==>
              CgaTick(CgaCycle(p, m).0, m).1 == None
  {
    hide FrameChecksum;
    if p.nextRow == 0 && TextChecksum(v, m) != p.chksum && v.rows > 0 {
      TextCycleTiles(p, v, m);
    }
    if p.cgaNext == 0 && FrameChecksum(m, 0, CGA_GRAPHICS_FRAME_BYTES / VIDEO_WORD) != p.cgaChksum {
      CgaCycleTiles(p, m);
    }
  }

  // A change between text and graphics starts the other one's cycle over.
  lemma {:induction false} ModeChangeStartsOver(p: Progress, v: VideoState, m: Segment)
    requires v.cols >= 1
    ensures var p' := Tick(p, v, m).0;
            if v.mode in {4, 5, 6} then p'.nextRow == 0 && p'.chksum == p.chksum
            else p'.cgaNext == 0 && p'.cgaChksum == p.cgaChksum
  {
    hide FrameChecksum, CopyFrom;
  }

  // A change of one cell of a screen that was sent starts a new cycle. The
  // checksum reads on behind the screen, and a cell near the top of a very
  // large screen a second time; those cells are left out here.
  lemma {:induction false} ChangedCellIsSent(p: Progress, v: VideoState, m: Segment, m': Segment, k: nat)
    requires v.cols >= 1 && TextBytes(v) <= 0xffff && p.nextRow == 0
    requires k < TextBytes(v) / 2 && TextBytes(v) <= k + 0x8000 && DifferAt(m, m', k)
    ensures TextChecksum(v, m) != TextChecksum(v, m')
    ensures p.chksum == TextChecksum(v, m) ==> TextTick(p, v, m).1 == None && TextTick(p, v, m').1.Some?
  {
    TextChecksumIs(v, m);
    TextChecksumIs(v, m');
    hide FrameChecksum, TextBytes, TextChecksum, RowsSent, RowBytes, CopyFrom;
    OneCellChanges(m, m', TextBytes(v), k);
  }

  lemma TextChecksumIs(v: VideoState, m: Segment)
    requires TextBytes(v) <= 0xffff
    ensures TextChecksum(v, m) == FrameChecksum(m, 0, TextBytes(v))
  {
    hide FrameChecksum, TextBytes;
  }

  lemma {:induction false} ChangedPixelsAreSent(p: Progress, m: Segment, m': Segment, k: nat)
    requires p.cgaNext == 0 && k < CGA_GRAPHICS_FRAME_BYTES / VIDEO_WORD && DifferAt(m, m', k)
    requires p.cgaChksum == FrameChecksum(m, 0, CGA_GRAPHICS_FRAME_BYTES / VIDEO_WORD)
    ensures CgaTick(p, m).1 == None && CgaTick(p, m').1.Some?
  {
    OneCellChanges(m, m', CGA_GRAPHICS_FRAME_BYTES / VIDEO_WORD, k);
    hide FrameChecksum;
  }

  // ---- At the client -----------------------------------------------------------------

  // process_incoming_video_text, process_incoming_cga_graphics: a chunk beyond
  // the buffer is dropped.
  function Applied(buffer: seq<Byte>, c: Chunk): (r: seq<Byte>)
    ensures |r| == |buffer|
  {
    if |c.data| + c.offset > |buffer| then buffer
    else buffer[..c.offset] + c.data + buffer[c.offset + |c.data|..]
  }

  function AllApplied(buffer: seq<Byte>, arrivals: seq<Chunk>): (r: seq<Byte>)
    ensures |r| == |buffer|
    decreases |arrivals|
  {
    if arrivals == [] then buffer else AllApplied(Applied(buffer, arrivals[0]), arrivals[1..])
  }

  predicate Shows(c: Chunk, frame: seq<Byte>) {
    c.offset + |c.data| <= |frame| && c.data == frame[c.offset..c.offset + |c.data|]
  }

  predicate Covers(c: Chunk, i: nat) {
    c.offset <= i < c.offset + |c.data|
  }

  predicate Covered(chunks: seq<Chunk>, i: nat) {
    exists k :: 0 <= k < |chunks| && Covers(chunks[k], i)
  }

  // Once a byte is right it stays right, and an arrival that covers it makes
  // it right.
  lemma {:induction false} ByteArrives(buffer: seq<Byte>, arrivals: seq<Chunk>, frame: seq<Byte>, i: nat)
    requires |frame| <= |buffer| && i < |frame|
    requires forall c <- arrivals :: Shows(c, frame)
    requires buffer[i] == frame[i] || Covered(arrivals, i)
    ensures AllApplied(buffer, arrivals)[i] == frame[i]
    decreases |arrivals|
  {
    if arrivals != [] {
      var c := arrivals[0];
      assert Shows(c, frame);
      if !Covers(c, i) && buffer[i] != frame[i] {
        var k :| 0 <= k < |arrivals| && Covers(arrivals[k], i);
        assert arrivals[1..][k - 1] == arrivals[k];
      }
      ByteArrives(Applied(buffer, c), arrivals[1..], frame, i);
    }
  }

  lemma {:induction false} TilesShow(chunks: seq<Chunk>, frame: seq<Byte>, from: nat)
    requires Tiles(chunks, frame, from)
    ensures from <= |frame|
    ensures forall c <- chunks :: Shows(c, frame)
    ensures forall i :: from <= i < |frame| ==> Covered(chunks, i)
    decreases |chunks|
  {
    if chunks != [] {
      var next := from + |chunks[0].data|;
      TilesShow(chunks[1..], frame, next);
      forall i | from <= i < |frame| ensures Covered(chunks, i) {
        if i < next {
          assert Covers(chunks[0], i);
        } else {
          assert Covered(chunks[1..], i);
          var k :| 0 <= k < |chunks[1..]| && Covers(chunks[1..][k], i);
          assert chunks[k + 1] == chunks[1..][k];
        }
      }
    }
  }

  // Chunks that tile a frame rebuild it in any order and with any repeats, and
  // touch nothing behind it.
  lemma Reassembles(chunks: seq<Chunk>, frame: seq<Byte>, buffer: seq<Byte>, arrivals: seq<Chunk>)
    requires Tiles(chunks, frame, 0) && |frame| <= |buffer|
    requires forall c <- arrivals :: c in chunks
    requires forall c <- chunks :: c in arrivals
    ensures AllApplied(buffer, arrivals) == frame + buffer[|frame|..]
  {
    TilesShow(chunks, frame, 0);
    var r := AllApplied(buffer, arrivals);
    forall i | 0 <= i < |frame| ensures r[i] == frame[i] {
      assert Covered(chunks, i);
      var k :| 0 <= k < |chunks| && Covers(chunks[k], i);
      assert chunks[k] in arrivals;
      var j :| 0 <= j < |arrivals| && arrivals[j] == chunks[k];
      ByteArrives(buffer, arrivals, frame, i);
    }
    RestStays(buffer, arrivals, frame);
  }

  lemma {:induction false} RestStays(buffer: seq<Byte>, arrivals: seq<Chunk>, frame: seq<Byte>)
    requires |frame| <= |buffer| && forall c <- arrivals :: Shows(c, frame)
    ensures AllApplied(buffer, arrivals)[|frame|..] == buffer[|frame|..]
    decreases |arrivals|
  {
    if arrivals != [] {
      assert Shows(arrivals[0], frame);
      RestStays(Applied(buffer, arrivals[0]), arrivals[1..], frame);
    }
  }

  const TEXT_BUFFER_BYTES := 32768

  // A text screen that stays constant over a cycle started by a checksum
  // mismatch arrives whole, however its packets are reordered and repeated.
  lemma {:induction false} TextScreenArrives(p: Progress, v: VideoState, m: Segment, buffer: seq<Byte>, arrivals: seq<Chunk>)
    requires v.rows >= 1 && v.cols >= 1 && TextBytes(v) <= TEXT_BUFFER_BYTES == |buffer|
    requires p.nextRow == 0 && TextChecksum(v, m) != p.chksum
    requires forall c <- arrivals :: c in TextCycle(p, v, m).1
    requires forall c <- TextCycle(p, v, m).1 :: c in arrivals
    ensures AllApplied(buffer, arrivals) == m[..TextBytes(v)] + buffer[TextBytes(v)..]
  {
    TextCycleTiles(p, v, m);
    Reassembles(TextCycle(p, v, m).1, m[..TextBytes(v)], buffer, arrivals);
  }

  lemma {:induction false} CgaScreenArrives(p: Progress, m: Segment, buffer: seq<Byte>, arrivals: seq<Chunk>)
    requires |buffer| == CGA_GRAPHICS_FRAME_BYTES
    requires p.cgaNext == 0 && FrameChecksum(m, 0, CGA_GRAPHICS_FRAME_BYTES / VIDEO_WORD) != p.cgaChksum
    requires forall c <- arrivals :: c in CgaCycle(p, m).1
    requires forall c <- CgaCycle(p, m).1 :: c in arrivals
    ensures AllApplied(buffer, arrivals) == m[..CGA_GRAPHICS_FRAME_BYTES]
  {
    CgaCycleTiles(p, m);
    Reassembles(CgaCycle(p, m).1, m[..CGA_GRAPHICS_FRAME_BYTES], buffer, arrivals);
  }
}
