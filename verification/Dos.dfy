/** The DOS services the server calls (int 21h), by their contracts. What a
    call answers is a parameter, so that a statement about every answer is a
    statement about every behaviour of DOS. */
module Dos {
  import opened Protocol

  // The size field of a FAT directory entry is 32 bits wide.
  const MAX_FILE_BYTES := 0xffff_ffff

  datatype OpenFile = OpenFile(name: Name, pos: nat)

  // Where DOS puts find-first/find-next results: the server's own buffer or
  // whatever the interrupted program had set.
  datatype Dta = ServerDta | ProgramDta(segment: Word16, offset: Word16)

  // `files` and `dirs` are keyed by folded name, `listings` by search pattern.
  // `open` holds the handles the server opened. `found` is the content of each
  // DTA: the records a search has still to report, the current one first.
  datatype Disk = Disk(
    files: map<Name, seq<Byte>>,
    dirs: set<Name>,
    listings: map<Name, seq<DirRecord>>,
    open: map<int, OpenFile>,
    dta: Dta,
    found: map<Dta, seq<DirRecord>>)

  // ---- Names -------------------------------------------------------------

  function FoldChar(ch: char): char {
    if 'a' <= ch <= 'z' then ch - 'a' + 'A' else if ch == '/' then '\\' else ch
  }

  function Fold(name: Name): (r: Name)
    ensures |r| == |name|
    ensures forall i :: 0 <= i < |name| ==> r[i] == FoldChar(name[i])
  {
    seq(|name|, i requires 0 <= i < |name| => FoldChar(name[i]))
  }

  // ---- Files -------------------------------------------------------------

  predicate IsOpen(d: Disk, h: int) {
    h in d.open && d.open[h].name in d.files
  }

  function Content(d: Disk, h: int): seq<Byte>
    requires IsOpen(d, h)
  {
    d.files[d.open[h].name]
  }

  // AH=3Ch. `h` is the handle DOS would give out, negative when it fails.
  function Create(d: Disk, name: Name, h: int): (r: (Disk, int)) {
    if h < 0 || h in d.open then (d, -1)
    else (d.(files := d.files[Fold(name) := []], open := d.open[h := OpenFile(Fold(name), 0)]), h)
  }

  // AH=3Dh, read access.
  function OpenRead(d: Disk, name: Name, h: int): (r: (Disk, int)) {
    if h < 0 || h in d.open || Fold(name) !in d.files then (d, -1)
    else (d.(open := d.open[h := OpenFile(Fold(name), 0)]), h)
  }

  // AH=3Eh.
  function Close(d: Disk, h: int): Disk {
    if h < 0 then d else d.(open := d.open - {h})
  }

  // AH=42h, from the start of the file.
  function Seek(d: Disk, h: int, offset: Word32, ok: bool): (r: (Disk, Word32)) {
    if !ok || h !in d.open then (d, 0xffff_ffff)
    else (d.(open := d.open[h := d.open[h].(pos := offset)]), offset)
  }

  // How many bytes a read delivers when DOS is willing to deliver `k`: none
  // exactly at the end of the file or when none are asked for.
  function ReadLength(k: int, count: nat, available: nat): (n: nat)
    ensures n <= count && n <= available
    ensures n == 0 <==> count == 0 || available == 0
  {
    if count == 0 || available == 0 then 0
    else if k < 1 then 1
    else Min(k, Min(count, available))
  }

  // AH=3Fh. A negative `k` is a failure.
  function Read(d: Disk, h: int, count: nat, k: int): (r: (Disk, int, seq<Byte>))
    ensures r.1 >= 0 ==> |r.2| == r.1 <= count
  {
    if k < 0 || !IsOpen(d, h) then (d, -1, [])
    else
      var f, pos := Content(d, h), d.open[h].pos;
      var n := ReadLength(k, count, if pos < |f| then |f| - pos else 0);
      (d.(open := d.open[h := d.open[h].(pos := pos + n)]), n, if n == 0 then [] else f[pos..pos + n])
  }

  // Bytes between the end of a file and a write position behind it are
  // unspecified in DOS and zero here.
  function Extended(f: seq<Byte>, pos: nat): seq<Byte> {
    if pos <= |f| then f else f + seq(pos - |f|, _ => 0)
  }

  // Writing no bytes cuts the file off at the position.
  function Overwritten(f: seq<Byte>, pos: nat, data: seq<Byte>): seq<Byte> {
    var g := Extended(f, pos);
    if data == [] then g[..pos]
    else g[..pos] + data + (if pos + |data| < |g| then g[pos + |data|..] else [])
  }

  // AH=40h: the number of bytes written (AX), -1 for a failure (carry).
  // `k` is the number of bytes DOS finds room for.
  function Write(d: Disk, h: int, data: seq<Byte>, k: int): (r: (Disk, int)) {
    if k < 0 || !IsOpen(d, h) || d.open[h].pos + |data| > MAX_FILE_BYTES then (d, -1)
    else
      var n := Min(k, |data|);
      var pos := d.open[h].pos;
      var f := if n == 0 && data != [] then Content(d, h) else Overwritten(Content(d, h), pos, data[..n]);
      (d.(files := d.files[d.open[h].name := f], open := d.open[h := d.open[h].(pos := pos + n)]), n)
  }

  // ---- Names on the disk -------------------------------------------------

  function MakeDir(d: Disk, name: Name, ok: bool): (r: (Disk, bool)) {
    if !ok || Fold(name) in d.dirs then (d, false)
    else (d.(dirs := d.dirs + {Fold(name)}), true)
  }

  function RemoveDir(d: Disk, name: Name, ok: bool): (r: (Disk, bool)) {
    if !ok || Fold(name) !in d.dirs then (d, false)
    else (d.(dirs := d.dirs - {Fold(name)}), true)
  }

  function Unlink(d: Disk, name: Name, ok: bool): (r: (Disk, bool)) {
    if !ok || Fold(name) !in d.files then (d, false)
    else (d.(files := d.files - {Fold(name)}), true)
  }

  // AH=56h refuses an existing target.
  function RenameFile(d: Disk, source: Name, target: Name, ok: bool): (r: (Disk, bool)) {
    if !ok || Fold(source) !in d.files || Fold(target) in d.files then (d, false)
    else (d.(files := d.files[Fold(target) := d.files[Fold(source)]] - {Fold(source)}), true)
  }

  // ---- Searching ---------------------------------------------------------

  function Listing(d: Disk, pattern: Name): seq<DirRecord> {
    if Fold(pattern) in d.files then
      [DirRecord(0, |d.files[Fold(pattern)]| % 0x1_0000_0000, 0, 0, pattern)]
    else if pattern in d.listings then d.listings[pattern] else []
  }

  // AH=1Ah.
  function SetDta(d: Disk, dta: Dta): Disk {
    d.(dta := dta)
  }

  // AH=4Eh: the result goes to the current DTA.
  function FindFirst(d: Disk, pattern: Name, ok: bool): (r: (Disk, bool)) {
    var records := Listing(d, pattern);
    if !ok || records == [] then (d, false)
    else (d.(found := d.found[d.dta := records]), true)
  }

  // AH=4Fh: continues the search whose state is in the current DTA.
  function FindNext(d: Disk): (r: (Disk, bool)) {
    if d.dta !in d.found || |d.found[d.dta]| <= 1 then (d, false)
    else (d.(found := d.found[d.dta := d.found[d.dta][1..]]), true)
  }
}
