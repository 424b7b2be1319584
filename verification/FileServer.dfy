/** The server's transfer code: methods that update the record `g_file` and the
    disk step by step, proved to do what `FileServerSpec` says. */
module FileServer {
  import opened Protocol
  import opened Dos
  import opened FileServerSpec

  class Server {
    var file: FileState
    var disk: Disk

    // file_transfer_init.
    constructor (d: Disk)
      ensures !file.active && file.mode == ModeNone && file.pending == OpNone
      ensures file.handle == -1 && file.dirRequestId == 0 && file.transferId == 0
      ensures disk == d
    {
      file := Fields(false, ModeNone, OpNone, Peer([], 0), 0, 0, 0, -1, "", seq(FILE_TRANSFER_CHUNK_BYTES, _ => 0),
                     0, 0, AckBegin, AckOk, 0, 0, 0, 0, 0, "", "");
      disk := d;
    }

    method RememberClient(peer: Peer)
      modifies this`file
      ensures file == old(file).(client := peer)
    {
      file := file.(client := peer);
    }

    method QueueAck(peer: Peer, id: Word32, command: AckCommand, status: AckStatus)
      modifies this`file
      ensures file == FileServerSpec.QueueAck(old(file), peer, id, command, status)
    {
      if file.pending != OpNone {
        return;
      }
      RememberClient(peer);
      file := file.(transferId := id);
      file := file.(ackCommand := command, ackStatus := status, ackOffset := file.expected);
      file := file.(pending := OpAck);
    }

    method HandlePutData(peer: Peer, id: Word32, offset: Word32, count: Word16, body: seq<Byte>)
      requires file.pending == OpNone
      modifies this`file
      ensures file == FileServerSpec.HandlePutData(old(file), peer, id, offset, count, body)
    {
      if !file.active || file.mode != ModePut || id != file.transferId {
        return;
      }
      if offset != file.expected {
        QueueAck(peer, id, AckData, AckOk);
        return;
      }
      if count > FILE_TRANSFER_CHUNK_BYTES || |body| < count {
        QueueAck(peer, id, AckData, AckError);
        return;
      }
      RememberClient(peer);
      file := file.(chunkOffset := offset, chunkCount := count);
      file := file.(chunk := body[..count] + file.chunk[count..]);
      file := file.(pending := OpPutData);
    }

    // A request that names its path or paths and starts a new operation.
    method Record(peer: Peer, id: Word32, name: Name, op: Op)
      requires op != OpPutData
      modifies this`file
      ensures file == old(file).(client := peer, transferId := id, filename := name, pending := op)
    {
      RememberClient(peer);
      file := file.(transferId := id);
      file := file.(filename := name);
      file := file.(pending := op);
    }

    // file_transfer_handle_packet.
    method HandlePacket(f: Frame)
      modifies this`file
      ensures file == Handle(old(file), f)
    {
      if file.pending != OpNone {
        return;
      }
      match f.body
      case PutBegin(id, size, name) =>
        Record(f.peer, id, name, OpPutBegin);
        file := file.(size := size);
      case PutData(id, offset, count, body) =>
        HandlePutData(f.peer, id, offset, count, body);
      case PutEnd(id, size) =>
        if file.active && file.mode == ModePut && id == file.transferId && size == file.size {
          RememberClient(f.peer);
          file := file.(pending := OpPutEnd);
        }
      case GetBegin(id, name) =>
        Record(f.peer, id, name, OpGetBegin);
      case GetDataReq(id, offset, count) =>
        if file.active && file.mode == ModeGet && id == file.transferId {
          RememberClient(f.peer);
          file := file.(chunkOffset := offset, chunkCount := count);
          file := file.(pending := OpGetDataReq);
        }
      case GetEnd(id) =>
        if file.active && file.mode == ModeGet && id == file.transferId {
          RememberClient(f.peer);
          file := file.(pending := OpGetEnd);
        }
      case DirBegin(rid, path) =>
        RememberClient(f.peer);
        file := file.(dirRequestId := rid, dirPath := path);
        file := file.(active := true, mode := ModeDir);
      case DirDataReq(rid, start, max) =>
        if file.active && file.mode == ModeDir && rid == file.dirRequestId {
          RememberClient(f.peer);
          file := file.(dirStart := start, dirMax := max);
          file := file.(pending := OpDirListDataReq);
        }
      case DirEnd(rid) =>
        if rid == file.dirRequestId {
          file := file.(active := false, mode := ModeNone);
          file := file.(dirRequestId := 0);
        }
      case Mkdir(id, flags, name) =>
        Record(f.peer, id, name, OpMkdir);
        file := file.(pathOpFlags := flags);
      case Delete(id, flags, name) =>
        Record(f.peer, id, name, OpDelete);
        file := file.(pathOpFlags := flags);
      case Rename(id, name, target) =>
        Record(f.peer, id, name, OpRename);
        file := file.(target := target);
      case Copy(id, name, target) =>
        Record(f.peer, id, name, OpCopy);
        file := file.(target := target);
    }

    // ---- Running the pending operation ---------------------------------------

    // dos_path_equal.
    method DosPathEqual(a: Name, b: Name) returns (equal: bool)
      ensures equal <==> PathEqual(a, b)
    {
      var i := 0;
      while i < |a| && i < |b|
        invariant i <= |a| && i <= |b|
        invariant PathEqual(a, b) <==> PathEqual(a[i..], b[i..])
      {
        if FoldChar(a[i]) != FoldChar(b[i]) {
          return false;
        }
        assert a[i..][1..] == a[i + 1..] && b[i..][1..] == b[i + 1..];
        i := i + 1;
      }
      return |a| == |b|;
    }

    // dos_copy_file.
    method DosCopyFile(source: Name, target: Name, a: Answers) returns (ok: bool, bytes: Word32)
      modifies this
      ensures var r := CopyFile(old(disk), source, target, old(file.chunk), a);
              ok == r.ok && bytes == r.bytes && disk == r.d && file == old(file).(chunk := r.chunk)
    {
      hide OpenRead, Create, Read, Write;
      ok, bytes := false, 0;
      var (d1, input) := OpenRead(disk, source, a.handle);
      disk := d1;
      if input < 0 {
        return;
      }
      var (d2, output) := Create(disk, target, a.secondHandle);
      disk := d2;
      if output >= 0 {
        ghost var all := CopyLoop(disk, input, output, file.chunk, 0, a.rounds);
        var k := 0;
        while k < |a.rounds|
          invariant 0 <= k <= |a.rounds| && !ok
          invariant all == CopyLoop(disk, input, output, file.chunk, bytes, a.rounds[k..])
          invariant file == old(file).(chunk := file.chunk)
        {
          var (d3, n, data) := Read(disk, input, FILE_TRANSFER_CHUNK_BYTES, a.rounds[k].read);
          disk := d3;
          if n < 0 {
            break;
          }
          file := file.(chunk := Filled(file.chunk, data));
          if n == 0 {
            ok := true;
            break;
          }
          var (d4, w) := Write(disk, output, file.chunk[..n], a.rounds[k].written);
          disk := d4;
          if w != n {
            break;
          }
          assert a.rounds[k..][1..] == a.rounds[k + 1..];
          bytes := (bytes + n) % 0x1_0000_0000;
          k := k + 1;
        }
        assert all == Copied(ok, disk, file.chunk, bytes);
        disk := Close(disk, output);
      }
      disk := Close(disk, input);
    }

    // build_dir_pattern.
    method BuildDirPattern(path: Name) returns (pattern: Option<Name>)
      ensures pattern == DirPattern(path)
    {
      var p := if path == "" then "." else path;
      var dest := "";
      while |dest| < |p| && |dest| + 1 < PATTERN_BYTES
        invariant |dest| <= |p| && |dest| < PATTERN_BYTES && dest == Translated(p)[..|dest|]
      {
        dest := dest + [if p[|dest|] == '/' then '\\' else p[|dest|]];
      }
      if |dest| < |p| {
        return None;
      }
      assert dest == Translated(p);
      if HasWildcard(dest) {
        return Some(dest);
      }
      if dest[|dest| - 1] == '\\' {
        if |dest| + 4 >= PATTERN_BYTES {
          return None;
        }
        return Some(dest + "*.*");
      }
      if |dest| + 5 >= PATTERN_BYTES {
        return None;
      }
      return Some(dest + "\\*.*");
    }

    // collect_dir_entries.
    method CollectDirEntries(findOk: bool) returns (status: AckStatus, entries: seq<DirRecord>)
      modifies this`disk
      ensures FileServerSpec.CollectDirEntries(old(disk), file.dirPath, file.dirStart, file.dirMax, findOk)
              == (disk, status, entries)
    {
      hide DirPattern, Listing;
      var seen: Word16 := 0;
      var max := if file.dirMax > DIR_LIST_PAGE_ENTRIES then DIR_LIST_PAGE_ENTRIES else file.dirMax;
      entries := [];
      status := AckOk;
      var built := BuildDirPattern(file.dirPath);
      if built == None {
        return AckError, [];
      }
      var saved := disk.dta;
      disk := SetDta(disk, ServerDta);
      var (d1, ok) := FindFirst(disk, built.value, findOk);
      disk := d1;
      if !ok {
        disk := SetDta(disk, saved);
        return;
      }
      ghost var wanted := Scan(d1.found[ServerDta], 0, file.dirStart, max, []);
      var more := true;
      while more
        invariant disk.dta == ServerDta && ServerDta in disk.found && disk.found[ServerDta] != []
        invariant disk == d1.(found := d1.found[ServerDta := disk.found[ServerDta]])
        invariant more ==> wanted == Scan(disk.found[ServerDta], seen, file.dirStart, max, entries)
        invariant !more ==> wanted == (entries, disk.found[ServerDta])
        decreases |disk.found[ServerDta]|, more
      {
        if seen >= file.dirStart && |entries| < max {
          entries := entries + [disk.found[ServerDta][0]];
        }
        more := |entries| < max;
        if more {
          var (d2, found) := FindNext(disk);
          disk, more := d2, found;
        }
        seen := (seen + 1) % 0x1_0000;
      }
      disk := SetDta(disk, saved);
    }

    // dos_get_file_size.
    method DosGetFileSize(name: Name, findOk: bool) returns (n: Word32)
      modifies this`disk
      ensures FileSize(old(disk), name, findOk) == (disk, n)
    {
      var saved := disk.dta;
      disk := SetDta(disk, ServerDta);
      var (d1, ok) := FindFirst(disk, name, findOk);
      disk := d1;
      n := if ok then disk.found[ServerDta][0].size else 0xffff_ffff;
      disk := SetDta(disk, saved);
    }

    // The cases of file_transfer_process_idle that open a transfer ...
    method IdleOpen(op: Op, a: Answers) returns (command: AckCommand, status: AckStatus)
      requires file.pending == OpNone && op in {OpPutBegin, OpGetBegin}
      modifies this
      ensures var o := if op == OpPutBegin then IdlePutBegin(old(file), old(disk), a) else IdleGetBegin(old(file), old(disk), a);
              file == o.g && disk == o.d
              && o.out == [Datagram(file.client, Ack(file.transferId, command, status, AckOffset(op, status, file)))]
    {
      hide OpenRead, Create, FileSize;
      command, status := AckBegin, AckOk;
      if file.active {
        disk := Close(disk, file.handle);
      }
      if op == OpPutBegin {
        var (d1, h) := Create(disk, file.filename, a.handle);
        disk := d1;
        file := file.(handle := h, expected := 0);
        file := file.(active := file.handle >= 0);
        file := file.(mode := if file.active then ModePut else ModeNone);
      } else {
        var (d1, h) := OpenRead(disk, file.filename, a.handle);
        disk := d1;
        file := file.(handle := h, active := false, mode := ModeNone, expected := 0, size := 0);
        if h >= 0 {
          var size := DosGetFileSize(file.filename, a.findOk);
          file := file.(size := size);
          if size != 0xffff_ffff {
            file := file.(active := true, mode := ModeGet);
          }
        }
        if !file.active {
          disk := Close(disk, file.handle);
          file := file.(handle := -1);
        }
      }
      if !file.active {
        status := AckError;
      }
    }

    // ... or close it.
    method IdleClose(op: Op) returns (command: AckCommand, status: AckStatus)
      requires file.pending == OpNone && op in {OpPutEnd, OpGetEnd}
      modifies this
      ensures var o := if op == OpPutEnd then IdlePutEnd(old(file), old(disk)) else IdleGetEnd(old(file), old(disk));
              file == o.g && disk == o.d
              && o.out == [Datagram(file.client, Ack(file.transferId, command, status, file.expected))]
    {
      command, status := AckEnd, AckOk;
      if op == OpPutEnd && file.expected != file.size {
        status := AckError;
      }
      disk := Close(disk, file.handle);
      file := file.(handle := -1);
      file := file.(active := false);
      file := file.(mode := ModeNone);
    }

    // The cases that work on path names.
    method IdlePath(op: Op, a: Answers) returns (command: AckCommand, status: AckStatus)
      requires file.pending == OpNone && op in {OpMkdir, OpDelete, OpRename, OpCopy}
      modifies this
      ensures var o := Idle(old(file).(pending := op), old(disk), a);
              file == o.g && disk == o.d
              && o.out == [Datagram(file.client, Ack(file.transferId, command, status, file.expected))]
    {
      hide CopyFile, MakeDir, RemoveDir, Unlink, RenameFile, PathEqual;
      assert old(file).(pending := op).(pending := OpNone) == file;
      var ok := true;
      match op {
      case OpMkdir =>
        command := AckMkdir;
        var (d, done) := MakeDir(disk, file.filename, a.done);
        disk, ok := d, done;
      case OpDelete =>
        command := AckDelete;
        var (d, done) := if file.pathOpFlags % 2 == FILE_PATH_OP_DIRECTORY
                         then RemoveDir(disk, file.filename, a.done) else Unlink(disk, file.filename, a.done);
        disk, ok := d, done;
      case OpRename =>
        command := AckRename;
        var same := DosPathEqual(file.filename, file.target);
        if !same {
          var (d, done) := RenameFile(disk, file.filename, file.target, a.done);
          disk, ok := d, done;
        }
      case OpCopy =>
        command := AckCopy;
        var bytes: Word32 := 0;
        var same := DosPathEqual(file.filename, file.target);
        ok := false;
        if !same {
          ok, bytes := DosCopyFile(file.filename, file.target, a);
        }
        file := file.(expected := bytes);
      }
      status := if ok then AckOk else AckError;
    }

    method IdleWrite(a: Answers) returns (status: AckStatus)
      requires file.pending == OpNone && file.chunkCount <= FILE_TRANSFER_CHUNK_BYTES
      modifies this
      ensures var o := IdlePutData(old(file), old(disk), a);
              file == o.g && disk == o.d
              && o.out == [Datagram(file.client, Ack(file.transferId, AckData, status, file.expected))]
    {
      hide Write;
      status := AckError;
      if file.chunkOffset == file.expected {
        var (d, n) := Write(disk, file.handle, file.chunk[..file.chunkCount], a.written);
        disk := d;
        if n == file.chunkCount {
          status := AckOk;
          file := file.(expected := (file.expected + file.chunkCount) % 0x1_0000_0000);
        }
      }
    }

    method IdleRead(a: Answers) returns (out: seq<Datagram>)
      requires file.pending == OpNone
      modifies this
      ensures IdleGetDataReq(old(file), old(disk), a) == Outcome(file, disk, out)
    {
      hide Seek, Read;
      var status := AckError;
      if file.active && file.mode == ModeGet && file.chunkCount <= FILE_TRANSFER_CHUNK_BYTES && file.chunkOffset <= file.size {
        var (d1, at) := Seek(disk, file.handle, file.chunkOffset, a.seekOk);
        disk := d1;
        if at != 0xffff_ffff {
          var (d2, n, data) := Read(disk, file.handle, file.chunkCount, a.read);
          disk := d2;
          if n >= 0 {
            status := AckOk;
            file := file.(chunk := Filled(file.chunk, data), chunkCount := n);
            file := file.(expected := (file.chunkOffset + file.chunkCount) % 0x1_0000_0000);
          }
        }
      }
      if status != AckOk {
        file := file.(chunkCount := 0);
      }
      out := [Datagram(file.client, GetData(file.transferId, file.chunkOffset, status, file.chunk[..file.chunkCount]))];
    }

    ghost function AckOffset(op: Op, status: AckStatus, g: FileState): Word32 {
      if op == OpGetBegin && status == AckOk then g.size else g.expected
    }

    // file_transfer_process_idle.
    method ProcessIdle(a: Answers) returns (out: seq<Datagram>)
      modifies this
      ensures Idle(old(file), old(disk), a) == Outcome(file, disk, out)
    {
      hide IdlePutBegin, IdlePutData, IdlePutEnd, IdleGetBegin, IdleGetDataReq, IdleGetEnd,
           FileServerSpec.CollectDirEntries, IdleMkdir, IdleDelete, IdleRename, IdleCopy;
      var op := file.pending;
      file := file.(pending := OpNone);
      var command, status;
      match op {
      case OpNone =>
        return [];
      case OpPutData =>
        status := IdleWrite(a);
        command := AckData;
      case OpAck =>
        command, status := file.ackCommand, file.ackStatus;
        file := file.(expected := file.ackOffset);
      case OpGetDataReq =>
        out := IdleRead(a);
        return;
      case OpDirListDataReq =>
        var entries;
        status, entries := CollectDirEntries(a.findOk);
        return [Datagram(file.client, DirData(file.dirRequestId, file.dirStart, status, entries))];
      case OpPutBegin =>
        command, status := IdleOpen(op, a);
      case OpGetBegin =>
        command, status := IdleOpen(op, a);
      case OpPutEnd =>
        command, status := IdleClose(op);
      case OpGetEnd =>
        command, status := IdleClose(op);
      case _ =>
        command, status := IdlePath(op, a);
      }
      var ackOffset := if op == OpGetBegin && status == AckOk then file.size else file.expected;
      out := [Datagram(file.client, Ack(file.transferId, command, status, ackOffset))];
    }
  }
}
