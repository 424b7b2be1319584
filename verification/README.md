# Verified model of the DOS file server, its clients and its screen stream

A DOS machine serves files, directory listings and its screen over raw Ethernet
to Linux clients. This project models the protocol code on both sides in Dafny
and proves what it keeps over whole runs. `dafny verify dfyconfig.toml` checks
everything.

## What is modelled

- `Protocol`, `Wire`: the messages, their packed layouts and byte orders.
- `Dos`: the int 21h services by their contracts. What a call answers (a handle,
  how many bytes, whether it fails) is a parameter, so a theorem holds for every
  answer DOS may give, short reads and short writes included.
- `FileServerSpec`, `FileServer`: the two server functions on the transfer state
  `g_file`. A packet records at most one pending operation; an idle call runs it
  and answers. The methods of `FileServer.Server` change the record step by step
  and are proved equal to the functions of `FileServerSpec`.
- `System`: one client with one job, the server, its disk and the network as one
  transition system. The network is the set of everything ever sent, and a
  delivery leaves the message there: loss, duplication, delay and reordering are
  all included. A timeout may strike whenever the client waits, and any other
  client may send anything under ids of its own.
- `Script`, `Client`: the client's commands with their loops, each moving in step
  with the client of `System`, so that the theorems about runs become their
  contracts. Everything around a command is given as a script, in which the
  network, the server and DOS act and the client gets its turns; `Script.Play` says
  where the command ends under it.
- `Requests`: what each of the thirteen requests gets done, from the packet to DOS
  and the answer.
- `PutSafety`, `GetSafety`, `DirPaging`, `SendBound`, `ShortWrite`,
  `Conservation`, `Copying`: the theorems about transfers.
- `Channel`, `LossTolerance`, `DirTolerance`: when each job succeeds on a channel
  that loses packets and answers but delivers none late.
- `BufferPool`, `Receiving`: the packet buffers on heap nodes, the receive
  upcall and the drain loop.
- `Checksum`, `Screen`, `Sessions`, `ScreenServer`: screen streaming.
- `RemotePath`, `Fingerprint`: two pieces of the file commander.

## Assumptions

- One call of either server function is one atomic step. The code clears
  `pending_op` before the DOS work; a packet handled in the middle of that work
  is not modelled, and exactly-once writing is not claimed for it.
- The id of a job is used by no one else while the job runs, which matches one
  transfer per socket. The commander reuses ids on one socket.
- The program DOS is running leaves the server's open files and handles alone;
  everything else on the disk it may change at any time.
- During a download the remote file stays as it is, and during a listing the
  directory does. The size DOS reports for a file is its length. Files are at
  most 2^32 - 1 bytes, as in a FAT directory entry.
- A failed write changes nothing. A short write stores a prefix and moves the
  file position, and the code reports it as a failure.
- Names are the same file exactly when they are equal after upper-casing and
  turning slashes; other DOS aliases (drive and directory defaults, 8.3
  truncation) are not modelled.
- Text mode has at least one column: with none the code divides by zero.
- Calls on the buffer pool are legal: the driver hands over only what it was
  given.

## What turned out false, and what holds instead

- A short DOS write can spoil an upload that reports success: the bytes it
  stored stay, the retry is appended behind them, and only the offset is checked
  at the end. `ShortWrite.ShortWriteSpoils` is such a run; `PutSafety.PutSafe`
  says the closed file is the upload exactly when no write came up short.
- A file of exactly 2^32 - 1 bytes can be uploaded, but its download is refused: its
  size is the value that stands for a failed size query
  (`LossTolerance.GetTolerates`, with the condition).
- A listing is not the directory when both the limit and the directory reach
  beyond 65536 entries, because start positions are 16 bits wide
  (`DirPaging.FetchedIsListing`); within one answer the same happens to a slice
  that crosses the last position (`DirPaging.CollectIsSlice`).
- A search that fails is answered with status OK and no entries, so a listing can
  be cut short, even to nothing, and report success
  (`DirTolerance.FailedSearchIsEmptySuccess`, for every directory).
- A limit that is not a multiple of 16 makes a longer listing fail instead of
  being cut (`DirTolerance.DirTolerates`, with the condition).
- A directory BEGIN that meets a running transfer loses the transfer's handle, and
  so does a directory END whose id is the last request's (0 when there was none):
  `Conservation.HandlesConserved`, exactly then.
- A packet from the all-zero address with an id other than 0 takes a free slot of
  the session table for good (`Sessions.ZeroAddressLeaksSlot`); a run keeps the
  table a map exactly when there was none (`Sessions.TableStaysMap`).
- The checksum misses changes of a cell that it reads twice, which needs more than
  32768 words (`Checksum.OneCellDetected`). The text call passes bytes where words
  are meant, twice the screen; it still sees every change of a cell on a screen of
  up to 32768 bytes (`Screen.ChangedCellIsSent`).

## Model

| member | source | states |
|---|---|---|
| PutSafety.PutSafe | tools/cga-web/src/client/file_transfer.c:194-288 | over every run with loss, duplication, reordering, other clients and any DOS answers: if the upload returns 0, some END step closed the named file with status OK, and its bytes are the local file if and only if no write came up short |
| PutSafety.PutSafeWithWholeWrites | tools/cga-web/src/server/file_transfer.c:239-253 | the same in terms of what DOS answers: if no write was stored in part, a return of 0 means the server closed exactly the local file |
| PutSafety.PutPrefix | tools/cga-web/src/server/file_transfer.c:602-636 | in every reachable state of the transfer without a pending BEGIN the open file is exactly the acknowledged prefix of the upload (every chunk written once, in order), if and only if no write came up short |
| PutSafety.RunKeeps | tools/cga-web/src/server/file_transfer.c:561-572 | the inductive invariant behind both, over server fields, disk, and all messages in flight: in particular a pending acknowledgement carries the current offset, so running it undoes nothing |
| PutSafety.EndAckIsConfirmed | tools/cga-web/src/server/file_transfer.c:850-859 | an OK acknowledgement of END is only ever sent by the step that closes a complete file |
| ShortWrite.ShortWriteSpoils | tools/cga-web/src/server/file_transfer.c:239-253 | a run in which the client returns 0, END was acknowledged OK, and the closed file is 1 1 2 for an upload of 1 2 |
| GetSafety.GetSafe | tools/cga-web/src/client/file_transfer.c:290-370 | over every run with short reads allowed: if the download returns 0 the local file is the remote file, and throughout the fetch loop it is the remote file up to the loop's offset |
| GetSafety.RunKeeps | tools/cga-web/src/server/file_transfer.c:867-914 | the invariant behind it: everything the server ever sends for the transfer is a true piece of the remote file at the offset it names, or its true size |
| GetSafety.StepGrows | tools/cga-web/src/client/file_transfer.c:326-357 | a step adds to the local file what it adds to the offset, and each new round of the loop starts strictly further on |
| GetSafety.GetGrows | tools/cga-web/src/client/file_transfer.c:326-357 | along any run the local file only grows at its end |
| LossTolerance.PutTolerates | tools/cga-web/src/client/file_transfer.c:77-96 | on a channel that loses but never delivers late, with DOS willing and giving out a free handle, once the server has run whatever was pending, for any size up to 2^32 - 1: the upload ends within 10 * (chunks + 2) packets, returns 0 if and only if every BEGIN and DATA exchange has a fully delivered attempt and the first END to arrive has its acknowledgement delivered, and then the closed file is the upload |
| LossTolerance.GetTolerates | tools/cga-web/src/client/file_transfer.c:290-370 | the same for a download: 0 if and only if enough was delivered and the file is shorter than 2^32 - 1 bytes, and then the local file is the remote one |
| DirTolerance.DirTolerates | tools/file-commander/src/net/remote_dir.c:98-154 | the same for a listing: it ends within 5 * pages + 2 packets, returns 0 if and only if the limit is 0, or BEGIN arrived, every page has one of its five attempts delivered and the limit leaves room for the last page; and then it has the plain listing up to the limit |
| DirTolerance.FailedSearchIsEmptySuccess | tools/cga-web/src/server/file_transfer.c:464-469 | for every directory and every limit above 0 there is a run in which the search fails and the client returns 0 with no entries |
| Channel.CourseIsRun | tools/cga-web/src/client/file_transfer.c:240-284 | such a course is a run of the general system, so its safety theorems apply |
| Channel.AttemptMoves | tools/cga-web/src/client/file_transfer.c:77-96 | an attempt leaves the client where its fate and the server's answer say: retried when anything was lost, else where the answer takes it |
| SendBound.SendsBounded | tools/cga-web/src/client/file_transfer.c:77-96 | in every run an upload sends at most 10 * (chunks + 2) packets, a download at most 10 * (bytes + 2), a listing at most 5 * pages + 2 |
| DirPaging.DirSafe | tools/file-commander/src/net/remote_dir.c:98-154 | over every run: a listing that returns 0 holds the directory's entries in order from the first, and if no search failed all of them up to the limit, which then left room for the last page; it is the plain listing wherever start positions do not wrap |
| DirPaging.FetchedIsListing | tools/file-commander/src/net/remote_dir.c:116-124 | what the page loop collects is the plain listing up to the limit if the limit or the directory stays within the 16-bit start positions, and only then when no two entries are the same |
| DirPaging.CollectIsSlice | tools/cga-web/src/server/file_transfer.c:446-487 | for any start, any number asked for and any directory: an answer is that slice of the plain listing, at most 16 entries, unless positions wrap inside it, and exactly then when entries differ; empty with status OK when the search fails |
| DirPaging.RunKeeps | tools/cga-web/src/server/file_transfer.c:710-752 | the invariant behind it: every page ever sent for the request is a true page of the listing (or empty, once a search has failed), and the client's total stays on a page boundary |
| Conservation.IdleKeepsDta | tools/cga-web/src/server/file_transfer.c:464-504 | every idle call, whatever fails in it, gives the interrupted program its disk transfer address back and leaves that program's own search alone |
| Conservation.IdleConserves | tools/cga-web/src/server/file_transfer.c:828-922 | every idle call keeps the open DOS handles equal to the one handle of the transfer, or to none (then the field is -1), copies and failures included |
| Conservation.HandlesConserved | tools/cga-web/src/server/file_transfer.c:710-752 | a run keeps to its handles at every point if and only if no directory BEGIN, and no directory END with the current id, ever met a running transfer |
| Conservation.HandlesConservedWithoutListings | tools/cga-web/src/server/file_transfer.c:494-544 | hence without directory packets no run leaks or loses a handle |
| Copying.PathEqualIsFoldEqual | tools/cga-web/src/server/file_transfer.c:66-86 | the path comparison holds if and only if the folded names are equal |
| Copying.CopyLoopCopies | tools/cga-web/src/server/file_transfer.c:522-534 | the copy loop, however short its reads, touches no file but the target, and a loop that ends well has made it equal to the source and counted its length |
| Copying.CopyCopies | tools/cga-web/src/server/file_transfer.c:960-968 | COPY touches no file but its target, and none when the two names are one file or the source is missing; an OK acknowledgement means the target equals the source and carries its length |
| FileServerSpec.IdleAnswersItsClient | tools/cga-web/src/server/file_transfer.c:814-979 | an idle call with work answers exactly once, to the client that asked, under its id; without work it is silent |
| FileServer.Server.HandlePacket | tools/cga-web/src/server/file_transfer.c:574-812 | the in-place packet handler computes the state that the run theorems and the theorems of Requests are about |
| Requests.AnswersTheRequest | tools/cga-web/src/server/file_transfer.c:574-979 | whatever is asked, the answer goes to who asked and answers what was asked, once or not at all |
| Requests.StrangersAreIgnored | tools/cga-web/src/server/file_transfer.c:606-699 | a request for another transfer or listing does nothing and is not answered |
| Requests.BusyServerIgnores | tools/cga-web/src/server/file_transfer.c:584-586 | while an operation is pending, packets change nothing |
| Requests.PutBeginRuns | tools/cga-web/src/server/file_transfer.c:828-838 | upload BEGIN closes what was open, creates the named file empty and answers OK, or ERROR exactly when DOS has no handle |
| Requests.RepeatedDataRuns | tools/cga-web/src/server/file_transfer.c:620-623 | a chunk at another place is acknowledged with the next place and not written |
| Requests.BadDataRuns | tools/cga-web/src/server/file_transfer.c:625-629 | a chunk of more than 512 bytes, or shorter than it says, is refused |
| Requests.NextDataRuns | tools/cga-web/src/server/file_transfer.c:840-848 | the next chunk is appended and acknowledged OK exactly when DOS stores all of it; otherwise what was stored stays and the expected offset does not move |
| Requests.PutEndRuns | tools/cga-web/src/server/file_transfer.c:850-859 | upload END closes the file, OK exactly when the expected offset is the size |
| Requests.GetBeginRuns | tools/cga-web/src/server/file_transfer.c:867-889 | download BEGIN answers with the file's size and leaves it open, or ERROR with nothing open, exactly as the file, the handle and the size query allow |
| Requests.GetDataRuns | tools/cga-web/src/server/file_transfer.c:891-914 | download DATA answers with the file's bytes at the place asked for, or ERROR with none, exactly when the request is out of bounds or DOS fails |
| Requests.GetEndRuns | tools/cga-web/src/server/file_transfer.c:916-922 | download END closes the file |
| Requests.DirBeginRuns | tools/cga-web/src/server/file_transfer.c:710-722 | a listing BEGIN is silent; from then on DATA requests under its id are answered |
| Requests.DirEndRuns | tools/cga-web/src/server/file_transfer.c:743-752 | a listing END is silent; from then on none is |
| Requests.DirDataRuns | tools/cga-web/src/server/file_transfer.c:924-931 | a listing DATA request is answered with the collected page and changes no file, with ERROR and none exactly when the path is too long for a pattern |
| Requests.PathRequestsTakeTheId | tools/cga-web/src/server/file_transfer.c:754-810 | a path operation leaves the handle and mode of a running transfer alone but takes its id, so the transfer's own packets are ignored from then on |
| Requests.MkdirMakes | tools/cga-web/src/server/file_transfer.c:933-938 | MKDIR adds the directory and answers OK exactly when DOS is willing and it is new |
| Requests.DeleteDeletes | tools/cga-web/src/server/file_transfer.c:940-949 | DELETE takes away the named directory with the flag, the named file without it, and nothing else; OK exactly when DOS is willing and it is there |
| Requests.RenameRenames | tools/cga-web/src/server/file_transfer.c:951-958 | RENAME of a name to itself is OK and changes nothing; otherwise OK exactly when DOS is willing, the source exists and the target does not, and then the target has the source's bytes and no other file changed |
| Requests.CopyCopiesNames | tools/cga-web/src/server/file_transfer.c:795-810 | a COPY packet reads its source name and writes its target name: no other file changes, and OK means the target has the source's bytes |
| Requests.CopyAnswersOk | tools/cga-web/src/server/file_transfer.c:506-544 | COPY answers OK if and only if the names are two files, the source exists, DOS has two handles and carries every byte through the rounds |
| Requests.WillingDosCarries | tools/cga-web/src/server/file_transfer.c:522-534 | DOS does so when no read fails or comes back empty before the end and no write comes up short |
| Requests.NamesAreAlike | tools/cga-web/src/server/file_transfer.c:66-74 | two names are one file exactly when they differ only in the case of letters and the lean of slashes |
| FileServer.Server.ProcessIdle | tools/cga-web/src/server/file_transfer.c:814-979 | the in-place idle function computes the state, the disk and the answers that the run theorems and the theorems of Requests are about |
| FileServer.Server.CollectDirEntries | tools/cga-web/src/server/file_transfer.c:446-487 | the find loop collects the entries and restores the disk transfer address as specified |
| FileServer.Server.BuildDirPattern | tools/cga-web/src/server/file_transfer.c:388-433 | the pattern built character by character, or none where it does not fit |
| Requests.DirectoryPattern | tools/cga-web/src/server/file_transfer.c:409-430 | a directory path is searched for everything in it: the path with one backslash and *.* behind it, slashes turned |
| Requests.OtherPatterns | tools/cga-web/src/server/file_transfer.c:388-414 | a path with wildcards is searched as it stands, and the empty path is the current directory |
| Requests.SlashesAreAlike | tools/cga-web/src/server/file_transfer.c:397-403 | which way the slashes lean makes no difference to the search |
| FileServer.Server.DosCopyFile | tools/cga-web/src/server/file_transfer.c:506-544 | the copy loop with both handles closed on every path, as specified |
| FileServer.Server.DosPathEqual | tools/cga-web/src/server/file_transfer.c:76-86 | the comparison loop decides path equality |
| Client.FilePut | tools/cga-web/src/client/file_transfer.c:194-288 | the upload command with its loops: a bad name is refused at once; otherwise it ends exactly where the script around it leads the system's client; on a channel with given fates it returns 0 if and only if every exchange gets an attempt through as in PutTolerates; and 0 means the server closed the complete file, equal to the upload if no write was stored in part |
| Client.FileGet | tools/cga-web/src/client/file_transfer.c:290-370 | likewise for the download: 0 if and only if enough is delivered and the file can be served, and then the returned file is the remote file |
| Client.RemoteDirFetch | tools/file-commander/src/net/remote_dir.c:98-154 | likewise for the listing: 0 if and only if the condition of DirTolerates holds, and then the returned entries are those of the plain listing, all of them up to the limit if no search failed (where start positions do not wrap) |
| Client.Link.Receive | tools/cga-web/src/client/file_transfer.c:37-75 | a wait ends with the first message for the socket or the timeout in the script, whichever comes first, and with a timeout when the script is over |
| Client.RequestsTravel | tools/cga-web/src/client/file_transfer.c:177-192 | every request a file command sends under a name it accepts is decoded by the server as it was |
| Script.LocalFailureEnds | tools/cga-web/src/client/file_transfer.c:84-88 | a local failure to send ends the command, except at the END of a listing, where the result is not looked at |
| Channel.CoursePlays | tools/cga-web/src/client/file_transfer.c:77-96 | a client left to the script of a course ends where the course does |
| System.JudgeHeedsReplies | tools/cga-web/src/client/file_transfer.c:51-72 | the client heeds exactly the replies to what it sent, addressed to it, and an error status fails the attempt |
| Client.SendWithAck | tools/cga-web/src/client/file_transfer.c:77-96 | at most ten attempts, in step with the system's client: 0 takes it past the exchange with the offset that was acknowledged, -1 is its failure |
| Client.RecvFileAck | tools/cga-web/src/client/file_transfer.c:27-75 | waits in step with the system's client: 0 with the offset of the acknowledgement that client accepts, -1 where its attempt fails; what does not answer the request changes nothing |
| Client.RecvFileGetData | tools/cga-web/src/client/file_transfer.c:98-152 | the same for data answers at the offset asked for; what is returned is what the system's client appends |
| Client.RecvDirPage | tools/file-commander/src/net/remote_dir.c:23-96 | the same for pages at the start asked for, never more entries than there is room for |
| Wire.WordsTravel | tools/cga-web/src/server/util_asm.s:6-27 | every 16 and 32-bit value leaves in network byte order and is read back as it was |
| Wire.NameTravels | tools/cga-web/src/server/file_transfer.c:588-600 | a string that fits its array arrives as the same string |
| Wire.RequestTravels | tools/cga-web/src/client/file_transfer.c:223-227 | the server's decoding inverts the encoding of all thirteen requests, for all field values |
| Wire.ShortIsDropped | tools/cga-web/src/server/file_transfer.c:588-810 | exactly the packets of the thirteen types that are at least as long as their fixed part are decoded, each to its own kind of request |
| Wire.RefusedNames | tools/cga-web/src/client/file_transfer.c:177-192 | the client refuses exactly the empty name, names of 64 characters or more, and names with a slash |
| Wire.ValidNamesTravel | tools/cga-web/src/client/file_transfer.c:177-192 | a name that passes the client's check fits the requests and arrives |
| Wire.FrameTravels | tools/cga-web/src/common/protocol.h:160-172 | whatever follows a frame in its buffer, the server finds the request, its sender and its session |
| Wire.EntryTravels | tools/cga-web/src/server/file_transfer.c:466-478 | a directory entry keeps every field from the DTA through the server's entry to the client |
| BufferPool.Pool.StatesPartitionPool | tools/cga-web/src/server/bufmgr.c:48-131 | the four states split the pool, their counts sum to its size, and the free and ready counts are the list lengths |
| BufferPool.Pool.constructor | tools/cga-web/src/server/bufmgr.c:48-65 | all nodes are on one acyclic free list, zeroed |
| BufferPool.Pool.Acquire | tools/cga-web/src/server/bufmgr.c:69-86 | the top of the free list becomes pending, or nothing changes exactly when there is none or too much is asked; both lists stay acyclic, disjoint and true to the states |
| BufferPool.Pool.MarkReady | tools/cga-web/src/server/bufmgr.c:90-101 | the filled buffer goes on top of the ready list, the invariant kept |
| BufferPool.Pool.GetReady | tools/cga-web/src/server/bufmgr.c:103-117 | the buffer that became ready last is taken off, the invariant kept |
| BufferPool.Pool.Release | tools/cga-web/src/server/bufmgr.c:119-131 | the buffer is zeroed and back on top of the free list, the invariant kept |
| Receiving.Receiver.ReceiveFunc | tools/cga-web/src/server/pktdrv.c:28-46 | the two-call upcall: a zeroed buffer or a counted drop, then the hand-over |
| Receiving.Receiver.Arrive | tools/cga-web/src/server/pktdrv.c:28-46 | a frame is dropped exactly when no buffer is free or it is too long, and then both lists stay; otherwise it waits, zero-padded, before all earlier ones |
| Receiving.Receiver.ProtocolProcess | tools/cga-web/src/server/protocol.c:150-198 | the drain loop ends with no buffer ready and all of them free, has dispatched each signed one once in reverse arrival order, and leaves the driver's pending buffers untouched |
| Receiving.FramesAreHandled | tools/cga-web/src/server/protocol.c:150-198 | draining buffers that hold encoded requests does to the transfer state what handling those requests does |
| Receiving.RequestsFitBuffers | tools/cga-web/src/server/pktdrv.c:28-46 | every encoded request fits a buffer, and the buffer it arrived in holds it |
| Receiving.EachSignedOnce | tools/cga-web/src/server/protocol.c:158-160 | each signed buffer is dispatched as often as it came, the others never |
| Receiving.UnsignedIsIgnored | tools/cga-web/src/server/protocol.c:158-160 | a buffer whose bytes 14 to 17 are not the signature changes nothing |
| Checksum.VideoChecksum | tools/cga-web/src/lib16/video.s:321-334 | the register loop computes the swap, add and rotate sum, 65536 rounds for a count of 0 |
| Checksum.OffsetMovesFrame | tools/cga-web/src/lib16/video.s:316-332 | the offset says where in the segment the frame begins |
| Checksum.OneWordChanges | tools/cga-web/src/lib16/video.s:321-332 | two frames that differ in exactly one word have different sums, for any length and any start |
| Checksum.OneCellChanges | tools/cga-web/src/lib16/video.s:321-332 | a change of exactly one cell of video memory that is read once changes the checksum, for any word count |
| Checksum.OneCellDetected | tools/cga-web/src/lib16/video.s:321-334 | for any word count and any cell in reach, every change of that cell changes the checksum if and only if the cell is read once |
| Screen.TextPacketFits | tools/cga-web/src/server/session.c:215-263 | whatever mode the screen was in before, a text packet fits its frame and the current screen, takes all rows that fit, is empty only for a screen without rows, and the next row strictly advances |
| Screen.TextCycleTiles | tools/cga-web/src/server/session.c:215-301 | the chunks of a text cycle tile the frame without gap or overlap, each with the frame's bytes |
| Screen.CgaCycleTiles | tools/cga-web/src/server/session.c:98-158 | the same for the 16000 bytes of a CGA cycle, each chunk within an Ethernet frame |
| Screen.QuietAfterCycle | tools/cga-web/src/server/session.c:114-121 | after a cycle over a screen that stayed as it was, the next tick sends nothing |
| Screen.ChangedCellIsSent | tools/cga-web/src/server/session.c:222-233 | after that, a change of one cell of the screen makes the next tick send |
| Screen.ChangedPixelsAreSent | tools/cga-web/src/server/session.c:114-121 | the same for the CGA frame |
| Screen.TextScreenArrives | tools/cga-web/src/client/main.c:168-197 | after delivery in any order with repeats the client's buffer is the text screen, and unchanged behind it |
| Screen.CgaScreenArrives | tools/cga-web/src/client/main.c:199-225 | the same for the CGA buffer |
| ScreenServer.SessionManager.UpdateAll | tools/cga-web/src/server/session.c:160-302 | a tick drops stale sessions and sends the next chunk, once to each client left and to no one else, or starts over when no one is left; a text packet tells rows, columns and cursor of the screen, a CGA packet is sent exactly in modes 4, 5 and 6 with a size that matches the frame |
| ScreenServer.RecipientsAreClients | tools/cga-web/src/server/session.c:293-301 | the receivers are exactly the clients of the session map, each once |
| Screen.ModeChangeStartsOver | tools/cga-web/src/server/session.c:202-208 | a change between text and graphics starts the other one's cycle over |
| ScreenServer.SessionManager.SendCga | tools/cga-web/src/server/session.c:98-158 | the CGA part in place, with its checksum gate |
| ScreenServer.RemoteHost.ProcessText | tools/cga-web/src/client/main.c:168-197 | a chunk lands in the text buffer and the host then has the rows, columns and cursor of the screen the packet tells of; it is dropped when it would not fit; the arrival time is kept either way |
| ScreenServer.RemoteHost.ProcessCga | tools/cga-web/src/client/main.c:199-225 | a chunk lands in the CGA buffer with mode, depth, size, valid flag and a new generation, or is dropped when it would not fit; the arrival time is kept either way |
| Sessions.StartRefinesMap | tools/cga-web/src/server/session.c:57-80 | for any address the table is a map of capacity 4 from client to last tick: known clients are refreshed, new ones added, turned away exactly when it is full, the all-zero address changes no client; and it stays such a table if and only if the packet is from a real address, has id 0 or finds it full |
| Sessions.PruneRefinesMap | tools/cga-web/src/server/session.c:175-190 | pruning removes exactly the entries that timed out |
| Sessions.TimedOutIsOld | tools/cga-web/src/server/session.c:182-187 | without a tick wrap, timed out means more than 182 ticks old |
| Sessions.ZeroAddressLeaksSlot | tools/cga-web/src/server/session.c:57-80 | a packet takes its slot from all clients exactly when it is from the all-zero address with an id while a slot is free, and then over every later run of starts and prunes the slot stays unused and keeps that id |
| Sessions.LostForGood | tools/cga-web/src/server/session.c:160-190 | a lost slot stays lost over every run of starts and prunes |
| Sessions.TableStaysMap | tools/cga-web/src/server/session.c:57-80 | over a whole run the table stays one for a map if and only if no packet took a slot in that way |
| ScreenServer.SessionManager.StartSession | tools/cga-web/src/server/session.c:57-80 | the table in place follows that function |
| RemotePath.EnterRefinesStack | tools/file-commander/src/ui/commander.c:196-226 | entering ".", ".." or a name is no-op, pop (the root stays) or push on the stack of names the path renders, and a join that does not fit is refused |
| RemotePath.PathRefinesStack | tools/file-commander/src/ui/commander.c:261-283 | over any sequence of enters the path is the rendering of the stack, and fits |
| RemotePath.RenderedPath | tools/file-commander/src/ui/commander.c:219-223 | the rendering of a stack: the drive, and each name behind one backslash |
| RemotePath.Commander.PathJoin | tools/file-commander/src/ui/commander.c:196-226 | the join in place, with its search for the last backslash |
| RemotePath.Commander.Enter | tools/file-commander/src/ui/commander.c:261-283 | only a selected directory of a loaded panel is entered; then the path becomes the join and the panel shows the new listing from its first entry, and when the join does not fit nothing changes |
| Fingerprint.FileFingerprint | tools/file-commander/src/ui/commander.c:646-679 | succeeds exactly when stat, open and all reads do, and then, however the reads split the file, returns the hash of its bytes and the size |
| Fingerprint.HashOfOneByte | tools/file-commander/src/ui/commander.c:651-666 | the hash starts from 5381 and mixes a byte in by times 33 and exclusive or |
| Fingerprint.HashGoesOn | tools/file-commander/src/ui/commander.c:662-667 | the hash of a content is that of its rest, started from the hash of its beginning |
| Fingerprint.BlocksJoin | tools/file-commander/src/ui/commander.c:662-667 | the blocks of a file, however it is cut, make up its content |
| Fingerprint.OneByteChanges | tools/file-commander/src/ui/commander.c:662-667 | two contents of equal length that differ in exactly one byte have different 64-bit hashes |
| Fingerprint.SmallEditIsSeen | tools/file-commander/src/ui/commander.c:1083-1090 | an edit that changes the length or a single byte is never taken for no edit |
| Fingerprint.NoEditLooksUnchanged | tools/file-commander/src/ui/commander.c:1083-1090 | a file that was not edited is not offered for upload |

## Left out

- Raw sockets, `select` timing, epoll, the web server, ncurses, editor and pager: input, output and user interface. A timeout is a step the client may take.
- Interrupt entry, stack switching, interrupt hooking, keyboard injection, PING and STATUS answers, the BIOS clock: foreign machine state or easy members.
- Packets that interrupt the DOS work of an idle call, and pool calls that interrupt each other: the code guards the pool by disabling interrupts and does not guard `g_file`.
- FileServer.Server.HandlePacket: `g_file` is one field holding a record that is assigned field by field, and the chunk buffer and the directory entries are sequences in it, so stale bytes are modelled but not the arrays' identity. The names are strings, not zero-padded arrays.
- FileServer.Server.ProcessIdle: the headers of the answers are not encoded; an answer is a decoded message addressed to the client's address and session.
- Requests.RenameRenames: RENAME of directories is not modelled.
- Client.FilePut: works on decoded messages and on the file's contents, not on a `FILE`; an upload whose local file changes while it is sent is not modelled. A failing `send`, read or write is the action ClientAborts.
- Client.RemoteDirFetch: the entries are returned as a sequence, not written into the caller's array.
- Client.RecvFileAck: its loop ends because the script around it is finite; the code may wait forever among unrelated packets, so only the number of sends is bounded.
- PutSafety.PutSafe: is about the END step. The file is not protected afterwards: a late duplicate BEGIN creates it anew.
- LossTolerance.PutTolerates: a repeated END is not answered, because the first one ended the transfer; a transfer can be complete while the client reports failure. Packets of other clients during the course, and answers that arrive late, are in the safety theorems only.
- DirPaging.CollectIsSlice: a find-next that fails in the middle of a search is the end of the listing; subdirectories and attributes of the pattern search are inside the given listing.
- Copying.CopyCopies: an existing target is truncated before the first read, so a failed COPY may leave it incomplete; only that no other file changes is claimed then.
- Receiving.Receiver.ProtocolProcess: no interrupt comes between its turns; handlers other than the file server's are recorded as dispatched and do nothing.
- Wire.RequestTravels: covers client to server; of the answers only the directory entry is encoded.
- Screen.TextScreenArrives: a screen that changes in the middle of a cycle and changes back is not sent again, and a new session does not reset the checksums; the interleaved CGA layout reaches beyond the 16000 bytes that are sent.
- ScreenServer.RemoteHost.ProcessText: finding the host by its address and redrawing its window are left out.
- RemotePath.Commander.Enter: the listing that fills the panel is a parameter; it is fetched as in `Client.RemoteDirFetch`. The status line and the scroll position are left out.
- Fingerprint.OneByteChanges: no claim is made about contents of equal length that differ in more than one byte.
- The keyboard map, colour tables, host lists, argument parsing and the demo programs.
