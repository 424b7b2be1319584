/** A directory fetched page by page is the plain listing. */
module DirPaging {
  import opened Protocol
  import opened Dos
  import opened FileServerSpec
  import opened System

  // ---- One page ----------------------------------------------------------

  // Positions are 16 bits wide.
  const POSITIONS := 0x1_0000

  // From the first wanted record on, the find loop collects what fits, as long
  // as the position does not wrap on the way.
  lemma {:induction false} ScanTakes(records: seq<DirRecord>, seen: Word16, start: Word16, max: nat, taken: seq<DirRecord>)
    requires records != [] && |taken| < max && seen >= start
    requires seen + Min(max - |taken|, |records|) <= POSITIONS
    ensures Scan(records, seen, start, max, taken).0 == taken + records[..Min(max - |taken|, |records|)]
    decreases |records|
  {
    var n := Min(max - |taken|, |records|);
    assert records[..n] == [records[0]] + records[1..][..n - 1];
    if n > 1 {
      ScanTakes(records[1..], seen + 1, start, max, taken + [records[0]]);
    }
  }

  // Before that it passes records over.
  lemma {:induction false} ScanSkips(records: seq<DirRecord>, seen: Word16, start: Word16, max: nat)
    requires records != [] && max > 0 && seen <= start
    requires |records| > start - seen
    ensures Scan(records, seen, start, max, []) == Scan(records[start - seen..], start, start, max, [])
    decreases |records|
  {
    if seen < start {
      ScanSkips(records[1..], seen + 1, start, max);
      assert records[1..][start - seen - 1..] == records[start - seen..];
    }
  }

  lemma {:induction false} ScanFindsNone(records: seq<DirRecord>, seen: Word16, start: Word16, max: nat)
    requires records != [] && max > 0 && seen <= start
    requires |records| <= start - seen
    ensures Scan(records, seen, start, max, []).0 == []
    decreases |records|
  {
    if |records| > 1 {
      ScanFindsNone(records[1..], seen + 1, start, max);
    }
  }

  function Slice(records: seq<DirRecord>, start: nat, max: nat): seq<DirRecord> {
    records[Min(start, |records|)..Min(start + max, |records|)]
  }

  function Page(records: seq<DirRecord>, start: nat): seq<DirRecord> {
    Slice(records, start, DIR_LIST_PAGE_ENTRIES)
  }

  predicate Distinct(records: seq<DirRecord>) {
    forall i, j :: 0 <= i < j < |records| ==> records[i] != records[j]
  }

  lemma ScanIsSlice(records: seq<DirRecord>, start: Word16, max: nat)
    requires records != [] && (start + max <= POSITIONS || |records| <= POSITIONS)
    ensures Scan(records, 0, start, max, []).0 == Slice(records, start, max)
  {
    if max > 0 {
      if |records| > start {
        ScanSkips(records, 0, start, max);
        ScanTakes(records[start..], start, start, max, []);
      } else {
        ScanFindsNone(records, 0, start, max);
      }
    }
  }

  // With the last position taken, the loop goes on from position 0.
  lemma {:induction false} ScanWraps(records: seq<DirRecord>, seen: Word16, start: Word16, max: nat, taken: seq<DirRecord>)
    requires seen >= start && |records| > POSITIONS - seen && max - |taken| > POSITIONS - seen
    ensures Scan(records, seen, start, max, taken)
            == Scan(records[POSITIONS - seen..], 0, start, max, taken + records[..POSITIONS - seen])
    decreases |records|
  {
    var n := POSITIONS - seen;
    assert records[..1] == [records[0]];
    assert taken + records[..n] == taken + [records[0]] + records[1..][..n - 1];
    assert records[1..][n - 1..] == records[n..];
    if n > 1 {
      ScanWraps(records[1..], seen + 1, start, max, taken + [records[0]]);
    }
  }

  // What the loop adds comes from the records it passes.
  lemma {:induction false} ScanAdds(records: seq<DirRecord>, seen: Word16, start: Word16, max: nat, taken: seq<DirRecord>)
    requires records != []
    ensures var r := Scan(records, seen, start, max, taken).0;
            taken <= r && forall i :: |taken| <= i < |r| ==> r[i] in records
    decreases |records|
  {
    var taken' := if seen >= start && |taken| < max then taken + [records[0]] else taken;
    if |taken'| < max && |records| > 1 {
      ScanAdds(records[1..], (seen + 1) % POSITIONS, start, max, taken');
    }
  }

  // So a wrap loses the record behind the last position.
  lemma WrapLosesRecord(records: seq<DirRecord>, start: Word16, max: nat)
    requires Distinct(records) && start + max > POSITIONS && |records| > POSITIONS && max < POSITIONS
    ensures Scan(records, 0, start, max, []).0 != Slice(records, start, max)
  {
    var from, n := records[start..], POSITIONS - start;
    ScanSkips(records, 0, start, max);
    ScanWraps(from, start, start, max, []);
    var rest, taken := from[n..], from[..n];
    assert [] + taken == taken && rest == records[POSITIONS..];
    SliceHas(records, start, max, POSITIONS);
    HeadIsSkipped(rest, start, max, taken);
    hide Scan, Slice, Distinct;
  }

  lemma SliceHas(records: seq<DirRecord>, start: nat, max: nat, i: nat)
    requires start <= i < start + max && i < |records|
    ensures i - start < |Slice(records, start, max)| && Slice(records, start, max)[i - start] == records[i]
  {
  }

  lemma HeadIsSkipped(rest: seq<DirRecord>, start: Word16, max: nat, taken: seq<DirRecord>)
    requires rest != [] && Distinct(rest) && start > 0 && |taken| < max
    ensures var r := Scan(rest, 0, start, max, taken).0;
            |r| > |taken| ==> r[|taken|] != rest[0]
  {
    if |rest| > 1 {
      ScanAdds(rest[1..], 1, start, max, taken);
    }
  }

  // The entries of an answer are that slice of the listing, for any start and
  // number asked for, exactly unless positions wrap inside it; a search that
  // fails gives none, with status OK.
  lemma CollectIsSlice(d: Disk, path: Name, pattern: Name, start: Word16, max: Word16, findOk: bool)
    requires DirPattern(path) == Some(pattern)
    ensures var (d', status, entries) := CollectDirEntries(d, path, start, max, findOk);
            var records, n := Listing(d, pattern), Min(max, DIR_LIST_PAGE_ENTRIES);
            && status == AckOk
            && (!findOk ==> entries == [])
            && (findOk && (start + n <= POSITIONS || |records| <= POSITIONS) ==> entries == Slice(records, start, n))
            && (findOk && Distinct(records) ==>
                  (entries == Slice(records, start, n) <==> start + n <= POSITIONS || |records| <= POSITIONS))
  {
    CollectIsScan(d, path, pattern, start, max, findOk);
    var records, n := Listing(d, pattern), Min(max, DIR_LIST_PAGE_ENTRIES);
    hide CollectDirEntries, Scan, Distinct, Slice, Listing;
    if records == [] {
      NothingToSlice(start, n);
    } else if start + n <= POSITIONS || |records| <= POSITIONS {
      ScanIsSlice(records, start, n);
    } else if Distinct(records) {
      WrapLosesRecord(records, start, n);
    }
  }

  lemma CollectIsScan(d: Disk, path: Name, pattern: Name, start: Word16, max: Word16, findOk: bool)
    requires DirPattern(path) == Some(pattern)
    ensures var (d', status, entries) := CollectDirEntries(d, path, start, max, findOk);
            var records := Listing(d, pattern);
            && status == AckOk
            && entries == if !findOk || records == [] then [] else Scan(records, 0, start, Min(max, DIR_LIST_PAGE_ENTRIES), []).0
  {
    hide DirPattern;
  }

  lemma NothingToSlice(start: nat, max: nat)
    ensures Slice([], start, max) == []
  {
  }

  predicate Aligned(start: nat) {
    start % DIR_LIST_PAGE_ENTRIES == 0
  }

  // ---- The whole fetch ----------------------------------------------------

  predicate IsDir(c: Config) {
    ValidConfig(c) && c.job.DirJob?
  }

  // What a fetch collects, from the listing alone: behind the last position
  // the pages come round again.
  function Fetched(records: seq<DirRecord>, limit: nat): (all: seq<DirRecord>)
    ensures |all| <= limit
  {
    var n := if |records| < POSITIONS then Min(|records|, limit) else limit;
    seq(n, i requires 0 <= i < n => records[i % POSITIONS])
  }

  function Plain(records: seq<DirRecord>, limit: nat): seq<DirRecord> {
    records[..Min(|records|, limit)]
  }

  predicate Countable(records: seq<DirRecord>, limit: nat) {
    limit <= POSITIONS || |records| < POSITIONS
  }

  lemma CountableIsPlain(records: seq<DirRecord>, limit: nat)
    requires Countable(records, limit)
    ensures Fetched(records, limit) == Plain(records, limit)
  {
  }

  // That is the plain listing up to the limit exactly unless both reach past
  // the last position; no two records of a directory are the same.
  lemma FetchedIsListing(records: seq<DirRecord>, limit: nat)
    ensures Countable(records, limit) ==> Fetched(records, limit) == Plain(records, limit)
    ensures Distinct(records) ==> (Fetched(records, limit) == Plain(records, limit) <==> Countable(records, limit))
  {
    if Countable(records, limit) {
      CountableIsPlain(records, limit);
    } else if |records| > POSITIONS {
      assert Fetched(records, limit)[POSITIONS] == records[0];
    }
  }

  // The last page leaves room for all it brings.
  predicate LimitFits(records: seq<DirRecord>, limit: nat) {
    Aligned(limit) || (|records| <= limit && |records| < POSITIONS)
  }

  predicate ServerInv(c: Config, g: FileState)
    requires IsDir(c)
  {
    (g.mode == ModeDir || g.pending == OpDirListDataReq) && g.dirRequestId == c.id ==>
      g.dirPath == c.name
      && (g.pending == OpDirListDataReq ==> g.dirMax == DIR_LIST_PAGE_ENTRIES && Aligned(g.dirStart))
  }

  predicate OwnFrame(c: Config, f: Frame)
    requires IsDir(c)
  {
    match f.body
    case DirBegin(rid, path) => rid == c.id && path == c.name
    case DirDataReq(rid, start, max) => rid == c.id && max == DIR_LIST_PAGE_ENTRIES && Aligned(start)
    case DirEnd(rid) => rid == c.id
    case _ => false
  }

  // With `ok`, all searches so far succeeded.
  predicate Truthful(c: Config, m: Datagram, ok: bool)
    requires IsDir(c)
  {
    m.reply.DirData? && m.reply.rid == c.id && m.reply.status == AckOk ==>
      m.reply.entries == Page(c.job.records, m.reply.start) || (!ok && m.reply.entries == [])
  }

  // A complete fetch, or one that a failed search cut short.
  predicate Collected(c: Config, listed: seq<DirRecord>, ok: bool)
    requires IsDir(c)
  {
    && listed <= Fetched(c.job.records, c.job.limit)
    && (ok ==> listed == Fetched(c.job.records, c.job.limit) && LimitFits(c.job.records, c.job.limit))
  }

  predicate ClientInv(c: Config, pc: Pc, listed: seq<DirRecord>, ok: bool)
    requires IsDir(c)
  {
    if pc.Done? then pc.rc == 0 ==> Collected(c, listed, ok)
    else
      match PhaseOf(pc)
      case DirBeginning => listed == []
      case DirFetching(total) =>
        && total == |listed| < c.job.limit && Aligned(total)
        && listed <= Fetched(c.job.records, c.job.limit)
      case DirEnding => Collected(c, listed, ok)
      case _ => false
  }

  predicate Inv(c: Config, s: State, ok: bool)
    requires IsDir(c)
  {
    && PcFits(c, s.pc)
    && (forall f <- s.toServer :: OwnFrame(c, f))
    && ServerInv(c, s.server)
    && (forall m <- s.toClient :: Truthful(c, m, ok))
    && ClientInv(c, s.pc, s.listed, ok)
    && Steady(c, s.disk)
  }

  // An idle call whose searches succeed.
  predicate Readable(act: Action) {
    act.ServerIdles? ==> act.a.findOk
  }

  lemma IdleKeepsServer(c: Config, g: FileState, d: Disk, a: Answers)
    requires IsDir(c) && ServerInv(c, g) && Steady(c, d)
    ensures var o := Idle(g, d, a);
            ServerInv(c, o.g) && forall m <- Sent(o.out) :: Truthful(c, m, a.findOk)
  {
    hide DirPattern, CollectDirEntries, Slice, CopyFile, FileSize, Write, Read;
    IdleAnswersItsClient(g, d, a);
    if g.pending == OpDirListDataReq && g.dirRequestId == c.id {
      CollectIsSlice(d, g.dirPath, c.job.pattern, g.dirStart, g.dirMax, a.findOk);
    }
  }

  lemma PageEntries(records: seq<DirRecord>, start: nat)
    ensures var page := Page(records, start);
            && |page| == Min(DIR_LIST_PAGE_ENTRIES, if start <= |records| then |records| - start else 0)
            && forall i :: 0 <= i < |page| ==> page[i] == records[start + i]
  {
  }

  lemma FetchedEntries(records: seq<DirRecord>, limit: nat)
    ensures var all := Fetched(records, limit);
            && |all| == (if |records| < POSITIONS then Min(|records|, limit) else limit)
            && forall i :: 0 <= i < |all| ==> all[i] == records[i % POSITIONS]
  {
  }

  lemma PositionInPage(total: nat, i: nat)
    requires Aligned(total) && total <= i < total + DIR_LIST_PAGE_ENTRIES
    ensures i % POSITIONS == total % POSITIONS + (i - total)
  {
  }

  lemma LengthsJoin(n: nat, limit: nat, total: nat, page: nat, all: nat)
    requires Aligned(total) && total < limit && total <= all
    requires all == if n < POSITIONS then Min(n, limit) else limit
    requires page == Min(DIR_LIST_PAGE_ENTRIES, if total % POSITIONS <= n then n - total % POSITIONS else 0)
    requires page <= limit - total
    ensures total + page <= all
    ensures page < DIR_LIST_PAGE_ENTRIES ==> total + page == all && n <= limit && n < POSITIONS
  {
  }

  lemma EntriesJoin(all: seq<DirRecord>, total: nat, page: seq<DirRecord>)
    requires total + |page| <= |all| && forall i :: 0 <= i < |page| ==> page[i] == all[total + i]
    ensures all[..total] + page <= all
  {
    assert all[..total] + page == all[..total + |page|];
  }

  // The page that comes next continues what was fetched.
  lemma PageJoins(records: seq<DirRecord>, limit: nat, total: nat)
    requires Aligned(total) && total < limit && total <= |Fetched(records, limit)|
    requires |Page(records, total % POSITIONS)| <= limit - total
    ensures var page := Page(records, total % POSITIONS);
            && Fetched(records, limit)[..total] + page <= Fetched(records, limit)
            && (|page| < DIR_LIST_PAGE_ENTRIES ==>
                  total + |page| == |Fetched(records, limit)| && |records| <= limit && |records| < POSITIONS)
  {
    PageEntries(records, total % POSITIONS);
    FetchedEntries(records, limit);
    hide Page, Fetched;
    var page, all := Page(records, total % POSITIONS), Fetched(records, limit);
    LengthsJoin(|records|, limit, total, |page|, |all|);
    forall i | 0 <= i < |page| ensures page[i] == all[total + i] {
      PositionInPage(total, total + i);
    }
    EntriesJoin(all, total, page);
  }

  lemma ReceiveKeeps(c: Config, s: State, m: Datagram, ok: bool)
    requires IsDir(c) && Inv(c, s, ok) && s.pc.Waiting? && m in s.toClient
    ensures Inv(c, Receive(c, s, m), ok)
  {
    hide DirPattern, Steady, Page, ServerInv, OwnFrame, Fetched;
    ReceiveFits(c, s, m);
    assert Truthful(c, m, ok);
    if s.pc.phase.DirFetching? && m.reply.DirData? && Judge(c, s.pc.phase, m).Progress? {
      var all, total := Fetched(c.job.records, c.job.limit), s.pc.phase.total;
      assert all[..total] == s.listed;
      if m.reply.entries == Page(c.job.records, m.reply.start) {
        PageJoins(c.job.records, c.job.limit, total);
      } else {
        assert s.listed + m.reply.entries == s.listed;
      }
    }
  }

  lemma ClientStepKeeps(c: Config, s: State, act: Action, ok: bool)
    requires IsDir(c) && Inv(c, s, ok)
    requires act.ClientSends? || act.ClientTimesOut? || act.ClientAborts?
    ensures Inv(c, Step(c, s, act), ok)
  {
    hide DirPattern, Page, Fetched, Steady, ServerInv, IdleStep, Handle, Receive, LeavesServerAlone, Truthful;
    StepFits(c, s, act);
    if act.ClientSends? && s.pc.Sending? {
      SendKeeps(c, s.pc.phase, s.pc.attempt, s.listed, ok);
      hide RequestOf, AfterSend, OwnFrame, ClientInv;
    }
  }

  lemma SendKeeps(c: Config, p: Phase, attempt: nat, listed: seq<DirRecord>, ok: bool)
    requires IsDir(c) && PhaseFits(c, p) && ClientInv(c, Sending(p, attempt), listed, ok)
    ensures OwnFrame(c, Frame(c.me, RequestOf(c, p)))
    ensures ClientInv(c, AfterSend(c, p, attempt), listed, ok)
  {
    hide DirPattern, Page;
  }

  lemma StepKeeps(c: Config, s: State, act: Action, ok: bool)
    requires IsDir(c) && Inv(c, s, ok) && (ok ==> Readable(act))
    ensures Inv(c, SteadyStep(c, s, act), ok)
  {
    hide DirPattern, Idle, Receive, Page, Listing, Fetched, ClientInv, SlackAfter, ClosingOf;
    match act
    case ServerIdles(a) => IdleKeepsServer(c, s.server, s.disk, a);
    case ClientGets(m) =>
      if s.pc.Waiting? && m in s.toClient {
        ReceiveKeeps(c, s, m, ok);
      }
    case ServerGets(_) =>
    case DosElsewhere(_) =>
    case _ => ClientStepKeeps(c, s, act, ok);
  }

  predicate AllReadable(acts: seq<Action>) {
    forall act <- acts :: Readable(act)
  }

  lemma {:induction false} RunKeeps(c: Config, s: State, acts: seq<Action>, ok: bool)
    requires IsDir(c) && Initial(c, s) && (ok ==> AllReadable(acts))
    ensures PcFits(c, s.pc) && Inv(c, Run(c, s, acts), ok)
    decreases |acts|
  {
    InitialFits(c, s);
    if acts != [] {
      var n := |acts| - 1;
      RunKeeps(c, s, acts[..n], ok);
      StepKeeps(c, Run(c, s, acts[..n]), acts[n], ok);
    }
  }

  // A fetch that returns 0 has the listing's entries from the first one on, in
  // order; and if no search failed, all of them up to the limit, which then
  // left room for the last page.
  lemma {:induction false} DirSafe(c: Config, s: State, acts: seq<Action>)
    requires IsDir(c) && Initial(c, s)
    ensures PcFits(c, s.pc)
    ensures var t, records, limit := Run(c, s, acts), c.job.records, c.job.limit;
            t.pc == Done(0) ==>
              && t.listed <= Fetched(records, limit)
              && (AllReadable(acts) ==> t.listed == Fetched(records, limit) && LimitFits(records, limit))
              && (Countable(records, limit) ==>
                    t.listed <= Plain(records, limit) && (AllReadable(acts) ==> t.listed == Plain(records, limit)))
  {
    RunKeeps(c, s, acts, AllReadable(acts));
    hide Fetched, Run, LimitFits;
    if Countable(c.job.records, c.job.limit) {
      CountableIsPlain(c.job.records, c.job.limit);
    }
  }
}
