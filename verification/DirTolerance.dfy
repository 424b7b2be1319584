/** When a directory fetch succeeds on a channel that loses messages but
    delivers none late, and how a failed search passes for success. */
module DirTolerance {
  import opened Protocol
  import opened Dos
  import opened FileServerSpec
  import opened System
  import opened Channel
  import opened Script
  import opened DirPaging

  // The pages a fetch asks for, unless it gives up: up to the limit, or to the
  // first one that is not full.
  function PagesAsked(records: seq<DirRecord>, limit: nat): nat {
    var room := Pieces(limit, DIR_LIST_PAGE_ENTRIES);
    if |records| < POSITIONS then Min(room, |records| / DIR_LIST_PAGE_ENTRIES + 1) else room
  }

  // BEGIN arrives, and every page has an attempt that is delivered both ways.
  predicate EnoughDelivered(c: Config, fates: Fates)
    requires IsDir(c)
  {
    && fates(0, 0) != RequestLost
    && forall e :: 1 <= e <= PagesAsked(c.job.records, c.job.limit) ==> DeliveredFrom(fates, e, 0, 5)
  }

  predicate Listening(c: Config, g: FileState) {
    g.active && g.mode == ModeDir && g.dirRequestId == c.id && g.dirPath == c.name
  }

  // A server that has not heard of the request.
  predicate Deaf(c: Config, g: FileState) {
    g.mode == ModeDir ==> g.dirRequestId != c.id
  }

  predicate Agreed(c: Config, s: State)
    requires IsDir(c) && PcFits(c, s.pc) && s.pc.Sending?
  {
    && s.server.pending == OpNone && s.pc.attempt < DIR_LIST_RETRIES && Steady(c, s.disk)
    && match s.pc.phase
       case DirBeginning => s.pc.attempt == 0 && Deaf(c, s.server)
       case DirFetching(total) =>
         && Aligned(total) && 1 + total / DIR_LIST_PAGE_ENTRIES <= PagesAsked(c.job.records, c.job.limit)
         && (Listening(c, s.server) || Deaf(c, s.server))
       case _ => true
  }

  // ---- Pages -----------------------------------------------------------------------

  // Before the last page asked for all are full; the last one fits exactly if
  // the limit does, and then nothing more is asked for.
  lemma PageAsked(records: seq<DirRecord>, limit: nat, total: nat)
    requires Aligned(total) && total < limit && 1 + total / DIR_LIST_PAGE_ENTRIES <= PagesAsked(records, limit)
    ensures var n := |Page(records, total % POSITIONS)|;
            if 1 + total / DIR_LIST_PAGE_ENTRIES < PagesAsked(records, limit) then
              n == DIR_LIST_PAGE_ENTRIES && total + n < limit
            else
              && (n <= limit - total <==> LimitFits(records, limit))
              && (n <= limit - total && n == DIR_LIST_PAGE_ENTRIES ==> total + n == limit)
  {
    PageEntries(records, total % POSITIONS);
    hide Page;
  }

  lemma PageArrives(c: Config, g: FileState, d: Disk, total: nat, h: nat)
    requires IsDir(c) && g.pending == OpNone && Steady(c, d) && Listening(c, g) && Aligned(total)
    ensures var o := Idle(Handle(g, Frame(c.me, DirDataReq(c.id, total % POSITIONS, DIR_LIST_PAGE_ENTRIES))), d, Willing(h));
            && o.g.pending == OpNone && Listening(c, o.g) && Steady(c, o.d)
            && o.out == [Datagram(c.me, DirData(c.id, total % POSITIONS, AckOk, Page(c.job.records, total % POSITIONS)))]
  {
    hide DirPattern, Slice, CopyFile, FileSize;
    CollectIsSlice(d, c.name, c.job.pattern, total % POSITIONS, DIR_LIST_PAGE_ENTRIES, true);
    CollectKeepsListing(d, c.name, total % POSITIONS, DIR_LIST_PAGE_ENTRIES, true, c.job.pattern);
    hide CollectDirEntries, Listing;
  }

  lemma CollectKeepsListing(d: Disk, path: Name, start: Word16, max: nat, findOk: bool, pattern: Name)
    ensures Listing(CollectDirEntries(d, path, start, max, findOk).0, pattern) == Listing(d, pattern)
  {
    hide DirPattern, Scan;
  }

  lemma NothingArrives(c: Config, g: FileState, d: Disk, total: nat, h: nat)
    requires IsDir(c) && g.pending == OpNone && Deaf(c, g)
    ensures var r := DirDataReq(c.id, total % POSITIONS, DIR_LIST_PAGE_ENTRIES);
            Handle(g, Frame(c.me, r)) == g && Idle(g, d, Willing(h)) == Outcome(g, d, [])
  {
  }

  // ---- One attempt -------------------------------------------------------------------

  lemma BeginLeads(c: Config, s: State, fate: Fate, h: nat)
    requires IsDir(c) && PcFits(c, s.pc) && s.pc.Sending? && s.pc.phase == DirBeginning && Agreed(c, s)
    ensures var t := Attempt(c, s, fate, Willing(h));
            && t.pc == Sending(NextDir(0, c.job.limit), 0) && Agreed(c, t)
            && (Listening(c, t.server) <==> fate != RequestLost)
  {
    hide DirPattern, Attempt, Listing;
    UnansweredMoves(c, s, fate, Willing(h));
    AttemptServes(c, s, fate, Willing(h));
  }

  lemma EndLeads(c: Config, s: State, fate: Fate, h: nat)
    requires IsDir(c) && PcFits(c, s.pc) && s.pc.Sending? && s.pc.phase == DirEnding && Agreed(c, s)
    ensures Attempt(c, s, fate, Willing(h)).pc == Done(0)
  {
    hide DirPattern, Attempt, Listing;
    UnansweredMoves(c, s, fate, Willing(h));
  }

  predicate LastPage(c: Config, total: nat)
    requires IsDir(c)
  {
    1 + total / DIR_LIST_PAGE_ENTRIES == PagesAsked(c.job.records, c.job.limit)
  }

  // What the client makes of a page.
  lemma PageIsJudged(c: Config, total: nat)
    requires IsDir(c) && PhaseFits(c, DirFetching(total)) && Aligned(total)
    requires 1 + total / DIR_LIST_PAGE_ENTRIES <= PagesAsked(c.job.records, c.job.limit)
    ensures var page := Page(c.job.records, total % POSITIONS);
            Judge(c, DirFetching(total), Datagram(c.me, DirData(c.id, total % POSITIONS, AckOk, page)))
            == if LastPage(c, total) ==> LimitFits(c.job.records, c.job.limit) then
                 Progress(Sending(if LastPage(c, total) then DirEnding else DirFetching(total + DIR_LIST_PAGE_ENTRIES), 0), [], page)
               else Failed
  {
    PageAsked(c.job.records, c.job.limit, total);
    PageEntries(c.job.records, total % POSITIONS);
    hide Page, LimitFits, PagesAsked, DirPattern;
  }

  // The client goes on exactly if the page was delivered and there is room.
  lemma FetchMoves(c: Config, s: State, fate: Fate, h: nat)
    requires IsDir(c) && PcFits(c, s.pc) && s.pc.Sending? && s.pc.phase.DirFetching? && Agreed(c, s)
    ensures var t, total := Attempt(c, s, fate, Willing(h)), s.pc.phase.total;
            t.pc ==
              if fate == Delivered && Listening(c, s.server) && (LastPage(c, total) ==> LimitFits(c.job.records, c.job.limit)) then
                Sending(if LastPage(c, total) then DirEnding else DirFetching(total + DIR_LIST_PAGE_ENTRIES), 0)
              else Retried(c, s.pc.phase, s.pc.attempt)
  {
    var total := s.pc.phase.total;
    PageIsJudged(c, total);
    if Listening(c, s.server) {
      PageArrives(c, s.server, s.disk, total, h);
    } else {
      NothingArrives(c, s.server, s.disk, total, h);
    }
    hide Idle, Handle, Attempt, Steady, Page, LimitFits, LastPage, Judge, PagesAsked, DirPattern, Retried;
    AttemptMoves(c, s, fate, Willing(h));
  }

  lemma FetchServes(c: Config, s: State, fate: Fate, h: nat)
    requires IsDir(c) && PcFits(c, s.pc) && s.pc.Sending? && s.pc.phase.DirFetching? && Agreed(c, s)
    ensures var t := Attempt(c, s, fate, Willing(h));
            && t.server.pending == OpNone && Steady(c, t.disk)
            && (Listening(c, t.server) <==> Listening(c, s.server)) && (Deaf(c, t.server) <==> Deaf(c, s.server))
  {
    var total := s.pc.phase.total;
    if Listening(c, s.server) {
      PageArrives(c, s.server, s.disk, total, h);
    } else {
      NothingArrives(c, s.server, s.disk, total, h);
    }
    hide Idle, Handle, Attempt, Steady, Page, PagesAsked, DirPattern;
    AttemptServes(c, s, fate, Willing(h));
  }

  lemma FetchLeads(c: Config, s: State, fate: Fate, h: nat)
    requires IsDir(c) && PcFits(c, s.pc) && s.pc.Sending? && s.pc.phase.DirFetching? && Agreed(c, s)
    ensures var t := Attempt(c, s, fate, Willing(h)); t.pc.Sending? ==> Agreed(c, t)
  {
    hide Attempt, Steady, LimitFits, DirPattern, Listening, Deaf, PagesAsked, Aligned;
    FetchMoves(c, s, fate, h);
    FetchServes(c, s, fate, h);
    NextPage(s.pc.phase.total);
  }

  lemma NextPage(total: nat)
    requires Aligned(total)
    ensures Aligned(total + DIR_LIST_PAGE_ENTRIES)
    ensures (total + DIR_LIST_PAGE_ENTRIES) / DIR_LIST_PAGE_ENTRIES == total / DIR_LIST_PAGE_ENTRIES + 1
  {
  }

  // ---- The whole fetch ---------------------------------------------------------------

  // The condition seen from the middle of the page loop.
  predicate RestDelivered(c: Config, s: State, fates: Fates)
    requires IsDir(c) && PcFits(c, s.pc) && s.pc.Sending?
  {
    match s.pc.phase
    case DirBeginning => c.job.limit == 0 || (LimitFits(c.job.records, c.job.limit) && EnoughDelivered(c, fates))
    case DirFetching(total) =>
      var e := Exchange(c, s.pc.phase);
      && Listening(c, s.server) && LimitFits(c.job.records, c.job.limit)
      && DeliveredFrom(fates, e, s.pc.attempt, DIR_LIST_RETRIES)
      && forall e' :: e < e' <= PagesAsked(c.job.records, c.job.limit) ==> DeliveredFrom(fates, e', 0, DIR_LIST_RETRIES)
    case _ => true
  }

  // The packets that can still be sent.
  function Left(c: Config, s: State): (n: nat)
    ensures n >= 1
    requires IsDir(c) && PcFits(c, s.pc) && s.pc.Sending? && Agreed(c, s)
  {
    match s.pc.phase
    case DirBeginning => DIR_LIST_RETRIES * PagesAsked(c.job.records, c.job.limit) + 2
    case DirFetching(total) =>
      DIR_LIST_RETRIES * (PagesAsked(c.job.records, c.job.limit) - total / DIR_LIST_PAGE_ENTRIES) - s.pc.attempt + 1
    case _ => 1
  }

  lemma AttemptLeads(c: Config, s: State, fates: Fates, h: nat)
    requires IsDir(c) && PcFits(c, s.pc) && s.pc.Sending? && Agreed(c, s)
    ensures var t := Attempt(c, s, fates(Exchange(c, s.pc.phase), s.pc.attempt), Willing(h));
            && !t.pc.Waiting?
            && (t.pc.Sending? ==>
                  Agreed(c, t) && Left(c, t) < Left(c, s) && (RestDelivered(c, s, fates) <==> RestDelivered(c, t, fates)))
            && (t.pc.Done? ==> (t.pc.rc == 0 <==> RestDelivered(c, s, fates)))
  {
    hide Attempt, Steady, LimitFits, DirPattern, Deaf;
    var e, a := Exchange(c, s.pc.phase), s.pc.attempt;
    var fate := fates(e, a);
    match s.pc.phase {
      case DirBeginning => BeginLeads(c, s, fate, h);
      case DirFetching(_) =>
        FetchLeads(c, s, fate, h);
        FetchMoves(c, s, fate, h);
        FetchServes(c, s, fate, h);
        if fate == Delivered {
          assert DeliveredFrom(fates, e, a, DIR_LIST_RETRIES);
        } else {
          assert DeliveredFrom(fates, e, a, DIR_LIST_RETRIES) <==> DeliveredFrom(fates, e, a + 1, DIR_LIST_RETRIES);
        }
      case DirEnding => EndLeads(c, s, fate, h);
    }
  }

  lemma {:induction false} CourseEnds(c: Config, s: State, fates: Fates, h: nat, sends: nat)
    requires IsDir(c) && PcFits(c, s.pc) && s.pc.Sending? && Agreed(c, s) && sends >= Left(c, s)
    ensures var t := Course(c, s, fates, Willing(h), sends);
            t.pc.Done? && (t.pc.rc == 0 <==> RestDelivered(c, s, fates))
    decreases sends
  {
    hide Attempt, Agreed, RestDelivered, Left, DirPattern, Exchange, Willing;
    AttemptLeads(c, s, fates, h);
    var t := Attempt(c, s, fates(Exchange(c, s.pc.phase), s.pc.attempt), Willing(h));
    if t.pc.Sending? {
      CourseEnds(c, t, fates, h, sends - 1);
    } else {
      assert Course(c, t, fates, Willing(h), sends - 1) == t;
    }
  }

  lemma StartsAgreed(c: Config, s: State, h: nat)
    requires IsDir(c) && Initial(c, s) && PcFits(c, s.pc) && CaughtUp(c, s, h).server.pending == OpNone
    ensures var s1 := CaughtUp(c, s, h);
            s1.pc == Sending(DirBeginning, 0) && Agreed(c, s1)
  {
    hide DirPattern, Listing, CollectDirEntries, CopyFile, FileSize, Read, Write;
    CatchingUpIsRun(c, s, h);
    IdleAnswersItsClient(s.server, s.disk, Willing(h));
  }

  function MostPackets(c: Config): nat
    requires IsDir(c)
  {
    5 * PagesAsked(c.job.records, c.job.limit) + 2
  }

  function Fetch(c: Config, s: State, fates: Fates, h: nat): State
    requires IsDir(c) && PcFits(c, s.pc)
  {
    Course(c, CaughtUp(c, s, h), fates, Willing(h), MostPackets(c))
  }

  predicate Startable(c: Config, s: State, h: nat) {
    IsDir(c) && Initial(c, s) && PcFits(c, s.pc) && CaughtUp(c, s, h).server.pending == OpNone
  }

  // BEGIN and every page were delivered and the limit leaves room for the last
  // page; a limit of 0 needs none of it.
  predicate Fetchable(c: Config, fates: Fates)
    requires IsDir(c)
  {
    c.job.limit == 0 || (LimitFits(c.job.records, c.job.limit) && EnoughDelivered(c, fates))
  }

  // Within 5 * pages + 2 packets the fetch returns, with 0 exactly when it could;
  // and then it has the listing.
  lemma {:induction false} DirTolerates(c: Config, s: State, fates: Fates, h: nat)
    requires Startable(c, s, h)
    ensures var t, records, limit := Fetch(c, s, fates, h), c.job.records, c.job.limit;
            && t.pc.Done?
            && (t.pc.rc == 0 <==> Fetchable(c, fates))
            && (t.pc.rc == 0 ==> t.listed == Fetched(records, limit))
            && (t.pc.rc == 0 && Countable(records, limit) ==> t.listed == Plain(records, limit))
  {
    hide Attempt, Course, Run, CaughtUp, Fetched, Plain, EnoughDelivered, LimitFits, NetworkSide, DirPattern;
    StartsAgreed(c, s, h);
    CourseEnds(c, CaughtUp(c, s, h), fates, h, MostPackets(c));
    ScriptFollowsCourse(c, s, fates, h, MostPackets(c));
    var acts := NetworkSide(c, s, fates, h, MostPackets(c));
    assert AllReadable(acts);
    DirSafe(c, s, acts);
  }

  // ---- The client's own view --------------------------------------------------------

  predicate OnChannel(c: Config, s: State, todo: seq<Action>, fates: Fates, h: nat) {
    Startable(c, s, h) && todo == NetworkSide(c, s, fates, h, MostPackets(c))
  }

  lemma {:induction false} DirPlays(c: Config, s: State, todo: seq<Action>, fates: Fates, h: nat)
    requires OnChannel(c, s, todo, fates, h)
    ensures Play(c, s, todo).pc == Done(0) <==> Fetchable(c, fates)
    ensures Play(c, s, todo).pc == Done(0) ==> Play(c, s, todo).listed == Fetched(c.job.records, c.job.limit)
  {
    hide Attempt, Course, Run, Play, CaughtUp, NetworkSide, Fetchable, Fetched, Plain, DirPattern;
    DirTolerates(c, s, fates, h);
    ScriptFollowsCourse(c, s, fates, h, MostPackets(c));
  }

  // ---- A search that fails -------------------------------------------------------------

  // The search does not come off, as with a drive that is not ready.
  const NO_SEARCH := Answers(-1, -1, -1, -1, false, false, false, [])

  // Whatever the directory holds and from whatever state: when the search for
  // the first page fails, the client can return 0 with no entries at all.
  lemma {:induction false} FailedSearchIsEmptySuccess(c: Config, s: State) returns (acts: seq<Action>)
    requires IsDir(c) && c.job.limit > 0 && Initial(c, s) && s.server.pending == OpNone
    ensures PcFits(c, s.pc)
    ensures Run(c, s, acts).pc == Done(0) && Run(c, s, acts).listed == []
  {
    hide Attempt, Run, DirPattern, Listing, AttemptActions;
    InitialFits(c, s);
    RunNothing(c, s);
    BeginsListening(c, s);
    AttemptIsRun(c, s, [], s, Delivered, NO_SEARCH);
    var s1 := Attempt(c, s, Delivered, NO_SEARCH);
    acts := [] + AttemptActions(c, s, Delivered, NO_SEARCH);
    FindsNothing(c, s1);
    AttemptIsRun(c, s, acts, s1, Delivered, NO_SEARCH);
    var s2 := Attempt(c, s1, Delivered, NO_SEARCH);
    acts := acts + AttemptActions(c, s1, Delivered, NO_SEARCH);
    EndsWell(c, s2);
    AttemptIsRun(c, s, acts, s2, Delivered, NO_SEARCH);
    acts := acts + AttemptActions(c, s2, Delivered, NO_SEARCH);
  }

  lemma BeginsListening(c: Config, s: State)
    requires IsDir(c) && c.job.limit > 0 && Initial(c, s) && s.server.pending == OpNone && PcFits(c, s.pc)
    ensures var t := Attempt(c, s, Delivered, NO_SEARCH);
            && t.pc == Sending(DirFetching(0), 0) && t.listed == [] && Steady(c, t.disk)
            && t.server.pending == OpNone && Listening(c, t.server)
  {
    hide DirPattern, Attempt, Listing;
    UnansweredMoves(c, s, Delivered, NO_SEARCH);
    AttemptServes(c, s, Delivered, NO_SEARCH);
  }

  lemma FindsNothing(c: Config, s: State)
    requires IsDir(c) && PcFits(c, s.pc) && s.pc == Sending(DirFetching(0), 0) && s.listed == [] && Steady(c, s.disk)
    requires s.server.pending == OpNone && Listening(c, s.server)
    ensures var t := Attempt(c, s, Delivered, NO_SEARCH);
            t.pc == Sending(DirEnding, 0) && t.listed == [] && Steady(c, t.disk) && t.server.pending == OpNone
  {
    hide DirPattern, Attempt, Steady, Idle, Handle, SlackAfter, ClosingOf;
    NothingFound(c, s.server, s.disk);
    AttemptMoves(c, s, Delivered, NO_SEARCH);
    AttemptServes(c, s, Delivered, NO_SEARCH);
  }

  lemma NothingFound(c: Config, g: FileState, d: Disk)
    requires IsDir(c) && g.pending == OpNone && Steady(c, d) && Listening(c, g)
    ensures var o := Idle(Handle(g, Frame(c.me, DirDataReq(c.id, 0, DIR_LIST_PAGE_ENTRIES))), d, NO_SEARCH);
            && o.g.pending == OpNone && Steady(c, o.d)
            && o.out == [Datagram(c.me, DirData(c.id, 0, AckOk, []))]
  {
    hide DirPattern, Slice, CopyFile, FileSize;
    CollectIsSlice(d, c.name, c.job.pattern, 0, DIR_LIST_PAGE_ENTRIES, false);
    CollectKeepsListing(d, c.name, 0, DIR_LIST_PAGE_ENTRIES, false, c.job.pattern);
    hide CollectDirEntries, Listing;
  }

  lemma EndsWell(c: Config, s: State)
    requires IsDir(c) && PcFits(c, s.pc) && s.pc == Sending(DirEnding, 0) && Steady(c, s.disk) && s.server.pending == OpNone
    ensures var t := Attempt(c, s, Delivered, NO_SEARCH); t.pc == Done(0) && t.listed == s.listed
  {
    hide DirPattern, Attempt, Listing;
    UnansweredMoves(c, s, Delivered, NO_SEARCH);
  }
}
