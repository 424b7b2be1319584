/** The table of clients that watch the screen: four slots that stand for a map
    from client to the tick of its last packet. */
module Sessions {
  import opened Protocol

  const MAX_SESSIONS := 4
  const SESSION_LIFETIME_TICKS := 182
  const NULL_MAC: seq<Byte> := [0, 0, 0, 0, 0, 0]

  datatype Session = Session(tLastRecv: Word32, id: Word32, mac: seq<Byte>, videoChksum: Word16)

  const EMPTY := Session(0, 0, NULL_MAC, 0)

  type Key = (seq<Byte>, Word32)

  predicate NullMac(mac: seq<Byte>) {
    mac == NULL_MAC
  }

  predicate InUse(s: Session) {
    !NullMac(s.mac)
  }

  function KeyOf(s: Session): Key {
    (s.mac, s.id)
  }

  // ---- The operations ----------------------------------------------------------

  // session_mgr_find: the first slot with this address and id, |table| if none.
  function Find(table: seq<Session>, key: Key): (i: nat)
    ensures i <= |table|
    ensures i < |table| ==> KeyOf(table[i]) == key
    ensures forall j :: 0 <= j < i ==> KeyOf(table[j]) != key
  {
    if table == [] then 0
    else if KeyOf(table[0]) == key then 0
    else 1 + Find(table[1..], key)
  }

  // session_mgr_start: the slot used, |table| if there is none.
  function Start(table: seq<Session>, key: Key, now: Word32): (r: (seq<Session>, nat)) {
    var known := Find(table, key);
    var i := if known < |table| then known else Find(table, (NULL_MAC, 0));
    if i == |table| then (table, i)
    else (table[i := Session(now, key.1, key.0, 0)], i)
  }

  // 32-bit tick arithmetic, as the code computes it.
  predicate TimedOut(s: Session, now: Word32) {
    (s.tLastRecv + SESSION_LIFETIME_TICKS) % 0x1_0000_0000 < now
  }

  function Pruned(table: seq<Session>, now: Word32): (r: seq<Session>)
    ensures |r| == |table|
    ensures forall i :: 0 <= i < |table| ==>
              r[i] == if InUse(table[i]) && TimedOut(table[i], now) then EMPTY else table[i]
  {
    if table == [] then []
    else [if InUse(table[0]) && TimedOut(table[0], now) then EMPTY else table[0]] + Pruned(table[1..], now)
  }

  // ---- The map it stands for -----------------------------------------------------

  predicate WellFormed(table: seq<Session>) {
    && (forall i, j :: 0 <= i < j < |table| && InUse(table[i]) && InUse(table[j]) ==> KeyOf(table[i]) != KeyOf(table[j]))
    && (forall i :: 0 <= i < |table| && !InUse(table[i]) ==> table[i].id == 0)
  }

  function Clients(table: seq<Session>): map<Key, Word32> {
    if table == [] then map[]
    else
      var rest := Clients(table[1..]);
      if InUse(table[0]) then rest[KeyOf(table[0]) := table[0].tLastRecv] else rest
  }

  lemma {:induction false} ClientsAre(table: seq<Session>)
    requires WellFormed(table)
    ensures forall k :: k in Clients(table) ==>
              exists i :: 0 <= i < |table| && InUse(table[i]) && KeyOf(table[i]) == k && table[i].tLastRecv == Clients(table)[k]
    ensures forall i :: 0 <= i < |table| && InUse(table[i]) ==>
              KeyOf(table[i]) in Clients(table) && Clients(table)[KeyOf(table[i])] == table[i].tLastRecv
  {
    if table != [] {
      ClientsAre(table[1..]);
    }
  }

  lemma {:induction false} FullTable(table: seq<Session>)
    requires WellFormed(table)
    ensures |Clients(table)| <= |table|
    ensures |Clients(table)| == |table| <==> forall i :: 0 <= i < |table| ==> InUse(table[i])
  {
    if table != [] {
      FullTable(table[1..]);
      ClientsAre(table[1..]);
      if InUse(table[0]) {
        assert KeyOf(table[0]) !in Clients(table[1..]);
      }
    }
  }

  lemma {:induction false} ClientsUpdate(table: seq<Session>, i: nat, s: Session)
    requires WellFormed(table) && i < |table| && InUse(s) && WellFormed(table[i := s])
    requires InUse(table[i]) ==> KeyOf(table[i]) == KeyOf(s)
    ensures Clients(table[i := s]) == Clients(table)[KeyOf(s) := s.tLastRecv]
    decreases |table|
  {
    if i > 0 {
      assert table[i := s][1..] == table[1..][i - 1 := s];
      ClientsUpdate(table[1..], i - 1, s);
      assert InUse(table[0]) ==> KeyOf(table[i := s][0]) != KeyOf(table[i := s][i]);
    }
  }

  lemma {:induction false} FreeSlotUpdate(table: seq<Session>, i: nat, s: Session)
    requires i < |table| && !InUse(table[i]) && !InUse(s)
    ensures Clients(table[i := s]) == Clients(table)
    decreases |table|
  {
    if i > 0 {
      assert table[i := s][1..] == table[1..][i - 1 := s];
      FreeSlotUpdate(table[1..], i - 1, s);
    }
  }

  lemma KnownIsFound(table: seq<Session>, key: Key)
    requires WellFormed(table) && !NullMac(key.0)
    ensures Find(table, key) < |table| <==> key in Clients(table)
  {
    ClientsAre(table);
  }

  lemma {:induction false} FreeSlotIsFound(table: seq<Session>)
    requires WellFormed(table)
    ensures var i := Find(table, (NULL_MAC, 0));
            && (i < |table| <==> |Clients(table)| < |table|)
            && (i < |table| ==> !InUse(table[i]))
  {
    FullTable(table);
    if j :| 0 <= j < |table| && !InUse(table[j]) {
      assert KeyOf(table[j]) == (NULL_MAC, 0);
    }
  }

  lemma UpdateWellFormed(table: seq<Session>, i: nat, s: Session)
    requires WellFormed(table) && i < |table| && InUse(s)
    requires forall j :: 0 <= j < |table| && j != i && InUse(table[j]) ==> KeyOf(table[j]) != KeyOf(s)
    ensures WellFormed(table[i := s])
  {
    hide InUse, KeyOf;
  }

  // A packet that takes a slot away from all clients: from the all-zero
  // address, with an id, while a slot is free.
  predicate Leaks(table: seq<Session>, key: Key) {
    NullMac(key.0) && key.1 != 0 && |Clients(table)| < |table|
  }

  // A packet of a client with a real address refreshes its entry or adds one,
  // and is turned away exactly when it is new and the table is full.
  lemma {:induction false} ClientStarts(table: seq<Session>, key: Key, now: Word32)
    requires WellFormed(table) && !NullMac(key.0)
    ensures var (table', i) := Start(table, key, now);
            && |table'| == |table| && WellFormed(table')
            && (i < |table| <==> key in Clients(table) || |Clients(table)| < |table|)
            && Clients(table') == (if i < |table| then Clients(table)[key := now] else Clients(table))
  {
    hide Clients, NullMac;
    KnownIsFound(table, key);
    FreeSlotIsFound(table);
    var i := Start(table, key, now).1;
    if i < |table| {
      var s := Session(now, key.1, key.0, 0);
      assert KeyOf(s) == key;
      UpdateWellFormed(table, i, s);
      ClientsUpdate(table, i, s);
    }
  }

  // One from the all-zero address changes no client; with an id it spoils the
  // slot it gets.
  lemma {:induction false} ZeroAddressStarts(table: seq<Session>, key: Key, now: Word32)
    requires WellFormed(table) && NullMac(key.0)
    ensures var (table', i) := Start(table, key, now);
            && |table'| == |table|
            && (i < |table| <==> |Clients(table)| < |table|)
            && Clients(table') == Clients(table)
            && (WellFormed(table') <==> !Leaks(table, key))
            && (i < |table| ==> !InUse(table'[i]) && table'[i].id == key.1)
  {
    FreeSlotIsFound(table);
    NoZeroKey(table, key);
    hide Clients;
    var i := Start(table, key, now).1;
    if i < |table| {
      FreeSlotUpdate(table, i, Session(now, key.1, key.0, 0));
      FreeSlotWellFormed(table, i, Session(now, key.1, key.0, 0));
    }
  }

  lemma FreeSlotWellFormed(table: seq<Session>, i: nat, s: Session)
    requires WellFormed(table) && i < |table| && !InUse(table[i]) && !InUse(s)
    ensures WellFormed(table[i := s]) <==> s.id == 0
  {
    hide InUse, KeyOf;
    assert table[i := s][i] == s;
  }

  lemma NoZeroKey(table: seq<Session>, key: Key)
    requires WellFormed(table) && NullMac(key.0)
    ensures key.1 != 0 ==> Find(table, key) == |table|
    ensures key.1 == 0 ==> key == (NULL_MAC, 0)
  {
  }

  // Any packet, whoever sent it: the map follows, and the table stays one for a
  // map exactly unless the packet leaks a slot.
  lemma {:induction false} StartRefinesMap(table: seq<Session>, key: Key, now: Word32)
    requires WellFormed(table)
    ensures var (table', i) := Start(table, key, now);
            && |table'| == |table|
            && (i < |table| <==> key in Clients(table) || |Clients(table)| < |table|)
            && Clients(table') == (if i < |table| && !NullMac(key.0) then Clients(table)[key := now] else Clients(table))
            && (WellFormed(table') <==> !NullMac(key.0) || key.1 == 0 || |Clients(table)| == |table|)
  {
    hide Start, Clients;
    FullTable(table);
    if NullMac(key.0) {
      ZeroAddressStarts(table, key, now);
      ZeroIsNoClient(table, key);
    } else {
      ClientStarts(table, key, now);
    }
  }

  lemma ZeroIsNoClient(table: seq<Session>, key: Key)
    requires WellFormed(table) && NullMac(key.0)
    ensures key !in Clients(table)
  {
    ClientsAre(table);
  }

  predicate Recent(t: Word32, now: Word32) {
    (t + SESSION_LIFETIME_TICKS) % 0x1_0000_0000 >= now
  }

  lemma PrunedSlots(table: seq<Session>, now: Word32)
    requires WellFormed(table)
    ensures var p := Pruned(table, now);
            && WellFormed(p)
            && (forall i :: 0 <= i < |p| && InUse(p[i]) ==> p[i] == table[i] && Recent(p[i].tLastRecv, now))
            && (forall i :: 0 <= i < |p| && InUse(table[i]) && Recent(table[i].tLastRecv, now) ==> p[i] == table[i])
  {
    assert !InUse(EMPTY);
    hide InUse, KeyOf;
  }

  // Pruning removes exactly the entries that timed out.
  lemma PruneRefinesMap(table: seq<Session>, now: Word32)
    requires WellFormed(table)
    ensures WellFormed(Pruned(table, now))
    ensures Clients(Pruned(table, now))
            == map k | k in Clients(table) && Recent(Clients(table)[k], now) :: Clients(table)[k]
  {
    hide Clients, InUse, KeyOf, Pruned, WellFormed, Recent;
    PrunedSlots(table, now);
    ClientsAre(table);
    ClientsAre(Pruned(table, now));
  }

  // Without a wrap of the tick counter, timed out means older than the
  // lifetime.
  lemma TimedOutIsOld(s: Session, now: Word32)
    requires s.tLastRecv + 182 < 0x1_0000_0000
    ensures TimedOut(s, now) <==> now - s.tLastRecv > 182
  {
  }

  // ---- Whole runs ------------------------------------------------------------------

  datatype Event = Starts(key: Key, now: Word32) | Prunes(now: Word32)

  function Next(table: seq<Session>, event: Event): (r: seq<Session>)
    ensures |r| == |table|
  {
    match event
    case Starts(key, now) => Start(table, key, now).0
    case Prunes(now) => Pruned(table, now)
  }

  function After(table: seq<Session>, events: seq<Event>): (r: seq<Session>)
    ensures |r| == |table|
    decreases |events|
  {
    if events == [] then table else After(Next(table, events[0]), events[1..])
  }

  // A slot that no client has and no client will find free.
  predicate Lost(table: seq<Session>, i: nat) {
    i < |table| && !InUse(table[i]) && table[i].id != 0
  }

  // It stays so, whoever starts and whatever is pruned.
  lemma {:induction false} LostForGood(table: seq<Session>, events: seq<Event>, i: nat)
    requires Lost(table, i)
    ensures Lost(After(table, events), i) && After(table, events)[i].id == table[i].id
    decreases |events|
  {
    if events != [] {
      LostStays(table, events[0], i);
      LostForGood(Next(table, events[0]), events[1..], i);
    }
  }

  lemma LostStays(table: seq<Session>, event: Event, i: nat)
    requires Lost(table, i)
    ensures Lost(Next(table, event), i) && Next(table, event)[i].id == table[i].id
  {
  }

  // A packet of the all-zero address with an id takes a slot for good, exactly
  // when one is free.
  lemma {:induction false} ZeroAddressLeaksSlot(table: seq<Session>, key: Key, now: Word32, later: seq<Event>)
    requires WellFormed(table)
    ensures var (table', i) := Start(table, key, now);
            && (Leaks(table, key) <==> Lost(table', i))
            && (Leaks(table, key) ==> Lost(After(table', later), i) && After(table', later)[i].id == key.1)
  {
    hide After, Clients;
    var (table', i) := Start(table, key, now);
    if NullMac(key.0) {
      ZeroAddressStarts(table, key, now);
      FullTable(table);
    }
    if Lost(table', i) {
      LostForGood(table', later, i);
    }
  }

  predicate LeaksAt(table: seq<Session>, events: seq<Event>, k: nat)
    requires k < |events|
  {
    events[k].Starts? && Leaks(After(table, events[..k]), events[k].key)
  }

  // Over a whole run the table stays one for a map exactly unless some packet
  // leaked a slot.
  lemma {:induction false} TableStaysMap(table: seq<Session>, events: seq<Event>)
    requires WellFormed(table)
    ensures WellFormed(After(table, events)) <==> forall k :: 0 <= k < |events| ==> !LeaksAt(table, events, k)
    decreases |events|
  {
    hide After, WellFormed, Leaks, Start, Pruned;
    if events == [] {
      NothingHappens(table);
    } else {
      var table', rest := Next(table, events[0]), events[1..];
      FirstEvent(table, events);
      if WellFormed(table') {
        TableStaysMap(table', rest);
        assert forall j :: 0 <= j < |rest| ==> LeaksAt(table', rest, j) == LeaksAt(table, events, j + 1);
      } else {
        assert LeaksAt(table, events, 0);
      }
    }
  }

  lemma NothingHappens(table: seq<Session>)
    ensures After(table, []) == table
  {
  }

  lemma {:induction false} FirstEvent(table: seq<Session>, events: seq<Event>)
    requires WellFormed(table) && events != []
    ensures var table' := Next(table, events[0]);
            && After(table, events) == After(table', events[1..])
            && (WellFormed(table') <==> !LeaksAt(table, events, 0))
            && (!WellFormed(table') ==> !WellFormed(After(table, events)))
            && forall k :: 1 <= k < |events| ==> LeaksAt(table, events, k) == LeaksAt(table', events[1..], k - 1)
  {
    var table', rest := Next(table, events[0]), events[1..];
    NothingHappens(table);
    assert events[..0] == [];
    forall k | 1 <= k < |events| ensures LeaksAt(table, events, k) == LeaksAt(table', rest, k - 1) {
      assert events[..k][1..] == rest[..k - 1];
    }
    hide After, Start, Clients, Pruned;
    match events[0] {
      case Starts(key, now) =>
        StartRefinesMap(table, key, now);
        ZeroAddressLeaksSlot(table, key, now, rest);
        FullTable(table);
        if Lost(table', Start(table, key, now).1) {
          LostIsIllFormed(After(table', rest), Start(table, key, now).1);
        }
      case Prunes(now) => PrunedSlots(table, now);
    }
  }

  lemma LostIsIllFormed(table: seq<Session>, i: nat)
    requires Lost(table, i)
    ensures !WellFormed(table)
  {
  }
}
