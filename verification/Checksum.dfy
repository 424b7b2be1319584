/** The rotating checksum over video memory that decides whether the screen is
    sent again. */
module Checksum {
  import opened Protocol

  // The 64 KiB segment the video memory lies in.
  type Segment = m: seq<Byte> | |m| == 0x1_0000 witness seq(0x1_0000, _ => 0)

  // The word at ds:si; addresses wrap within the segment.
  function LoadAt(m: Segment, si: Word16): Word16 {
    m[si] as int + m[(si + 1) % 0x1_0000] as int * 0x100
  }

  function Xchg(w: Word16): Word16 {
    w % 0x100 * 0x100 + w / 0x100
  }

  function Rol1(x: Word16): Word16 {
    x * 2 % 0x1_0000 + x / 0x8000
  }

  function Round(sum: Word16, w: Word16): Word16 {
    Rol1((sum + Xchg(w)) % 0x1_0000)
  }

  function Sum(words: seq<Word16>, sum: Word16): Word16
    decreases |words|
  {
    if words == [] then sum else Sum(words[1..], Round(sum, words[0]))
  }

  // `loop` with CX = 0 runs 65536 times.
  function Rounds(words: Word16): nat {
    if words == 0 then 0x1_0000 else words
  }

  function WordsAt(m: Segment, offset: Word16, n: nat): (w: seq<Word16>)
    ensures |w| == n
  {
    seq(n, i requires 0 <= i < n => LoadAt(m, (offset + 2 * i) % 0x1_0000))
  }

  function FrameChecksum(m: Segment, offset: Word16, words: Word16): Word16 {
    Sum(WordsAt(m, offset, Rounds(words)), 0)
  }

  lemma {:induction false} OneRound(m: Segment, offset: Word16, n: nat, i: nat, sum: Word16)
    requires i < n
    ensures var all, si := WordsAt(m, offset, n), (offset + 2 * i) % 0x1_0000;
            Sum(all[i..], sum) == Sum(all[i + 1..], Round(sum, LoadAt(m, si)))
    ensures ((offset + 2 * i) % 0x1_0000 + 2) % 0x1_0000 == (offset + 2 * (i + 1)) % 0x1_0000
  {
    hide Round, LoadAt;
    NextOffset(offset + 2 * i);
    var all := WordsAt(m, offset, n);
    assert all[i] == LoadAt(m, (offset + 2 * i) % 0x1_0000);
    hide WordsAt;
    FirstWord(all[i..], sum);
    assert all[i..][1..] == all[i + 1..];
  }

  lemma FirstWord(words: seq<Word16>, sum: Word16)
    requires words != []
    ensures Sum(words, sum) == Sum(words[1..], Round(sum, words[0]))
  {
    hide Round;
  }

  lemma NextOffset(at: nat)
    ensures (at % 0x1_0000 + 2) % 0x1_0000 == (at + 2) % 0x1_0000
  {
  }

  lemma NothingLeft(words: seq<Word16>, sum: Word16)
    requires words == []
    ensures Sum(words, sum) == sum
  {
  }

  // video_checksum_frame_buffer, register by register.
  method VideoChecksum(m: Segment, offset: Word16, words: Word16) returns (ax: Word16)
    ensures ax == FrameChecksum(m, offset, words)
  {
    hide Rol1, Xchg, LoadAt, Sum, WordsAt;
    var si: int, cx: int, dx: int := offset, words, 0;
    ghost var all := WordsAt(m, offset, Rounds(words));
    ghost var i := 0;
    assert all[0..] == all;
    while true
      invariant 0 <= cx < 0x1_0000 && 0 <= dx < 0x1_0000
      invariant 0 <= i < |all| && Rounds(cx) == |all| - i && si == (offset + 2 * i) % 0x1_0000
      invariant Sum(all, 0) == Sum(all[i..], dx)
      decreases |all| - i
    {
      OneRound(m, offset, Rounds(words), i, dx);
      var bx: int := LoadAt(m, si);
      bx := Xchg(bx);
      dx := (dx + bx) % 0x1_0000;
      dx := Rol1(dx);
      si := (si + 2) % 0x1_0000;
      cx := (cx - 1) % 0x1_0000;
      i := i + 1;
      if cx == 0 {
        break;
      }
    }
    NothingLeft(all[i..], dx);
    ax := dx;
  }

  // ---- What it detects -------------------------------------------------------

  lemma RolInjective(x: Word16, y: Word16)
    requires Rol1(x) == Rol1(y)
    ensures x == y
  {
    assert Rol1(x) % 2 == x / 0x8000 && Rol1(y) % 2 == y / 0x8000;
  }

  lemma XchgInjective(x: Word16, y: Word16)
    requires Xchg(x) == Xchg(y)
    ensures x == y
  {
  }

  lemma AddInjective(s: Word16, x: Word16, t: Word16, y: Word16)
    requires (s + x) % 0x1_0000 == (t + y) % 0x1_0000
    ensures s == t <==> x == y
  {
  }

  lemma {:induction false} RoundInjective(s: Word16, t: Word16, v: Word16, w: Word16)
    requires Round(s, v) == Round(t, w)
    ensures s == t <==> v == w
  {
    RolInjective((s + Xchg(v)) % 0x1_0000, (t + Xchg(w)) % 0x1_0000);
    AddInjective(s, Xchg(v), t, Xchg(w));
    hide Rol1, Xchg;
    if s == t {
      XchgInjective(v, w);
    }
  }

  lemma {:induction false} SumInjective(words: seq<Word16>, s: Word16, t: Word16)
    requires Sum(words, s) == Sum(words, t)
    ensures s == t
    decreases |words|
  {
    if words != [] {
      SumInjective(words[1..], Round(s, words[0]), Round(t, words[0]));
      RoundInjective(s, t, words[0], words[0]);
    }
  }

  // Sequences that differ in exactly one word have different sums.
  lemma {:induction false} OneWordChanges(a: seq<Word16>, b: seq<Word16>, k: nat, sum: Word16)
    requires |a| == |b| && k < |a| && a[k] != b[k]
    requires forall i :: 0 <= i < |a| && i != k ==> a[i] == b[i]
    ensures Sum(a, sum) != Sum(b, sum)
    decreases |a|
  {
    if k == 0 {
      assert a[1..] == b[1..];
      if Sum(a, sum) == Sum(b, sum) {
        SumInjective(a[1..], Round(sum, a[0]), Round(sum, b[0]));
        RoundInjective(sum, sum, a[0], b[0]);
      }
    } else {
      OneWordChanges(a[1..], b[1..], k - 1, Round(sum, a[0]));
    }
  }

  // Two states of video memory that differ in one cell.
  predicate DifferAt(m: Segment, m': Segment, k: nat)
    requires k < 0x8000
  {
    LoadAt(m, 2 * k) != LoadAt(m', 2 * k) && forall i :: 0 <= i < 0x1_0000 && i / 2 != k ==> m[i] == m'[i]
  }

  // The rounds go round the segment, so a cell in reach is read once or twice.
  predicate ReadOnce(words: Word16, k: nat) {
    k < Rounds(words) <= k + 0x8000
  }

  lemma {:induction false} OneCellChanges(m: Segment, m': Segment, words: Word16, k: nat)
    requires k < 0x8000 && ReadOnce(words, k) && DifferAt(m, m', k)
    ensures FrameChecksum(m, 0, words) != FrameChecksum(m', 0, words)
  {
    var a, b := WordsAt(m, 0, Rounds(words)), WordsAt(m', 0, Rounds(words));
    forall i | 0 <= i < |a| && i != k ensures a[i] == b[i] {
      var si := 2 * i % 0x1_0000;
      assert si / 2 != k && (si + 1) / 2 != k && m[si] == m'[si] && m[si + 1] == m'[si + 1];
    }
    OneWordChanges(a, b, k, 0);
  }

  // ---- What it misses ----------------------------------------------------------

  function Zeros(n: nat): seq<Word16> {
    seq(n, _ => 0)
  }

  // n rounds over zeros.
  function Turned(sum: Word16, n: nat): Word16
    decreases n
  {
    if n == 0 then sum else Turned(Rol1(sum), n - 1)
  }

  lemma {:induction false} SumOfZeros(n: nat, sum: Word16)
    ensures Sum(Zeros(n), sum) == Turned(sum, n)
    decreases n
  {
    hide Rol1, Round;
    if n > 0 {
      assert Zeros(n)[0] == 0 && Zeros(n)[1..] == Zeros(n - 1);
      RoundOfZero(sum);
      SumOfZeros(n - 1, Rol1(sum));
    }
  }

  lemma RoundOfZero(sum: Word16)
    ensures Round(sum, 0) == Rol1(sum)
  {
    hide Rol1;
    assert Xchg(0) == 0;
    hide Xchg;
  }

  lemma {:induction false} ZeroStays(n: nat)
    ensures Turned(0, n) == 0
  {
    if n > 0 {
      ZeroStays(n - 1);
    }
  }

  lemma {:induction false} TurnedAdds(sum: Word16, a: nat, b: nat)
    ensures Turned(sum, a + b) == Turned(Turned(sum, a), b)
    decreases a
  {
    if a > 0 {
      TurnedAdds(Rol1(sum), a - 1, b);
    }
  }

  lemma TurnOnce(sum: Word16, n: nat)
    ensures Turned(sum, n + 1) == Turned(Rol1(sum), n)
    ensures sum < 0x8000 ==> Rol1(sum) == 2 * sum
  {
  }

  lemma FourTurns(sum: Word16)
    requires sum < 0x1000
    ensures Turned(sum, 4) == 0x10 * sum && Turned(sum, 3) == 8 * sum
  {
    hide Rol1, Turned;
    TurnOnce(sum, 3);
    TurnOnce(2 * sum, 2);
    TurnOnce(4 * sum, 1);
    TurnOnce(8 * sum, 0);
    TurnOnce(sum, 2);
    TurnOnce(2 * sum, 1);
    TurnOnce(4 * sum, 0);
    NoTurn(8 * sum);
    NoTurn(0x10 * sum);
  }

  lemma NoTurn(sum: Word16)
    ensures Turned(sum, 0) == sum
  {
  }

  lemma TopBitTurns()
    ensures Rol1(0x8000) == 1 && Rol1(0) == 0
  {
  }

  // Sixteen turns bring a sum back.
  lemma SixteenTurns()
    ensures Turned(1, 15) == 0x8000 && Turned(1, 16) == 1
  {
    TopBitTurns();
    hide Rol1, Turned;
    FourTurns(1);
    FourTurns(0x10);
    FourTurns(0x100);
    TurnedAdds(1, 4, 11);
    TurnedAdds(0x10, 4, 7);
    TurnedAdds(0x100, 4, 3);
    TurnOnce(0x1000, 2);
    TurnOnce(0x2000, 1);
    TurnOnce(0x4000, 0);
    NoTurn(0x8000);
    TurnedAdds(1, 15, 1);
    TurnOnce(0x8000, 0);
    NoTurn(1);
  }

  lemma {:induction false} FullTurns(n: nat)
    ensures Turned(1, 16 * n + 15) == 0x8000
  {
    SixteenTurns();
    hide Rol1;
    if n > 0 {
      TurnedAdds(1, 16, 16 * (n - 1) + 15);
      FullTurns(n - 1);
    }
  }

  lemma {:induction false} SumAdds(a: seq<Word16>, b: seq<Word16>, sum: Word16)
    ensures Sum(a + b, sum) == Sum(b, Sum(a, sum))
    decreases |a|
  {
    if a == [] {
      assert a + b == b;
    } else {
      assert (a + b)[1..] == a[1..] + b;
      SumAdds(a[1..], b, Round(sum, a[0]));
    }
  }

  const BLANK: Segment := seq(0x1_0000, _ => 0)

  // The cell's second reading undoes its first.
  lemma {:induction false} TwiceReadCancels(k: nat, rest: nat)
    ensures Sum(Zeros(k) + [0x80] + Zeros(0x7fff) + [0x80] + Zeros(rest), 0) == 0
  {
    OneWord(0);
    OneWord(0x8000);
    hide Round, Rol1, Turned;
    var first := Zeros(k) + [0x80];
    var both := first + Zeros(0x7fff) + [0x80];
    SumAdds(both, Zeros(rest), 0);
    SumAdds(first + Zeros(0x7fff), [0x80], 0);
    SumAdds(first, Zeros(0x7fff), 0);
    SumAdds(Zeros(k), [0x80], 0);
    hide Sum, Zeros;
    SumOfZeros(k, 0);
    ZeroStays(k);
    SumOfZeros(0x7fff, 1);
    FullTurns(2047);
    SumOfZeros(rest, 0);
    ZeroStays(rest);
  }

  lemma OneWord(sum: Word16)
    ensures Sum([0x80], sum) == Round(sum, 0x80)
    ensures Round(0, 0x80) == 1 && Round(0x8000, 0x80) == 0
  {
    TopBitTurns();
    assert Xchg(0x80) == 0x8000;
    hide Rol1, Xchg;
    FirstWord([0x80], sum);
    NothingLeft([0x80][1..], Round(sum, 0x80));
    hide Sum;
  }

  lemma {:induction false} OneCellMissed(words: Word16, k: nat)
    requires k < 0x8000 && k + 0x8000 < Rounds(words)
    ensures var m := BLANK[2 * k := 0x80];
            DifferAt(BLANK, m, k) && FrameChecksum(BLANK, 0, words) == FrameChecksum(m, 0, words)
  {
    hide Sum;
    var m, n := BLANK[2 * k := 0x80], Rounds(words);
    var rest := n - k - 0x8001;
    var all := Zeros(k) + [0x80] + Zeros(0x7fff) + [0x80] + Zeros(rest);
    var a, b := WordsAt(BLANK, 0, n), WordsAt(m, 0, n);
    assert a == Zeros(n);
    forall i | 0 <= i < n ensures b[i] == all[i] {
      assert 2 * i % 0x1_0000 == 2 * k <==> i == k || i == k + 0x8000;
    }
    assert b == all;
    TwiceReadCancels(k, rest);
    SumOfZeros(n, 0);
    ZeroStays(n);
  }

  ghost predicate Detected(words: Word16, k: nat)
    requires k < 0x8000
  {
    forall m: Segment, m': Segment :: DifferAt(m, m', k) ==> FrameChecksum(m, 0, words) != FrameChecksum(m', 0, words)
  }

  // Every change of one cell in reach changes the checksum exactly when that
  // cell is read once: for all cells, when at most 32768 words are asked for.
  lemma {:induction false} OneCellDetected(words: Word16, k: nat)
    requires k < 0x8000 && k < Rounds(words)
    ensures Detected(words, k) <==> ReadOnce(words, k)
  {
    hide FrameChecksum;
    if ReadOnce(words, k) {
      forall m: Segment, m': Segment | DifferAt(m, m', k)
        ensures FrameChecksum(m, 0, words) != FrameChecksum(m', 0, words)
      {
        OneCellChanges(m, m', words, k);
      }
    } else {
      OneCellMissed(words, k);
    }
  }

  // The segment as it looks from `offset` on.
  function From(m: Segment, offset: Word16): Segment {
    seq(0x1_0000, i requires 0 <= i < 0x1_0000 => m[(offset + i) % 0x1_0000])
  }

  // The offset says where the frame begins.
  lemma {:induction false} OffsetMovesFrame(m: Segment, offset: Word16, words: Word16)
    ensures FrameChecksum(m, offset, words) == FrameChecksum(From(m, offset), 0, words)
  {
    hide Sum, LoadAt, From;
    var n := Rounds(words);
    var a, b := WordsAt(m, offset, n), WordsAt(From(m, offset), 0, n);
    forall i | 0 <= i < n ensures a[i] == b[i] {
      SameWord(m, offset, 2 * i);
    }
    assert a == b;
  }

  lemma SameWord(m: Segment, offset: Word16, at: nat)
    ensures LoadAt(m, (offset + at) % 0x1_0000) == LoadAt(From(m, offset), at % 0x1_0000)
  {
    WrapTwice(offset, at);
    WrapTwice(offset, at + 1);
    WrapTwice(1, at);
    WrapTwice(1, offset + at);
  }

  lemma WrapTwice(x: nat, y: nat)
    ensures (x + y % 0x1_0000) % 0x1_0000 == (x + y) % 0x1_0000
  {
  }
}
