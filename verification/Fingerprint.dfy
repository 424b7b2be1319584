/** The 64-bit hash by which the commander tells whether an edited file changed. */
module Fingerprint {
  import opened Protocol

  const WORD: int := 0x1_0000_0000_0000_0000
  const SEED: Word64 := 5381

  type Word64 = h: int | 0 <= h < WORD

  // Shifts out of the top are lost.
  function Times33(h: Word64): Word64 {
    (h * 32 % WORD + h) % WORD
  }

  // Exclusive or, bit by bit from the low end.
  function Xor(x: nat, y: nat): nat
    decreases x + y
  {
    if x == 0 && y == 0 then 0 else (if x % 2 == y % 2 then 0 else 1) + 2 * Xor(x / 2, y / 2)
  }

  function Size(bits: nat): nat {
    if bits == 0 then 1 else 2 * Size(bits - 1)
  }

  lemma {:induction false} SizeAdds(a: nat, b: nat)
    ensures Size(a + b) == Size(a) * Size(b)
  {
    if a > 0 {
      SizeAdds(a - 1, b);
      Doubled(Size(a - 1), Size(b));
    }
  }

  lemma Doubled(x: int, y: int)
    ensures (2 * x) * y == 2 * (x * y)
  {
  }

  lemma WordSize()
    ensures Size(64) == WORD
  {
    assert Size(4) == 16;
    SizeAdds(4, 4);
    SizeAdds(8, 8);
    SizeAdds(16, 16);
    SizeAdds(32, 32);
  }

  lemma {:induction false} XorFits(x: nat, y: nat, bits: nat)
    requires x < Size(bits) && y < Size(bits)
    ensures Xor(x, y) < Size(bits)
    decreases bits
  {
    if bits > 0 {
      XorFits(x / 2, y / 2, bits - 1);
    }
  }

  function Mix(h: Word64, b: Byte): Word64 {
    WordSize();
    XorFits(Times33(h), b, 64);
    Xor(Times33(h), b)
  }

  function Hash(data: seq<Byte>, h: Word64): Word64
    decreases |data|
  {
    if data == [] then h else Hash(data[1..], Mix(h, data[0]))
  }

  function Concat(blocks: seq<seq<Byte>>): seq<Byte> {
    if blocks == [] then [] else blocks[0] + Concat(blocks[1..])
  }

  // file_fingerprint: `stat` is the size that stat reports, `readable` and
  // `failed` tell whether fopen and fread came off, and `blocks` is what the
  // reads returned.
  method FileFingerprint(stat: Option<nat>, readable: bool, blocks: seq<seq<Byte>>, failed: bool)
    returns (rc: int, hash: Word64, size: nat)
    ensures rc == 0 || rc == -1
    ensures rc == 0 <==> stat.Some? && readable && !failed
    ensures rc == 0 ==> hash == Hash(Concat(blocks), SEED) && size == stat.value
  {
    hide Mix;
    hash, size := 0, 0;
    if stat == None {
      return -1, hash, size;
    }
    if !readable {
      return -1, hash, size;
    }
    var h := SEED;
    var k := 0;
    while k < |blocks|
      invariant k <= |blocks|
      invariant Hash(Concat(blocks), SEED) == Hash(Concat(blocks[k..]), h)
    {
      var block := blocks[k];
      assert blocks[k..][1..] == blocks[k + 1..];
      ghost var rest := Concat(blocks[k + 1..]);
      for i := 0 to |block|
        invariant Hash(Concat(blocks), SEED) == Hash(block[i..] + rest, h)
      {
        assert (block[i..] + rest)[1..] == block[i + 1..] + rest;
        h := Mix(h, block[i]);
      }
      assert block[|block|..] + rest == rest;
      k := k + 1;
    }
    if failed {
      return -1, hash, size;
    }
    return 0, h, stat.value;
  }

  // ---- What it tells apart ---------------------------------------------------------

  // 33 has the inverse 0x0f83e0f83e0f83e1 modulo 2^64, so a multiple of 33 that 2^64
  // divides comes from a multiple of 2^64.
  lemma WordDivides(d: int, k: int)
    requires 33 * d == k * 0x1_0000_0000_0000_0000
    ensures d == 0x1_0000_0000_0000_0000
                 * (0x0f83e0f83e0f83e1 * k - (33 * 0x0f83e0f83e0f83e1 / 0x1_0000_0000_0000_0000) * d)
  {
  }

  lemma SmallMultiple(d: int, q: int)
    requires d == 0x1_0000_0000_0000_0000 * q
    requires -0x1_0000_0000_0000_0000 < d < 0x1_0000_0000_0000_0000
    ensures d == 0
  {
  }

  lemma Overflow(h: Word64) returns (q: int)
    ensures Times33(h) == 33 * h - q * 0x1_0000_0000_0000_0000
  {
    q := h * 32 / WORD + (h * 32 % WORD + h) / WORD;
  }

  lemma Times33Injective(g: Word64, h: Word64)
    requires Times33(g) == Times33(h)
    ensures g == h
  {
    var p := Overflow(g);
    var q := Overflow(h);
    hide Times33;
    WordDivides(g - h, p - q);
    SmallMultiple(g - h, 0x0f83e0f83e0f83e1 * (p - q)
                         - (33 * 0x0f83e0f83e0f83e1 / 0x1_0000_0000_0000_0000) * (g - h));
  }

  lemma {:induction false} XorInjective(x: nat, y: nat, a: nat, b: nat)
    requires Xor(x, a) == Xor(y, b)
    ensures x == y <==> a == b
    decreases x + y + a + b
  {
    if x + y + a + b > 0 {
      XorInjective(x / 2, y / 2, a / 2, b / 2);
    }
  }

  lemma MixInjective(g: Word64, h: Word64, a: Byte, b: Byte)
    requires Mix(g, a) == Mix(h, b)
    ensures g == h <==> a == b
  {
    hide Xor, Times33;
    XorInjective(Times33(g), Times33(h), a, b);
    if a == b {
      Times33Injective(g, h);
    }
  }

  lemma {:induction false} HashInjective(data: seq<Byte>, g: Word64, h: Word64)
    requires Hash(data, g) == Hash(data, h)
    ensures g == h
    decreases |data|
  {
    hide Mix;
    if data != [] {
      HashInjective(data[1..], Mix(g, data[0]), Mix(h, data[0]));
      MixInjective(g, h, data[0], data[0]);
    }
  }

  // Contents of equal length that differ in exactly one byte have different
  // fingerprints.
  lemma {:induction false} OneByteChanges(a: seq<Byte>, b: seq<Byte>, k: nat, h: Word64)
    requires |a| == |b| && k < |a| && a[k] != b[k]
    requires forall i :: 0 <= i < |a| && i != k ==> a[i] == b[i]
    ensures Hash(a, h) != Hash(b, h)
    decreases |a|
  {
    hide Mix;
    if k > 0 {
      OneByteChanges(a[1..], b[1..], k - 1, Mix(h, a[0]));
    } else {
      assert a[1..] == b[1..];
      if Hash(a, h) == Hash(b, h) {
        HashInjective(a[1..], Mix(h, a[0]), Mix(h, b[0]));
        MixInjective(h, h, a[0], b[0]);
      }
    }
  }

  // The editor's question whether the file changed: never no after an edit that
  // changed its length or a single byte.
  predicate LooksChanged(before: seq<Byte>, after: seq<Byte>) {
    Hash(before, SEED) != Hash(after, SEED) || |before| != |after|
  }

  lemma {:induction false} SmallEditIsSeen(before: seq<Byte>, after: seq<Byte>, k: nat)
    requires |before| == |after| ==>
               k < |before| && before[k] != after[k] && forall i :: 0 <= i < |before| && i != k ==> before[i] == after[i]
    ensures LooksChanged(before, after)
  {
    if |before| == |after| {
      OneByteChanges(before, after, k, SEED);
    }
  }

  // The blocks of a file are its content, however it is cut.
  lemma {:induction false} BlocksJoin(a: seq<Byte>, blocks: seq<seq<Byte>>, more: seq<seq<Byte>>)
    ensures Concat([a]) == a
    ensures Concat(blocks + more) == Concat(blocks) + Concat(more)
    decreases |blocks|
  {
    assert [a][1..] == [];
    if blocks == [] {
      assert blocks + more == more;
    } else {
      BlocksJoin(a, blocks[1..], more);
      assert (blocks + more)[1..] == blocks[1..] + more;
    }
  }

  lemma {:induction false} HashGoesOn(a: seq<Byte>, b: seq<Byte>, h: Word64)
    ensures Hash(a + b, h) == Hash(b, Hash(a, h))
    decreases |a|
  {
    hide Mix;
    if a == [] {
      assert a + b == b;
    } else {
      HashGoesOn(a[1..], b, Mix(h, a[0]));
      assert (a + b)[1..] == a[1..] + b;
    }
  }

  // And never yes without one.
  lemma NoEditLooksUnchanged(content: seq<Byte>)
    ensures !LooksChanged(content, content)
  {
  }

  // The hash starts from 5381: that of one byte is 33 * 5381 with the byte's bits
  // flipped in it.
  lemma {:induction false} HashOfOneByte(b: Byte)
    ensures Hash([b], SEED) == Xor(177573, b)
  {
    assert Times33(5381) == 177573;
    hide Xor;
  }
}
