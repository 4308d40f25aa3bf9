/** The packed entries of a file allocation table, on the table's bytes.

    A FAT12 entry is 12 bits wide, so two entries share their middle byte; a FAT16 entry is a
    little-endian 16-bit word; a FAT32 entry is a 32-bit word of which only the low 28 bits
    belong to the entry.  The shifts and masks of the C code are written as `/` and `%`. */
module FatEntry {
  import opened Words

  /** Sector size. */
  const SS: nat := 512

  datatype FatType = Fat12 | Fat16 | Fat32

  /** One more than the largest value an entry of this type can hold. */
  function EntryMod(t: FatType): (m: nat)
    ensures m > 1
  {
    match t
    case Fat12 => 0x1000
    case Fat16 => 0x10000
    case Fat32 => 0x1000_0000
  }

  /** A value cut to the width of an entry. */
  function Fit(t: FatType, v: nat): (r: nat)
    ensures r < EntryMod(t) && (v < EntryMod(t) ==> r == v)
  {
    match t
    case Fat12 => v % 0x1000
    case Fat16 => v % 0x10000
    case Fat32 => v % 0x1000_0000
  }

  predicate Pow2(x: nat) {
    x == 1 || (x > 1 && x % 2 == 0 && Pow2(x / 2))
  }

  /** For the sizes a cluster can have, masking with one less is the remainder. */
  lemma MaskIsRemainder(x: bv32)
    ensures x & 0 == x % 1 && x & 1 == x % 2 && x & 3 == x % 4 && x & 7 == x % 8
    ensures x & 15 == x % 16 && x & 31 == x % 32 && x & 63 == x % 64 && x & 127 == x % 128
  {
  }

  /** Largest number of clusters of this type (MAX_FAT12, MAX_FAT16, MAX_FAT32). */
  function MaxClusters(t: FatType): nat {
    match t
    case Fat12 => 0xFF5
    case Fat16 => 0xFFF5
    case Fat32 => 0x0FFF_FFF5
  }

  /** Offset of the first byte of entry `c`. */
  function EntryAt(t: FatType, c: nat): nat {
    match t
    case Fat12 => c + c / 2
    case Fat16 => 2 * c
    case Fat32 => 4 * c
  }

  /** Number of bytes entry `c` touches. */
  function EntryLen(t: FatType): nat {
    match t
    case Fat12 => 2
    case Fat16 => 2
    case Fat32 => 4
  }

  predicate HasEntry(b: seq<Byte>, t: FatType, c: nat) {
    EntryAt(t, c) + EntryLen(t) <= |b|
  }

  function GetEntry(b: seq<Byte>, t: FatType, c: nat): (v: nat)
    requires HasEntry(b, t, c)
    ensures v < EntryMod(t)
  {
    var i := EntryAt(t, c);
    match t
    case Fat12 =>
      var w := Word16(b[i], b[i + 1]);
      if c % 2 == 1 then w / 16 else w % 4096
    case Fat16 => Word16(b[i], b[i + 1])
    case Fat32 => Word32(b[i], b[i + 1], b[i + 2], b[i + 3]) % 0x1000_0000
  }

  /** First byte of a FAT12 entry after storing `v`: an odd entry keeps the low nibble. */
  function Fst12(was: Byte, c: nat, v: nat): Byte {
    if c % 2 == 1 then was % 16 + 16 * (v % 16) else v % 256
  }

  /** Second byte of a FAT12 entry after storing `v`: an even entry keeps the high nibble. */
  function Snd12(was: Byte, c: nat, v: nat): Byte {
    if c % 2 == 1 then v / 16 % 256 else was - was % 16 + v / 256 % 16
  }

  /** Most significant byte of a FAT32 entry after storing `v`: the top four bits stay. */
  function Top32(was: Byte, v: nat): Byte {
    was - was % 16 + v / 0x100_0000 % 16
  }

  function PutEntry(b: seq<Byte>, t: FatType, c: nat, v: nat): (r: seq<Byte>)
    requires HasEntry(b, t, c)
    ensures |r| == |b|
  {
    var i := EntryAt(t, c);
    match t
    case Fat12 => b[i := Fst12(b[i], c, v)][i + 1 := Snd12(b[i + 1], c, v)]
    case Fat16 => b[i := v % 256][i + 1 := v / 256 % 256]
    case Fat32 => b[i := v % 256][i + 1 := v / 256 % 256][i + 2 := v / 0x10000 % 256]
                  [i + 3 := Top32(b[i + 3], v)]
  }

  lemma OddPack12(f: Byte, s: Byte, c: nat, v: nat)
    requires c % 2 == 1
    ensures Word16(Fst12(f, c, v), Snd12(s, c, v)) / 16 == v % 4096
  {
    var lo, rest := v % 16, v / 16;
    var mid, k := rest % 256, rest / 256;
    DivModUnique(v, 4096, k, lo + 16 * mid);
    DivModUnique(f % 16 + 16 * lo + 256 * mid, 16, lo + 16 * mid, f % 16);
  }

  lemma EvenPack12(f: Byte, s: Byte, c: nat, v: nat)
    requires c % 2 == 0
    ensures Word16(Fst12(f, c, v), Snd12(s, c, v)) % 4096 == v % 4096
  {
    var lo, rest := v % 256, v / 256;
    var hi, k := rest % 16, rest / 16;
    DivModUnique(v, 4096, k, lo + 256 * hi);
    DivModUnique(lo + 256 * (s - s % 16 + hi), 4096, s / 16, lo + 256 * hi);
  }

  lemma Pack32(b3: Byte, v: nat)
    ensures Word32(v % 256, v / 256 % 256, v / 0x10000 % 256, Top32(b3, v)) % 0x1000_0000 == v % 0x1000_0000
  {
    var q1, q2, q3 := v / 256, v / 0x10000, v / 0x100_0000;
    assert q2 == q1 / 256 && q3 == q2 / 256;
    var n := v % 256 + 256 * (q1 % 256) + 0x10000 * (q2 % 256) + 0x100_0000 * (q3 % 16);
    DivModUnique(v, 0x1000_0000, q3 / 16, n);
    DivModUnique(n + 0x100_0000 * (b3 - b3 % 16), 0x1000_0000, b3 / 16, n);
  }

  /** Reading back what was stored yields the value cut to the entry's width. */
  lemma GetAfterPut(b: seq<Byte>, t: FatType, c: nat, v: nat)
    requires HasEntry(b, t, c)
    ensures GetEntry(PutEntry(b, t, c, v), t, c) == Fit(t, v)
  {
    var i := EntryAt(t, c);
    match t
    case Fat12 =>
      if c % 2 == 1 { OddPack12(b[i], b[i + 1], c, v); } else { EvenPack12(b[i], b[i + 1], c, v); }
    case Fat16 =>
      var rest := v / 256;
      DivModUnique(v, 0x10000, rest / 256, v % 256 + 256 * (rest % 256));
    case Fat32 => Pack32(b[i + 3], v);
  }

  lemma LowNibbleKept(x: Byte, c: nat, v: nat)
    requires c % 2 == 1
    ensures Fst12(x, c, v) % 16 == x % 16
  {
  }

  lemma HighNibbleKept(x: Byte, c: nat, v: nat)
    requires c % 2 == 0
    ensures Snd12(x, c, v) / 16 == x / 16
  {
  }

  /** A FAT12 entry depends on one byte and on one nibble of the byte it shares. */
  lemma EvenEntry12(b: seq<Byte>, a: seq<Byte>, d: nat)
    requires d % 2 == 0 && HasEntry(b, Fat12, d) && |a| == |b|
    requires a[d + d / 2] == b[d + d / 2] && a[d + d / 2 + 1] % 16 == b[d + d / 2 + 1] % 16
    ensures GetEntry(a, Fat12, d) == GetEntry(b, Fat12, d)
  {
    var i := d + d / 2;
    LowWord(b[i], b[i + 1]);
    LowWord(a[i], a[i + 1]);
  }

  lemma LowWord(lo: Byte, hi: Byte)
    ensures Word16(lo, hi) % 4096 == lo + 256 * (hi % 16)
  {
    DivModUnique(lo + 256 * hi, 4096, hi / 16, lo + 256 * (hi % 16));
  }

  lemma OddEntry12(b: seq<Byte>, a: seq<Byte>, d: nat)
    requires d % 2 == 1 && HasEntry(b, Fat12, d) && |a| == |b|
    requires a[d + d / 2 + 1] == b[d + d / 2 + 1] && a[d + d / 2] / 16 == b[d + d / 2] / 16
    ensures GetEntry(a, Fat12, d) == GetEntry(b, Fat12, d)
  {
  }

  lemma PutKeepsNeighbour12(b: seq<Byte>, c: nat, v: nat, d: nat)
    requires HasEntry(b, Fat12, c) && HasEntry(b, Fat12, d) && c != d
    ensures GetEntry(PutEntry(b, Fat12, c, v), Fat12, d) == GetEntry(b, Fat12, d)
  {
    var i, j := c + c / 2, d + d / 2;
    var f, s := Fst12(b[i], c, v), Snd12(b[i + 1], c, v);
    var a := PutEntry(b, Fat12, c, v);
    assert a == b[i := f][i + 1 := s];
    if j + 1 == i {
      assert c % 2 == 1 && d % 2 == 0;
      LowNibbleKept(b[i], c, v);
      EvenEntry12(b, a, d);
    } else if i + 1 == j {
      assert c % 2 == 0 && d % 2 == 1;
      HighNibbleKept(b[j], c, v);
      OddEntry12(b, a, d);
    } else {
      assert j + 1 < i || i + 1 < j;
      assert a[j] == b[j] && a[j + 1] == b[j + 1];
    }
  }

  /** Storing one entry leaves every other entry alone, also a FAT12 neighbour in the same byte. */
  lemma GetAfterPutOther(b: seq<Byte>, t: FatType, c: nat, v: nat, d: nat)
    requires HasEntry(b, t, c) && HasEntry(b, t, d) && c != d
    ensures GetEntry(PutEntry(b, t, c, v), t, d) == GetEntry(b, t, d)
  {
    if t == Fat12 {
      PutKeepsNeighbour12(b, c, v, d);
    }
  }

  /** The four reserved bits above a FAT32 entry survive every store. */
  lemma ReservedBitsSurvive(b: seq<Byte>, c: nat, v: nat)
    requires HasEntry(b, Fat32, c)
    ensures PutEntry(b, Fat32, c, v)[4 * c + 3] / 16 == b[4 * c + 3] / 16
  {
  }

  // ---------- the table as one long number ----------

  /** The number whose little-endian bytes these are. */
  function Little(b: seq<Byte>): nat {
    if b == [] then 0 else b[0] + 256 * Little(b[1..])
  }

  /** What is left of a number without its lowest 12, 16 or 32 bits. */
  function Shifted(n: nat, t: FatType): nat {
    match t
    case Fat12 => n / 0x1000
    case Fat16 => n / 0x10000
    case Fat32 => n / 0x1_0000_0000
  }

  /** The `c`-th piece of a number, lowest first, of 12 or 16 bits, or the lower 28 of 32 bits. */
  function Piece(n: nat, t: FatType, c: nat): nat {
    if c == 0 then n % EntryMod(t) else Piece(Shifted(n, t), t, c - 1)
  }

  lemma Little2(b: seq<Byte>)
    requires |b| >= 2
    ensures Little(b) == Word16(b[0], b[1]) + 0x10000 * Little(b[2..])
  {
    assert b[1..][1..] == b[2..];
  }

  lemma Little4(b: seq<Byte>)
    requires |b| >= 4
    ensures Little(b) == Word32(b[0], b[1], b[2], b[3]) + 0x1_0000_0000 * Little(b[4..])
  {
    Little2(b);
    Little2(b[2..]);
    assert b[2..][2..] == b[4..];
  }

  lemma Piece32(w: nat, rest: nat)
    requires w < 0x1_0000_0000
    ensures (w + 0x1_0000_0000 * rest) / 0x1_0000_0000 == rest && (w + 0x1_0000_0000 * rest) % 0x1000_0000 == w % 0x1000_0000
  {
    DivModUnique(w + 0x1_0000_0000 * rest, 0x1_0000_0000, rest, w);
    DivModUnique(w + 0x1_0000_0000 * rest, 0x1000_0000, w / 0x1000_0000 + 16 * rest, w % 0x1000_0000);
  }

  /** Three bytes hold two entries of 12 bits. */
  lemma Pieces12(b0: Byte, b1: Byte, b2: Byte, rest: nat)
    ensures (Word16(b0, b1) + 0x10000 * rest) % 0x1000 == Word16(b0, b1) % 4096
    ensures var n := (Word16(b0, b1) + 0x10000 * (b2 + 256 * rest)) / 0x1000;
            n % 0x1000 == Word16(b1, b2) / 16 && n / 0x1000 == rest
  {
    var h, l := b1 / 16, b1 % 16;
    var x, y := b0 + 256 * l as int, h + 16 * b2 as int;
    DivModUnique(Word16(b0, b1), 4096, h, x);
    DivModUnique(Word16(b0, b1) + 0x10000 * rest, 0x1000, h + 16 * rest, x);
    DivModUnique(Word16(b0, b1) + 0x10000 * (b2 + 256 * rest), 0x1000, y + 0x1000 * rest, x);
    DivModUnique(y + 0x1000 * rest, 0x1000, rest, y);
    DivModUnique(Word16(b1, b2), 16, y, l);
  }

  /** An entry is the piece with its number of the table as one number. */
  lemma {:induction false} EntryIsPiece(b: seq<Byte>, t: FatType, c: nat)
    requires HasEntry(b, t, c)
    ensures GetEntry(b, t, c) == Piece(Little(b), t, c)
    decreases c
  {
    hide Little, Word16, Word32;
    match t
    case Fat12 => Piece12(b, c);
    case Fat16 =>
      Little2(b);
      DivModUnique(Little(b), 0x10000, Little(b[2..]), Word16(b[0], b[1]));
      if c > 0 {
        EntryIsPiece(b[2..], t, c - 1);
      }
    case Fat32 =>
      Little4(b);
      Piece32(Word32(b[0], b[1], b[2], b[3]), Little(b[4..]));
      if c > 0 {
        EntryIsPiece(b[4..], t, c - 1);
      }
  }

  lemma LittleOne(b: seq<Byte>)
    requires b != []
    ensures Little(b) == b[0] + 256 * Little(b[1..])
  {
  }

  lemma {:induction false} Piece12(b: seq<Byte>, c: nat)
    requires HasEntry(b, Fat12, c)
    ensures GetEntry(b, Fat12, c) == Piece(Little(b), Fat12, c)
    decreases c
  {
    hide Little, Word16;
    Little2(b);
    if c == 0 {
      Pieces12(b[0], b[1], 0, Little(b[2..]));
    } else {
      LittleOne(b[2..]);
      assert b[2..][1..] == b[3..];
      Pieces12(b[0], b[1], b[2], Little(b[3..]));
      var n := Little(b);
      assert Piece(n, Fat12, c) == Piece(n / 0x1000, Fat12, c - 1);
      if c > 1 {
        Piece12(b[3..], c - 2);
        assert Piece(n / 0x1000, Fat12, c - 1) == Piece(Little(b[3..]), Fat12, c - 2);
        Entry12Behind(b, c);
      }
    }
  }

  lemma Entry12Behind(b: seq<Byte>, c: nat)
    requires HasEntry(b, Fat12, c) && c > 1
    ensures HasEntry(b[3..], Fat12, c - 2) && GetEntry(b, Fat12, c) == GetEntry(b[3..], Fat12, c - 2)
  {
    var i := EntryAt(Fat12, c);
    assert EntryAt(Fat12, c - 2) == i - 3 && b[3..][i - 3] == b[i] && b[3..][i - 2] == b[i + 1];
  }
}
