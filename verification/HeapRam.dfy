/** The bytes of an address space, with the little-endian words and the block moves the allocator
    performs on them. */
module HeapRam {
  import opened Words

  type Ram = seq<Byte>

  const WORD_LIMIT: nat := 0x1_0000_0000

  function Load32(m: Ram, a: nat): (v: nat)
    requires a + 4 <= |m|
    ensures v < WORD_LIMIT
  {
    Word32(m[a], m[a + 1], m[a + 2], m[a + 3])
  }

  function Bytes32(v: nat): (b: seq<Byte>)
    ensures |b| == 4
  {
    [v % 256, v / 256 % 256, v / 0x10000 % 256, v / 0x100_0000 % 256]
  }

  /** `m` with the bytes from `a` on replaced by `w`. */
  function Put(m: Ram, a: nat, w: seq<Byte>): (r: Ram)
    requires a + |w| <= |m|
    ensures |r| == |m|
  {
    m[..a] + w + m[a + |w|..]
  }

  function Store32(m: Ram, a: nat, v: nat): (r: Ram)
    requires a + 4 <= |m|
    ensures |r| == |m|
  {
    Put(m, a, Bytes32(v))
  }

  lemma PutAt(m: Ram, a: nat, w: seq<Byte>, k: nat)
    requires a + |w| <= |m| && k < |m|
    ensures Put(m, a, w)[k] == if a <= k < a + |w| then w[k - a] else m[k]
  {
  }

  /** Two address ranges without a common byte. */
  predicate Apart(a: nat, n: nat, b: nat, k: nat) {
    a + n <= b || b + k <= a
  }

  lemma PutElsewhere(m: Ram, a: nat, w: seq<Byte>, b: nat, k: nat)
    requires a + |w| <= |m| && b + k <= |m| && Apart(a, |w|, b, k)
    ensures Put(m, a, w)[b..b + k] == m[b..b + k]
  {
    var x, z := Put(m, a, w)[b..b + k], m[b..b + k];
    forall i | 0 <= i < k
      ensures x[i] == z[i]
    {
      PutAt(m, a, w, b + i);
    }
  }

  lemma LoadSlice(m: Ram, r: Ram, a: nat)
    requires a + 4 <= |m| == |r| && m[a..a + 4] == r[a..a + 4]
    ensures Load32(m, a) == Load32(r, a)
  {
    assert m[a..a + 4][0] == r[a..a + 4][0] && m[a..a + 4][1] == r[a..a + 4][1];
    assert m[a..a + 4][2] == r[a..a + 4][2] && m[a..a + 4][3] == r[a..a + 4][3];
  }

  lemma LoadElsewhere(m: Ram, a: nat, w: seq<Byte>, b: nat)
    requires a + |w| <= |m| && b + 4 <= |m| && Apart(a, |w|, b, 4)
    ensures Load32(Put(m, a, w), b) == Load32(m, b)
  {
    PutElsewhere(m, a, w, b, 4);
    LoadSlice(Put(m, a, w), m, b);
  }

  lemma Unpack(v: nat)
    requires v < WORD_LIMIT
    ensures Word32(v % 256, v / 256 % 256, v / 0x10000 % 256, v / 0x100_0000 % 256) == v
  {
    var q1, q2, q3 := v / 256, v / 0x10000, v / 0x100_0000;
    assert q2 == q1 / 256 && q3 == q2 / 256;
  }

  /** What was stored is read back. */
  lemma LoadStored(m: Ram, a: nat, v: nat)
    requires a + 4 <= |m| && v < WORD_LIMIT
    ensures Load32(Store32(m, a, v), a) == v
  {
    Unpack(v);
    var r := Store32(m, a, v);
    PutAt(m, a, Bytes32(v), a);
    PutAt(m, a, Bytes32(v), a + 1);
    PutAt(m, a, Bytes32(v), a + 2);
    PutAt(m, a, Bytes32(v), a + 3);
  }

  // ---------- node headers ----------

  const GUARD: nat := 4
  const GUARD_VALUE: nat := 0xFDFD_FDFD

  /** Size of a node header: previous node, next node, used size, guard. */
  const NS: nat := 16

  datatype Node = Node(prev: nat, next: nat, size: nat, guard: nat)

  function NodeAt(m: Ram, a: nat): Node
    requires a + NS <= |m|
  {
    Node(Load32(m, a), Load32(m, a + 4), Load32(m, a + 8), Load32(m, a + 12))
  }

  function SetPrev(m: Ram, a: nat, v: nat): (r: Ram)
    requires a + NS <= |m|
    ensures |r| == |m|
  {
    Store32(m, a, v)
  }

  function SetNext(m: Ram, a: nat, v: nat): (r: Ram)
    requires a + NS <= |m|
    ensures |r| == |m|
  {
    Store32(m, a + 4, v)
  }

  function SetSize(m: Ram, a: nat, v: nat): (r: Ram)
    requires a + NS <= |m|
    ensures |r| == |m|
  {
    Store32(m, a + 8, v)
  }

  function SetFirstGuard(m: Ram, a: nat): (r: Ram)
    requires a + NS <= |m|
    ensures |r| == |m|
  {
    Store32(m, a + 12, GUARD_VALUE)
  }

  lemma StorePlace(m: Ram, a: nat, o: nat, v: nat)
    requires a + NS <= |m| && v < WORD_LIMIT && (o == 0 || o == 4 || o == 8 || o == 12)
    ensures var n, x := NodeAt(m, a), NodeAt(Store32(m, a + o, v), a);
            x == if o == 0 then n.(prev := v) else if o == 4 then n.(next := v)
                 else if o == 8 then n.(size := v) else n.(guard := v)
  {
    LoadStored(m, a + o, v);
    if o != 0 { LoadElsewhere(m, a + o, Bytes32(v), a); }
    if o != 4 { LoadElsewhere(m, a + o, Bytes32(v), a + 4); }
    if o != 8 { LoadElsewhere(m, a + o, Bytes32(v), a + 8); }
    if o != 12 { LoadElsewhere(m, a + o, Bytes32(v), a + 12); }
  }

  /** Writing outside a header leaves it alone. */
  lemma HeaderElsewhere(m: Ram, a: nat, w: seq<Byte>, b: nat)
    requires a + |w| <= |m| && b + NS <= |m| && Apart(a, |w|, b, NS)
    ensures NodeAt(Put(m, a, w), b) == NodeAt(m, b)
  {
    LoadElsewhere(m, a, w, b);
    LoadElsewhere(m, a, w, b + 4);
    LoadElsewhere(m, a, w, b + 8);
    LoadElsewhere(m, a, w, b + 12);
  }
}
