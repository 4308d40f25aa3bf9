/** Printing and parsing integers: `itoa`, `strtol` and `strtoul` on NUL-terminated text, with 32-bit
    arithmetic. */
module Numbers {
  import opened Words

  const LONG_MAX: nat := 0x7FFF_FFFF
  const ULONG_MAX: nat := 0xFFFF_FFFF

  // ---------- characters ----------

  predicate IsUpper(c: char) {
    'A' <= c <= 'Z'
  }

  predicate IsAlpha(c: char) {
    'A' <= c <= 'Z' || 'a' <= c <= 'z'
  }

  predicate IsSpace(c: char) {
    c == ' ' || 9 as char <= c <= 13 as char
  }

  predicate IsDigit(c: char) {
    '0' <= c <= '9'
  }

  /** The value of a character as a digit; 99 for one that is none in any base. */
  function DigitValue(c: char): (v: nat)
    ensures v < 36 || v == 99
  {
    if IsDigit(c) then c as int - '0' as int
    else if IsUpper(c) then c as int - 'A' as int + 10
    else if IsAlpha(c) then c as int - 'a' as int + 10
    else 99
  }

  function DigitChar(v: nat): (c: char)
    requires v < 36
    ensures DigitValue(c) == v && !IsSpace(c) && c != '-' && c != '+' && c != '\0'
  {
    if v < 10 then ('0' as int + v) as char else ('a' as int + v - 10) as char
  }

  /** The classes of characters, one by one: white space, and letters as digits in both cases. */
  lemma Characters(c: char)
    ensures IsSpace(c) <==> c == ' ' || c == '\t' || c == '\n' || c == '\r' || c as int == 11 || c as int == 12
    ensures 'A' <= c <= 'Z' ==> DigitValue(c) == DigitValue((c as int + 32) as char) == c as int - 55
    ensures '0' <= c <= '9' ==> DigitValue(c) == c as int - 48
    ensures !('0' <= c <= '9' || 'A' <= c <= 'Z' || 'a' <= c <= 'z') ==> DigitValue(c) > 36
  {
  }

  predicate ValidBase(base: nat) {
    2 <= base <= 36
  }

  predicate DigitIn(c: char, base: nat) {
    DigitValue(c) < base
  }

  // ---------- digits ----------

  /** The digits of a number, most significant first. */
  function Digits(v: nat, base: nat): (s: string)
    requires ValidBase(base)
    ensures |s| > 0
    decreases v
  {
    if v < base then [DigitChar(v)]
    else
      Smaller(v, base);
      Digits(v / base, base) + [DigitChar(v % base)]
  }

  /** The number digits stand for. */
  function Value(s: string, base: nat): nat {
    if s == [] then 0 else Value(s[..|s| - 1], base) * base + DigitValue(s[|s| - 1])
  }

  lemma {:induction false} DigitsValue(v: nat, base: nat)
    requires ValidBase(base)
    ensures Value(Digits(v, base), base) == v
    decreases v
  {
    var s := Digits(v, base);
    if v < base {
      assert s[..0] == [];
    } else {
      Smaller(v, base);
      DigitsValue(v / base, base);
      assert s[..|s| - 1] == Digits(v / base, base);
      Parts(v, base);
    }
  }

  lemma Parts(v: nat, base: nat)
    requires base > 0
    ensures v / base * base + v % base == v
  {
  }

  lemma {:induction false} DigitsAre(v: nat, base: nat)
    requires ValidBase(base)
    ensures forall i :: 0 <= i < |Digits(v, base)| ==> DigitIn(Digits(v, base)[i], base) && Plain(Digits(v, base)[i])
    decreases v
  {
    if v >= base {
      Smaller(v, base);
      DigitsAre(v / base, base);
    }
  }

  /** Digits above nine are lower-case letters. */
  predicate Printed(c: char) {
    '0' <= c <= '9' || 'a' <= c <= 'z'
  }

  lemma {:induction false} DigitsLower(v: nat, base: nat)
    requires ValidBase(base)
    ensures forall i :: 0 <= i < |Digits(v, base)| ==> Printed(Digits(v, base)[i])
    decreases v
  {
    if v >= base {
      Smaller(v, base);
      DigitsLower(v / base, base);
    }
  }

  /** No zero stands in front. */
  lemma {:induction false} DigitsHead(v: nat, base: nat)
    requires ValidBase(base) && v > 0
    ensures Digits(v, base)[0] != '0'
    decreases v
  {
    if v >= base {
      Smaller(v, base);
      DigitsHead(v / base, base);
    }
  }

  /** Neither white space nor sign nor terminator. */
  predicate Plain(c: char) {
    !IsSpace(c) && c != '-' && c != '+' && c != '\0'
  }

  lemma Smaller(v: nat, base: nat)
    requires base >= 2 && v >= base
    ensures 0 < v / base < v
  {
    Halved(v, base);
    DivModUnique(v, base, v / base, v % base);
    assert v == v / base * base + v % base;
  }

  /** A number below `2^n` has at most `n` digits in any base. */
  lemma {:induction false} FewDigits(v: nat, base: nat, n: nat)
    requires ValidBase(base) && n > 0 && v < Power2(n)
    ensures |Digits(v, base)| <= n
    decreases n
  {
    assert n == 1 ==> Power2(n) == 2 * Power2(0);
    if v >= base && n > 1 {
      Smaller(v, base);
      Halved(v, base);
      FewDigits(v / base, base, n - 1);
    }
  }

  function Power2(n: nat): nat {
    if n == 0 then 1 else 2 * Power2(n - 1)
  }

  lemma Halved(v: nat, base: nat)
    requires base >= 2
    ensures 2 * (v / base) <= v
  {
    assert v == base * (v / base) + v % base;
    assert base * (v / base) >= 2 * (v / base);
  }

  lemma Power32()
    ensures Power2(32) == U32
  {
    assert Power2(8) == 256;
    assert Power2(16) == 0x10000 by {
      assert Power2(12) == 4096;
    }
    assert Power2(24) == 0x100_0000 by {
      assert Power2(20) == 0x10_0000;
    }
    assert Power2(28) == 0x1000_0000;
  }

  // ---------- itoa ----------

  /** What is printed: the magnitude with a sign in base 10, the value modulo `2^32` in others. */
  function Unsigned(value: int): (v: nat)
    requires -0x8000_0000 <= value < 0x8000_0000
    ensures v < U32 && v == if value < 0 then value + U32 else value
  {
    if value < 0 then value + U32 else value
  }

  function Text(value: int, base: nat): string
    requires ValidBase(base) && -0x8000_0000 <= value < 0x8000_0000
  {
    if base == 10 && value < 0 then "-" + Digits(-value, base) else Digits(Unsigned(value), base)
  }

  function Reverse(s: string): string {
    if s == [] then [] else Reverse(s[1..]) + [s[0]]
  }

  lemma {:induction false} ReverseAppend(s: string, c: char)
    ensures Reverse(s + [c]) == [c] + Reverse(s)
  {
    if s != [] {
      assert (s + [c])[1..] == s[1..] + [c];
      ReverseAppend(s[1..], c);
    }
  }

  lemma {:induction false} ReverseAt(s: string, k: nat)
    requires k < |s|
    ensures |Reverse(s)| == |s| && Reverse(s)[k] == s[|s| - 1 - k]
  {
    if |s| > 1 {
      ReverseAt(s[1..], if k < |s| - 1 then k else 0);
    }
  }

  lemma {:induction false} ReverseLen(s: string)
    ensures |Reverse(s)| == |s|
  {
    if s != [] {
      ReverseLen(s[1..]);
    }
  }

  /** `d` holds the last digits of `v0`, last first, and `v` is what is left of it. */
  ghost predicate Collecting(v0: nat, base: nat, v: nat, d: string)
    requires ValidBase(base)
  {
    && (v > 0 || d == [] ==> Digits(v0, base) == Digits(v, base) + Reverse(d))
    && (v == 0 && d != [] ==> Digits(v0, base) == Reverse(d))
  }

  function Quot(v: nat, base: nat): nat
    requires base > 0
  {
    QuotNat(v, base);
    v / base
  }

  function Rem(v: nat, base: nat): (r: nat)
    requires base > 0
    ensures r < base
  {
    v % base
  }

  lemma QuotNat(v: nat, base: nat)
    requires base > 0
    ensures v / base >= 0
  {
    var q: int, r: int, b: int := v / base, v % base, base;
    assert v == b * q + r && r < b;
    assert q < 0 ==> b * q <= 0 - b;
  }

  lemma CollectStep(v0: nat, base: nat, v: nat, d: string, q: nat, r: nat)
    requires ValidBase(base) && Collecting(v0, base, v, d) && (v > 0 || d == [])
    requires q == Quot(v, base) && r == Rem(v, base)
    ensures Collecting(v0, base, q, d + [DigitChar(r)]) && |d| < |Digits(v0, base)|
    ensures v > 0 ==> q < v
    ensures v == 0 ==> q == 0
  {
    ReverseAppend(d, DigitChar(r));
    ReverseLen(d);
    if v >= base {
      Smaller(v, base);
    } else {
      DivModUnique(v, base, 0, v);
    }
  }

  lemma CollectEnd(v0: nat, base: nat, v: nat, d: string)
    requires ValidBase(base) && Collecting(v0, base, v, d) && v == 0 && d != []
    ensures Digits(v0, base) == Reverse(d) && |Digits(v0, base)| == |d|
  {
    ReverseLen(d);
  }

  lemma CollectStart(v0: nat, base: nat)
    requires ValidBase(base)
    ensures Collecting(v0, base, v0, [])
  {
    assert Digits(v0, base) == Digits(v0, base) + Reverse([]);
  }

  /** Collect the digits of `v`, least significant first, in a buffer of 32, which is always enough. */
  method DigitsBackwards(v0: nat, base: nat, tmp: array<char>) returns (n: nat)
    requires ValidBase(base) && v0 < U32 && tmp.Length == 32
    modifies tmp
    ensures 0 < n <= 32 && Reverse(tmp[..n]) == Digits(v0, base)
  {
    hide Collecting, Digits, DigitChar, Reverse, Quot, Rem;
    Power32();
    FewDigits(v0, base, 32);
    CollectStart(v0, base);
    var v: nat := v0;
    n := 0;
    assert tmp[..0] == [];
    while v > 0 || n == 0
      invariant n <= 32 && Collecting(v0, base, v, tmp[..n])
      decreases v, n == 0
    {
      ghost var d := tmp[..n];
      var i := Rem(v, base);
      CollectStep(v0, base, v, d, Quot(v, base), i);
      v := Quot(v, base);
      tmp[n] := DigitChar(i);
      assert tmp[..n + 1] == d + [DigitChar(i)];
      n := n + 1;
    }
    CollectEnd(v0, base, v, tmp[..n]);
  }

  /** Copy the first `n` characters of `tmp`, last first, to `str` from `at` on. */
  method CopyReversed(tmp: array<char>, n: nat, str: array<char>, at: nat)
    requires n <= tmp.Length && at + n <= str.Length && tmp != str
    modifies str
    ensures str[at..at + n] == Reverse(tmp[..n]) && str[..at] == old(str[..at]) && str[at + n..] == old(str[at + n..])
  {
    hide Reverse;
    var tp: nat, s: nat := n, at;
    ghost var ds := tmp[..n];
    ReverseLen(ds);
    while tp > 0
      invariant tp <= n && s == at + (n - tp) && tmp[..n] == ds && str[..at] == old(str[..at]) && str[s..] == old(str[s..])
      invariant str[at..s] == Reverse(ds)[..n - tp]
    {
      tp := tp - 1;
      ReverseAt(ds, n - 1 - tp);
      ghost var before := str[at..s];
      str[s] := tmp[tp];
      assert tmp[tp] == ds[tp];
      assert str[at..s + 1] == before + [tmp[tp]];
      assert str[s + 1..] == old(str[s..])[1..];
      s := s + 1;
    }
  }

  /** Print `value` in the given base, with a terminator. */
  method Itoa(value: int, str: array<char>, base: nat)
    requires ValidBase(base) && -0x8000_0000 <= value < 0x8000_0000 && |Text(value, base)| < str.Length
    modifies str
    ensures str[..|Text(value, base)| + 1] == Text(value, base) + ['\0']
    ensures str[|Text(value, base)| + 1..] == old(str[|Text(value, base)| + 1..])
    ensures forall i :: 0 <= i < |Text(value, base)| ==> Printed(str[i]) || (i == 0 && base == 10 && value < 0 && str[i] == '-')
    ensures value == 0 || str[0] != '0'
  {
    hide Reverse, Digits, Text, Printed;
    TextPrinted(value, base);
    var tmp := new char[32];
    var sign := base == 10 && value < 0;
    var v: nat := if sign then 0 - value else Unsigned(value);
    var tp := DigitsBackwards(v, base, tmp);
    ReverseLen(tmp[..tp]);
    TextParts(value, base, v);
    var s := 0;
    if sign {
      str[0] := '-';
      s := 1;
    }
    ghost var front := str[..s];
    CopyReversed(tmp, tp, str, s);
    Finish(str, s, tp, front, Digits(v, base));
    s := s + tp;
    ghost var back := str[s..];
    str[s] := '\0';
    assert str[..s] == Text(value, base) && str[s + 1..] == back[1..];
    WithEnd(str[..], Text(value, base));
  }

  lemma WithEnd(q: string, t: string)
    requires |t| < |q| && q[..|t|] == t && q[|t|] == '\0'
    ensures q[..|t| + 1] == t + ['\0'] && forall i :: 0 <= i < |t| ==> q[i] == t[i]
  {
    forall i | 0 <= i < |t|
      ensures q[i] == t[i]
    {
      assert q[i] == q[..|t|][i];
    }
  }

  lemma TextPrinted(value: int, base: nat)
    requires ValidBase(base) && -0x8000_0000 <= value < 0x8000_0000
    ensures forall i :: 0 <= i < |Text(value, base)| ==>
              Printed(Text(value, base)[i]) || (i == 0 && base == 10 && value < 0 && Text(value, base)[i] == '-')
    ensures |Text(value, base)| > 0 && (value == 0 || Text(value, base)[0] != '0')
  {
    if value != 0 {
      DigitsHead(if base == 10 && value < 0 then 0 - value else Unsigned(value), base);
    }
    DigitsLower(if base == 10 && value < 0 then 0 - value else Unsigned(value), base);
  }

  lemma TextParts(value: int, base: nat, v: nat)
    requires ValidBase(base) && -0x8000_0000 <= value < 0x8000_0000
    requires v == if base == 10 && value < 0 then 0 - value else Unsigned(value)
    ensures Text(value, base) == (if base == 10 && value < 0 then ['-'] else []) + Digits(v, base)
  {
  }

  lemma Finish(str: array<char>, s: nat, tp: nat, front: string, ds: string)
    requires s + tp <= str.Length && str[..s] == front && str[s..s + tp] == ds
    ensures str[..s + tp] == front + ds
  {
  }

  // ---------- parsing ----------

  /** Where white space ends. */
  function SkipSpace(m: string, i: nat): (j: nat)
    requires i <= |m|
    ensures i <= j <= |m|
    decreases |m| - i
  {
    if i < |m| && IsSpace(m[i]) then SkipSpace(m, i + 1) else i
  }

  /** Where the digits that start at `i` end. */
  function RunEnd(m: string, i: nat, base: nat): (j: nat)
    requires i <= |m|
    ensures i <= j <= |m|
    decreases |m| - i
  {
    if i < |m| && DigitIn(m[i], base) then RunEnd(m, i + 1, base) else i
  }

  /** A number as it stands in text: its sign, its base, and where its digits are. */
  datatype Parsed = Parsed(neg: bool, base: nat, lo: nat, hi: nat)

  predicate Prefixed(m: string, i: nat, lower: char, upper: char) {
    i + 1 < |m| && m[i] == '0' && (m[i + 1] == lower || m[i + 1] == upper)
  }

  /** White space, a sign, a prefix the base allows, and the longest run of digits of that base. */
  function Parse(m: string, start: nat, base: nat): (p: Parsed)
    requires start <= |m|
    ensures start <= p.lo <= p.hi <= |m|
  {
    var i := SkipSpace(m, start);
    var neg := i < |m| && m[i] == '-';
    var j := if i < |m| && (m[i] == '-' || m[i] == '+') then i + 1 else i;
    var hex := (base == 0 || base == 16) && Prefixed(m, j, 'x', 'X');
    var bin := !hex && (base == 0 || base == 2) && Prefixed(m, j, 'b', 'B');
    var lo := if hex || bin then j + 2 else j;
    var b := if hex then 16 else if bin then 2
             else if base != 0 then base else if lo < |m| && m[lo] == '0' then 8 else 10;
    Parsed(neg, b, lo, RunEnd(m, lo, b))
  }

  /** The digits that were found. */
  function Found(m: string, p: Parsed): string
    requires p.lo <= p.hi <= |m|
  {
    m[p.lo..p.hi]
  }

  /** Where parsing stopped: at the start when there were no digits. */
  function Stop(p: Parsed, start: nat): nat {
    if p.hi > p.lo then p.hi else start
  }

  /** A magnitude with its sign, clamped to what a long can hold. */
  function Clamped(neg: bool, v: nat): int {
    if neg then (if v > LONG_MAX + 1 then 0 - (LONG_MAX as int + 1) else 0 - (v as int))
    else if v > LONG_MAX then LONG_MAX else v
  }

  /** What `strtoul` makes of a magnitude: the largest value when it does not fit, else the value or
      its negation modulo `2^32`. */
  function Wrapped(neg: bool, v: nat): nat {
    if v > ULONG_MAX then ULONG_MAX else if neg && v > 0 then U32 - v else v
  }

  lemma {:induction false} RunEndStep(m: string, i: nat, k: nat, base: nat)
    requires i <= |m| && i <= k <= RunEnd(m, i, base)
    ensures RunEnd(m, k, base) == RunEnd(m, i, base)
    ensures k < RunEnd(m, i, base) <==> k < |m| && DigitIn(m[k], base)
    decreases k - i
  {
    if i < k {
      RunEndStep(m, i + 1, k, base);
    }
  }

  lemma ValueNext(m: string, lo: nat, k: nat, base: nat)
    requires lo <= k < |m|
    ensures Value(m[lo..k + 1], base) == Value(m[lo..k], base) * base + DigitValue(m[k])
  {
    assert m[lo..k + 1][..k - lo] == m[lo..k];
  }

  /** The test against the cut-off finds out whether one more digit still fits. */
  lemma CutOff(acc: nat, c: nat, base: nat, limit: nat)
    requires base > 0 && c < base
    ensures acc > limit / base || (acc == limit / base && c > limit % base) <==> acc * base + c > limit
  {
    var q, r := limit / base, limit % base;
    assert limit == q * base + r;
    if acc > q {
      assert acc * base >= (q + 1) * base == q * base + base;
    } else if acc < q {
      assert (acc + 1) * base <= q * base;
      assert (acc + 1) * base == acc * base + base;
    }
  }

  /** While digits are read: either they still fit and `acc` is their value, or they no longer do. */
  ghost predicate Reading(v: nat, limit: nat, acc: nat, over: bool) {
    if over then v > limit else v == acc <= limit
  }

  lemma ReadStep(m: string, lo: nat, k: nat, base: nat, limit: nat, acc: nat, over: bool)
    requires base > 0 && lo <= k < |m| && DigitIn(m[k], base) && Reading(Value(m[lo..k], base), limit, acc, over)
    ensures var c := DigitValue(m[k]);
            var full := over || acc > limit / base || (acc == limit / base && c > limit % base);
            Reading(Value(m[lo..k + 1], base), limit, if full then acc else acc * base + c, full)
  {
    ValueNext(m, lo, k, base);
    CutOff(acc, DigitValue(m[k]), base, limit);
    if over {
      Grows(Value(m[lo..k], base), base);
    }
  }

  lemma Grows(v: nat, base: nat)
    requires base > 0
    ensures v * base >= v
  {
  }

  /** Read the digits from `lo` on against a limit; `any` is 0 for none, 1 for some, -1 for too many. */
  method ReadDigits(m: string, lo: nat, base: nat, limit: nat) returns (acc: nat, any: int, k: nat)
    requires lo <= |m| && base > 0 && RunEnd(m, lo, base) < |m|
    ensures k == RunEnd(m, lo, base) && -1 <= any <= 1
    ensures any == 0 <==> k == lo
    ensures any == -1 <==> Value(m[lo..k], base) > limit
    ensures any != -1 ==> acc == Value(m[lo..k], base)
  {
    hide Reading, Value;
    acc, any, k := 0, 0, lo;
    ReadStart(m, lo, base, limit);
    RunEndStep(m, lo, lo, base);
    while DigitIn(m[k], base)
      invariant lo <= k <= RunEnd(m, lo, base) < |m| && -1 <= any <= 1 && (any == 0 <==> k == lo)
      invariant k < RunEnd(m, lo, base) <==> DigitIn(m[k], base)
      invariant Reading(Value(m[lo..k], base), limit, acc, any < 0)
      decreases |m| - k
    {
      var c := DigitValue(m[k]);
      ReadStep(m, lo, k, base, limit, acc, any < 0);
      if any < 0 || acc > limit / base || (acc == limit / base && c > limit % base) {
        any := -1;
      } else {
        any := 1;
        acc := acc * base + c;
      }
      k := k + 1;
      RunEndStep(m, lo, k, base);
    }
    ReadEnd(Value(m[lo..k], base), limit, acc, any < 0);
  }

  lemma ReadStart(m: string, lo: nat, base: nat, limit: nat)
    requires lo <= |m|
    ensures Reading(Value(m[lo..lo], base), limit, 0, false)
  {
    assert m[lo..lo] == [];
  }

  lemma ReadEnd(v: nat, limit: nat, acc: nat, over: bool)
    requires Reading(v, limit, acc, over)
    ensures if over then v > limit else v == acc <= limit
  {
  }

  // ---------- strtol and strtoul ----------

  /** There is a terminator, so nothing is read behind the end of the text. */
  predicate Terminated(m: string, start: nat) {
    exists z :: start <= z < |m| && m[z] == '\0'
  }

  lemma {:induction false} SpaceEnds(m: string, i: nat, z: nat)
    requires i <= z < |m| && m[z] == '\0'
    ensures SkipSpace(m, i) <= z
    decreases z - i
  {
    if i < z && IsSpace(m[i]) {
      SpaceEnds(m, i + 1, z);
    }
  }

  lemma {:induction false} RunEnds(m: string, i: nat, z: nat, base: nat)
    requires i <= z < |m| && m[z] == '\0' && base <= 36
    ensures RunEnd(m, i, base) <= z
    decreases z - i
  {
    if i < z && DigitIn(m[i], base) {
      RunEnds(m, i + 1, z, base);
    }
  }

  /** Everything that is looked at lies in front of the terminator or is it. */
  lemma ParseInside(m: string, start: nat, base: nat)
    requires Terminated(m, start) && (base == 0 || ValidBase(base))
    ensures start <= |m| && SkipSpace(m, start) < |m| && Parse(m, start, base).hi < |m|
    ensures 2 <= Parse(m, start, base).base <= 36
    ensures var i := SkipSpace(m, start); (m[i] == '-' || m[i] == '+') ==> i + 1 < |m|
    ensures Parse(m, start, base).lo < |m|
  {
    var z :| start <= z < |m| && m[z] == '\0';
    SpaceEnds(m, start, z);
    var p := Parse(m, start, base);
    RunEnds(m, p.lo, z, p.base);
  }

  /** Skip white space, sign and prefix as both functions do. */
  method Scan(m: string, start: nat, base0: nat) returns (neg: bool, base: nat, s: nat)
    requires Terminated(m, start) && (base0 == 0 || ValidBase(base0))
    ensures start <= |m| && var p := Parse(m, start, base0); neg == p.neg && base == p.base && s == p.lo
  {
    hide Terminated, ValidBase, IsSpace;
    ParseInside(m, start, base0);
    s := start;
    while IsSpace(m[s])
      invariant start <= s < |m| && SkipSpace(m, s) == SkipSpace(m, start)
      decreases |m| - s
    {
      s := s + 1;
    }
    neg := false;
    if m[s] == '-' || m[s] == '+' {
      neg := m[s] == '-';
      s := s + 1;
    }
    base := base0;
    if (base == 0 || base == 16) && m[s] == '0' && (m[s + 1] == 'x' || m[s + 1] == 'X') {
      s := s + 2;
      base := 16;
    } else if (base == 0 || base == 2) && m[s] == '0' && (m[s + 1] == 'b' || m[s + 1] == 'B') {
      s := s + 2;
      base := 2;
    }
    if base == 0 {
      base := if m[s] == '0' then 8 else 10;
    }
  }

  /** Parse a long: the value of the digits found, with its sign, clamped to the range; `end` is where
      parsing stopped. */
  method Strtol(m: string, start: nat, base0: nat) returns (r: int, end: nat)
    requires Terminated(m, start) && (base0 == 0 || ValidBase(base0))
    ensures start <= |m|
    ensures var p := Parse(m, start, base0); r == Clamped(p.neg, Value(Found(m, p), p.base)) && end == Stop(p, start)
  {
    ParseInside(m, start, base0);
    var neg, base, lo := Scan(m, start, base0);
    var acc, any, k := ReadDigits(m, lo, base, if neg then LONG_MAX + 1 else LONG_MAX);
    if any < 0 {
      r := if neg then 0 - (LONG_MAX as int + 1) else LONG_MAX;
    } else {
      r := if neg then 0 - (acc as int) else acc;
    }
    end := if any != 0 then k else start;
  }

  /** Parse an unsigned long. */
  method Strtoul(m: string, start: nat, base0: nat) returns (r: nat, end: nat)
    requires Terminated(m, start) && (base0 == 0 || ValidBase(base0))
    ensures start <= |m|
    ensures var p := Parse(m, start, base0); r == Wrapped(p.neg, Value(Found(m, p), p.base)) && end == Stop(p, start)
  {
    ParseInside(m, start, base0);
    var neg, base, lo := Scan(m, start, base0);
    var acc, any, k := ReadDigits(m, lo, base, ULONG_MAX);
    if any < 0 {
      r := ULONG_MAX;
    } else {
      r := if neg then (U32 - acc) % U32 else acc;
    }
    end := if any != 0 then k else start;
  }

  // ---------- round trips ----------

  ghost predicate AllDigits(s: string, base: nat) {
    forall i :: 0 <= i < |s| ==> DigitIn(s[i], base)
  }

  ghost predicate AllSpace(s: string) {
    forall i :: 0 <= i < |s| ==> IsSpace(s[i])
  }

  lemma {:induction false} SpaceOver(m: string, i: nat, n: nat)
    requires i <= n < |m| && AllSpace(m[i..n]) && !IsSpace(m[n])
    ensures SkipSpace(m, i) == n
    decreases n - i
  {
    if i < n {
      assert m[i..n][0] == m[i] && m[i + 1..n] == m[i..n][1..];
      SpaceOver(m, i + 1, n);
    }
  }

  lemma {:induction false} RunOver(m: string, i: nat, n: nat, base: nat)
    requires i <= n < |m| && AllDigits(m[i..n], base) && !DigitIn(m[n], base)
    ensures RunEnd(m, i, base) == n
    decreases n - i
  {
    if i < n {
      assert m[i..n][0] == m[i] && m[i + 1..n] == m[i..n][1..];
      RunOver(m, i + 1, n, base);
    }
  }

  /** The base that digits `s` are read in when no prefix stands before them. */
  function Effective(base: nat, s: string): (b: nat)
    ensures base != 0 ==> b == base
  {
    if base != 0 then base else if s != [] && s[0] == '0' then 8 else 10
  }

  /** Digits in front of `t` do not happen to read as a prefix. */
  predicate NoPrefix(s: string, t: string, base: nat) {
    s == "0" && t != [] ==>
      && ((base == 0 || base == 16) ==> t[0] != 'x' && t[0] != 'X')
      && ((base == 0 || base == 2) ==> t[0] != 'b' && t[0] != 'B')
  }

  lemma HexDigits()
    ensures DigitValue('x') == 33 && DigitValue('X') == 33 && DigitValue('b') == 11 && DigitValue('B') == 11
  {
  }

  function BaseAt(m: string, lo: nat, base: nat): nat {
    if base != 0 then base else if lo < |m| && m[lo] == '0' then 8 else 10
  }

  /** The same on one text: white space up to `n`, a sign up to `lo`, digits up to `hi`. */
  lemma SignedIn(m: string, n: nat, lo: nat, hi: nat, base: nat)
    requires n <= lo < hi < |m| && AllSpace(m[0..n]) && !IsSpace(m[n])
    requires if lo == n then m[n] != '-' && m[n] != '+' else lo == n + 1 && (m[n] == '-' || m[n] == '+')
    requires AllDigits(m[lo..hi], BaseAt(m, lo, base)) && !DigitIn(m[hi], BaseAt(m, lo, base))
    requires (base == 0 || base == 16) ==> !Prefixed(m, lo, 'x', 'X')
    requires (base == 0 || base == 2) ==> !Prefixed(m, lo, 'b', 'B')
    ensures Parse(m, 0, base) == Parsed(m[n] == '-', BaseAt(m, lo, base), lo, hi)
  {
    hide AllSpace, AllDigits, IsSpace, DigitIn;
    SpaceOver(m, 0, n);
    RunOver(m, lo, hi, BaseAt(m, lo, base));
  }

  lemma Pieces(ws: string, sign: string, s: string, t: string)
    requires s != [] && t != [] && |sign| <= 1
    ensures var m, n, lo := ws + sign + s + t, |ws|, |ws| + |sign|;
            && |m| > lo + |s| && m[0..n] == ws && m[lo..lo + |s|] == s && m[lo + |s|] == t[0] && m[lo] == s[0]
            && (sign != "" ==> m[n] == sign[0]) && (|s| > 1 ==> m[lo + 1] == s[1]) && (|s| == 1 ==> m[lo + 1] == t[0])
  {
  }

  lemma DigitFacts(c: char, base: nat)
    requires (base == 0 || ValidBase(base)) && DigitIn(c, if base == 0 then 10 else base)
    ensures !IsSpace(c) && c != '-' && c != '+'
    ensures base == 0 || base == 16 ==> c != 'x' && c != 'X'
    ensures base == 0 || base == 2 ==> c != 'b' && c != 'B'
  {
  }

  lemma DigitInDecimal(c: char)
    requires DigitIn(c, 8)
    ensures DigitIn(c, 10)
  {
  }

  /** White space, an optional sign and digits, followed by something that is no digit, are read as
      exactly that number, up to the end of the digits. */
  lemma SignedDigits(ws: string, sign: string, s: string, t: string, base: nat)
    requires (base == 0 || ValidBase(base)) && AllSpace(ws) && (sign == "" || sign == "-" || sign == "+")
    requires AllDigits(s, Effective(base, s)) && t != [] && !DigitIn(t[0], Effective(base, s))
    requires s != [] && NoPrefix(s, t, base)
    ensures var m := ws + sign + s + t;
            var p := Parse(m, 0, base);
            && p == Parsed(sign == "-", Effective(base, s), |ws| + |sign|, |ws| + |sign| + |s|)
            && Found(m, p) == s && Stop(p, 0) == |ws| + |sign| + |s|
  {
    hide DigitIn, IsSpace, AllSpace, Parse, ValidBase;
    var m := ws + sign + s + t;
    var b, n, lo := Effective(base, s), |ws|, |ws| + |sign|;
    Pieces(ws, sign, s, t);
    forall i | 0 <= i < |s|
      ensures DigitIn(s[i], if base == 0 then 10 else base)
    {
      if b == 8 && base == 0 {
        DigitInDecimal(s[i]);
      }
    }
    DigitFacts(s[0], base);
    if |s| > 1 {
      DigitFacts(s[1], base);
    }
    SignsAreNoSpace();
    SignedIn(m, n, lo, lo + |s|, base);
  }

  lemma SignsAreNoSpace()
    ensures !IsSpace('-') && !IsSpace('+')
  {
  }

  /** What `strtol` returns on such text: the mathematical value clamped to the range of a long. */
  lemma SignedDigitsClamped(ws: string, sign: string, s: string, t: string, base: nat)
    requires (base == 0 || ValidBase(base)) && AllSpace(ws) && (sign == "" || sign == "-" || sign == "+")
    requires AllDigits(s, Effective(base, s)) && t != [] && !DigitIn(t[0], Effective(base, s))
    requires s != [] && NoPrefix(s, t, base)
    ensures var m := ws + sign + s + t;
            var p := Parse(m, 0, base);
            var r := Clamped(p.neg, Value(Found(m, p), p.base));
            var x: int := Value(s, Effective(base, s));
            var v := if sign == "-" then 0 - x else x;
            r == if v > LONG_MAX then LONG_MAX else if v < -0x8000_0000 then -0x8000_0000 else v
  {
    SignedDigits(ws, sign, s, t, base);
  }

  /** What `strtoul` returns on such text: the value if it fits, its negation modulo 2^32 behind a minus, the largest value
      if it does not fit. */
  lemma SignedDigitsWrapped(ws: string, sign: string, s: string, t: string, base: nat)
    requires (base == 0 || ValidBase(base)) && AllSpace(ws) && (sign == "" || sign == "-" || sign == "+")
    requires AllDigits(s, Effective(base, s)) && t != [] && !DigitIn(t[0], Effective(base, s))
    requires s != [] && NoPrefix(s, t, base)
    ensures var m := ws + sign + s + t;
            var p := Parse(m, 0, base);
            var r: int := Wrapped(p.neg, Value(Found(m, p), p.base));
            var x: int := Value(s, Effective(base, s));
            if x >= 0x1_0000_0000 then r == 0xFFFF_FFFF
            else 0 <= r < 0x1_0000_0000 && (if sign == "-" then r == 0 - x || r == 0x1_0000_0000 - x else r == x)
  {
    SignedDigits(ws, sign, s, t, base);
  }

  /** A prefix of two characters, with white space up to `n`, a sign up to `lo`, and digits from `lo + 2` up to `hi`. */
  lemma PrefixedIn(m: string, n: nat, lo: nat, hi: nat, base: nat, b: nat)
    requires n <= lo && lo + 2 <= hi < |m| && AllSpace(m[0..n]) && !IsSpace(m[n])
    requires if lo == n then m[n] != '-' && m[n] != '+' else lo == n + 1 && (m[n] == '-' || m[n] == '+')
    requires m[lo] == '0' && (b == 16 || b == 2) && (base == 0 || base == b)
    requires if b == 16 then m[lo + 1] == 'x' || m[lo + 1] == 'X' else m[lo + 1] == 'b' || m[lo + 1] == 'B'
    requires AllDigits(m[lo + 2..hi], b) && !DigitIn(m[hi], b)
    ensures Parse(m, 0, base) == Parsed(m[n] == '-', b, lo + 2, hi)
  {
    hide AllSpace, AllDigits, IsSpace, DigitIn;
    SpaceOver(m, 0, n);
    RunOver(m, lo + 2, hi, b);
  }

  /** What `strtol` makes of a number with a prefix: "0x" where base 16 is allowed, and "0b" where base 2 is. */
  lemma PrefixedDigits(ws: string, sign: string, prefix: string, s: string, t: string, base: nat)
    requires AllSpace(ws) && (sign == "" || sign == "-" || sign == "+") && t != [] && s != []
    requires ((prefix == "0x" || prefix == "0X") && (base == 0 || base == 16)) || ((prefix == "0b" || prefix == "0B") && (base == 0 || base == 2))
    requires var b := if prefix[1] == 'x' || prefix[1] == 'X' then 16 else 2; AllDigits(s, b) && !DigitIn(t[0], b)
    ensures var m, b := ws + sign + prefix + s + t, if prefix[1] == 'x' || prefix[1] == 'X' then 16 else 2;
            var p := Parse(m, 0, base);
            p.neg == (sign == "-") && p.base == b && Found(m, p) == s && Stop(p, 0) == |ws| + |sign| + 2 + |s|
  {
    hide DigitIn, IsSpace, AllSpace, Parse, AllDigits;
    var m, b := ws + sign + prefix + s + t, if prefix[1] == 'x' || prefix[1] == 'X' then 16 else 2;
    var n, lo := |ws|, |ws| + |sign|;
    assert m[0..n] == ws && m[lo] == '0' && m[lo + 1] == prefix[1];
    assert m[lo + 2..lo + 2 + |s|] == s && m[lo + 2 + |s|] == t[0];
    assert sign != "" ==> m[n] == sign[0];
    ZeroIsDigit();
    SignsAreNoSpace();
    PrefixedIn(m, n, lo, lo + 2 + |s|, base, b);
  }

  lemma ZeroIsDigit()
    ensures !IsSpace('0')
  {
  }

  /** Printed text is read back digit for digit, up to its terminator. */
  lemma TextParsed(value: int, base: nat)
    requires ValidBase(base) && -0x8000_0000 <= value < 0x8000_0000
    ensures var neg := base == 10 && value < 0;
            var m := Text(value, base) + ['\0'];
            var p := Parse(m, 0, base);
            && p.neg == neg && p.base == base && Stop(p, 0) == |m| - 1
            && Value(Found(m, p), base) == if neg then 0 - value else Unsigned(value)
  {
    var neg := base == 10 && value < 0;
    var v := if neg then 0 - value else Unsigned(value);
    var s, sign := Digits(v, base), if neg then "-" else "";
    DigitsAre(v, base);
    DigitsValue(v, base);
    assert Text(value, base) + ['\0'] == [] + sign + s + ['\0'];
    SignedDigits([], sign, s, ['\0'], base);
  }

  /** `strtol` reads back what `itoa` printed exactly for base 10 and for values that are not negative;
      in other bases negative values are printed as unsigned numbers that do not fit a long. */
  lemma StrtolInvertsItoa(value: int, base: nat)
    requires ValidBase(base) && -0x8000_0000 <= value < 0x8000_0000
    ensures var m := Text(value, base) + ['\0'];
            var p := Parse(m, 0, base);
            && Stop(p, 0) == |m| - 1
            && (Clamped(p.neg, Value(Found(m, p), p.base)) == value <==> base == 10 || value >= 0)
  {
    TextParsed(value, base);
  }

  /** `strtoul` reads back what `itoa` printed modulo `2^32`, in every base. */
  lemma StrtoulInvertsItoa(value: int, base: nat)
    requires ValidBase(base) && -0x8000_0000 <= value < 0x8000_0000
    ensures var m := Text(value, base) + ['\0'];
            var p := Parse(m, 0, base);
            && Stop(p, 0) == |m| - 1
            && Wrapped(p.neg, Value(Found(m, p), p.base)) == Unsigned(value)
  {
    TextParsed(value, base);
  }

  // ---------- what the standard asks for ----------

  /** Where the sign ends. */
  function AfterSign(m: string, start: nat): (j: nat)
    requires start <= |m|
    ensures SkipSpace(m, start) <= j <= |m|
  {
    var i := SkipSpace(m, start);
    if i < |m| && (m[i] == '-' || m[i] == '+') then i + 1 else i
  }

  /** "0x" without a hexadecimal digit behind it, where the base allows the prefix. */
  predicate BareHex(m: string, start: nat, base: nat)
    requires start <= |m|
  {
    var j := AfterSign(m, start);
    (base == 0 || base == 16) && Prefixed(m, j, 'x', 'X') && !(j + 2 < |m| && DigitIn(m[j + 2], 16))
  }

  /** "0b", which is no prefix in C99. */
  predicate Binary(m: string, start: nat, base: nat)
    requires start <= |m|
  {
    (base == 0 || base == 2) && Prefixed(m, AfterSign(m, start), 'b', 'B')
  }

  /** The subject sequence of section 7.20.1.4 of C99: the longest start of the text behind the white
      space that is a sign, an optional "0x" for base 16 or an integer constant for base 0, and digits.
      "0x" belongs to it only with a hexadecimal digit behind it; otherwise it is the zero. */
  function Standard(m: string, start: nat, base: nat): (p: Parsed)
    requires start <= |m|
    ensures start <= p.lo <= p.hi <= |m|
  {
    var i, j := SkipSpace(m, start), AfterSign(m, start);
    var hex := (base == 0 || base == 16) && Prefixed(m, j, 'x', 'X') && j + 2 < |m| && DigitIn(m[j + 2], 16);
    var lo := if hex then j + 2 else j;
    var b := if hex then 16 else if base != 0 then base else if lo < |m| && m[lo] == '0' then 8 else 10;
    Parsed(i < |m| && m[i] == '-', b, lo, RunEnd(m, lo, b))
  }

  /** Value and end of what was parsed, for a long and for an unsigned long. */
  datatype Answer = Answer(value: int, end: nat)

  function LongOf(m: string, start: nat, p: Parsed): Answer
    requires p.lo <= p.hi <= |m|
  {
    Answer(Clamped(p.neg, Value(Found(m, p), p.base)), Stop(p, start))
  }

  function UnsignedOf(m: string, start: nat, p: Parsed): Answer
    requires p.lo <= p.hi <= |m|
  {
    Answer(Wrapped(p.neg, Value(Found(m, p), p.base)), Stop(p, start))
  }

  /** Without these two forms of text the functions look at the same digits in the same base. */
  lemma SameSubject(m: string, start: nat, base: nat)
    requires start <= |m| && !BareHex(m, start, base) && !Binary(m, start, base)
    ensures Parse(m, start, base) == Standard(m, start, base)
  {
  }

  /** The standard finds the zero in front. */
  lemma ZeroFound(m: string, start: nat, base: nat)
    requires start <= |m| && (base == 0 || ValidBase(base)) && (BareHex(m, start, base) || Binary(m, start, base))
    ensures Stop(Standard(m, start, base), start) == AfterSign(m, start) + 1
  {
    hide Value;
    var j, p := AfterSign(m, start), Standard(m, start, base);
    HexDigits();
    assert p.lo == j && m[j] == '0' && DigitIn(m[j], p.base) && !DigitIn(m[j + 1], p.base);
    assert RunEnd(m, j + 1, p.base) == j + 1;
  }

  /** The code ends behind the prefix or where it began. */
  lemma PrefixTaken(m: string, start: nat, base: nat)
    requires start <= |m| && (base == 0 || ValidBase(base)) && (BareHex(m, start, base) || Binary(m, start, base))
    ensures Stop(Parse(m, start, base), start) != AfterSign(m, start) + 1
  {
    hide Value;
    var j, p := AfterSign(m, start), Parse(m, start, base);
    assert p.lo == j + 2;
  }

  /** `strtol` and `strtoul` give the answer of the standard, value and end, if and only if the text
      behind white space and sign is neither a bare "0x" nor begins with "0b", where the base allows
      these prefixes. */
  lemma AnswersStandard(m: string, start: nat, base: nat)
    requires start <= |m| && (base == 0 || ValidBase(base))
    ensures LongOf(m, start, Parse(m, start, base)) == LongOf(m, start, Standard(m, start, base))
            <==> !BareHex(m, start, base) && !Binary(m, start, base)
    ensures UnsignedOf(m, start, Parse(m, start, base)) == UnsignedOf(m, start, Standard(m, start, base))
            <==> !BareHex(m, start, base) && !Binary(m, start, base)
  {
    hide Parse, Standard, BareHex, Binary, Value, Found, Stop, Clamped, Wrapped;
    if BareHex(m, start, base) || Binary(m, start, base) {
      ZeroFound(m, start, base);
      PrefixTaken(m, start, base);
    } else {
      SameSubject(m, start, base);
    }
  }

  /** A prefix with no digit behind it is consumed all the same, so nothing is found: not even the zero. */
  lemma BarePrefix(t: string, base: nat)
    requires (base == 0 || base == 16) && t != [] && !DigitIn(t[0], 16)
    ensures var m := "0x" + t;
            var p := Parse(m, 0, base);
            Found(m, p) == [] && Stop(p, 0) == 0
  {
    var m := "0x" + t;
    assert m[0] == '0' && m[1] == 'x' && m[2] == t[0];
    SpaceOver(m, 0, 0);
    RunOver(m, 2, 2, 16);
  }
}
