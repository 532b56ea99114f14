// Splitting an image ID into directory names (internal/core/image.go:146-175).
module IdPartition {
  import opened Common

  const PART_LEN := 3
  const PAD_LEN := 9

  // ---- Decimal text ----

  predicate IsDigit(c: char) { '0' <= c <= '9' }

  predicate AllDigits(s: string) { forall i :: 0 <= i < |s| ==> IsDigit(s[i]) }

  function Digit(d: nat): (c: char)
    requires d < 10
    ensures IsDigit(c)
  {
    ('0' as int + d) as char
  }

  function Value(c: char): nat
    requires IsDigit(c)
  {
    c as int - '0' as int
  }

  function Decimal(n: nat): (s: string)
    ensures s != "" && AllDigits(s)
  {
    if n < 10 then [Digit(n)] else Decimal(n / 10) + [Digit(n % 10)]
  }

  function Zeros(k: nat): string { seq(k, i => '0') }

  /** Decimal form, padded with zeros on the left to at least nine digits. */
  function Padded(n: nat): (s: string)
    ensures AllDigits(s) && |s| >= PAD_LEN
  {
    var s := Decimal(n);
    if |s| < PAD_LEN then Zeros(PAD_LEN - |s|) + s else s
  }

  function Read(s: string): nat
    requires AllDigits(s)
  {
    if s == "" then 0 else 10 * Read(s[..|s| - 1]) + Value(s[|s| - 1])
  }

  lemma {:induction false} ReadDecimal(n: nat)
    ensures Read(Decimal(n)) == n
  {
    if n >= 10 {
      ReadDecimal(n / 10);
      assert Decimal(n)[..|Decimal(n)| - 1] == Decimal(n / 10);
    }
  }

  lemma {:induction false} ReadAfterZeros(k: nat, s: string)
    requires AllDigits(s)
    ensures AllDigits(Zeros(k) + s) && Read(Zeros(k) + s) == Read(s)
    decreases k + |s|
  {
    var t := Zeros(k) + s;
    if s != "" {
      ReadAfterZeros(k, s[..|s| - 1]);
      assert t[..|t| - 1] == Zeros(k) + s[..|s| - 1];
    } else if k > 0 {
      ReadAfterZeros(k - 1, "");
      assert t[..k - 1] == Zeros(k - 1) + "";
    }
  }

  lemma ReadPadded(n: nat)
    ensures Read(Padded(n)) == n
  {
    ReadDecimal(n);
    ReadAfterZeros(if |Decimal(n)| < PAD_LEN then PAD_LEN - |Decimal(n)| else 0, Decimal(n));
    assert Zeros(0) + Decimal(n) == Decimal(n);
  }

  lemma LastDigit(n: nat, d: char)
    requires IsDigit(d) && n > 0
    ensures Decimal(10 * n + Value(d)) == Decimal(n) + [d]
  {
    assert (10 * n + Value(d)) / 10 == n && (10 * n + Value(d)) % 10 == Value(d);
  }

  /** Reading is undone by printing unless the text starts with a zero. */
  lemma {:induction false} DecimalRead(s: string)
    requires AllDigits(s) && s != "" && s[0] != '0'
    ensures Decimal(Read(s)) == s && Read(s) > 0
    decreases |s|
  {
    var init, last := s[..|s| - 1], s[|s| - 1];
    assert s == init + [last];
    if init == "" {
      assert s == [last];
    } else {
      DecimalRead(init);
      LastDigit(Read(init), last);
    }
  }

  function Pow10(k: nat): nat { if k == 0 then 1 else 10 * Pow10(k - 1) }

  lemma {:induction false} DecimalLength(n: nat, k: nat)
    requires k >= 1 && n < Pow10(k)
    ensures |Decimal(n)| <= k
  {
    if n >= 10 {
      assert k > 1 by { assert Pow10(1) == 10; }
      DecimalLength(n / 10, k - 1);
    }
  }

  // ---- Cutting into parts ----

  function Chunks(s: string): seq<string> {
    if s == "" then [] else if |s| <= PART_LEN then [s] else [s[..PART_LEN]] + Chunks(s[PART_LEN..])
  }

  function Concat(parts: seq<string>): string {
    if parts == [] then "" else parts[0] + Concat(parts[1..])
  }

  /** The shape of a partition: parts of three, the last of one to three. */
  predicate WellCut(parts: seq<string>) {
    && parts != []
    && (forall i :: 0 <= i < |parts| - 1 ==> |parts[i]| == PART_LEN)
    && 1 <= |parts[|parts| - 1]| <= PART_LEN
    && forall i :: 0 <= i < |parts| ==> AllDigits(parts[i])
  }

  lemma {:induction false} ChunksFacts(s: string)
    requires AllDigits(s) && s != ""
    ensures Concat(Chunks(s)) == s && WellCut(Chunks(s))
    ensures PART_LEN * (|Chunks(s)| - 1) < |s| <= PART_LEN * |Chunks(s)|
  {
    if |s| <= PART_LEN {
      assert Concat([s]) == s + Concat([]);
    } else {
      var rest := s[PART_LEN..];
      ChunksFacts(rest);
      var parts := Chunks(s);
      assert parts[1..] == Chunks(rest);
      assert s == s[..PART_LEN] + rest;
      assert parts[0] == s[..PART_LEN] && AllDigits(parts[0]);
      assert forall i :: 1 <= i < |parts| ==> parts[i] == Chunks(rest)[i - 1];
    }
  }

  lemma ChunksStep(s: string, at: nat)
    requires at + PART_LEN <= |s|
    ensures Chunks(s[at..]) == [s[at..at + PART_LEN]] + Chunks(s[at + PART_LEN..])
  {
    var rest := s[at..];
    assert rest[..PART_LEN] == s[at..at + PART_LEN];
    assert rest[PART_LEN..] == s[at + PART_LEN..];
    if |rest| == PART_LEN {
      assert rest == s[at..at + PART_LEN];
      assert s[at + PART_LEN..] == "";
    }
  }

  /** The partition of a positive ID. */
  function Parts(id: nat): seq<string> { Chunks(Padded(id)) }

  /** The partition loses nothing: joining and reading it gives the ID back. It has at least three parts, and
      at most seven for a 64-bit ID. */
  lemma PartsFacts(id: nat)
    ensures WellCut(Parts(id)) && |Parts(id)| >= 3
    ensures Concat(Parts(id)) == Padded(id) && Read(Concat(Parts(id))) == id
    ensures id < 0x8000_0000_0000_0000 ==> |Parts(id)| <= 7
  {
    ChunksFacts(Padded(id));
    ReadPadded(id);
    if id < 0x8000_0000_0000_0000 {
      assert Pow10(8) == 100_000_000;
      assert Pow10(13) == 10_000_000_000_000;
      assert Pow10(16) == 10_000_000_000_000_000;
      assert Pow10(19) == 10_000_000_000_000_000_000;
      DecimalLength(id, 19);
    }
  }

  lemma {:induction false} DecimalAtLeast(n: nat, k: nat)
    requires n >= Pow10(k)
    ensures |Decimal(n)| >= k + 1 && Decimal(n)[0] != '0'
  {
    if k > 0 {
      DecimalAtLeast(n / 10, k - 1);
    } else if n >= 10 {
      DecimalAtLeast(n / 10, 0);
    }
  }

  /** The padding is to nine digits and no further: a smaller ID has exactly three parts of three digits, a larger
      one is cut as it is written. */
  lemma PaddingOnlyToNine(id: nat)
    ensures id < 1_000_000_000 ==> |Parts(id)| == 3 && forall i :: 0 <= i < 3 ==> |Parts(id)[i]| == 3
    ensures id >= 1_000_000_000 ==> Concat(Parts(id)) == Decimal(id) && Concat(Parts(id))[0] != '0'
  {
    PartsFacts(id);
    ChunksFacts(Padded(id));
    assert Pow10(3) == 1000 && Pow10(6) == 1000 * Pow10(3) && Pow10(9) == 1000 * Pow10(6);
    if id < 1_000_000_000 {
      DecimalLength(id, 9);
      ThreeParts(Parts(id), Padded(id));
    } else {
      DecimalAtLeast(id, 9);
    }
  }

  lemma ThreeParts(parts: seq<string>, s: string)
    requires WellCut(parts) && Concat(parts) == s && |s| == 9 && |parts| == 3
    ensures |parts[2]| == 3
  {
    assert parts[1..][0] == parts[1] && parts[1..][1..] == parts[2..] && parts[2..][0] == parts[2];
    assert parts[2..][1..] == [];
    assert Concat(parts[2..]) == parts[2] + Concat([]);
    assert Concat(parts[1..]) == parts[1] + Concat(parts[2..]);
  }

  datatype PartitionError = IdMustBePositive

  /** What the loop has established at position `pos`, when the part being read began at `start`. */
  predicate Reading(s: string, all: seq<string>, parts: seq<string>, acc: string, tailLen: int, start: nat, pos: nat) {
    && start <= pos <= |s| && start % PART_LEN == 0 && pos < start + PART_LEN
    && (|s| < start + PART_LEN ==> pos == start)
    && acc == s[start..pos] && tailLen == |s| - start
    && all == parts + Chunks(s[start..])
  }

  lemma PartGrows(s: string, all: seq<string>, parts: seq<string>, acc: string, tailLen: int, start: nat, pos: nat)
    requires Reading(s, all, parts, acc, tailLen, start, pos) && pos < |s|
    requires (pos + 1) % PART_LEN != 0 && !(0 < tailLen < PART_LEN)
    ensures Reading(s, all, parts, acc + [s[pos]], tailLen, start, pos + 1)
  {
    assert s[start..pos] + [s[pos]] == s[start..pos + 1];
  }

  lemma PartDone(s: string, all: seq<string>, parts: seq<string>, acc: string, tailLen: int, start: nat, pos: nat)
    requires Reading(s, all, parts, acc, tailLen, start, pos) && pos < |s| && (pos + 1) % PART_LEN == 0
    ensures Reading(s, all, parts + [acc + [s[pos]]], "", tailLen - PART_LEN, pos + 1, pos + 1)
  {
    assert pos + 1 == start + PART_LEN;
    assert s[start..pos] + [s[pos]] == s[start..pos + 1];
    ChunksStep(s, start);
    Shift(parts, acc + [s[pos]], Chunks(s[pos + 1..]));
  }

  lemma PartIsLast(s: string, all: seq<string>, parts: seq<string>, acc: string, tailLen: int, start: nat, pos: nat)
    requires Reading(s, all, parts, acc, tailLen, start, pos) && 0 < tailLen < PART_LEN
    ensures pos == start && all == parts + [s[pos..]]
  {
  }

  /** The loop over the digits, with its early exit for a short last part. */
  method IdPartition(id: GoInt) returns (r: Result<seq<string>, PartitionError>)
    ensures r == if id <= 0 then Err(IdMustBePositive) else Ok(Parts(id))
  {
    if id <= 0 {
      return Err(IdMustBePositive);
    }
    var parts: seq<string> := [];
    var idStr := Padded(id);
    var acc := "";
    var tailLen := |idStr|;
    var pos := 0;
    ghost var start := 0;  // where the part being read begins
    while pos < |idStr|
      invariant Reading(idStr, Parts(id), parts, acc, tailLen, start, pos)
    {
      ghost var before := acc;
      acc := acc + [idStr[pos]];
      var nextPos := pos + 1;
      if nextPos % PART_LEN == 0 {
        PartDone(idStr, Parts(id), parts, before, tailLen, start, pos);
        parts := parts + [acc];
        acc := "";
        tailLen := tailLen - PART_LEN;
        start := nextPos;
      } else if 0 < tailLen < PART_LEN {
        PartIsLast(idStr, Parts(id), parts, before, tailLen, start, pos);
        parts := parts + [idStr[pos..]];
        return Ok(parts);
      } else {
        PartGrows(idStr, Parts(id), parts, before, tailLen, start, pos);
      }
      pos := nextPos;
    }
    assert idStr[start..] == "" && parts + [] == parts;
    return Ok(parts);
  }

  lemma Shift(a: seq<string>, x: string, b: seq<string>)
    ensures a + ([x] + b) == (a + [x]) + b
  {
  }

  // ---- How many names a directory can hold ----

  function DirParts(id: nat): seq<string> {
    PartsFacts(id);
    Parts(id)[..|Parts(id)| - 1]
  }

  function Stem(id: nat): string {
    PartsFacts(id);
    Parts(id)[|Parts(id)| - 1]
  }

  predicate Short(s: string) { AllDigits(s) && 1 <= |s| <= PART_LEN }

  /** A number for every text of one to three digits: the one-digit texts come first. */
  function Code(s: string): nat
    requires Short(s)
  {
    if |s| == 1 then Value(s[0])
    else if |s| == 2 then 10 + 10 * Value(s[0]) + Value(s[1])
    else 110 + 100 * Value(s[0]) + 10 * Value(s[1]) + Value(s[2])
  }

  lemma ThreeDigits(a: nat, b: nat, c: nat, x: nat, y: nat, z: nat)
    requires a < 10 && b < 10 && c < 10 && x < 10 && y < 10 && z < 10
    requires 100 * a + 10 * b + c == 100 * x + 10 * y + z
    ensures a == x && b == y && c == z
  {
  }

  lemma CodeInjective(s: string, t: string)
    requires Short(s) && Short(t) && Code(s) == Code(t)
    ensures s == t
  {
    CodeBound(s);
    CodeBound(t);
    if |s| == 3 {
      ThreeDigits(Value(s[0]), Value(s[1]), Value(s[2]), Value(t[0]), Value(t[1]), Value(t[2]));
    } else if |s| == 2 {
      ThreeDigits(0, Value(s[0]), Value(s[1]), 0, Value(t[0]), Value(t[1]));
    }
  }

  lemma CodeBound(s: string)
    requires Short(s)
    ensures if |s| == 1 then Code(s) < 10 else if |s| == 2 then 10 <= Code(s) < 110 else 110 <= Code(s) < 1110
  {
    assert forall i :: 0 <= i < |s| ==> Value(s[i]) < 10;
  }

  predicate Between(lo: nat, hi: nat, n: nat) { lo <= n < hi }

  function Interval(lo: nat, hi: nat): set<nat> { set n: nat | lo <= n < hi && Between(lo, hi, n) }

  lemma {:induction false} IntervalSize(lo: nat, hi: nat)
    requires lo <= hi
    ensures |Interval(lo, hi)| == hi - lo
    decreases hi - lo
  {
    if lo < hi {
      IntervalSize(lo, hi - 1);
      forall n: nat ensures n in Interval(lo, hi) <==> n in Interval(lo, hi - 1) || n == hi - 1 {
        assert Between(lo, hi, n) <==> Between(lo, hi - 1, n) || n == hi - 1;
      }
      assert Interval(lo, hi) == Interval(lo, hi - 1) + {hi - 1};
    }
  }

  function Codes(names: set<string>): set<nat>
    requires forall s :: s in names ==> Short(s)
  {
    set s | s in names :: Code(s)
  }

  lemma {:induction false} CodesSize(names: set<string>)
    requires forall s :: s in names ==> Short(s)
    ensures |Codes(names)| == |names|
  {
    if names != {} {
      var s :| s in names;
      var rest := names - {s};
      CodesSize(rest);
      assert Codes(names) == Codes(rest) + {Code(s)};
      forall t | t in rest ensures Code(t) != Code(s) {
        if Code(t) == Code(s) { CodeInjective(t, s); }
      }
    }
  }

  lemma ShortNames(names: set<string>, lo: nat)
    requires lo <= 1110 && forall s :: s in names ==> Short(s) && Code(s) >= lo
    ensures |names| <= 1110 - lo
  {
    CodesSize(names);
    IntervalSize(lo, 1110);
    forall s | s in names ensures Between(lo, 1110, Code(s)) {
      CodeBound(s);
    }
    SubsetSize(Codes(names), Interval(lo, 1110));
  }

  lemma StemShort(id: nat)
    ensures Short(Stem(id)) && Code(Stem(id)) >= 0
  {
    PartsFacts(id);
  }

  lemma ComponentCode(id: nat, k: nat)
    requires k < |DirParts(id)|
    ensures Short(DirParts(id)[k]) && Code(DirParts(id)[k]) >= 110
  {
    PartsFacts(id);
    assert DirParts(id)[k] == Parts(id)[k];
    CodeBound(DirParts(id)[k]);
  }

  /** However many images are stored, one directory holds at most 1110 different file stems. */
  lemma StemBound(ids: set<nat>, dir: seq<string>)
    ensures |set id | id in ids && DirParts(id) == dir :: Stem(id)| <= 1110
  {
    var stems := set id | id in ids && DirParts(id) == dir :: Stem(id);
    forall s | s in stems ensures Short(s) && Code(s) >= 0 {
      var id :| id in ids && DirParts(id) == dir && Stem(id) == s;
      StemShort(id);
    }
    ShortNames(stems, 0);
  }

  /** And at most 1000 subdirectories. */
  lemma SubdirectoryBound(ids: set<nat>, dir: seq<string>)
    ensures |set id | id in ids && dir < DirParts(id) :: DirParts(id)[|dir|]| <= 1000
  {
    var subdirs := set id | id in ids && dir < DirParts(id) :: DirParts(id)[|dir|];
    forall s | s in subdirs ensures Short(s) && Code(s) >= 110 {
      var id :| id in ids && dir < DirParts(id) && DirParts(id)[|dir|] == s;
      ComponentCode(id, |dir|);
    }
    ShortNames(subdirs, 110);
  }

  /** The bound on stems is met: below one directory every text of one to three digits occurs. */
  lemma BoundIsMet(stem: string) returns (id: nat)
    requires Short(stem)
    ensures id > 0 && DirParts(id) == ["100", "000", "000"] && Stem(id) == stem
  {
    id := FromParts("100", "000", "000", stem);
  }

  /** And so is the bound on subdirectories: each of three digits occurs below one directory. */
  lemma SubdirectoryBoundIsMet(subdir: string) returns (id: nat)
    requires |subdir| == PART_LEN && AllDigits(subdir)
    ensures id > 0 && ["100"] < DirParts(id) && DirParts(id)[1] == subdir
  {
    id := FromParts("100", subdir, "000", "0");
  }

  lemma PartsOfText(s: string)
    requires AllDigits(s) && |s| >= PAD_LEN && s[0] != '0'
    ensures Read(s) > 0 && Parts(Read(s)) == Chunks(s)
  {
    DecimalRead(s);
  }

  lemma FourChunks(a: string, b: string, c: string, stem: string)
    requires |a| == |b| == |c| == PART_LEN && Short(stem)
    ensures Chunks(a + (b + (c + stem))) == [a, b, c, stem]
  {
    ChunksCons(c, stem);
    ChunksCons(b, c + stem);
    ChunksCons(a, b + (c + stem));
  }

  /** Parts of three digits, the first not starting with a zero, and a short last one come from some ID. */
  lemma FromParts(a: string, b: string, c: string, stem: string) returns (id: nat)
    requires |a| == |b| == |c| == PART_LEN && AllDigits(a) && AllDigits(b) && AllDigits(c) && a[0] != '0'
    requires Short(stem)
    ensures id > 0 && DirParts(id) == [a, b, c] && Stem(id) == stem
  {
    var s := a + (b + (c + stem));
    PartsOfText(s);
    id := Read(s);
    FourChunks(a, b, c, stem);
    assert [a, b, c, stem][..3] == [a, b, c];
  }

  lemma ChunksCons(a: string, rest: string)
    requires |a| == PART_LEN && rest != ""
    ensures Chunks(a + rest) == [a] + Chunks(rest)
  {
    assert (a + rest)[..PART_LEN] == a && (a + rest)[PART_LEN..] == rest;
  }
}
