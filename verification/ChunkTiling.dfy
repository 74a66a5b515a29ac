/**
  The chunk arithmetic of the ROCm path of csrc/cumem_allocator.cpp: sizes are rounded up to the
  hardware granularity and cut into chunks that tile the reserved range.  Sizes are assumed not to
  overflow 64 bits.
*/
module ChunkTiling {
  import opened Arithmetic

  const MB: nat := 1024 * 1024
  const DEFAULT_CHUNK: nat := 256 * 1024 * 1024
  const ULLONG_MAX: nat := 0xFFFF_FFFF_FFFF_FFFF

  /** What strtoull makes of the environment variable: nothing, a failure, or a number of megabytes. */
  datatype Setting = Unset | Unparsable | Megabytes(n: nat)

  /** The configured chunk size: never zero, a whole number of megabytes, within 64 bits. */
  function MemcreateChunkSize(s: Setting): (bytes: nat)
    ensures 0 < bytes <= ULLONG_MAX && bytes % MB == 0
    ensures bytes == if s.Megabytes? && 0 < s.n && s.n * MB <= ULLONG_MAX then s.n * MB else DEFAULT_CHUNK
  {
    match s
    case Megabytes(n) => if n == 0 || n > ULLONG_MAX / MB then DEFAULT_CHUNK else n * MB
    case _ => DEFAULT_CHUNK
  }

  // ----- Rounding up -----

  function AlignUp(x: nat, g: nat): nat
    requires g > 0
  {
    CeilDiv(x, g) * g
  }

  ghost predicate IsMultiple(x: nat, g: nat) {
    exists k: nat :: x == k * g
  }

  /** AlignUp is the least multiple at or above its argument. */
  lemma {:induction false} AlignUpIsLeast(x: nat, g: nat, y: nat)
    requires g > 0
    ensures IsMultiple(AlignUp(x, g), g) && x <= AlignUp(x, g) < x + g
    ensures IsMultiple(y, g) && x <= y ==> AlignUp(x, g) <= y
  {
    CeilDivBounds(x, g);
    if IsMultiple(y, g) && x <= y {
      var k: nat :| y == k * g;
      MulLess(k, CeilDiv(x, g), g);
    }
  }

  // ----- Chunks -----

  function Sum(sizes: seq<nat>, k: nat): nat
    requires k <= |sizes|
  {
    if k == 0 then 0 else Sum(sizes, k - 1) + sizes[k - 1]
  }

  function ChunkSize(total: nat, chunk: nat, i: nat): int {
    var rest := total - i * chunk;
    if rest < chunk then rest else chunk
  }

  /** A total cut into chunks. */
  function ChunkList(total: nat, chunk: nat): (sizes: seq<nat>)
    requires chunk > 0
    ensures |sizes| == CeilDiv(total, chunk)
    ensures forall i | 0 <= i < |sizes| :: sizes[i] == ChunkSize(total, chunk, i) && 0 < sizes[i] <= chunk
  {
    seq(CeilDiv(total, chunk), i requires 0 <= i < CeilDiv(total, chunk) => ChunkAt(total, chunk, i))
  }

  function ChunkAt(total: nat, chunk: nat, i: nat): (size: nat)
    requires chunk > 0 && i < CeilDiv(total, chunk)
    ensures size == ChunkSize(total, chunk, i) && 0 < size <= chunk
  {
    ChunkFits(total, chunk, i);
    ChunkSize(total, chunk, i)
  }

  /** The chunks of a request. */
  function Chunks(size: nat, granularity: nat, setting: Setting): seq<nat>
    requires granularity > 0
  {
    AlignedToo(MemcreateChunkSize(setting), granularity);
    ChunkList(AlignUp(size, granularity), AlignUp(MemcreateChunkSize(setting), granularity))
  }

  lemma {:induction false} ChunkFits(total: nat, chunk: nat, i: nat)
    requires chunk > 0 && i < CeilDiv(total, chunk)
    ensures i * chunk < total && 0 < ChunkSize(total, chunk, i) <= chunk
  {
    CeilDivBounds(total, chunk);
    MulLess(i, CeilDiv(total, chunk), chunk);
  }

  /** The array the loop of my_malloc fills. */
  method ChunkSizes(total: nat, chunk: nat) returns (sizes: seq<nat>)
    requires chunk > 0
    ensures sizes == ChunkList(total, chunk)
  {
    var n := CeilDiv(total, chunk);
    var filled := new nat[n](_ => 0);
    for i := 0 to n
      invariant forall j | 0 <= j < i :: filled[j] == ChunkSize(total, chunk, j)
    {
      ChunkFits(total, chunk, i);
      filled[i] := ChunkSize(total, chunk, i);
    }
    sizes := filled[..];
  }

  lemma {:induction false} SumOfChunks(total: nat, chunk: nat, sizes: seq<nat>, k: nat)
    requires chunk > 0 && |sizes| == CeilDiv(total, chunk) && k <= |sizes|
    requires forall i | 0 <= i < |sizes| :: sizes[i] == ChunkSize(total, chunk, i)
    ensures Sum(sizes, k) == if k * chunk < total then k * chunk else total
  {
    if k > 0 {
      SumOfChunks(total, chunk, sizes, k - 1);
      CeilDivBounds(total, chunk);
      MulLess(k - 1, |sizes|, chunk);
      assert k * chunk == (k - 1) * chunk + chunk;
    } else {
      assert 0 * chunk == 0;
    }
  }

  /** With an aligned total and chunk every chunk is aligned too. */
  lemma {:induction false} ChunksAligned(total: nat, chunk: nat, g: nat, i: nat)
    requires chunk > 0 && IsMultiple(total, g) && IsMultiple(chunk, g) && i * chunk < total
    ensures ChunkSize(total, chunk, i) > 0 && IsMultiple(ChunkSize(total, chunk, i), g)
  {
    var a: nat, b: nat :| total == a * g && chunk == b * g;
    var rest := total - i * chunk;
    assert rest == (a - i * b) * g by {
      assert (a - i * b) * g == a * g - i * b * g;
      assert i * (b * g) == i * b * g;
    }
    if rest < chunk {
      MulLess(a - i * b, 0, g);
      assert ChunkSize(total, chunk, i) == rest && a - i * b >= 0;
    }
  }

  /** `sizes` cuts `total` into as few pieces of at most `chunk` as there can be, all but the last of that size. */
  ghost predicate CutsInto(sizes: seq<nat>, total: nat, chunk: nat) {
    && Sum(sizes, |sizes|) == total && Positive(sizes)
    && (forall i | 0 <= i < |sizes| :: sizes[i] <= chunk && (i < |sizes| - 1 ==> sizes[i] == chunk))
    && total <= |sizes| * chunk && forall n: nat | total <= n * chunk :: |sizes| <= n
  }

  /** Only one list does. */
  lemma {:induction false} CutsIntoUnique(sizes: seq<nat>, others: seq<nat>, total: nat, chunk: nat)
    requires CutsInto(sizes, total, chunk) && CutsInto(others, total, chunk)
    ensures sizes == others
  {
    assert |sizes| == |others|;
    if sizes != [] {
      var n := |sizes| - 1;
      SumSame(sizes, others, n);
      forall i | 0 <= i < |sizes| ensures sizes[i] == others[i] {
        if i < n {
          assert sizes[i] == chunk == others[i];
        }
      }
    }
  }

  lemma {:induction false} SumSame(sizes: seq<nat>, others: seq<nat>, k: nat)
    requires k <= |sizes| && k <= |others| && forall i | 0 <= i < k :: sizes[i] == others[i]
    ensures Sum(sizes, k) == Sum(others, k)
  {
    if k > 0 {
      SumSame(sizes, others, k - 1);
    }
  }

  lemma {:induction false} ChunkListCuts(total: nat, chunk: nat)
    requires chunk > 0
    ensures CutsInto(ChunkList(total, chunk), total, chunk)
  {
    var sizes := ChunkList(total, chunk);
    SumOfChunks(total, chunk, sizes, |sizes|);
    CeilDivBounds(total, chunk);
    forall i | 0 <= i < |sizes| - 1 ensures sizes[i] == chunk {
      ChunkFits(total, chunk, i + 1);
      assert (i + 1) * chunk == i * chunk + chunk;
    }
    forall n: nat | total <= n * chunk ensures |sizes| <= n {
      MulLess(n, |sizes|, chunk);
    }
  }

  /**
    What my_malloc asks the driver for: the least aligned size, cut into as few aligned chunks as the aligned
    configured size allows, all but the last of that size.
  */
  lemma {:induction false} ChunksOfRequest(size: nat, granularity: nat, setting: Setting)
    requires granularity > 0
    ensures var sizes := Chunks(size, granularity, setting);
            && CutsInto(sizes, AlignUp(size, granularity), AlignUp(MemcreateChunkSize(setting), granularity))
            && Sum(sizes, |sizes|) == AlignUp(size, granularity) && Positive(sizes) && (sizes == [] <==> size == 0)
            && forall i | 0 <= i < |sizes| :: IsMultiple(sizes[i], granularity)
  {
    var total, chunk := AlignUp(size, granularity), AlignUp(MemcreateChunkSize(setting), granularity);
    AlignedToo(size, granularity);
    AlignedToo(MemcreateChunkSize(setting), granularity);
    ChunksOf(total, chunk, granularity);
    ChunkListCuts(total, chunk);
  }

  lemma {:induction false} ChunksOf(total: nat, chunk: nat, g: nat)
    requires chunk > 0 && IsMultiple(total, g) && IsMultiple(chunk, g)
    ensures var sizes := ChunkList(total, chunk);
            (sizes == [] <==> total == 0) && forall i | 0 <= i < |sizes| :: IsMultiple(sizes[i], g)
  {
    var sizes := ChunkList(total, chunk);
    CeilDivBounds(total, chunk);
    forall i | 0 <= i < |sizes| ensures IsMultiple(sizes[i], g) {
      ChunkFits(total, chunk, i);
      ChunksAligned(total, chunk, g, i);
    }
    if sizes != [] {
      ChunkFits(total, chunk, 0);
    }
  }

  method PlanChunks(size: nat, granularity: nat, setting: Setting) returns (aligned: nat, sizes: seq<nat>)
    requires granularity > 0
    ensures aligned == AlignUp(size, granularity) && sizes == Chunks(size, granularity, setting)
    ensures CutsInto(sizes, aligned, AlignUp(MemcreateChunkSize(setting), granularity))
  {
    aligned := AlignUp(size, granularity);
    AlignedToo(MemcreateChunkSize(setting), granularity);
    sizes := ChunkSizes(aligned, AlignUp(MemcreateChunkSize(setting), granularity));
    ChunksOfRequest(size, granularity, setting);
  }

  /** Half a gigabyte at the usual granularity of two megabytes, with nothing configured: two chunks. */
  lemma {:induction false} HalfGigabyte(size: nat, granularity: nat)
    requires size == 536_870_912 && granularity == 2_097_152
    ensures Chunks(size, granularity, Unset) == [268_435_456, 268_435_456]
  {
    var sizes := [268_435_456, 268_435_456];
    ChunksOfRequest(size, granularity, Unset);
    assert Sum(sizes, 1) == 268_435_456 && Sum(sizes, 2) == size;
    CutsIntoUnique(Chunks(size, granularity, Unset), sizes, size, 268_435_456);
  }

  lemma {:induction false} AlignedToo(x: nat, g: nat)
    requires g > 0
    ensures IsMultiple(AlignUp(x, g), g) && (AlignUp(x, g) == 0 <==> x == 0)
  {
    assert 0 == 0 * g;
    AlignUpIsLeast(x, g, 0);
  }

  // ----- Addresses -----

  /** Where chunk `k` is mapped: the running offset from the base. */
  function Addr(base: nat, sizes: seq<nat>, k: nat): nat
    requires k <= |sizes|
  {
    base + Sum(sizes, k)
  }

  predicate Positive(sizes: seq<nat>) {
    forall i | 0 <= i < |sizes| :: sizes[i] > 0
  }

  lemma {:induction false} SumMonotone(sizes: seq<nat>, i: nat, j: nat)
    requires i <= j <= |sizes|
    ensures Sum(sizes, i) <= Sum(sizes, j)
    ensures i < j ==> Sum(sizes, i) + sizes[i] <= Sum(sizes, j)
  {
    if i < j {
      SumMonotone(sizes, i, j - 1);
    }
  }

  /** The map addresses tile the range: every byte lies in exactly one chunk. */
  lemma {:induction false} ChunksTile(base: nat, sizes: seq<nat>, x: nat) returns (k: nat)
    requires Positive(sizes) && base <= x < base + Sum(sizes, |sizes|)
    ensures k < |sizes| && Addr(base, sizes, k) <= x < Addr(base, sizes, k) + sizes[k]
    ensures forall j | 0 <= j < |sizes| && Addr(base, sizes, j) <= x < Addr(base, sizes, j) + sizes[j] :: j == k
  {
    k := ChunkOf(base, sizes, x, |sizes|);
    forall j | 0 <= j < |sizes| && Addr(base, sizes, j) <= x < Addr(base, sizes, j) + sizes[j] ensures j == k {
      if j < k {
        SumMonotone(sizes, j, k);
      } else {
        SumMonotone(sizes, k, j);
      }
    }
  }

  lemma {:induction false} ChunkOf(base: nat, sizes: seq<nat>, x: nat, n: nat) returns (k: nat)
    requires n <= |sizes| && base <= x < base + Sum(sizes, n)
    ensures k < n && Addr(base, sizes, k) <= x < Addr(base, sizes, k) + sizes[k]
  {
    if x >= Addr(base, sizes, n - 1) {
      k := n - 1;
    } else {
      k := ChunkOf(base, sizes, x, n - 1);
    }
  }
}
