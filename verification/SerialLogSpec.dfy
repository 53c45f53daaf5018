/**
  What the rotating serial log keeps (internal/supervisor/serial_log.go), as functions of the bytes
  written: the log is a window on the end of one stream, cut into blocks of `maxSize` bytes.
 */
module SerialLogSpec {
  import opened Wrappers

  /** The active file and the numbered backups, newest first; None is a file that does not exist. */
  datatype Disk = Disk(active: Option<Bytes>, backups: seq<Option<Bytes>>)

  function Content(f: Option<Bytes>): Bytes {
    if f.Some? then f.value else []
  }

  /** The bytes of the backups, oldest first. */
  function Oldest(backups: seq<Option<Bytes>>): Bytes {
    if backups == [] then [] else Oldest(backups[1..]) + Content(backups[0])
  }

  /** Everything the files hold, oldest byte first. */
  function Retained(d: Disk): Bytes {
    Oldest(d.backups) + Content(d.active)
  }

  /** The disk without its oldest backup. */
  function DropOldest(d: Disk): Disk
    requires |d.backups| > 0
  {
    d.(backups := d.backups[|d.backups| - 1 := None])
  }

  /** No file is larger than the limit. */
  predicate Bounded(d: Disk, maxSize: nat) {
    && (d.active.Some? ==> |d.active.value| <= maxSize)
    && (forall j :: 0 <= j < |d.backups| && d.backups[j].Some? ==> |d.backups[j].value| <= maxSize)
  }

  predicate IsSuffix(t: Bytes, s: Bytes) {
    |t| <= |s| && s[|s| - |t|..] == t
  }

  /** A completed rotation: the active file becomes backup 0, the oldest backup goes. */
  function Rotated(d: Disk): Disk
    requires |d.backups| > 0
  {
    Disk(Some([]), [d.active] + d.backups[..|d.backups| - 1])
  }

  predicate Writable(d: Disk, maxSize: nat) {
    d.active.Some? && |d.active.value| <= maxSize && |d.backups| > 0 && maxSize > 0
  }

  /** How much of a nonempty `input` the next write takes. */
  function Room(d: Disk, input: Bytes, maxSize: nat): (k: nat)
    requires Writable(d, maxSize)
    ensures k <= |input| && (|d.active.value| < maxSize && input != [] ==> k > 0)
  {
    if |input| <= maxSize - |d.active.value| then |input| else maxSize - |d.active.value|
  }

  /** The disk the next chunk of a write goes to: a full active file is rotated first. */
  function Ready(d: Disk, maxSize: nat): (e: Disk)
    requires Writable(d, maxSize)
    ensures Writable(e, maxSize) && |e.active.value| < maxSize
  {
    if |d.active.value| == maxSize then Rotated(d) else d
  }

  function Append(d: Disk, chunk: Bytes): Disk
    requires d.active.Some?
  {
    d.(active := Some(d.active.value + chunk))
  }

  /** The disk after a write of `input` in which no I/O step failed. */
  function After(d: Disk, input: Bytes, maxSize: nat): (r: Disk)
    requires Writable(d, maxSize)
    ensures Writable(r, maxSize) && |r.backups| == |d.backups|
    decreases |input|
  {
    if input == [] then d
    else
      var e := Ready(d, maxSize);
      var k := Room(e, input, maxSize);
      After(Append(e, input[..k]), input[k..], maxSize)
  }

  /** The files `now` hold every byte that `full` holds, or all but those of its oldest backup. */
  predicate OnlyOldestLost(now: Disk, full: Disk)
    requires |full.backups| > 0
  {
    Retained(now) == Retained(full) || Retained(now) == Retained(DropOldest(full))
  }

  // ---------- The one-line specification ----------

  /** How many full blocks have been rotated out of a stream of `n` bytes. */
  function FullBlocks(n: nat, maxSize: nat): nat
    requires maxSize > 0
  {
    if n == 0 then 0 else (n - 1) / maxSize
  }

  /** Block `i` of the stream, if the stream has that block in full. */
  function Block(s: Bytes, i: nat, maxSize: nat): Bytes {
    if (i + 1) * maxSize <= |s| then s[i * maxSize..(i + 1) * maxSize] else []
  }

  /** Backup `j` is the `j`-th most recent of `b` full blocks. */
  function Backup(s: Bytes, b: nat, j: nat, maxSize: nat): Option<Bytes> {
    if j < b then Some(Block(s, b - 1 - j, maxSize)) else None
  }

  /** The `n` backups when `b` full blocks have been rotated out. */
  function Backups(s: Bytes, b: nat, n: nat, maxSize: nat): (r: seq<Option<Bytes>>)
    ensures |r| == n && forall j :: 0 <= j < n ==> r[j] == Backup(s, b, j, maxSize)
  {
    seq(n, j requires 0 <= j < n => Backup(s, b, j, maxSize))
  }

  /** The files after the stream `s` was written to an empty log. */
  function Files(s: Bytes, maxSize: nat, maxBackups: nat): Disk
    requires maxSize > 0
  {
    var b := FullBlocks(|s|, maxSize);
    Disk(Some(if b * maxSize <= |s| then s[b * maxSize..] else []), Backups(s, b, maxBackups, maxSize))
  }

  // ---------- Arithmetic of the block size ----------

  lemma MulMonotone(a: nat, b: nat, m: nat)
    requires a <= b
    ensures a * m <= b * m
  {
  }

  lemma DivUnique(n: nat, q: nat, m: nat)
    requires m > 0 && q * m <= n < (q + 1) * m
    ensures n / m == q
  {
    var d := n / m;
    assert d * m <= n < (d + 1) * m;
    if d < q { MulMonotone(d + 1, q, m); }
    if q < d { MulMonotone(q + 1, d, m); }
  }

  /** The active file of a nonempty stream holds its last ((n - 1) mod maxSize) + 1 bytes. */
  lemma ActiveLength(s: Bytes, maxSize: nat, maxBackups: nat)
    requires maxSize > 0 && |s| > 0
    ensures var active := Files(s, maxSize, maxBackups).active;
      active.Some? && |active.value| == (|s| - 1) % maxSize + 1 && IsSuffix(active.value, s)
  {
    var b := FullBlocks(|s|, maxSize);
    assert |s| - 1 == b * maxSize + (|s| - 1) % maxSize;
  }

  /** Appending `k` bytes that fit leaves the number of full blocks alone; appending to a full file adds one. */
  lemma FullBlocksGrow(n: nat, k: nat, maxSize: nat)
    requires maxSize > 0 && k > 0
    ensures var b := FullBlocks(n, maxSize);
      && b * maxSize <= n <= (b + 1) * maxSize
      && (n - b * maxSize + k <= maxSize ==> FullBlocks(n + k, maxSize) == b)
      && (n == (b + 1) * maxSize && k <= maxSize ==> FullBlocks(n + k, maxSize) == b + 1)
  {
    var b := FullBlocks(n, maxSize);
    if n > 0 { assert n - 1 == b * maxSize + (n - 1) % maxSize; }
    if n - b * maxSize + k <= maxSize {
      DivUnique(n + k - 1, b, maxSize);
    } else if n == (b + 1) * maxSize && k <= maxSize {
      assert (b + 2) * maxSize == n + maxSize;
      DivUnique(n + k - 1, b + 1, maxSize);
    }
  }

  /** A block that lies within `s` is the same block of every extension of `s`. */
  lemma BlockOfPrefix(s: Bytes, c: Bytes, i: nat, maxSize: nat)
    requires (i + 1) * maxSize <= |s|
    ensures Block(s + c, i, maxSize) == Block(s, i, maxSize)
  {
    assert i * maxSize <= (i + 1) * maxSize;
    assert (s + c)[i * maxSize..(i + 1) * maxSize] == s[i * maxSize..(i + 1) * maxSize];
  }

  lemma BackupsOfPrefix(s: Bytes, c: Bytes, b: nat, j: nat, maxSize: nat)
    requires b * maxSize <= |s|
    ensures Backup(s + c, b, j, maxSize) == Backup(s, b, j, maxSize)
  {
    if j < b {
      MulMonotone(b - j, b, maxSize);
      BlockOfPrefix(s, c, b - 1 - j, maxSize);
    }
  }

  // ---------- The window law ----------

  lemma BackupsStay(s: Bytes, c: Bytes, b: nat, n: nat, maxSize: nat)
    requires b * maxSize <= |s|
    ensures Backups(s + c, b, n, maxSize) == Backups(s, b, n, maxSize)
  {
    forall j | 0 <= j < n ensures Backup(s + c, b, j, maxSize) == Backup(s, b, j, maxSize) {
      BackupsOfPrefix(s, c, b, j, maxSize);
    }
  }

  /** A chunk that fits the active file extends it. */
  lemma FilesAppend(s: Bytes, c: Bytes, maxSize: nat, maxBackups: nat)
    requires maxSize > 0 && c != []
    requires |s| - FullBlocks(|s|, maxSize) * maxSize + |c| <= maxSize
    ensures FullBlocks(|s|, maxSize) * maxSize <= |s|
    ensures Files(s + c, maxSize, maxBackups) == Append(Files(s, maxSize, maxBackups), c)
  {
    var b := FullBlocks(|s|, maxSize);
    FullBlocksGrow(|s|, |c|, maxSize);
    assert (s + c)[b * maxSize..] == s[b * maxSize..] + c;
    BackupsStay(s, c, b, maxBackups, maxSize);
  }

  /** Backup `j` after a rotation is what was backup `j - 1`, or the full active file. */
  lemma BackupShifts(s: Bytes, c: Bytes, b: nat, j: nat, maxSize: nat)
    requires maxSize > 0 && b * maxSize <= |s| && |s| == (b + 1) * maxSize
    ensures Backup(s + c, b + 1, j, maxSize) == if j == 0 then Some(s[b * maxSize..]) else Backup(s, b, j - 1, maxSize)
  {
    BackupsOfPrefix(s, c, b + 1, j, maxSize);
    if j == 0 {
      assert s[b * maxSize..(b + 1) * maxSize] == s[b * maxSize..];
    }
  }

  lemma BackupsShift(s: Bytes, c: Bytes, b: nat, n: nat, maxSize: nat)
    requires maxSize > 0 && n > 0 && b * maxSize <= |s| && |s| == (b + 1) * maxSize
    ensures Backups(s + c, b + 1, n, maxSize) == [Some(s[b * maxSize..])] + Backups(s, b, n, maxSize)[..n - 1]
  {
    var after, before := Backups(s + c, b + 1, n, maxSize), Backups(s, b, n, maxSize);
    forall j | 0 <= j < n ensures after[j] == if j == 0 then Some(s[b * maxSize..]) else before[j - 1] {
      BackupShifts(s, c, b, j, maxSize);
    }
  }

  /** A chunk that arrives at a full active file rotates it out and starts the next block. */
  lemma FilesRotate(s: Bytes, c: Bytes, maxSize: nat, maxBackups: nat)
    requires maxSize > 0 && 0 < |c| <= maxSize && maxBackups > 0
    requires |s| - FullBlocks(|s|, maxSize) * maxSize == maxSize
    ensures Files(s + c, maxSize, maxBackups) == Append(Rotated(Files(s, maxSize, maxBackups)), c)
  {
    var b := FullBlocks(|s|, maxSize);
    assert |s| == (b + 1) * maxSize;
    FullBlocksGrow(|s|, |c|, maxSize);
    BackupsShift(s, c, b, maxBackups, maxSize);
    assert (s + c)[|s|..] == c;
    assert [] + c == c;
  }

  /** The file sizes of a stream: the active file holds what the full blocks leave. */
  lemma FilesWritable(s: Bytes, maxSize: nat, maxBackups: nat)
    requires maxSize > 0 && maxBackups > 0
    ensures Writable(Files(s, maxSize, maxBackups), maxSize)
    ensures |Files(s, maxSize, maxBackups).active.value| == |s| - FullBlocks(|s|, maxSize) * maxSize
  {
    FullBlocksGrow(|s|, 1, maxSize);
  }

  /** One chunk of a write, as `After` cuts it, continues the stream. */
  lemma FilesChunk(s: Bytes, c: Bytes, maxSize: nat, maxBackups: nat)
    requires maxSize > 0 && maxBackups > 0 && c != []
    requires var n := |s| - FullBlocks(|s|, maxSize) * maxSize; |c| <= if n == maxSize then maxSize else maxSize - n
    ensures Writable(Files(s, maxSize, maxBackups), maxSize)
    ensures var d := Files(s, maxSize, maxBackups);
      Files(s + c, maxSize, maxBackups) == Append(Ready(d, maxSize), c)
  {
    FilesWritable(s, maxSize, maxBackups);
    if |s| - FullBlocks(|s|, maxSize) * maxSize == maxSize {
      FilesRotate(s, c, maxSize, maxBackups);
    } else {
      FilesAppend(s, c, maxSize, maxBackups);
    }
  }

  /**
    From an empty log, the files depend only on the bytes written: writing `input` after the stream
    `s` leaves the files of the stream `s + input`, whatever the sizes.
   */
  lemma {:induction false} WindowLaw(s: Bytes, input: Bytes, maxSize: nat, maxBackups: nat)
    requires maxSize > 0 && maxBackups > 0
    ensures Writable(Files(s, maxSize, maxBackups), maxSize)
    ensures After(Files(s, maxSize, maxBackups), input, maxSize) == Files(s + input, maxSize, maxBackups)
    decreases |input|
  {
    var d := Files(s, maxSize, maxBackups);
    FilesWritable(s, maxSize, maxBackups);
    if input == [] {
      assert s + input == s;
    } else {
      var e := Ready(d, maxSize);
      var k := Room(e, input, maxSize);
      FilesChunk(s, input[..k], maxSize, maxBackups);
      WindowLaw(s + input[..k], input[k..], maxSize, maxBackups);
      assert (s + input[..k]) + input[k..] == s + input;
    }
  }

  /** What an opened log without any files holds after the stream `s`: the window on its end. */
  lemma FromEmpty(s: Bytes, maxSize: nat, maxBackups: nat)
    requires maxSize > 0 && maxBackups > 0
    ensures After(Disk(Some([]), seq(maxBackups, _ => None)), s, maxSize) == Files(s, maxSize, maxBackups)
  {
    assert Files([], maxSize, maxBackups) == Disk(Some([]), seq(maxBackups, _ => None));
    WindowLaw([], s, maxSize, maxBackups);
    assert [] + s == s;
  }

  /** From any accepted files, two writes are one write of the concatenation. */
  lemma {:induction false} WritesCompose(d: Disk, a: Bytes, b: Bytes, maxSize: nat)
    requires Writable(d, maxSize)
    ensures After(After(d, a, maxSize), b, maxSize) == After(d, a + b, maxSize)
    decreases |a|
  {
    if a == [] {
      assert a + b == b;
    } else {
      var e := Ready(d, maxSize);
      var k, m := Room(e, a, maxSize), Room(e, a + b, maxSize);
      if k == |a| < m {
        // The second input continues in the chunk the first one started.
        assert a[..k] == a && a[k..] == [];
        AppendThenWrite(e, a, b, maxSize);
      } else {
        assert (a + b)[..m] == a[..k] && (a + b)[m..] == a[k..] + b;
        WritesCompose(Append(e, a[..k]), a[k..], b, maxSize);
      }
    }
  }

  /** A chunk that fits can be split: writing its second part after its first part changes nothing. */
  lemma AppendThenWrite(e: Disk, a: Bytes, b: Bytes, maxSize: nat)
    requires Writable(e, maxSize) && |e.active.value| + |a| < maxSize && a != [] && b != []
    ensures After(Append(e, a), b, maxSize) == After(e, a + b, maxSize)
  {
    var f := Append(e, a);
    var k, m := Room(f, b, maxSize), Room(e, a + b, maxSize);
    assert (a + b)[..m] == a + b[..k] && (a + b)[m..] == b[k..];
    assert Append(f, b[..k]) == Append(e, (a + b)[..m]) by {
      assert e.active.value + a + b[..k] == e.active.value + (a + b[..k]);
    }
  }

  // ---------- Concatenation of backups ----------

  lemma {:induction false} OldestConcat(a: seq<Option<Bytes>>, b: seq<Option<Bytes>>)
    ensures Oldest(a + b) == Oldest(b) + Oldest(a)
    decreases |a|
  {
    if a == [] {
      assert a + b == b;
    } else {
      assert (a + b)[1..] == a[1..] + b;
      OldestConcat(a[1..], b);
    }
  }

  lemma GapBehind(a: seq<Option<Bytes>>)
    ensures Oldest(a + [None]) == Oldest(a)
  {
    OldestConcat(a, [None]);
    assert Oldest([None]) == [];
  }

  /** A gap among the backups holds no bytes: moving it leaves what is retained. */
  lemma GapIsEmpty(a: seq<Option<Bytes>>, b: seq<Option<Bytes>>)
    ensures Oldest(a + [None] + b) == Oldest(a + b) && Oldest(a + b + [None]) == Oldest(a + b)
  {
    GapBehind(a);
    OldestConcat(a + [None], b);
    OldestConcat(a, b);
    GapBehind(a + b);
  }

  /** What is retained is the oldest backup followed by the rest. */
  lemma OldestFirst(d: Disk)
    requires |d.backups| > 0
    ensures Retained(d) == Content(d.backups[|d.backups| - 1]) + Retained(DropOldest(d))
  {
    var n := |d.backups| - 1;
    var rest := d.backups[..n];
    assert d.backups == rest + [d.backups[n]] && DropOldest(d).backups == rest + [None];
    OldestConcat(rest, [d.backups[n]]);
    OldestConcat(rest, [None]);
  }

  /** Wherever the gap of a removed oldest backup has moved to, the backups hold the same bytes. */
  lemma GapMoved(a: seq<Option<Bytes>>, b: seq<Option<Bytes>>, kept: seq<Option<Bytes>>)
    requires kept == a + b + [None]
    ensures Oldest(a + [None] + b) == Oldest(kept)
  {
    GapIsEmpty(a, b);
  }

  /** Dropping the oldest backup leaves a suffix of what was retained. */
  lemma DropOldestIsSuffix(d: Disk)
    requires |d.backups| > 0
    ensures IsSuffix(Retained(DropOldest(d)), Retained(d))
  {
    OldestFirst(d);
  }

  /** A rotation retains everything but the oldest backup. */
  lemma RotatedRetains(d: Disk)
    requires |d.backups| > 0
    ensures Retained(Rotated(d)) == Retained(DropOldest(d))
  {
    var rest := d.backups[..|d.backups| - 1];
    assert DropOldest(d).backups == rest + [None];
    OldestConcat([d.active], rest);
    OldestConcat(rest, [None]);
  }

  lemma SuffixExtends(t: Bytes, s: Bytes, c: Bytes)
    requires IsSuffix(t, s)
    ensures IsSuffix(t + c, s + c)
  {
  }

  /** Bytes appended to the active file extend what is retained. */
  lemma AppendRetains(d: Disk, added: Bytes)
    requires d.active.Some?
    ensures Retained(Append(d, added)) == Retained(d) + added
  {
  }

  /** The first bytes of one chunk: a write of just these. */
  lemma ChunkIsWrite(d: Disk, input: Bytes, n: nat, maxSize: nat)
    requires Writable(d, maxSize) && 0 < n <= Room(Ready(d, maxSize), input, maxSize)
    ensures After(d, input[..n], maxSize) == Append(Ready(d, maxSize), input[..n])
  {
    assert input[..n][n..] == [];
    assert input[..n][..n] == input[..n];
  }

  /** The first bytes of one chunk, of which there may be none although a full file was rotated. */
  lemma ChunkLosesOldest(d: Disk, input: Bytes, n: nat, maxSize: nat)
    requires Writable(d, maxSize) && n <= Room(Ready(d, maxSize), input, maxSize)
    ensures OnlyOldestLost(Append(Ready(d, maxSize), input[..n]), After(d, input[..n], maxSize))
  {
    if n > 0 {
      ChunkIsWrite(d, input, n, maxSize);
    } else {
      AppendRetains(Ready(d, maxSize), input[..0]);
      if |d.active.value| == maxSize { RotatedRetains(d); }
    }
  }

  /** A write continued by the first bytes of what is left of its input. */
  lemma WriteContinues(d: Disk, input: Bytes, already: nat, n: nat, maxSize: nat)
    requires Writable(d, maxSize) && already + n <= |input|
    ensures After(After(d, input[..already], maxSize), input[already..][..n], maxSize)
      == After(d, input[..already + n], maxSize)
  {
    var a, b := input[..already], input[already..][..n];
    assert input[..already + n] == a + b;
    WritesCompose(d, a, b, maxSize);
  }

  lemma SuffixTransitive(r: Bytes, t: Bytes, s: Bytes)
    requires IsSuffix(r, t) && IsSuffix(t, s)
    ensures IsSuffix(r, s)
  {
  }
}
