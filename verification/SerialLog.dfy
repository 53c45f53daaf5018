/**
  The rotating serial log writer, in place on its files, where any I/O step may fail
  (internal/supervisor/serial_log.go).
 */
module SerialLog {
  import opened Wrappers
  import opened SerialLogSpec

  datatype IoError =
    | InvalidLimits | InspectFailed | CloseFailed | RemoveFailed | RenameFailed | OpenFailed
    | TruncateFailed | WriteFailed | ShortWrite | ReadFailed

  /** `w.file`: nil, open, or a descriptor whose Close reported an error. */
  datatype Handle = Nil | Open | Broken

  /** All bytes of the chunks, in order. */
  function Flatten(chunks: seq<Bytes>): Bytes {
    if chunks == [] then [] else Flatten(chunks[..|chunks| - 1]) + chunks[|chunks| - 1]
  }

  /** All backups but the last, which is the gap's at first, with the gap at number `index`. */
  function WithGap(kept: seq<Option<Bytes>>, index: nat): (moved: seq<Option<Bytes>>)
    requires index < |kept|
    ensures |moved| == |kept|
    ensures index == |kept| - 1 && kept[index] == None ==> moved == kept
    ensures index == 0 ==> moved == [None] + kept[..|kept| - 1]
  {
    kept[..index] + [None] + kept[index..|kept| - 1]
  }

  /** Moving backup `index - 1` into the gap moves the gap down by one. */
  lemma GapStep(kept: seq<Option<Bytes>>, index: nat)
    requires 0 < index < |kept|
    ensures var with := WithGap(kept, index);
      WithGap(kept, index - 1)
      == if with[index - 1].Some? then with[index := with[index - 1]][index - 1 := None] else with
  {
    var with, next := WithGap(kept, index), WithGap(kept, index - 1);
    assert with[index - 1] == kept[index - 1] && with[index] == None;
  }

  /** Wherever the gap is, the files hold the same bytes. */
  lemma GapKeepsBytes(kept: seq<Option<Bytes>>, index: nat)
    requires index < |kept| && kept[|kept| - 1] == None
    ensures Oldest(WithGap(kept, index)) == Oldest(kept)
  {
    SplitAtGap(kept, index);
    GapMoved(kept[..index], kept[index..|kept| - 1], kept);
  }

  lemma SplitAtGap(kept: seq<Option<Bytes>>, index: nat)
    requires index < |kept| && kept[|kept| - 1] == None
    ensures kept == kept[..index] + kept[index..|kept| - 1] + [None]
  {
  }

  /** Wherever the gap is, the files are within the same limit. */
  lemma GapKeepsLimit(kept: seq<Option<Bytes>>, index: nat, active: Option<Bytes>, maxSize: nat)
    requires index < |kept| && Bounded(Disk(active, kept), maxSize)
    ensures Bounded(Disk(active, WithGap(kept, index)), maxSize)
  {
    var moved := WithGap(kept, index);
    forall j | 0 <= j < |moved| && moved[j].Some? ensures |moved[j].value| <= maxSize {
      assert moved[j] == kept[if j < index then j else j - 1];
    }
  }

  class RotatingLog {
    var active: Option<Bytes>
    var backups: seq<Option<Bytes>>
    var stale: Option<Bytes>        // the file numbered maxBackups, left by an older configuration
    var file: Handle
    var size: nat
    const maxSize: nat
    const maxBackups: nat
    /** Whether each Write so far succeeded. */
    ghost var outcomes: seq<bool>

    function Disk(): Disk
      reads `active, `backups
    {
      SerialLogSpec.Disk(active, backups)
    }

    /** The log as `openRotatingSerialLog` hands it out, and every later state of it. */
    ghost predicate Valid()
      reads `active, `backups, `file, `size
    {
      && maxSize > 0 && maxBackups > 0 && |backups| == maxBackups
      && Bounded(Disk(), maxSize)
      && (file == Open ==> active.Some? && size == |active.value|)
      && size <= maxSize
    }

    /** Any files at all, with gaps and of any size, before the log is opened. */
    constructor (
        active: Option<Bytes>, backups: seq<Option<Bytes>>, stale: Option<Bytes>, maxSize: nat, maxBackups: nat)
      requires |backups| == maxBackups
      ensures Disk() == SerialLogSpec.Disk(active, backups) && this.stale == stale && file == Nil && size == 0
      ensures this.maxSize == maxSize && this.maxBackups == maxBackups && outcomes == []
    {
      this.active, this.backups, this.stale := active, backups, stale;
      this.file, this.size, this.maxSize, this.maxBackups := Nil, 0, maxSize, maxBackups;
      this.outcomes := [];
    }

    // ---------- System calls ----------

    /** Remove of backup `index`; a missing file is no error. */
    method RemoveBackup(index: nat) returns (ok: bool)
      requires index < |backups|
      modifies `backups
      ensures backups == if ok then old(backups)[index := None] else old(backups)
    {
      ok := *;
      if ok { backups := backups[index := None]; }
    }

    /** Rename of backup `index` to the next number; a missing source is no error and changes nothing. */
    method RenameBackup(index: nat) returns (ok: bool)
      requires index + 1 < |backups|
      modifies `backups
      ensures backups == if ok && old(backups)[index].Some?
        then old(backups)[index + 1 := old(backups)[index]][index := None] else old(backups)
    {
      ok := *;
      if ok && backups[index].Some? { backups := backups[index + 1 := backups[index]][index := None]; }
    }

    /** Rename of the active file to backup 0. */
    method RenameActive() returns (ok: bool)
      requires |backups| > 0
      modifies `active, `backups
      ensures ok ==> old(active).Some? && active == None && backups == old(backups)[0 := old(active)]
      ensures !ok ==> active == old(active) && backups == old(backups)
    {
      ok := *;
      ok := ok && active.Some?;
      if ok { active, backups := None, backups[0 := active]; }
    }

    /** Opens the active file, creating it; it may be created although a later check fails. */
    method OpenActive() returns (ok: bool)
      modifies `active
      ensures ok ==> active == Some(Content(old(active)))
      ensures active == old(active) || (old(active) == None && active == Some([]))
    {
      ok := *;
      var created := *;
      if active.None? && (ok || created) { active := Some([]); }
    }

    // ---------- Opening ----------

    /** `openRotatingSerialLog`: oversized backups and the stale one go, an oversized active file is emptied. */
    method OpenLog() returns (err: Option<IoError>)
      requires file == Nil && |backups| == maxBackups
      modifies `active, `backups, `stale, `file, `size
      ensures |backups| == maxBackups
      ensures err == Some(InvalidLimits) <==> maxSize == 0 || maxBackups == 0
      ensures err.None? ==> Valid() && file == Open && stale == None
      ensures err.None? ==> active == Some(if |Content(old(active))| > maxSize then [] else Content(old(active)))
      ensures err.None? ==> forall j :: 0 <= j < maxBackups ==>
        backups[j] == if |Content(old(backups)[j])| > maxSize then None else old(backups)[j]
      ensures err.Some? ==> file == Nil
    {
      if maxSize == 0 || maxBackups == 0 {
        return Some(InvalidLimits);
      }
      var ok := *;
      if !ok {
        return Some(InspectFailed);
      }
      var index := 0;
      while index < maxBackups
        invariant 0 <= index <= maxBackups && |backups| == maxBackups
        invariant forall j :: 0 <= j < index ==>
          backups[j] == if |Content(old(backups)[j])| > maxSize then None else old(backups)[j]
        invariant forall j :: index <= j < maxBackups ==> backups[j] == old(backups)[j]
        modifies `backups
      {
        ok := *;
        if !ok {
          return Some(InspectFailed);
        }
        if backups[index].Some? && |backups[index].value| > maxSize {
          ok := RemoveBackup(index);
          if !ok {
            return Some(RemoveFailed);
          }
        }
        index := index + 1;
      }
      ok := *;
      if !ok {
        return Some(InspectFailed);
      }
      if stale.Some? {
        ok := *;
        if !ok {
          return Some(RemoveFailed);
        }
        stale := None;
      }
      ok := OpenActive();
      if !ok {
        return Some(OpenFailed);
      }
      size := |active.value|;
      if size > maxSize {
        ok := *;
        if !ok {
          return Some(TruncateFailed);
        }
        active, size := Some([]), 0;
      }
      file := Open;
      err := None;
    }

    // ---------- Rotation ----------

    /** One rename of the rotation: backup `index - 1` moves into the gap. */
    method ShiftOne(ghost kept: seq<Option<Bytes>>, index: nat) returns (ok: bool)
      requires |kept| == |backups| && 0 < index < |kept| && backups == WithGap(kept, index)
      modifies `backups
      ensures backups == WithGap(kept, if ok then index - 1 else index)
    {
      GapStep(kept, index);
      ok := RenameBackup(index - 1);
    }

    /**
      Renames every backup to the next number, the oldest but one first.  The gap the removed backup
      left moves down, so no rename overwrites a file; a failed rename has lost nothing.
     */
    method ShiftBackups() returns (ok: bool)
      requires maxBackups > 0 && |backups| == maxBackups && backups[maxBackups - 1] == None
      modifies `backups
      ensures |backups| == maxBackups
      ensures ok ==> backups == [None] + old(backups)[..maxBackups - 1]
      ensures Oldest(backups) == Oldest(old(backups))
      ensures Bounded(old(Disk()), maxSize) ==> Bounded(Disk(), maxSize)
    {
      ghost var kept := backups;
      var index := maxBackups - 1;
      ok := true;
      while index > 0
        invariant 0 <= index < maxBackups && backups == WithGap(kept, index) && ok
        modifies `backups
      {
        ok := ShiftOne(kept, index);
        if !ok {
          break;
        }
        index := index - 1;
      }
      GapKeepsBytes(kept, index);
      if Bounded(old(Disk()), maxSize) { GapKeepsLimit(kept, index, active, maxSize); }
    }

    /**
      `rotate`: a completed rotation drops the oldest backup and renames the rest; a failed one has
      dropped at most the oldest backup and leaves the log unwritable, unless it failed before
      touching anything.
     */
    method Rotate() returns (err: Option<IoError>)
      requires Valid() && size == maxSize
      modifies `active, `backups, `file, `size
      ensures Valid()
      ensures err.None? ==> old(file) == Open && file == Open && Disk() == Rotated(old(Disk()))
      ensures err.Some? ==> file != Open || (old(file) == Open && Disk() == old(Disk()))
      ensures old(file) != Open ==> file == old(file) && Disk() == old(Disk())
      ensures OnlyOldestLost(Disk(), old(Disk()))
    {
      // Inspection of the backups and of the active file.
      var ok := *;
      if !ok {
        return Some(InspectFailed);
      }
      // Close, which fails on a nil file and on one whose Close failed before.
      ok := *;
      if file != Open || !ok {
        if file == Open { file := Broken; }
        return Some(CloseFailed);
      }
      file := Nil;
      ok := RemoveBackup(maxBackups - 1);
      if !ok {
        return Some(RemoveFailed);
      }
      assert Disk() == DropOldest(old(Disk()));
      ok := ShiftBackups();
      if !ok {
        return Some(RenameFailed);
      }
      ok := RenameActive();
      if !ok {
        return Some(RenameFailed);
      }
      RotatedRetains(old(Disk()));
      assert backups == Rotated(old(Disk())).backups;
      ok := OpenActive();
      if !ok {
        return Some(OpenFailed);
      }
      file, size := Open, 0;
      err := None;
    }

    // ---------- Writing ----------

    /** `file.Write`: some first bytes of the chunk are appended; on a file that is not open, none. */
    method AppendChunk(chunk: Bytes) returns (n: nat, ok: bool)
      requires file == Open ==> active.Some?
      modifies `active
      ensures n <= |chunk| && (file != Open ==> !ok)
      ensures active == if file == Open then Some(old(active).value + chunk[..n]) else old(active)
      ensures file != Open ==> n == 0
    {
      ok := *;
      var written: int := *;
      n := if written < 0 then 0 else if written > |chunk| then |chunk| else written;
      if file != Open {
        return 0, false;
      }
      active := Some(active.value + chunk[..n]);
    }

    /** The second half of a turn of `Write`: the part of `input` that fits goes to the active file. */
    method AppendFitting(input: Bytes) returns (n: nat, err: Option<IoError>)
      requires Valid() && input != [] && size < maxSize
      modifies `active, `size
      ensures Valid() && n <= |input|
      ensures err.None? ==> file == Open && n == Room(old(Disk()), input, maxSize)
      ensures file == Open ==> n <= Room(old(Disk()), input, maxSize)
      ensures if file == Open then Disk() == Append(old(Disk()), input[..n]) else n == 0 && Disk() == old(Disk())
    {
      var remaining := maxSize - size;
      var chunk := input;
      if |chunk| > remaining {
        chunk := chunk[..remaining];
      }
      var ok;
      n, ok := AppendChunk(chunk);
      assert chunk[..n] == input[..n];
      size := size + n;
      if !ok {
        return n, Some(WriteFailed);
      }
      if n != |chunk| {
        return n, Some(ShortWrite);
      }
      err := None;
    }

    /** One turn of the loop of `Write` on a nonempty input: rotate a full file, then append what fits. */
    method WriteChunk(input: Bytes) returns (n: nat, err: Option<IoError>)
      requires Valid() && input != []
      modifies `active, `backups, `file, `size
      ensures Valid() && n <= |input|
      ensures err.None? ==> old(file) == Open && file == Open
      ensures err.None? ==> n == Room(Ready(old(Disk()), maxSize), input, maxSize)
      ensures err.None? ==> Disk() == Append(Ready(old(Disk()), maxSize), input[..n])
      ensures IsSuffix(Retained(Disk()), Retained(old(Disk())) + input[..n])
      ensures old(file) == Open ==> OnlyOldestLost(Disk(), After(old(Disk()), input[..n], maxSize))
      ensures old(file) != Open ==> n == 0 && file == old(file) && Disk() == old(Disk())
    {
      if size == maxSize {
        DropOldestIsSuffix(Disk());
        err := Rotate();
        if err.Some? {
          SuffixExtends(Retained(Disk()), Retained(old(Disk())), input[..0]);
          assert Retained(Disk()) + input[..0] == Retained(Disk());
          assert input[..0] == [];
          return 0, err;
        }
      }
      ghost var ready := Disk();
      n, err := AppendFitting(input);
      AppendIsSuffix(ready, Disk(), old(Disk()), input[..n]);
      if file == Open { ChunkLosesOldest(old(Disk()), input, n, maxSize); }
    }

    /** The state of `Write` after the first `consumed` bytes of `input`. */
    ghost predicate Written(first: SerialLogSpec.Disk, input: Bytes, consumed: nat)
      reads `active, `backups, `file, `size
    {
      && Valid() && consumed <= |input|
      && IsSuffix(Retained(Disk()), Retained(first) + input[..consumed])
      && (file == Open ==> Writable(first, maxSize))
      && (file == Open ==> Disk() == After(first, input[..consumed], maxSize))
      && (file != Open ==> consumed == 0 && Disk() == first)
    }

    /** One turn of the loop of `Write`, within the whole input. */
    method WriteTurn(input: Bytes, consumed: nat, ghost first: SerialLogSpec.Disk)
      returns (n: nat, err: Option<IoError>)
      requires Written(first, input, consumed) && consumed < |input|
      modifies `active, `backups, `file, `size
      ensures Valid() && consumed + n <= |input|
      ensures IsSuffix(Retained(Disk()), Retained(first) + input[..consumed + n])
      ensures err.None? ==> n > 0 && file == old(file)
      ensures err.None? ==> Written(first, input, consumed + n)
      ensures old(file) == Open ==> OnlyOldestLost(Disk(), After(first, input[..consumed + n], maxSize))
      ensures old(file) != Open ==> n == 0 && file == old(file) && Disk() == old(Disk())
    {
      ghost var before, was := Disk(), file;
      n, err := WriteChunk(input[consumed..]);
      SuffixChains(Retained(Disk()), Retained(before), Retained(first), input, consumed, n);
      if was == Open {
        WriteContinues(first, input, consumed, n, maxSize);
        if err.None? { ChunkIsWrite(before, input[consumed..], n, maxSize); }
      }
    }

    /** The loop of `Write`. */
    method WriteAll(input: Bytes) returns (consumed: nat, err: Option<IoError>)
      requires Valid()
      modifies `active, `backups, `file, `size
      ensures Valid() && consumed <= |input|
      ensures err.None? ==> consumed == |input| && file == old(file) && Written(old(Disk()), input, consumed)
      ensures IsSuffix(Retained(Disk()), Retained(old(Disk())) + input[..consumed])
      ensures old(file) == Open ==> OnlyOldestLost(Disk(), After(old(Disk()), input[..consumed], maxSize))
      ensures old(file) != Open ==> consumed == 0 && Disk() == old(Disk())
    {
      consumed, err := 0, None;
      ghost var first, was := Disk(), file;
      NothingWritten(Retained(first), input);
      while consumed < |input| && err.None?
        invariant Valid() && consumed <= |input|
        invariant IsSuffix(Retained(Disk()), Retained(first) + input[..consumed])
        invariant err.None? ==> Written(first, input, consumed) && file == was
        invariant was == Open ==>
          Writable(first, maxSize) && OnlyOldestLost(Disk(), After(first, input[..consumed], maxSize))
        invariant was != Open ==> consumed == 0 && Disk() == first
        decreases |input| - consumed, err.None?
      {
        var n;
        n, err := WriteTurn(input, consumed, first);
        consumed := consumed + n;
      }
    }

    /**
      `Write`: without an error all of `input` is in the log, exactly as the window law says.  With an
      error in any step, every byte is retained that a write of the bytes consumed retains, but for
      those of one whole oldest backup at most, and no file exceeds the limit.
     */
    method Write(input: Bytes) returns (consumed: nat, err: Option<IoError>)
      requires Valid()
      modifies `active, `backups, `file, `size, `outcomes
      ensures Valid() && consumed <= |input|
      ensures err.None? ==> consumed == |input| && file == old(file)
      ensures err.None? && old(file) == Open ==> Disk() == After(old(Disk()), input, maxSize)
      ensures err.None? && old(file) != Open ==> input == [] && Disk() == old(Disk())
      ensures old(file) == Open ==> OnlyOldestLost(Disk(), After(old(Disk()), input[..consumed], maxSize))
      ensures old(file) != Open ==> consumed == 0 && Disk() == old(Disk())
      ensures IsSuffix(Retained(Disk()), Retained(old(Disk())) + input[..consumed])
      ensures outcomes == old(outcomes) + [err.None?]
    {
      consumed, err := WriteAll(input);
      outcomes := outcomes + [err.None?];
      assert input[..|input|] == input;
    }

    /** `Close`: the handle is given up whether or not closing reports an error. */
    method CloseLog() returns (err: Option<IoError>)
      modifies `file
      ensures file == Nil && (err.Some? ==> err == Some(CloseFailed))
    {
      var ok := *;
      err := if file == Nil || (file == Open && ok) then None else Some(CloseFailed);
      file := Nil;
    }

    /** One chunk of `copySerialLog`: a failed Write closes the log for good. */
    method WriteOrDisable(chunk: Bytes) returns (ok: bool, ghost n: nat)
      requires Valid() && file == Open
      modifies `active, `backups, `file, `size, `outcomes
      ensures Valid() && n <= |chunk| && file == (if ok then Open else Nil)
      ensures ok ==> n == |chunk| && Disk() == After(old(Disk()), chunk, maxSize)
      ensures OnlyOldestLost(Disk(), After(old(Disk()), chunk[..n], maxSize))
      ensures IsSuffix(Retained(Disk()), Retained(old(Disk())) + chunk[..n])
      ensures outcomes == old(outcomes) + [ok]
    {
      var consumed, werr := Write(chunk);
      n, ok := consumed, werr.None?;
      if !ok {
        // Whether or not closing fails as well, durable logging is off from here on.
        var cerr := CloseLog();
      }
    }

    /** The state of `copySerialLog` after the stream `sofar`, of which the log got the first `kept` bytes. */
    ghost predicate Copied(first: SerialLogSpec.Disk, sofar: Bytes, kept: nat, warned: bool)
      requires Writable(first, maxSize)
      reads `active, `backups, `file, `size
    {
      Valid() && file == (if warned then Nil else Open) && Holds(first, sofar, kept, warned, Disk(), maxSize)
    }

    /** A nonempty read that is written. */
    method CopyNext(chunk: Bytes, ghost first: SerialLogSpec.Disk, ghost sofar: Bytes)
      returns (ok: bool, ghost kept: nat)
      requires Writable(first, maxSize) && Copied(first, sofar, |sofar|, false)
      modifies `active, `backups, `file, `size, `outcomes
      ensures Copied(first, sofar + chunk, kept, !ok)
      ensures outcomes == old(outcomes) + [ok]
    {
      ghost var before := Disk();
      ghost var n;
      ok, n := WriteOrDisable(chunk);
      HoldsMore(first, sofar, chunk, n, !ok, before, Disk(), maxSize);
      kept := |sofar| + n;
    }

    /** One turn of `copySerialLog`: a nonempty read is written unless logging has been disabled. */
    method CopyChunk(
        chunk: Bytes, disabled: bool,
        ghost first: SerialLogSpec.Disk, ghost sofar: Bytes, ghost already: nat, ghost earlier: seq<bool>)
      returns (warned: bool, ghost kept: nat)
      requires Writable(first, maxSize) && Copied(first, sofar, already, disabled)
      requires OnlyLastFails(earlier, outcomes, disabled)
      modifies `active, `backups, `file, `size, `outcomes
      ensures Copied(first, sofar + chunk, kept, warned)
      ensures OnlyLastFails(earlier, outcomes, warned)
      ensures disabled ==> warned && kept == already && Disk() == old(Disk())
    {
      warned, kept := disabled, already;
      NothingKept(sofar, chunk, already);
      if chunk != [] && !disabled {
        var ok;
        ok, kept := CopyNext(chunk, first, sofar);
        warned := !ok;
      }
    }

    /** The read loop of `copySerialLog`. */
    method CopyLoop(chunks: seq<Bytes>) returns (warned: bool, ghost kept: nat)
      requires Valid() && file == Open
      modifies `active, `backups, `file, `size, `outcomes
      ensures Copied(old(Disk()), Flatten(chunks), kept, warned)
      ensures OnlyLastFails(old(outcomes), outcomes, warned)
    {
      ghost var first, earlier := Disk(), outcomes;
      var i := 0;
      kept, warned := 0, false;
      assert Flatten(chunks[..0])[..0] == [] && Retained(first) + [] == Retained(first);
      while i < |chunks|
        invariant 0 <= i <= |chunks|
        invariant Copied(first, Flatten(chunks[..i]), kept, warned)
        invariant OnlyLastFails(earlier, outcomes, warned)
      {
        ghost var sofar := Flatten(chunks[..i]);
        assert Flatten(chunks[..i + 1]) == sofar + chunks[i] by { assert chunks[..i + 1][..i] == chunks[..i]; }
        warned, kept := CopyChunk(chunks[i], warned, first, sofar, kept, earlier);
        i := i + 1;
      }
      assert chunks[..i] == chunks;
    }

    /** The reads of `copySerialLog`, up to the one that reports end of file or an error. */
    method CopyChunks(chunks: seq<Bytes>) returns (warned: bool, ghost kept: nat)
      requires Valid() && file == Open
      modifies `active, `backups, `file, `size, `outcomes
      ensures Valid() && (warned ==> file == Nil) && kept <= |Flatten(chunks)|
      ensures !warned ==> kept == |Flatten(chunks)| && Disk() == After(old(Disk()), Flatten(chunks), maxSize)
      ensures OnlyOldestLost(Disk(), After(old(Disk()), Flatten(chunks)[..kept], maxSize))
      ensures IsSuffix(Retained(Disk()), Retained(old(Disk())) + Flatten(chunks)[..kept])
      ensures OnlyLastFails(old(outcomes), outcomes, warned)
    {
      warned, kept := CopyLoop(chunks);
    }

    /** The end of `copySerialLog`: a log that is still open is closed, and a read error reported. */
    method FinishCopy(warned: bool, eof: bool) returns (err: Option<IoError>)
      requires Valid() && (warned ==> file == Nil)
      modifies `file
      ensures Valid() && file == Nil
      ensures err.Some? <==> !eof || (!warned && err == Some(CloseFailed))
    {
      err := None;
      if !warned {
        err := CloseLog();
      }
      if !eof {
        err := Some(ReadFailed);
      }
    }

    /**
      `copySerialLog`: reads `chunks`, the last read reporting end of file or an error.  The log gets
      the first `kept` bytes of the stream, all of them when nothing was warned about, and has lost
      what these bytes displace and at most one whole oldest backup more; after its first failed Write
      it is never written again, and reading goes on to the end.
     */
    method Copy(chunks: seq<Bytes>, eof: bool) returns (warned: bool, err: Option<IoError>, ghost kept: nat)
      requires Valid() && file == Open
      modifies `active, `backups, `file, `size, `outcomes
      ensures Valid() && file == Nil && kept <= |Flatten(chunks)|
      ensures !warned ==> kept == |Flatten(chunks)| && Disk() == After(old(Disk()), Flatten(chunks), maxSize)
      ensures OnlyOldestLost(Disk(), After(old(Disk()), Flatten(chunks)[..kept], maxSize))
      ensures IsSuffix(Retained(Disk()), Retained(old(Disk())) + Flatten(chunks)[..kept])
      ensures OnlyLastFails(old(outcomes), outcomes, warned)
      ensures err.Some? <==> !eof || (!warned && err == Some(CloseFailed))
    {
      warned, kept := CopyChunks(chunks);
      err := FinishCopy(warned, eof);
    }
  }

  /** Every Write since `first` succeeded, except that the last one failed when there was a warning. */
  ghost predicate OnlyLastFails(first: seq<bool>, all: seq<bool>, warned: bool) {
    && first <= all && (warned ==> |first| < |all| && !all[|all| - 1])
    && (forall i :: |first| <= i < |all| && (warned ==> i + 1 < |all|) ==> all[i])
  }

  /** The disk holds the first `kept` bytes of the stream written to `first`, all of them when nothing failed. */
  ghost predicate Holds(first: Disk, sofar: Bytes, kept: nat, warned: bool, now: Disk, maxSize: nat)
    requires Writable(first, maxSize)
  {
    && kept <= |sofar|
    && (!warned ==> kept == |sofar| && now == After(first, sofar, maxSize))
    && OnlyOldestLost(now, After(first, sofar[..kept], maxSize))
    && IsSuffix(Retained(now), Retained(first) + sofar[..kept])
  }

  /** The next chunk, of which `n` bytes were written. */
  lemma HoldsMore(first: Disk, sofar: Bytes, chunk: Bytes, n: nat, warned: bool, before: Disk, now: Disk, maxSize: nat)
    requires Writable(first, maxSize) && Holds(first, sofar, |sofar|, false, before, maxSize)
    requires n <= |chunk| && IsSuffix(Retained(now), Retained(before) + chunk[..n])
    requires OnlyOldestLost(now, After(before, chunk[..n], maxSize))
    requires !warned ==> n == |chunk| && now == After(before, chunk, maxSize)
    ensures Holds(first, sofar + chunk, |sofar| + n, warned, now, maxSize)
  {
    ChunkKept(Retained(now), Retained(before), Retained(first), sofar, chunk, n);
    WritesCompose(first, sofar, chunk, maxSize);
    WritesCompose(first, sofar, chunk[..n], maxSize);
    assert (sofar + chunk)[..|sofar| + n] == sofar + chunk[..n];
  }

  /** A chunk that is not written leaves the part of the stream that was kept. */
  lemma NothingKept(sofar: Bytes, chunk: Bytes, kept: nat)
    requires kept <= |sofar|
    ensures (sofar + chunk)[..kept] == sofar[..kept] && (chunk == [] ==> sofar + chunk == sofar)
  {
  }

  /** A write of the next chunk keeps a prefix of the stream. */
  lemma ChunkKept(now: Bytes, before: Bytes, first: Bytes, sofar: Bytes, chunk: Bytes, n: nat)
    requires n <= |chunk| && IsSuffix(before, first + sofar[..|sofar|]) && IsSuffix(now, before + chunk[..n])
    ensures IsSuffix(now, first + (sofar + chunk)[..|sofar| + n])
  {
    var all := sofar + chunk;
    assert all[..|sofar|] == sofar[..|sofar|];
    assert all[|sofar|..] == chunk;
    SuffixChains(now, before, first, all, |sofar|, n);
  }

  lemma NothingWritten(first: Bytes, input: Bytes)
    ensures IsSuffix(first, first + input[..0]) && input[0..] == input
  {
    assert first + input[..0] == first;
  }

  /** What an append leaves is a suffix of what was retained before it and the bytes added. */
  lemma AppendIsSuffix(ready: Disk, now: Disk, first: Disk, added: Bytes)
    requires IsSuffix(Retained(ready), Retained(first))
    requires if ready.active.Some? && now == Append(ready, added) then true else now == ready && added == []
    ensures IsSuffix(Retained(now), Retained(first) + added)
  {
    SuffixExtends(Retained(ready), Retained(first), added);
    if ready.active.Some? && now == Append(ready, added) {
      AppendRetains(ready, added);
    } else {
      assert Retained(ready) + added == Retained(ready);
    }
  }

  /** A suffix of a suffix, with the next `n` bytes of the input added to both. */
  lemma SuffixChains(now: Bytes, before: Bytes, first: Bytes, input: Bytes, already: nat, n: nat)
    requires already + n <= |input| && IsSuffix(before, first + input[..already])
    requires IsSuffix(now, before + input[already..][..n])
    ensures IsSuffix(now, first + input[..already + n])
  {
    SuffixExtends(before, first + input[..already], input[already..][..n]);
    assert first + input[..already] + input[already..][..n] == first + input[..already + n];
    SuffixTransitive(now, before + input[already..][..n], first + input[..already + n]);
  }
}
