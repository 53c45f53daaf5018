/**
  The guest agent reader, in place on its position in the bytes received before the connection
  fails or its deadline passes (internal/qemu/qga.go).
 */
module Qga {
  import opened Wrappers
  import opened QgaSpec

  /** Why `ReadLine` stopped: a newline, no more input, or one byte beyond the limit. */
  datatype Stop = AtNewline | AtEnd | BeyondLimit

  function Outcome(f: FrameRead): Result<Bytes, Error> {
    if f.Frame? then Ok(f.text) else Err(f.error)
  }

  class Reader {
    const input: Bytes
    const codec: Codec
    const maximum: nat
    var pos: nat

    ghost predicate Valid()
      reads this
    {
      pos <= |input|
    }

    ghost function Rest(): Bytes
      requires Valid()
      reads this
    {
      input[pos..]
    }

    constructor (input: Bytes, codec: Codec, maximum: nat)
      ensures Valid() && Rest() == input && this.codec == codec && this.maximum == maximum
    {
      this.input, this.codec, this.maximum, this.pos := input, codec, maximum, 0;
    }

    /** `readUntilQGADelimiter` */
    method ReadUntilDelimiter() returns (err: Option<Error>)
      requires Valid()
      modifies `pos
      ensures Valid()
      ensures var n := DelimiterEnd(old(Rest()));
        if n.Some? && n.value <= maximum then err.None? && pos == old(pos) + n.value
        else if |old(Rest())| > maximum then err == Some(TooLong) && pos == old(pos) + maximum + 1
        else err == Some(EndOfInput) && pos == |input|
    {
      var count := 0;
      ghost var start := pos;
      while true
        invariant Valid() && pos == start + count && count <= maximum
        invariant var n := DelimiterEnd(input[pos..]);
          DelimiterEnd(input[start..]) == if n.None? then None else Some(n.value + count)
        decreases |input| - pos
      {
        if pos == |input| {
          return Some(EndOfInput);
        }
        var b := input[pos];
        assert input[pos..][1..] == input[pos + 1..];
        pos, count := pos + 1, count + 1;
        if count > maximum {
          return Some(TooLong);
        }
        if b == DELIMITER {
          return None;
        }
      }
    }

    /** The inner loop of `readQGAFrame`: bytes up to a newline, `before` having been read already. */
    method ReadLine(before: nat) returns (frame: Bytes, stop: Stop)
      requires Valid() && before <= maximum
      modifies `pos
      ensures Valid()
      ensures var n := LineLength(old(Rest()));
        if n > maximum - before then stop == BeyondLimit && pos == old(pos) + (maximum - before) + 1
        else (pos == old(pos) + n && frame == old(Rest())[..n] && stop != BeyondLimit
              && (stop == AtEnd <==> n == 0 || old(Rest())[n - 1] != NEWLINE))
    {
      ghost var s := Rest();
      frame := [];
      while true
        invariant Valid() && |frame| <= |s| && pos == old(pos) + |frame|
        invariant frame == s[..|frame|] && NEWLINE !in frame && before + |frame| <= maximum
        decreases |input| - pos
      {
        NoLineYet(s, |frame|);
        if pos == |input| {
          if |frame| > 0 { assert frame[|frame| - 1] in frame; }
          return frame, AtEnd;
        }
        var b := input[pos];
        assert b == s[|frame|];
        pos := pos + 1;
        if before + |frame| + 1 > maximum {
          return frame, BeyondLimit;
        }
        frame := frame + [b];
        if b == NEWLINE {
          return frame, AtNewline;
        }
      }
    }

    /** `all` is what reading a frame comes to when `count` bytes of blank lines have been read for it. */
    ghost predicate Reading(all: FrameRead, count: nat)
      reads this
    {
      Valid() && count <= maximum && all == Shift(FrameFrom(Rest(), count, maximum), count)
    }

    /** One turn of `readQGAFrame`: the next line decides, unless it is blank. */
    method ReadTurn(count: nat, ghost all: FrameRead) returns (turn: Option<Result<Bytes, Error>>, next: nat)
      requires Reading(all, count)
      modifies `pos
      ensures Valid() && pos >= old(pos)
      ensures turn.Some? ==> pos - old(pos) == all.used - count && turn.value == Outcome(all)
      ensures turn.None? ==> old(pos) < pos && next == count + (pos - old(pos)) && Reading(all, next)
    {
      ghost var s := Rest();
      var frame, stop := ReadLine(count);
      next := count + |frame|;
      if stop == BeyondLimit {
        return Some(Err(TooLong)), next;
      }
      var trimmed := Strip(frame);
      if trimmed != [] {
        return Some(Ok(trimmed)), next;
      }
      if stop == AtEnd {
        return Some(Err(EndOfInput)), next;
      }
      assert s[|frame|..] == Rest();
      turn := None;
    }

    /** `readQGAFrame`: blank frames are dropped, but count against the limit of the frame read. */
    method ReadFrame() returns (r: Result<Bytes, Error>)
      requires Valid()
      modifies `pos
      ensures Valid()
      ensures var f := FrameFrom(old(Rest()), 0, maximum); pos == old(pos) + f.used && r == Outcome(f)
    {
      var count := 0;
      ghost var all := FrameFrom(Rest(), 0, maximum);
      while true
        invariant Reading(all, count) && pos == old(pos) + count
        decreases |input| - pos
      {
        var turn;
        turn, count := ReadTurn(count, all);
        if turn.Some? {
          return turn.value;
        }
      }
    }

    /** The loop that `awaitQGASync` and `awaitQGAResult` share: frames are read until one is not skipped. */
    method Await(call: Call, id: nat) returns (r: Result<Bytes, Error>)
      requires Valid()
      modifies `pos
      ensures Valid()
      ensures var reply := ReplyFrom(codec, call, old(Rest()), id, 0, maximum);
        r == reply.result && pos == old(pos) + reply.used
    {
      ghost var start := pos;
      while true
        invariant Valid() && start <= pos
        invariant ReplyFrom(codec, call, input[start..], id, 0, maximum)
          == ShiftReply(ReplyFrom(codec, call, Rest(), id, 0, maximum), pos - start)
        decreases |input| - pos
      {
        ghost var s, before := Rest(), pos;
        var frame := ReadFrame();
        if frame.Err? {
          return Err(frame.error);
        }
        if frame.value !in codec.decode {
          return Err(Undecodable);
        }
        var verdict := VerdictOf(codec, call, codec.decode[frame.value], id);
        if verdict.Accept? {
          return Ok(verdict.payload);
        }
        if verdict.Reject? {
          return Err(verdict.error);
        }
        assert s[pos - before..] == Rest();
      }
    }

    /** `awaitQGASync` */
    method AwaitSync(id: nat) returns (err: Option<Error>)
      requires Valid()
      modifies `pos
      ensures Valid()
      ensures var reply := SyncReply(codec, old(Rest()), id, maximum);
        pos == old(pos) + reply.used && err == if reply.result.Ok? then None else Some(reply.result.error)
    {
      ghost var s := Rest();
      err := ReadUntilDelimiter();
      if err.Some? {
        return;
      }
      assert s[pos - old(pos)..] == Rest();
      var r := Await(Sync, id);
      err := if r.Ok? then None else Some(r.error);
    }

    /** `awaitQGAResult`: a payload is always that of this request's own frame, the last one consumed. */
    method AwaitResult(id: nat) returns (r: Result<Bytes, Error>)
      requires Valid()
      modifies `pos
      ensures Valid()
      ensures var reply := ReplyFrom(codec, Execute, old(Rest()), id, 0, maximum);
        r == reply.result && pos == old(pos) + reply.used
      ensures r.Ok? ==> EndsWithOwnReply(codec, old(Rest()), pos - old(pos), id, r.value)
    {
      ghost var s := Rest();
      r := Await(Execute, id);
      if r.Ok? {
        NeverAnothersPayload(codec, Execute, s, id, 0, maximum);
      }
    }
  }
}
