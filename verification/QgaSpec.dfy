/**
  Framing and resynchronisation of the guest agent protocol, as functions of the bytes a connection
  delivers (internal/qemu/qga.go).  JSON decoding and number parsing are parameters.
 */
module QgaSpec {
  import opened Wrappers

  const NEWLINE: Byte := 10
  const DELIMITER: Byte := 0xff

  datatype Id = NoId | BadId | Num(value: nat)

  /** `qgaResponse`: `event` when the event name is not empty. */
  datatype Response = Response(event: bool, id: Id, error: Option<Bytes>, payload: Option<Bytes>)

  /**
    The texts that decode, each to exactly one JSON object, and the payloads that are bare numbers; any
    other text is an error, any other payload no number.
   */
  datatype Codec = Codec(decode: map<Bytes, Response>, number: map<Bytes, nat>)

  datatype Error = TooLong | EndOfInput | Undecodable | InvalidId | NotExactlyOne | Reported(error: Bytes)

  // ---------- Frames ----------

  predicate IsSpace(b: Byte) {
    b == 32 || 9 <= b <= 13
  }

  function DropDelimiters(s: Bytes): Bytes {
    if s != [] && s[0] == DELIMITER then DropDelimiters(s[1..]) else s
  }

  function DropSpaceLeft(s: Bytes): Bytes {
    if s != [] && IsSpace(s[0]) then DropSpaceLeft(s[1..]) else s
  }

  function DropSpaceRight(s: Bytes): Bytes {
    if s != [] && IsSpace(s[|s| - 1]) then DropSpaceRight(s[..|s| - 1]) else s
  }

  /** The text of a line: leading delimiters go, then white space at both ends. */
  function Strip(line: Bytes): Bytes {
    DropSpaceRight(DropSpaceLeft(DropDelimiters(line)))
  }

  /** The length of the first line, its newline included; all of `s` when it has none. */
  function LineLength(s: Bytes): (n: nat)
    ensures n <= |s| && (s != [] ==> n > 0)
  {
    if s == [] then 0 else if s[0] == NEWLINE then 1 else 1 + LineLength(s[1..])
  }

  datatype FrameRead = Frame(text: Bytes, used: nat) | NoFrame(error: Error, used: nat)

  function Shift(f: FrameRead, n: nat): FrameRead {
    f.(used := f.used + n)
  }

  /** The next line that is not blank, after `count` bytes have been read for it already. */
  function FrameFrom(s: Bytes, count: nat, maximum: nat): (f: FrameRead)
    requires count <= maximum
    ensures f.used <= |s| && (f.Frame? ==> f.used > 0)
    decreases |s|
  {
    var n := LineLength(s);
    if n > maximum - count then NoFrame(TooLong, maximum - count + 1)
    else if Strip(s[..n]) != [] then Frame(Strip(s[..n]), n)
    else if n == 0 || s[n - 1] != NEWLINE then NoFrame(EndOfInput, n)
    else Shift(FrameFrom(s[n..], count + n, maximum), n)
  }

  // ---------- Replies ----------

  /** What one decoded response means to a waiting call. */
  datatype Verdict = Skip | Accept(payload: Bytes) | Reject(error: Error)

  function SyncVerdict(c: Codec, r: Response, id: nat): Verdict {
    if r.event then Skip
    else if r.id == BadId then Reject(InvalidId)
    else if r.error.Some? == r.payload.Some? then Reject(NotExactlyOne)
    else if r.error.Some? then (if r.id == Num(id) then Reject(Reported(r.error.value)) else Skip)
    else if r.id != Num(id) || r.payload.value !in c.number || c.number[r.payload.value] != id then Skip
    else Accept(r.payload.value)
  }

  function ResultVerdict(r: Response, id: nat): Verdict {
    if r.event then Skip
    else if r.id == BadId then Reject(InvalidId)
    else if r.id != Num(id) then Skip
    else if r.error.Some? == r.payload.Some? then Reject(NotExactlyOne)
    else if r.error.Some? then Reject(Reported(r.error.value))
    else Accept(r.payload.value)
  }

  datatype Call = Sync | Execute

  function VerdictOf(c: Codec, call: Call, r: Response, id: nat): Verdict {
    if call == Sync then SyncVerdict(c, r, id) else ResultVerdict(r, id)
  }

  /** What a text means to the call: one that does not decode is an error. */
  function TextVerdict(c: Codec, call: Call, text: Bytes, id: nat): Verdict {
    if text !in c.decode then Reject(Undecodable) else VerdictOf(c, call, c.decode[text], id)
  }

  datatype Reply = Reply(result: Result<Bytes, Error>, used: nat)

  /**
    The outcome of waiting for the reply to request `id` on the bytes `s`, and how many of them it
    takes, when `count` bytes of blank lines have been read already for the frame being waited for.
   */
  function ReplyFrom(c: Codec, call: Call, s: Bytes, id: nat, count: nat, maximum: nat): (r: Reply)
    requires count <= maximum
    ensures r.used <= |s|
    decreases |s|, 0
  {
    var f := FrameFrom(s, count, maximum);
    if f.NoFrame? then Reply(Err(f.error), f.used) else ReplyTo(c, call, f, s[f.used..], id, maximum)
  }

  /** The outcome once the frame `f` has been read, with `rest` behind it. */
  function ReplyTo(c: Codec, call: Call, f: FrameRead, rest: Bytes, id: nat, maximum: nat): (r: Reply)
    requires f.Frame?
    ensures r.used <= f.used + |rest|
    decreases |rest|, 1
  {
    var v := TextVerdict(c, call, f.text, id);
    if v == Skip then ShiftReply(ReplyFrom(c, call, rest, id, 0, maximum), f.used) else Settled(v, f.used)
  }

  function Settled(v: Verdict, used: nat): Reply
    requires v != Skip
  {
    if v.Accept? then Reply(Ok(v.payload), used) else Reply(Err(v.error), used)
  }

  function ShiftReply(r: Reply, n: nat): Reply {
    r.(used := r.used + n)
  }

  /** The number of bytes up to and including the first delimiter; None when there is none. */
  function DelimiterEnd(s: Bytes): (n: Option<nat>)
    ensures n.Some? ==> 0 < n.value <= |s| && s[n.value - 1] == DELIMITER
  {
    if s == [] then None
    else if s[0] == DELIMITER then Some(1)
    else
      var n := DelimiterEnd(s[1..]);
      if n.None? then None else Some(n.value + 1)
  }

  /** `awaitQGASync`: junk up to a delimiter is dropped, then the matching reply is waited for. */
  function SyncReply(c: Codec, s: Bytes, id: nat, maximum: nat): Reply {
    var n := DelimiterEnd(s);
    if n.Some? && n.value <= maximum then
      ShiftReply(ReplyFrom(c, Sync, s[n.value..], id, 0, maximum), n.value)
    else if |s| > maximum then Reply(Err(TooLong), maximum + 1)
    else Reply(Err(EndOfInput), |s|)
  }

  // ---------- Lines ----------

  predicate IsLine(line: Bytes) {
    line != [] && line[|line| - 1] == NEWLINE && NEWLINE !in line[..|line| - 1]
  }

  function Join(lines: seq<Bytes>): Bytes {
    if lines == [] then [] else lines[0] + Join(lines[1..])
  }

  lemma {:induction false} LineLengthOfLine(line: Bytes, tail: Bytes)
    requires IsLine(line)
    ensures LineLength(line + tail) == |line|
    decreases |line|
  {
    var s := line + tail;
    if |line| > 1 {
      assert s[0] == line[0] != NEWLINE by { assert line[0] in line[..|line| - 1]; }
      assert s[1..] == line[1..] + tail;
      assert line[1..][..|line| - 2] == line[..|line| - 1][1..];
      LineLengthOfLine(line[1..], tail);
    }
  }

  /** A prefix without a newline is not a whole line, unless the input ends with it. */
  lemma {:induction false} NoLineYet(s: Bytes, k: nat)
    requires k <= |s| && NEWLINE !in s[..k]
    ensures LineLength(s) >= k && (k < |s| ==> LineLength(s) > k)
    ensures k < |s| && s[k] == NEWLINE ==> LineLength(s) == k + 1
    ensures k == |s| ==> LineLength(s) == k
    decreases k
  {
    if k > 0 {
      assert s[0] in s[..k];
      assert s[1..][..k - 1] == s[..k][1..];
      NoLineYet(s[1..], k - 1);
    }
  }

  predicate Blank(line: Bytes) {
    Strip(line) == []
  }

  /** The return value of a synchronisation repeats its number. */
  predicate Echoes(c: Codec, r: Response, id: nat) {
    r.payload.Some? && r.payload.value in c.number && c.number[r.payload.value] == id
  }

  /**
    A frame that is not for the call: an event, another request's frame, or the return of an earlier
    synchronisation.  A synchronisation tells them only when they have exactly one of return and error.
   */
  predicate Foreign(c: Codec, call: Call, r: Response, id: nat) {
    r.event ||
    (match call
     case Execute => r.id != BadId && r.id != Num(id)
     case Sync =>
       && r.id != BadId && (r.error.Some? <==> r.payload.None?)
       && (r.id != Num(id) || (r.payload.Some? && !Echoes(c, r, id))))
  }

  /** The frame the call waits for: its own ID and a return value, which repeats the number when synchronising. */
  predicate Matching(c: Codec, call: Call, r: Response, id: nat, payload: Bytes) {
    && !r.event && r.id == Num(id) && r.error.None? && r.payload == Some(payload)
    && (call == Sync ==> Echoes(c, r, id))
  }

  /** The waits skip exactly the frames that are not for them, and accept exactly the one that is. */
  lemma WaitsExactly(c: Codec, call: Call, r: Response, id: nat, payload: Bytes)
    ensures VerdictOf(c, call, r, id) == Skip <==> Foreign(c, call, r, id)
    ensures VerdictOf(c, call, r, id) == Accept(payload) <==> Matching(c, call, r, id, payload)
  {
  }

  /** A line of one frame that is not for the call. */
  predicate ForeignLine(c: Codec, call: Call, line: Bytes, id: nat) {
    Strip(line) in c.decode && Foreign(c, call, c.decode[Strip(line)], id)
  }

  /** Noise for the call: a blank line, or a frame that is not for it. */
  predicate Noise(c: Codec, call: Call, line: Bytes, id: nat) {
    Blank(line) || ForeignLine(c, call, line, id)
  }

  predicate MatchingLine(c: Codec, call: Call, line: Bytes, id: nat, payload: Bytes) {
    Strip(line) in c.decode && Matching(c, call, c.decode[Strip(line)], id, payload)
  }

  lemma ForeignIsSkipped(c: Codec, call: Call, line: Bytes, id: nat)
    ensures ForeignLine(c, call, line, id) <==> TextVerdict(c, call, Strip(line), id) == Skip
  {
    if Strip(line) in c.decode { WaitsExactly(c, call, c.decode[Strip(line)], id, []); }
  }

  /** Every frame, with the blank lines in front of it, is within the limit. */
  predicate Fits(lines: seq<Bytes>, count: nat, maximum: nat) {
    lines == [] ||
    (count + |lines[0]| <= maximum && Fits(lines[1..], if Blank(lines[0]) then count + |lines[0]| else 0, maximum))
  }

  /** A blank line only adds to the count for the frame behind it. */
  lemma BlankLine(line: Bytes, rest: Bytes, count: nat, maximum: nat)
    requires IsLine(line) && Blank(line) && count + |line| <= maximum
    ensures FrameFrom(line + rest, count, maximum) == Shift(FrameFrom(rest, count + |line|, maximum), |line|)
  {
    LineLengthOfLine(line, rest);
    assert (line + rest)[..|line|] == line && (line + rest)[|line|..] == rest;
  }

  lemma TextLine(line: Bytes, rest: Bytes, count: nat, maximum: nat)
    requires IsLine(line) && !Blank(line) && count + |line| <= maximum
    ensures FrameFrom(line + rest, count, maximum) == Frame(Strip(line), |line|)
  {
    LineLengthOfLine(line, rest);
    assert (line + rest)[..|line|] == line;
  }

  /** Bytes in front of a frame that do not change it only move the reply. */
  lemma ReplyMoves(c: Codec, call: Call, f: FrameRead, n: nat, rest: Bytes, id: nat, maximum: nat)
    requires f.Frame?
    ensures ReplyTo(c, call, Shift(f, n), rest, id, maximum) == ShiftReply(ReplyTo(c, call, f, rest, id, maximum), n)
  {
  }

  lemma DropJoined(line: Bytes, rest: Bytes, n: nat)
    requires n <= |rest|
    ensures (line + rest)[|line| + n..] == rest[n..]
  {
  }

  lemma BlankNoise(c: Codec, call: Call, line: Bytes, rest: Bytes, id: nat, count: nat, maximum: nat)
    requires IsLine(line) && Blank(line) && count + |line| <= maximum
    ensures ReplyFrom(c, call, line + rest, id, count, maximum)
      == ShiftReply(ReplyFrom(c, call, rest, id, count + |line|, maximum), |line|)
  {
    BlankLine(line, rest, count, maximum);
    var f := FrameFrom(rest, count + |line|, maximum);
    if f.Frame? {
      DropJoined(line, rest, f.used);
      ReplyMoves(c, call, f, |line|, rest[f.used..], id, maximum);
    }
  }

  lemma SkippedNoise(c: Codec, call: Call, line: Bytes, rest: Bytes, id: nat, count: nat, maximum: nat)
    requires IsLine(line) && !Blank(line) && ForeignLine(c, call, line, id) && count + |line| <= maximum
    ensures ReplyFrom(c, call, line + rest, id, count, maximum)
      == ShiftReply(ReplyFrom(c, call, rest, id, 0, maximum), |line|)
  {
    TextLine(line, rest, count, maximum);
    ForeignIsSkipped(c, call, line, id);
    assert (line + rest)[|line|..] == rest;
  }

  /** One line of noise is used up and leaves the rest to be waited for. */
  lemma NoiseLine(c: Codec, call: Call, line: Bytes, rest: Bytes, id: nat, count: nat, maximum: nat)
    requires IsLine(line) && Noise(c, call, line, id) && count + |line| <= maximum
    ensures ReplyFrom(c, call, line + rest, id, count, maximum)
      == ShiftReply(ReplyFrom(c, call, rest, id, if Blank(line) then count + |line| else 0, maximum), |line|)
  {
    if Blank(line) {
      BlankNoise(c, call, line, rest, id, count, maximum);
    } else {
      SkippedNoise(c, call, line, rest, id, count, maximum);
    }
  }

  lemma FrameSettles(c: Codec, call: Call, line: Bytes, tail: Bytes, id: nat, count: nat, maximum: nat)
    requires IsLine(line) && !Blank(line) && count + |line| <= maximum && TextVerdict(c, call, Strip(line), id) != Skip
    ensures ReplyFrom(c, call, line + tail, id, count, maximum)
      == Settled(TextVerdict(c, call, Strip(line), id), |line|)
  {
    TextLine(line, tail, count, maximum);
  }

  /** The first line of noise, and the limits for what follows it. */
  lemma NoiseInFront(noise: seq<Bytes>, line: Bytes, rest: Bytes, count: nat, maximum: nat)
    requires noise != [] && Fits(noise + [line], count, maximum)
    ensures Join(noise) + rest == noise[0] + (Join(noise[1..]) + rest) && count + |noise[0]| <= maximum
    ensures Fits(noise[1..] + [line], if Blank(noise[0]) then count + |noise[0]| else 0, maximum)
  {
    assert (noise + [line])[0] == noise[0] && (noise + [line])[1..] == noise[1..] + [line];
  }

  /** Noise is read through to the frame behind it, whose verdict decides. */
  lemma {:induction false} NoiseThenFrame(
      c: Codec, call: Call, noise: seq<Bytes>, line: Bytes, tail: Bytes, id: nat, count: nat, maximum: nat)
    requires forall i :: 0 <= i < |noise| ==> IsLine(noise[i]) && Noise(c, call, noise[i], id)
    requires IsLine(line) && !Noise(c, call, line, id) && count <= maximum && Fits(noise + [line], count, maximum)
    ensures TextVerdict(c, call, Strip(line), id) != Skip
    ensures ReplyFrom(c, call, Join(noise) + (line + tail), id, count, maximum)
      == Settled(TextVerdict(c, call, Strip(line), id), |Join(noise)| + |line|)
    decreases |noise|
  {
    ForeignIsSkipped(c, call, line, id);
    if noise == [] {
      assert Join(noise) + (line + tail) == line + tail;
      assert noise + [line] == [line];
      FrameSettles(c, call, line, tail, id, count, maximum);
    } else {
      var rest := Join(noise[1..]) + (line + tail);
      NoiseInFront(noise, line, line + tail, count, maximum);
      NoiseLine(c, call, noise[0], rest, id, count, maximum);
      NoiseThenFrame(c, call, noise[1..], line, tail, id, if Blank(noise[0]) then count + |noise[0]| else 0, maximum);
    }
  }

  lemma {:induction false} DelimiterAfterJunk(junk: Bytes, rest: Bytes)
    requires DELIMITER !in junk
    ensures DelimiterEnd(junk + [DELIMITER] + rest) == Some(|junk| + 1)
    decreases |junk|
  {
    var s := junk + [DELIMITER] + rest;
    if junk != [] {
      assert s[0] == junk[0] && junk[0] in junk;
      assert s[1..] == junk[1..] + [DELIMITER] + rest;
      DelimiterAfterJunk(junk[1..], rest);
    }
  }

  /**
    Resynchronisation: after any junk without a delimiter, a delimiter, and any number of blank lines,
    events and other requests' frames within the limit, the call succeeds on the frame with its own ID
    and the echoed number, and has consumed exactly through its newline.
   */
  lemma Resynchronises(
      c: Codec, junk: Bytes, noise: seq<Bytes>, line: Bytes, tail: Bytes, id: nat, maximum: nat, payload: Bytes)
    requires DELIMITER !in junk && |junk| < maximum
    requires forall i :: 0 <= i < |noise| ==> IsLine(noise[i]) && Noise(c, Sync, noise[i], id)
    requires IsLine(line) && !Blank(line) && Fits(noise + [line], 0, maximum)
    requires MatchingLine(c, Sync, line, id, payload)
    ensures SyncReply(c, junk + [DELIMITER] + (Join(noise) + (line + tail)), id, maximum)
      == Reply(Ok(payload), |junk| + 1 + |Join(noise)| + |line|)
  {
    WaitsExactly(c, Sync, c.decode[Strip(line)], id, payload);
    var rest := Join(noise) + (line + tail);
    DelimiterAfterJunk(junk, rest);
    assert (junk + [DELIMITER] + rest)[|junk| + 1..] == rest;
    NoiseThenFrame(c, Sync, noise, line, tail, id, 0, maximum);
  }

  /** Waiting for a command's result reads through the same noise and returns that frame's payload. */
  lemma ResultBehindNoise(c: Codec, noise: seq<Bytes>, line: Bytes, tail: Bytes, id: nat, maximum: nat, payload: Bytes)
    requires forall i :: 0 <= i < |noise| ==> IsLine(noise[i]) && Noise(c, Execute, noise[i], id)
    requires IsLine(line) && !Blank(line) && Fits(noise + [line], 0, maximum)
    requires MatchingLine(c, Execute, line, id, payload)
    ensures ReplyFrom(c, Execute, Join(noise) + (line + tail), id, 0, maximum)
      == Reply(Ok(payload), |Join(noise)| + |line|)
  {
    WaitsExactly(c, Execute, c.decode[Strip(line)], id, payload);
    NoiseThenFrame(c, Execute, noise, line, tail, id, 0, maximum);
  }

  // ---------- No other request's payload ----------

  /** `s[k..used]` is a whole line of `s`, the last of which may lack its newline. */
  predicate LineAt(s: Bytes, k: nat, used: nat) {
    && k < used <= |s| && (k == 0 || s[k - 1] == NEWLINE)
    && NEWLINE !in s[k..used - 1] && (s[used - 1] == NEWLINE || used == |s|)
  }

  /** That line's response is this request's, with exactly this payload. */
  predicate OwnReply(c: Codec, s: Bytes, k: nat, used: nat, id: nat, payload: Bytes) {
    && LineAt(s, k, used) && Strip(s[k..used]) in c.decode
    && c.decode[Strip(s[k..used])] == Response(false, Num(id), None, Some(payload))
  }

  ghost predicate EndsWithOwnReply(c: Codec, s: Bytes, used: nat, id: nat, payload: Bytes) {
    exists k: nat :: OwnReply(c, s, k, used, id, payload)
  }

  /** The line that ends after `used` bytes has this stripped text. */
  ghost predicate EndsWithText(s: Bytes, used: nat, text: Bytes) {
    exists k: nat :: TextAt(s, k, used, text)
  }

  predicate TextAt(s: Bytes, k: nat, used: nat, text: Bytes) {
    LineAt(s, k, used) && Strip(s[k..used]) == text
  }

  /** A line of what follows a newline is a line of the whole. */
  lemma LineFurtherOn(s: Bytes, n: nat, k: nat, used: nat)
    requires n <= |s| && (n == 0 || s[n - 1] == NEWLINE) && LineAt(s[n..], k, used)
    ensures LineAt(s, n + k, n + used) && s[n + k..n + used] == s[n..][k..used]
  {
    assert s[n..][k..used - 1] == s[n + k..n + used - 1];
  }

  lemma TextFurtherOn(s: Bytes, n: nat, used: nat, text: Bytes)
    requires n <= |s| && (n == 0 || s[n - 1] == NEWLINE) && EndsWithText(s[n..], used, text)
    ensures EndsWithText(s, n + used, text)
  {
    var k: nat :| TextAt(s[n..], k, used, text);
    LineFurtherOn(s, n, k, used);
    assert TextAt(s, n + k, n + used, text);
  }

  /** The first line ends at the first newline, or is all there is. */
  lemma {:induction false} FirstLine(s: Bytes)
    requires s != []
    ensures LineAt(s, 0, LineLength(s))
    decreases |s|
  {
    if s[0] != NEWLINE && |s| > 1 {
      FirstLine(s[1..]);
      var n := LineLength(s[1..]);
      assert s[0..n] == [s[0]] + s[1..][0..n - 1];
    }
  }

  lemma FirstLineText(s: Bytes)
    requires s != []
    ensures EndsWithText(s, LineLength(s), Strip(s[..LineLength(s)]))
  {
    var n := LineLength(s);
    FirstLine(s);
    assert s[0..n] == s[..n];
    assert TextAt(s, 0, n, Strip(s[..n]));
  }

  /** The frame a read returns is the stripped text of the input's last consumed line. */
  lemma {:induction false} FrameIsLine(s: Bytes, count: nat, maximum: nat)
    requires count <= maximum && FrameFrom(s, count, maximum).Frame?
    ensures var f := FrameFrom(s, count, maximum); EndsWithText(s, f.used, f.text)
    decreases |s|
  {
    var n := LineLength(s);
    if Strip(s[..n]) != [] {
      TextIsFrame(s, count, maximum);
      FirstLineText(s);
    } else {
      BlankGoesOn(s, count, maximum);
      FrameIsLine(s[n..], count + n, maximum);
      TextBehind(s, n, FrameFrom(s[n..], count + n, maximum));
    }
  }

  lemma TextBehind(s: Bytes, n: nat, f: FrameRead)
    requires 0 < n <= |s| && s[n - 1] == NEWLINE && f.Frame? && EndsWithText(s[n..], f.used, f.text)
    ensures EndsWithText(s, Shift(f, n).used, Shift(f, n).text)
  {
    TextFurtherOn(s, n, f.used, f.text);
  }

  lemma TextIsFrame(s: Bytes, count: nat, maximum: nat)
    requires count <= maximum && FrameFrom(s, count, maximum).Frame? && Strip(s[..LineLength(s)]) != []
    ensures s != [] && FrameFrom(s, count, maximum) == Frame(Strip(s[..LineLength(s)]), LineLength(s))
  {
  }

  /** A blank line in front of a frame ends with a newline. */
  lemma BlankGoesOn(s: Bytes, count: nat, maximum: nat)
    requires count <= maximum && FrameFrom(s, count, maximum).Frame? && Strip(s[..LineLength(s)]) == []
    ensures var n := LineLength(s);
      && 0 < n <= |s| && s[n - 1] == NEWLINE && count + n <= maximum
      && FrameFrom(s, count, maximum) == Shift(FrameFrom(s[n..], count + n, maximum), n)
  {
  }

  lemma AcceptedIsOwn(c: Codec, call: Call, s: Bytes, id: nat, count: nat, maximum: nat)
    requires count <= maximum && FrameFrom(s, count, maximum).Frame?
    requires TextVerdict(c, call, FrameFrom(s, count, maximum).text, id).Accept?
    ensures var f := FrameFrom(s, count, maximum);
      EndsWithOwnReply(c, s, f.used, id, TextVerdict(c, call, f.text, id).payload)
  {
    var f := FrameFrom(s, count, maximum);
    FrameIsLine(s, count, maximum);
    var k: nat :| TextAt(s, k, f.used, f.text);
    assert OwnReply(c, s, k, f.used, id, TextVerdict(c, call, f.text, id).payload);
  }

  /** Whatever the bytes are, a returned payload is that of the last line consumed, whose ID is the request's own. */
  lemma {:induction false} NeverAnothersPayload(c: Codec, call: Call, s: Bytes, id: nat, count: nat, maximum: nat)
    requires count <= maximum && ReplyFrom(c, call, s, id, count, maximum).result.Ok?
    ensures var r := ReplyFrom(c, call, s, id, count, maximum);
      EndsWithOwnReply(c, s, r.used, id, r.result.value)
    decreases |s|
  {
    var f := FrameFrom(s, count, maximum);
    ReplyDecides(c, call, s, id, count, maximum);
    if TextVerdict(c, call, f.text, id).Accept? {
      AcceptedIsOwn(c, call, s, id, count, maximum);
    } else {
      var r := ReplyFrom(c, call, s[f.used..], id, 0, maximum);
      NeverAnothersPayload(c, call, s[f.used..], id, 0, maximum);
      SkippedEndsLine(c, call, s, f, id, count, maximum);
      OwnReplyFurtherOn(c, s, f.used, r.used, id, r.result.value);
    }
  }

  /** A payload is that of the first frame, or of a later one behind it. */
  lemma ReplyDecides(c: Codec, call: Call, s: Bytes, id: nat, count: nat, maximum: nat)
    requires count <= maximum && ReplyFrom(c, call, s, id, count, maximum).result.Ok?
    ensures var f, r := FrameFrom(s, count, maximum), ReplyFrom(c, call, s, id, count, maximum);
      && f.Frame?
      && (var v := TextVerdict(c, call, f.text, id);
          if v.Accept? then r == Reply(Ok(v.payload), f.used)
          else r == ShiftReply(ReplyFrom(c, call, s[f.used..], id, 0, maximum), f.used))
  {
  }

  lemma NothingToRead(c: Codec, call: Call, id: nat, maximum: nat)
    ensures ReplyFrom(c, call, [], id, 0, maximum).result == Err(EndOfInput)
  {
  }

  /** When something is read behind a frame, that frame ended with a newline. */
  lemma SkippedEndsLine(c: Codec, call: Call, s: Bytes, f: FrameRead, id: nat, count: nat, maximum: nat)
    requires count <= maximum && f == FrameFrom(s, count, maximum) && f.Frame?
    requires ReplyFrom(c, call, s[f.used..], id, 0, maximum).result.Ok?
    ensures s[f.used - 1] == NEWLINE
  {
    FrameIsLine(s, count, maximum);
    var k: nat :| TextAt(s, k, f.used, f.text);
    NothingToRead(c, call, id, maximum);
    assert s[f.used..] != [];
  }

  lemma OwnReplyFurtherOn(c: Codec, s: Bytes, n: nat, used: nat, id: nat, payload: Bytes)
    requires n <= |s| && (n == 0 || s[n - 1] == NEWLINE) && EndsWithOwnReply(c, s[n..], used, id, payload)
    ensures EndsWithOwnReply(c, s, n + used, id, payload)
  {
    var k: nat :| OwnReply(c, s[n..], k, used, id, payload);
    LineFurtherOn(s, n, k, used);
    assert OwnReply(c, s, n + k, n + used, id, payload);
  }

  /** The two waits differ on stale frames exactly when these have both or neither of return and error. */
  lemma StaleFrames(c: Codec, r: Response, id: nat)
    requires !r.event && r.id != BadId && r.id != Num(id)
    ensures ResultVerdict(r, id) == Skip
    ensures SyncVerdict(c, r, id) == if r.error.Some? == r.payload.Some? then Reject(NotExactlyOne) else Skip
    ensures SyncVerdict(c, r, id) != ResultVerdict(r, id) <==> (r.error.Some? <==> r.payload.Some?)
  {
  }
}
