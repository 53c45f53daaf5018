/**
  The check for unpaired surrogate escapes in raw JSON text (internal/model/config.go), whose scanner
  jumps over bytes by index, against the text's strings as sequences of elements (section 7 of
  RFC 8259).
 */
module JsonSurrogates {
  import opened Wrappers

  const QUOTE: Byte := 0x22
  const BACKSLASH: Byte := 0x5c
  const LETTER_U: Byte := 0x75

  // ---------- The scanner ----------

  function HexDigit(b: Byte): (d: Option<nat>)
    ensures d.Some? ==> d.value < 16
  {
    if 0x30 <= b <= 0x39 then Some(b - 0x30)
    else if 0x61 <= b <= 0x66 then Some(b - 0x61 + 10)
    else if 0x41 <= b <= 0x46 then Some(b - 0x41 + 10)
    else None
  }

  /** The value of hexadecimal digits, read left to right after the value `high`. */
  function HexValue(s: Bytes, high: nat): Option<nat> {
    if s == [] then Some(high)
    else if HexDigit(s[0]).None? then None
    else HexValue(s[1..], high * 16 + HexDigit(s[0]).value)
  }

  /** The code unit that the first four bytes of `s` spell. */
  function Unit(s: Bytes): Option<nat> {
    if |s| < 4 then None else HexValue(s[..4], 0)
  }

  predicate IsLow(code: nat) {
    0xDC00 <= code <= 0xDFFF
  }

  predicate IsHigh(code: nat) {
    0xD800 <= code <= 0xDBFF
  }

  /** How a string ends for the scanner: at its quote, by giving up on the rest of the text, or badly. */
  datatype Scan = AtQuote(offset: nat) | GivenUp | Unpaired

  function Later(r: Scan, n: nat): Scan {
    if r.AtQuote? then AtQuote(r.offset + n) else r
  }

  /** The scan of the text `s` from inside a string. */
  function StringScan(s: Bytes): (r: Scan)
    ensures r.AtQuote? ==> r.offset < |s|
    decreases |s|
  {
    if s == [] then GivenUp
    else if s[0] == QUOTE then AtQuote(0)
    else if s[0] != BACKSLASH then Later(StringScan(s[1..]), 1)
    else if |s| == 1 then GivenUp
    else if s[1] != LETTER_U then Later(StringScan(s[2..]), 2)
    else
      var code := Unit(s[2..]);
      if code.None? then GivenUp
      else if IsLow(code.value) then Unpaired
      else if !IsHigh(code.value) then Later(StringScan(s[6..]), 6)
      else if |s| < 12 then GivenUp
      else if s[6] != BACKSLASH || s[7] != LETTER_U then Unpaired
      else if Unit(s[8..]).None? then GivenUp
      else if !IsLow(Unit(s[8..]).value) then Unpaired
      else Later(StringScan(s[12..]), 12)
  }

  /** Whether the text `s`, from outside any string, is accepted. */
  predicate Accepts(s: Bytes)
    decreases |s|
  {
    if s == [] then true
    else if s[0] != QUOTE then Accepts(s[1..])
    else
      var r := StringScan(s[1..]);
      match r
      case AtQuote(offset) => Accepts(s[offset + 2..])
      case GivenUp => true
      case Unpaired => false
  }

  /** `parseJSONHexEscape` */
  method ParseHexEscape(data: Bytes, start: nat) returns (code: nat, ok: bool)
    requires start <= |data|
    ensures ok <==> Unit(data[start..]).Some?
    ensures ok ==> code < 0x10000 && Unit(data[start..]) == Some(code)
  {
    if start + 4 > |data| {
      return 0, false;
    }
    ghost var s := data[start..][..4];
    code := 0;
    var i := 0;
    while i < 4
      invariant 0 <= i <= 4 && HexValue(s, 0) == HexValue(s[i..], code)
      invariant code < [1, 0x10, 0x100, 0x1000, 0x10000][i]
    {
      var digit := HexDigit(data[start + i]);
      assert s[i..][0] == data[start + i] && s[i..][1..] == s[i + 1..];
      if digit.None? {
        return 0, false;
      }
      code := code * 16 + digit.value;
      i := i + 1;
    }
    ok := true;
  }

  /** What the scan of `data` from `start` says, with offsets counted from the beginning of `data`. */
  predicate SameScan(data: Bytes, start: nat, next: nat, rejected: bool)
    requires start <= |data|
  {
    match StringScan(data[start..])
    case AtQuote(offset) => !rejected && next == start + offset
    case GivenUp => !rejected && next == |data|
    case Unpaired => rejected
  }

  /** The scan from `i` goes on `n` bytes later. */
  predicate StepsOver(data: Bytes, i: nat, n: nat)
    requires i + n <= |data|
  {
    StringScan(data[i..]) == Later(StringScan(data[i + n..]), n)
  }

  /** The part of `validateJSONStringUnicode` at a high surrogate escape: None to go on behind its pair. */
  method ValidatePair(data: Bytes, i: nat, ghost code: nat) returns (verdict: Option<Scan>)
    requires i + 6 <= |data| && data[i] == BACKSLASH && data[i + 1] == LETTER_U
    requires Unit(data[i..][2..]) == Some(code) && IsHigh(code)
    ensures verdict.Some? ==> StringScan(data[i..]) == verdict.value && !verdict.value.AtQuote?
    ensures verdict.None? ==> i + 12 <= |data| && StepsOver(data, i, 12)
  {
    ghost var s := data[i..];
    if i + 12 > |data| {
      return Some(GivenUp);
    }
    if data[i + 6] != BACKSLASH || data[i + 7] != LETTER_U {
      return Some(Unpaired);
    }
    assert s[8..] == data[i + 8..];
    var second, ok := ParseHexEscape(data, i + 8);
    if !ok {
      return Some(GivenUp);
    }
    if !IsLow(second) {
      return Some(Unpaired);
    }
    assert s[12..] == data[i + 12..];
    verdict := None;
  }

  lemma PlainStep(data: Bytes, i: nat)
    requires i < |data| && data[i] != QUOTE && data[i] != BACKSLASH
    ensures StepsOver(data, i, 1)
  {
    assert data[i..][1..] == data[i + 1..];
  }

  lemma ShortStep(data: Bytes, i: nat)
    requires i + 1 < |data| && data[i] == BACKSLASH && data[i + 1] != LETTER_U
    ensures StepsOver(data, i, 2)
  {
    assert data[i..][2..] == data[i + 2..];
  }

  lemma EscapeStep(data: Bytes, i: nat)
    requires i + 1 < |data| && data[i] == BACKSLASH && data[i + 1] == LETTER_U
    ensures data[i..][2..] == data[i + 2..]
    ensures var code := Unit(data[i + 2..]);
      && (code.None? ==> StringScan(data[i..]) == GivenUp)
      && (code.Some? && IsLow(code.value) ==> StringScan(data[i..]) == Unpaired)
      && (code.Some? && !IsLow(code.value) && !IsHigh(code.value) ==> i + 6 <= |data| && StepsOver(data, i, 6))
  {
    var s := data[i..];
    assert s[2..] == data[i + 2..];
    if i + 6 <= |data| { assert s[6..] == data[i + 6..]; }
  }

  /** One element or pair of the string: how far it reaches, or how the scan ends there. */
  method ScanElement(data: Bytes, i: nat) returns (n: nat, verdict: Option<Scan>)
    requires i < |data|
    ensures verdict.Some? ==> StringScan(data[i..]) == verdict.value
    ensures verdict.Some? && verdict.value.AtQuote? ==> verdict.value.offset == 0
    ensures verdict.None? ==> 0 < n <= |data| - i && StepsOver(data, i, n)
  {
    n := 0;
    if data[i] == QUOTE {
      return n, Some(AtQuote(0));
    }
    if data[i] != BACKSLASH {
      PlainStep(data, i);
      return 1, None;
    }
    if i + 1 >= |data| {
      return n, Some(GivenUp);
    }
    if data[i + 1] != LETTER_U {
      ShortStep(data, i);
      return 2, None;
    }
    EscapeStep(data, i);
    var code, ok := ParseHexEscape(data, i + 2);
    if !ok {
      return n, Some(GivenUp);
    }
    if IsLow(code) {
      return n, Some(Unpaired);
    }
    if IsHigh(code) {
      verdict := ValidatePair(data, i, code);
      return 12, verdict;
    }
    return 6, None;
  }

  /** `validateJSONStringUnicode` */
  method ValidateString(data: Bytes, start: nat) returns (next: nat, rejected: bool)
    requires start <= |data|
    ensures SameScan(data, start, next, rejected)
  {
    var i := start;
    while i < |data|
      invariant start <= i <= |data|
      invariant StringScan(data[start..]) == Later(StringScan(data[i..]), i - start)
    {
      var n, verdict := ScanElement(data, i);
      if verdict.Some? {
        return if verdict.value.AtQuote? then i else |data|, verdict.value == Unpaired;
      }
      i := i + n;
    }
    return |data|, false;
  }

  /** Acceptance from one byte on: outside strings byte by byte, and over a whole string. */
  lemma AcceptsFrom(data: Bytes, i: nat, next: nat, rejected: bool)
    requires i < |data| && data[i] == QUOTE && SameScan(data, i + 1, next, rejected)
    ensures Accepts(data[i..]) == (!rejected && (next >= |data| || Accepts(data[next + 1..])))
  {
    var s := data[i..];
    assert s[1..] == data[i + 1..];
    var r := StringScan(s[1..]);
    if r.AtQuote? {
      assert s[r.offset + 2..] == data[next + 1..];
    }
  }

  lemma AcceptsOutside(data: Bytes, i: nat)
    requires i < |data| && data[i] != QUOTE
    ensures Accepts(data[i..]) == Accepts(data[i + 1..])
  {
    assert data[i..][1..] == data[i + 1..];
  }

  /** `validateRawJSONUnicode` */
  method ValidateRaw(data: Bytes, validUtf8: bool) returns (ok: bool)
    ensures ok <==> validUtf8 && Accepts(data)
  {
    if !validUtf8 {
      return false;
    }
    assert data[0..] == data;
    var i := 0;
    while i < |data|
      invariant 0 <= i && Accepts(data) == (i > |data| || Accepts(data[i..]))
    {
      if data[i] != QUOTE {
        AcceptsOutside(data, i);
        i := i + 1;
        continue;
      }
      var next, rejected := ValidateString(data, i + 1);
      AcceptsFrom(data, i, next, rejected);
      if rejected {
        return false;
      }
      i := next + 1;
    }
    ok := true;
  }

  // ---------- The text as strings of elements ----------

  /** One element of a string: a byte, an escape of two bytes, or four digits after a backslash and u. */
  datatype Elem = Plain(b: Byte) | Short(c: Byte) | Escape(digits: Bytes)

  predicate WellFormed(e: Elem) {
    match e
    case Plain(b) => b != QUOTE && b != BACKSLASH
    case Short(c) => c != LETTER_U
    case Escape(digits) => |digits| == 4 && HexValue(digits, 0).Some?
  }

  function ElemText(e: Elem): (t: Bytes)
    ensures t != []
  {
    match e
    case Plain(b) => [b]
    case Short(c) => [BACKSLASH, c]
    case Escape(digits) => [BACKSLASH, LETTER_U] + digits
  }

  function ElemsText(es: seq<Elem>): Bytes {
    if es == [] then [] else ElemText(es[0]) + ElemsText(es[1..])
  }

  predicate High(e: Elem) {
    e.Escape? && HexValue(e.digits, 0).Some? && IsHigh(HexValue(e.digits, 0).value)
  }

  predicate Low(e: Elem) {
    e.Escape? && HexValue(e.digits, 0).Some? && IsLow(HexValue(e.digits, 0).value)
  }

  /** Element `k` is half of a surrogate pair whose other half is not next to it. */
  predicate Alone(es: seq<Elem>, k: nat)
    requires k < |es|
  {
    || (High(es[k]) && !(k + 1 < |es| && Low(es[k + 1])))
    || (Low(es[k]) && !(k > 0 && High(es[k - 1])))
  }

  /** The scanner sees the half: a high one only with at least six bytes of text behind it. */
  predicate Seen(es: seq<Elem>, k: nat, after: nat)
    requires k < |es|
  {
    Alone(es, k) && (High(es[k]) ==> |ElemsText(es[k + 1..])| + after >= 6)
  }

  ghost predicate BadString(es: seq<Elem>, after: nat) {
    exists k: nat :: k < |es| && Seen(es, k, after)
  }

  /** A text: bytes outside strings, and strings. */
  datatype Piece = Outside(b: Byte) | Str(elems: seq<Elem>)

  predicate WellFormedPiece(p: Piece) {
    match p
    case Outside(b) => b != QUOTE
    case Str(es) => forall k :: 0 <= k < |es| ==> WellFormed(es[k])
  }

  function PieceText(p: Piece): Bytes {
    match p
    case Outside(b) => [b]
    case Str(es) => [QUOTE] + ElemsText(es) + [QUOTE]
  }

  function Text(ps: seq<Piece>): Bytes {
    if ps == [] then [] else PieceText(ps[0]) + Text(ps[1..])
  }

  ghost predicate BadPiece(ps: seq<Piece>, j: nat)
    requires j < |ps|
  {
    ps[j].Str? && BadString(ps[j].elems, 1 + |Text(ps[j + 1..])|)
  }

  ghost predicate Bad(ps: seq<Piece>) {
    exists j: nat :: j < |ps| && BadPiece(ps, j)
  }

  // ---------- One string ----------

  lemma {:induction false} EscapeNeedsRoom(es: seq<Elem>, k: nat)
    requires k < |es| && es[k].Escape? && |es[k].digits| == 4
    ensures |ElemsText(es)| >= 6
    decreases k
  {
    if k > 0 { EscapeNeedsRoom(es[1..], k - 1); }
  }

  lemma SeenFurtherOn(es: seq<Elem>, n: nat, k: nat, after: nat)
    requires 0 < n <= |es| && k < |es| - n && (High(es[n - 1]) ==> !Low(es[n]))
    ensures Seen(es[n..], k, after) <==> Seen(es, n + k, after)
  {
    assert es[n..][k + 1..] == es[n + k + 1..];
  }

  /** The first `n` elements are complete pairs or no surrogates, so only the rest can be bad. */
  lemma BadFurtherOn(es: seq<Elem>, n: nat, after: nat)
    requires 0 < n <= |es| && !High(es[n - 1])
    requires forall k :: 0 <= k < n ==> !Alone(es, k)
    ensures BadString(es[n..], after) <==> BadString(es, after)
  {
    if BadString(es[n..], after) {
      var k: nat :| k < |es[n..]| && Seen(es[n..], k, after);
      SeenFurtherOn(es, n, k, after);
    }
    if BadString(es, after) {
      var k: nat :| k < |es| && Seen(es, k, after);
      SeenFurtherOn(es, n, k - n, after);
    }
  }

  /** With fewer than six bytes to go there is no room for another escape. */
  lemma ShortRestIsGood(es: seq<Elem>, after: nat)
    requires forall k :: 0 <= k < |es| ==> WellFormed(es[k])
    requires es != [] && High(es[0]) && |ElemsText(es[1..])| + after < 6
    ensures !BadString(es, after)
  {
    forall k: nat | k < |es| ensures !Seen(es, k, after) {
      if k > 0 && es[k].Escape? { EscapeNeedsRoom(es[1..], k - 1); }
    }
  }

  /** What follows in the text after a scan gave up, if it gave up. */
  predicate Agrees(r: Scan, bad: bool, length: nat, tail: nat) {
    match r
    case AtQuote(offset) => !bad && offset == length
    case GivenUp => !bad && tail < 6
    case Unpaired => bad
  }

  /** The scanner on an escape with its four digits. */
  lemma ScanEscape(e: Elem, rest: Bytes)
    requires WellFormed(e) && e.Escape?
    ensures var s := ElemText(e) + rest;
      && |s| >= 6 && s[0] == BACKSLASH && s[1] == LETTER_U && s[6..] == rest
      && Unit(s[2..]) == HexValue(e.digits, 0)
  {
    var s := ElemText(e) + rest;
    assert s[2..][..4] == e.digits;
  }

  /** The scanner at a high surrogate. */
  lemma ScanPair(s: Bytes, e: Elem, f: Elem, rest: Bytes)
    requires WellFormed(e) && High(e) && WellFormed(f) && Low(f)
    requires s == ElemText(e) + (ElemText(f) + rest)
    ensures StringScan(s) == Later(StringScan(rest), 12)
  {
    ScanEscape(e, ElemText(f) + rest);
    ScanEscape(f, rest);
    var t := ElemText(f) + rest;
    assert s[6] == t[0] && s[7] == t[1] && s[8..] == t[2..] && s[12..] == t[6..];
  }

  /** The scanner at a high surrogate escape, in terms of the text behind it. */
  lemma ScanHigh(e: Elem, rest: Bytes)
    requires WellFormed(e) && High(e)
    ensures |rest| < 6 ==> StringScan(ElemText(e) + rest) == GivenUp
    ensures |rest| >= 6 && (rest[0] != BACKSLASH || rest[1] != LETTER_U) ==> StringScan(ElemText(e) + rest) == Unpaired
    ensures |rest| >= 6 && Unit(rest[2..]).Some? && !IsLow(Unit(rest[2..]).value) ==>
      StringScan(ElemText(e) + rest) == Unpaired
  {
    var s := ElemText(e) + rest;
    ScanEscape(e, rest);
    if |rest| >= 6 {
      assert s[6] == rest[0] && s[7] == rest[1] && s[8..] == rest[2..];
    }
  }

  /** What follows a lone high surrogate is not an escape that spells a low one. */
  lemma BehindLoneHigh(es: seq<Elem>, tail: Bytes)
    requires forall k :: 0 <= k < |es| ==> WellFormed(es[k])
    requires es != [] && High(es[0]) && Alone(es, 0) && tail != [] && tail[0] == QUOTE
    requires |ElemsText(es[1..])| + |tail| >= 6
    ensures var rest := ElemsText(es[1..]) + tail;
      rest[0] != BACKSLASH || rest[1] != LETTER_U || (Unit(rest[2..]).Some? && !IsLow(Unit(rest[2..]).value))
  {
    var rest := ElemsText(es[1..]) + tail;
    if |es| > 1 {
      var more := ElemsText(es[1..][1..]) + tail;
      assert rest == ElemText(es[1]) + more;
      if es[1].Escape? { ScanEscape(es[1], more); }
    } else {
      assert rest == tail;
    }
  }

  /** A high surrogate not followed by a low one: found, unless fewer than six bytes follow. */
  lemma ScanLoneHigh(es: seq<Elem>, tail: Bytes)
    requires forall k :: 0 <= k < |es| ==> WellFormed(es[k])
    requires es != [] && High(es[0]) && Alone(es, 0) && tail != [] && tail[0] == QUOTE
    ensures var rest := ElemsText(es[1..]) + tail;
      StringScan(ElemText(es[0]) + rest) == if |rest| < 6 then GivenUp else Unpaired
  {
    var rest := ElemsText(es[1..]) + tail;
    if |rest| < 6 {
      ScanHigh(es[0], rest);
    } else {
      BehindLoneHigh(es, tail);
      ScanHigh(es[0], rest);
    }
  }

  /** That high surrogate is what makes the string bad, if there is room behind it. */
  lemma LoneHighIsBad(es: seq<Elem>, after: nat)
    requires forall k :: 0 <= k < |es| ==> WellFormed(es[k])
    requires es != [] && High(es[0]) && Alone(es, 0)
    ensures BadString(es, after) <==> |ElemsText(es[1..])| + after >= 6
  {
    if |ElemsText(es[1..])| + after < 6 {
      ShortRestIsGood(es, after);
    } else {
      assert Seen(es, 0, after);
    }
  }

  /** An element that is no surrogate is passed over. */
  lemma ScanOrdinary(e: Elem, rest: Bytes)
    requires WellFormed(e) && !High(e) && !Low(e)
    ensures StringScan(ElemText(e) + rest) == Later(StringScan(rest), |ElemText(e)|)
  {
    var s := ElemText(e) + rest;
    if e.Escape? {
      ScanEscape(e, rest);
    } else {
      assert s[|ElemText(e)|..] == rest;
    }
  }

  /** The scan of the string `es` in front of `tail` finds exactly what `BadString` says. */
  ghost predicate Exact(es: seq<Elem>, tail: Bytes) {
    Agrees(StringScan(ElemsText(es) + tail), BadString(es, |tail|), |ElemsText(es)|, |tail|)
  }

  lemma FirstElem(es: seq<Elem>, tail: Bytes)
    requires es != []
    ensures ElemsText(es) + tail == ElemText(es[0]) + (ElemsText(es[1..]) + tail)
  {
  }

  lemma LowIsExact(es: seq<Elem>, tail: Bytes)
    requires es != [] && WellFormed(es[0]) && Low(es[0])
    ensures Exact(es, tail)
  {
    FirstElem(es, tail);
    ScanEscape(es[0], ElemsText(es[1..]) + tail);
    assert Seen(es, 0, |tail|);
  }

  lemma LoneHighIsExact(es: seq<Elem>, tail: Bytes)
    requires forall k :: 0 <= k < |es| ==> WellFormed(es[k])
    requires es != [] && High(es[0]) && Alone(es, 0) && tail != [] && tail[0] == QUOTE
    ensures Exact(es, tail)
  {
    FirstElem(es, tail);
    ScanLoneHigh(es, tail);
    LoneHighIsBad(es, |tail|);
  }

  lemma PairIsExact(es: seq<Elem>, tail: Bytes)
    requires |es| >= 2 && WellFormed(es[0]) && WellFormed(es[1]) && High(es[0]) && Low(es[1])
    requires Exact(es[2..], tail)
    ensures Exact(es, tail)
  {
    var s, more := ElemsText(es) + tail, ElemsText(es[2..]) + tail;
    assert es[1..][1..] == es[2..];
    FirstElem(es, tail);
    FirstElem(es[1..], tail);
    ScanPair(s, es[0], es[1], more);
    BadFurtherOn(es, 2, |tail|);
  }

  lemma OrdinaryIsExact(es: seq<Elem>, tail: Bytes)
    requires es != [] && WellFormed(es[0]) && !High(es[0]) && !Low(es[0])
    requires Exact(es[1..], tail)
    ensures Exact(es, tail)
  {
    FirstElem(es, tail);
    ScanOrdinary(es[0], ElemsText(es[1..]) + tail);
    BadFurtherOn(es, 1, |tail|);
  }

  lemma {:induction false} StringScanIsExact(es: seq<Elem>, tail: Bytes)
    requires forall k :: 0 <= k < |es| ==> WellFormed(es[k])
    requires tail != [] && tail[0] == QUOTE
    ensures Exact(es, tail)
    decreases |es|
  {
    if es == [] {
      assert ElemsText(es) + tail == tail;
    } else if Low(es[0]) {
      LowIsExact(es, tail);
    } else if High(es[0]) && Alone(es, 0) {
      LoneHighIsExact(es, tail);
    } else if High(es[0]) {
      StringScanIsExact(es[2..], tail);
      PairIsExact(es, tail);
    } else {
      StringScanIsExact(es[1..], tail);
      OrdinaryIsExact(es, tail);
    }
  }

  // ---------- The whole text ----------

  lemma {:induction false} StringNeedsRoom(ps: seq<Piece>, j: nat)
    requires forall i :: 0 <= i < |ps| ==> WellFormedPiece(ps[i])
    requires j < |ps| && BadPiece(ps, j)
    ensures |Text(ps)| >= 6
    decreases j
  {
    if j > 0 {
      assert ps[1..][j..] == ps[j + 1..];
      StringNeedsRoom(ps[1..], j - 1);
    } else {
      var k: nat :| k < |ps[0].elems| && Seen(ps[0].elems, k, 1 + |Text(ps[1..])|);
      EscapeNeedsRoom(ps[0].elems, k);
    }
  }

  lemma BadPieceShifts(ps: seq<Piece>, j: nat)
    requires j + 1 < |ps|
    ensures BadPiece(ps[1..], j) <==> BadPiece(ps, j + 1)
  {
    assert ps[1..][j + 1..] == ps[j + 2..];
  }

  lemma BadFromSecond(ps: seq<Piece>)
    requires ps != []
    ensures Bad(ps) <==> BadPiece(ps, 0) || Bad(ps[1..])
  {
    if Bad(ps[1..]) {
      var j: nat :| j < |ps[1..]| && BadPiece(ps[1..], j);
      BadPieceShifts(ps, j);
    }
    if Bad(ps) && !BadPiece(ps, 0) {
      var j: nat :| j < |ps| && BadPiece(ps, j);
      BadPieceShifts(ps, j - 1);
    }
  }

  /** From a quote on, the scan of the string decides. */
  lemma AcceptsString(inner: Bytes, rest: Bytes, length: nat)
    requires StringScan(inner).AtQuote? ==> StringScan(inner).offset == length < |inner| && inner[length + 1..] == rest
    ensures Accepts([QUOTE] + inner) == match StringScan(inner)
      case AtQuote(_) => Accepts(rest)
      case GivenUp => true
      case Unpaired => false
  {
    var s := [QUOTE] + inner;
    assert s[0] == QUOTE && s[1..] == inner;
    if StringScan(inner).AtQuote? {
      assert s[length + 2..] == rest;
    }
  }

  lemma StringText(es: seq<Elem>, rest: Bytes)
    ensures var inner := ElemsText(es) + ([QUOTE] + rest);
      PieceText(Str(es)) + rest == [QUOTE] + inner && inner[|ElemsText(es)| + 1..] == rest
  {
  }

  /** A string in front of a text decides against it, leaves the rest to decide, or leaves no room for more. */
  lemma StringDecides(es: seq<Elem>, rest: Bytes)
    requires forall k :: 0 <= k < |es| ==> WellFormed(es[k])
    ensures var accepted := Accepts(PieceText(Str(es)) + rest);
      if BadString(es, 1 + |rest|) then !accepted else accepted == Accepts(rest) || (accepted && |rest| < 5)
  {
    StringText(es, rest);
    StringScanIsExact(es, [QUOTE] + rest);
    AcceptsString(ElemsText(es) + ([QUOTE] + rest), rest, |ElemsText(es)|);
  }

  /**
    For every text whose strings are well formed: it is rejected exactly when one of its strings has
    a surrogate escape without its other half, other than a lone high one with fewer than six bytes
    of text behind it.
   */
  lemma {:induction false} RejectsExactly(ps: seq<Piece>)
    requires forall i :: 0 <= i < |ps| ==> WellFormedPiece(ps[i])
    ensures Accepts(Text(ps)) <==> !Bad(ps)
    decreases |ps|
  {
    if ps != [] {
      var rest := Text(ps[1..]);
      BadFromSecond(ps);
      RejectsExactly(ps[1..]);
      if ps[0].Outside? {
        assert Text(ps)[1..] == rest;
      } else {
        StringDecides(ps[0].elems, rest);
        if Bad(ps[1..]) {
          var j: nat :| j < |ps[1..]| && BadPiece(ps[1..], j);
          StringNeedsRoom(ps[1..], j);
        }
      }
    }
  }

  /** Text whose surrogate escapes are all paired is never rejected. */
  lemma PairedIsAccepted(ps: seq<Piece>)
    requires forall i :: 0 <= i < |ps| ==> WellFormedPiece(ps[i])
    requires forall j, k :: 0 <= j < |ps| && ps[j].Str? && 0 <= k < |ps[j].elems| ==> !Alone(ps[j].elems, k)
    ensures Accepts(Text(ps))
  {
    RejectsExactly(ps);
  }

  /** The text of a string that is only a lone high surrogate escape is accepted. */
  lemma LoneHighIsAccepted()
    ensures var e := Escape([0x64, 0x38, 0x30, 0x30]);
      Alone([e], 0) && Accepts(Text([Str([e])]))
  {
    var e := Escape([0x64, 0x38, 0x30, 0x30]);
    var d := e.digits;
    assert d[1..] == [0x38, 0x30, 0x30] && d[1..][1..] == [0x30, 0x30] && d[1..][1..][1..] == [0x30];
    assert d[1..][1..][1..][1..] == [];
    assert HexValue([], 0xd800) == Some(0xd800);
    assert HexValue([0x30], 0xd80) == Some(0xd800);
    assert HexValue([0x30, 0x30], 0xd8) == Some(0xd800);
    assert HexValue(d, 0) == Some(0xd800);
    var es := [e];
    assert !BadString(es, 1) by {
      assert es[1..] == [] && |ElemsText(es[1..])| == 0;
    }
    var ps := [Str(es)];
    assert ps[1..] == [] && |Text(ps[1..])| == 0;
    RejectsExactly(ps);
  }
}
