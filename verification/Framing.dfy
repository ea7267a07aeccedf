/**
 Stream framing of backend/internal/transport/syslog/manager.go: octet counting and
 non-transparent framing (sections 3.4.1 and 3.4.2 of RFC 6587) with auto-detection.
 */
module Framing {
  import opened Bytes
  import opened Wrappers

  datatype Mode = Auto | OctetCounting | Newline

  datatype Err = EndOfStream | UnexpectedEnd | TooLarge | InvalidCount

  /** What one `readFrame` gives: a payload and the unread stream, or an error. */
  datatype Read = Got(payload: string, rest: string) | Bad(err: Err)

  datatype Look = Octet(counted: bool) | NoLook(err: Err)

  datatype Count = Counted(digits: nat, consumed: nat) | NoCount(err: Err)

  const MAX_PEEK := 10
  const MAX_DIGITS := 10

  /* ---------- What the readers compute ---------- */

  /** The length of the run of digits at the start. */
  function DigitRun(s: string): (d: nat)
    ensures d <= |s| && AllDigits(s[..d])
    ensures d < |s| ==> !IsDigit(s[d])
  {
    if s == "" || !IsDigit(s[0]) then 0
    else
      var d := 1 + DigitRun(s[1..]);
      assert forall i :: 1 <= i < d ==> s[i] == s[1..][i - 1];
      d
  }

  lemma DigitRunIs(s: string, k: nat)
    requires k <= |s| && AllDigits(s[..k])
    ensures DigitRun(s) >= k
    ensures k < |s| && !IsDigit(s[k]) ==> DigitRun(s) == k
  {
    var d := DigitRun(s);
    assert forall i :: 0 <= i < k ==> s[..k][i] == s[i];
    assert forall i :: 0 <= i < d ==> s[..d][i] == s[i];
  }

  /** Whether a stream looks octet counted: one to nine digits and a space. */
  function LookAt(s: string): Look {
    var d := DigitRun(s);
    if d >= MAX_PEEK then NoLook(TooLarge)
    else if d == |s| then NoLook(EndOfStream)
    else Octet(s[d] == ' ' && d > 0)
  }

  /** The decimal count at the start of the stream. After eleven digits the loop stops
      without looking for a space. */
  function CountAt(s: string): (c: Count)
    ensures c.Counted? ==> c.digits <= c.consumed <= |s| && AllDigits(s[..c.digits]) && 1 <= c.consumed
  {
    var d := DigitRun(s);
    if d > MAX_DIGITS then
      assert s[..MAX_DIGITS + 1] == s[..d][..MAX_DIGITS + 1];
      Counted(MAX_DIGITS + 1, MAX_DIGITS + 1)
    else if d == |s| then NoCount(EndOfStream)
    else if s[d] == ' ' then Counted(d, d + 1)
    else NoCount(InvalidCount)
  }

  function ReadCounted(s: string, maxBytes: nat): Read {
    match CountAt(s)
    case NoCount(err) => Bad(err)
    case Counted(digits, consumed) =>
      if digits == 0 then Bad(InvalidCount)
      else
        var n := Value(s[..digits]);
        var left := s[consumed..];
        if n > maxBytes then Bad(TooLarge)
        else if |left| < n then Bad(if left == "" then EndOfStream else UnexpectedEnd)
        else Got(left[..n], left[n..])
  }

  function TrimLine(b: string): string {
    var b1 := if b != "" && b[|b| - 1] == LF then b[..|b| - 1] else b;
    if b1 != "" && b1[|b1| - 1] == CR then b1[..|b1| - 1] else b1
  }

  function ReadLine(s: string, maxBytes: nat): Read {
    var k := Index(s, LF);
    if k < |s| then
      if k + 1 > maxBytes then Bad(TooLarge) else Got(TrimLine(s[..k + 1]), s[k + 1..])
    else if s == "" then Bad(EndOfStream)
    else if |s| > maxBytes then Bad(TooLarge)
    else Got(TrimLine(s), "")
  }

  function ReadOne(s: string, mode: Mode, maxBytes: nat): Read {
    match mode
    case OctetCounting => ReadCounted(s, maxBytes)
    case Newline => ReadLine(s, maxBytes)
    case Auto =>
      match LookAt(s)
      case NoLook(err) => Bad(err)
      case Octet(counted) => if counted then ReadCounted(s, maxBytes) else ReadLine(s, maxBytes)
  }

  lemma ReadConsumes(s: string, mode: Mode, maxBytes: nat)
    ensures ReadOne(s, mode, maxBytes).Got? ==> |ReadOne(s, mode, maxBytes).rest| < |s|
  {
  }

  /** The payloads a connection submits, and the error that ends it. */
  function Session(s: string, mode: Mode, maxBytes: nat): (seq<string>, Err)
    decreases |s|
  {
    ReadConsumes(s, mode, maxBytes);
    match ReadOne(s, mode, maxBytes)
    case Bad(err) => ([], err)
    case Got(payload, rest) =>
      var (more, err) := Session(rest, mode, maxBytes);
      (if payload == "" then more else [payload] + more, err)
  }

  /* ---------- The readers ---------- */

  datatype SliceEnd = Delimited | BufferFull | AtEnd

  /** A buffered reader over a stream that ends after `rest`. The buffer holds `size` bytes;
      bufio never makes it smaller than 16. */
  class Reader {
    const size: nat
    var rest: string

    constructor (stream: string, size: nat)
      requires size >= 16
      ensures rest == stream && this.size == size
    {
      rest, this.size := stream, size;
    }

    /** `Peek`, with "" for a stream that ends too early. */
    method Peek(n: nat) returns (b: string)
      requires 1 <= n <= size
      ensures b == if n <= |rest| then rest[..n] else ""
    {
      b := if n <= |rest| then rest[..n] else "";
    }

    /** Up to and including the next LF, or a full buffer, or what is left. */
    method ReadSlice() returns (part: string, end: SliceEnd)
      requires size > 0
      modifies this`rest
      ensures part + rest == old(rest)
      ensures var k := Index(old(rest), LF);
              if k < |old(rest)| && k < size then end.Delimited? && |part| == k + 1
              else if |old(rest)| >= size then end.BufferFull? && |part| == size
              else end.AtEnd? && rest == ""
    {
      var k := Index(rest, LF);
      if k < |rest| && k < size {
        part, end, rest := rest[..k + 1], Delimited, rest[k + 1..];
      } else if |rest| >= size {
        part, end, rest := rest[..size], BufferFull, rest[size..];
      } else {
        part, end, rest := rest, AtEnd, "";
      }
    }
  }

  method LooksOctetCounted(r: Reader) returns (look: Look)
    requires r.size >= 16
    ensures look == LookAt(r.rest)
  {
    var i := 1;
    while i <= MAX_PEEK
      invariant 1 <= i <= MAX_PEEK + 1
      invariant i - 1 <= |r.rest| && AllDigits(r.rest[..i - 1])
    {
      DigitRunIs(r.rest, i - 1);
      var b := r.Peek(i);
      if b == "" {
        return NoLook(EndOfStream);
      }
      var ch := b[i - 1];
      if ch == ' ' {
        return Octet(i > 1);
      }
      if ch < '0' || ch > '9' {
        return Octet(false);
      }
      i := i + 1;
    }
    DigitRunIs(r.rest, MAX_PEEK);
    return NoLook(TooLarge);
  }

  /** Reads the digits of the count byte by byte. */
  method ReadDigits(r: Reader) returns (digits: string, bad: bool, err: Err)
    modifies r`rest
    ensures bad <==> CountAt(old(r.rest)).NoCount?
    ensures bad ==> CountAt(old(r.rest)) == NoCount(err)
    ensures !bad ==> var c := CountAt(old(r.rest));
                     c.digits <= c.consumed <= |old(r.rest)| && digits == old(r.rest)[..c.digits]
                     && r.rest == old(r.rest)[c.consumed..] && AllDigits(digits)
  {
    digits, bad, err := "", false, EndOfStream;
    ghost var s := r.rest;
    while |digits| <= MAX_DIGITS
      invariant |digits| <= MAX_DIGITS + 1 && |digits| <= |s|
      invariant digits == s[..|digits|] && r.rest == s[|digits|..] && AllDigits(digits)
      decreases MAX_DIGITS + 1 - |digits|
    {
      DigitRunIs(s, |digits|);
      if r.rest == "" {
        return digits, true, EndOfStream;
      }
      var b := r.rest[0];
      r.rest := r.rest[1..];
      if b == ' ' {
        return;
      }
      if b < '0' || b > '9' {
        return digits, true, InvalidCount;
      }
      digits := digits + [b];
    }
    DigitRunIs(s, |digits|);
  }

  method ReadOctetCounted(r: Reader, maxBytes: nat) returns (read: Read)
    modifies r`rest
    ensures read == ReadCounted(old(r.rest), maxBytes)
    ensures read.Got? ==> r.rest == read.rest
  {
    var digits, bad, err := ReadDigits(r);
    if bad {
      return Bad(err);
    }
    if digits == "" {
      return Bad(InvalidCount);
    }
    var n := Value(digits);
    if n > maxBytes {
      return Bad(TooLarge);
    }
    if |r.rest| < n {
      return Bad(if r.rest == "" then EndOfStream else UnexpectedEnd);
    }
    var payload := r.rest[..n];
    r.rest := r.rest[n..];
    return Got(payload, r.rest);
  }

  /** The result does not depend on how the buffer cuts the stream. */
  method ReadNewline(r: Reader, maxBytes: nat) returns (read: Read)
    requires r.size >= 16
    modifies r`rest
    ensures read == ReadLine(old(r.rest), maxBytes)
    ensures read.Got? ==> r.rest == read.rest
  {
    var payload := "";
    ghost var s := r.rest;
    while true
      invariant payload + r.rest == s
      invariant |payload| <= Index(s, LF) && |payload| <= maxBytes
      decreases |r.rest|
    {
      ghost var before := r.rest;
      LineAhead(payload, before);
      var part, end := r.ReadSlice();
      payload := payload + part;
      assert payload + r.rest == s;
      if |payload| > maxBytes {
        return Bad(TooLarge);
      }
      if end.Delimited? {
        assert payload == s[..|payload|] && r.rest == s[|payload|..];
        return Got(TrimLine(payload), r.rest);
      }
      if end.AtEnd? {
        assert payload == s;
        if payload != "" {
          return Got(TrimLine(payload), r.rest);
        }
        return Bad(EndOfStream);
      }
    }
  }

  /** Reading past bytes without LF leaves the next LF where it is. */
  lemma LineAhead(p: string, q: string)
    requires |p| <= Index(p + q, LF)
    ensures Index(p + q, LF) == |p| + Index(q, LF)
  {
    forall i | 0 <= i < |p| ensures p[i] != LF {
      assert (p + q)[i] == p[i];
    }
    IndexIs(p + q, LF, |p| + Index(q, LF));
  }

  method ReadFrame(r: Reader, mode: Mode, maxBytes: nat) returns (read: Read)
    requires r.size >= 16
    modifies r`rest
    ensures read == ReadOne(old(r.rest), mode, maxBytes)
    ensures read.Got? ==> r.rest == read.rest
  {
    var chosen := mode;
    if mode == Auto {
      var look := LooksOctetCounted(r);
      if look.NoLook? {
        return Bad(look.err);
      }
      chosen := if look.counted then OctetCounting else Newline;
    }
    if chosen == OctetCounting {
      read := ReadOctetCounted(r, maxBytes);
    } else {
      read := ReadNewline(r, maxBytes);
    }
  }

  /** The unread stream holds the payloads of the session from the n-th on. */
  ghost predicate Pending(n: nat, rest: string, session: (seq<string>, Err), mode: Mode, maxBytes: nat) {
    n <= |session.0| && Session(rest, mode, maxBytes) == (session.0[n..], session.1)
  }

  /** One round of the read loop. */
  lemma PendingNext(n: nat, rest: string, session: (seq<string>, Err), mode: Mode, maxBytes: nat)
    requires Pending(n, rest, session, mode, maxBytes)
    ensures match ReadOne(rest, mode, maxBytes)
            case Bad(err) => n == |session.0| && session.1 == err
            case Got(payload, later) =>
              if payload == "" then Pending(n, later, session, mode, maxBytes)
              else n < |session.0| && payload == session.0[n] && Pending(n + 1, later, session, mode, maxBytes)
  {
    match ReadOne(rest, mode, maxBytes)
    case Bad(err) =>
    case Got(payload, later) =>
      if payload != "" {
        var more := Session(later, mode, maxBytes).0;
        assert session.0[n..] == [payload] + more;
        assert session.0[n + 1..] == session.0[n..][1..] == more;
      }
  }

  /** How the read loop ends: the reader fails, or `Submit` refuses a payload. */
  datatype Finish = ReadFailed(err: Err) | SubmitFailed

  /** The read loop of `handleTCP`, when `Submit` accepts the first `accepts` payloads and
      refuses the next: all payloads of the session are submitted, or those up to the refusal. */
  method Serve(stream: string, mode: Mode, maxBytes: nat, size: nat, accepts: nat)
    returns (payloads: seq<string>, finish: Finish)
    requires size >= 16
    ensures var (all, err) := Session(stream, mode, maxBytes);
            if |all| <= accepts then payloads == all && finish == ReadFailed(err)
            else payloads == all[..accepts + 1] && finish == SubmitFailed
  {
    var r := new Reader(stream, size);
    payloads, finish := ServeReader(r, mode, maxBytes, accepts, Session(stream, mode, maxBytes));
  }

  method ServeReader(r: Reader, mode: Mode, maxBytes: nat, accepts: nat, ghost session: (seq<string>, Err))
    returns (payloads: seq<string>, finish: Finish)
    requires r.size >= 16 && Pending(0, r.rest, session, mode, maxBytes)
    modifies r`rest
    ensures if |session.0| <= accepts then payloads == session.0 && finish == ReadFailed(session.1)
            else payloads == session.0[..accepts + 1] && finish == SubmitFailed
  {
    payloads, finish := [], SubmitFailed;
    while |payloads| <= accepts
      invariant |payloads| <= accepts + 1 && payloads <= session.0
      invariant Pending(|payloads|, r.rest, session, mode, maxBytes)
      decreases |r.rest|
    {
      var payload, err := NextFrame(r, mode, maxBytes, |payloads|, session);
      if err.Some? {
        return payloads, ReadFailed(err.value);
      }
      if payload != "" {
        payloads := payloads + [payload];
      }
    }
  }

  /** One `readFrame` of the loop. */
  method NextFrame(r: Reader, mode: Mode, maxBytes: nat, ghost n: nat, ghost session: (seq<string>, Err))
    returns (payload: string, err: Option<Err>)
    requires r.size >= 16 && Pending(n, r.rest, session, mode, maxBytes)
    modifies r`rest
    ensures err.Some? ==> n == |session.0| && err.value == session.1
    ensures err.None? ==> |r.rest| < |old(r.rest)|
    ensures err.None? && payload == "" ==> Pending(n, r.rest, session, mode, maxBytes)
    ensures err.None? && payload != "" ==>
              n < |session.0| && payload == session.0[n] && Pending(n + 1, r.rest, session, mode, maxBytes)
  {
    ReadConsumes(r.rest, mode, maxBytes);
    PendingNext(n, r.rest, session, mode, maxBytes);
    var read := ReadFrame(r, mode, maxBytes);
    if read.Bad? {
      return "", Some(read.err);
    }
    return read.payload, None;
  }

  /* ---------- Streams that decode to what was sent ---------- */

  /** A message as a sender puts it on the wire: counted by a decimal number, leading zeros
      allowed, or as a line that ends in LF or in CR and LF. */
  datatype Item = CountedItem(digits: string, payload: string) | LineItem(payload: string, crlf: bool)

  function LineEnd(crlf: bool): string { if crlf then [CR, LF] else [LF] }

  function Wire(item: Item): string {
    match item
    case CountedItem(digits, payload) => digits + " " + payload
    case LineItem(payload, crlf) => payload + LineEnd(crlf)
  }

  function WireAll(items: seq<Item>): string {
    if items == [] then "" else Wire(items[0]) + WireAll(items[1..])
  }

  function Payloads(items: seq<Item>): seq<string> {
    if items == [] then []
    else
      var more := Payloads(items[1..]);
      if items[0].payload == "" then more else [items[0].payload] + more
  }

  /** A line that auto-detection does not take for a count: at most nine leading digits,
      and no space right after them. */
  predicate LooksLikeLine(line: string) {
    var d := DigitRun(line);
    d <= 9 && (d == 0 || d == |line| || line[d] != ' ')
  }

  /** What a line can carry: no LF inside and, before a bare LF, no CR at the end. */
  predicate LineBytes(payload: string, crlf: bool) {
    && (forall i :: 0 <= i < |payload| ==> payload[i] != LF)
    && (!crlf && payload != "" ==> payload[|payload| - 1] != CR)
  }

  /** Within the limit, which counts the end of the line. */
  predicate LineFits(payload: string, crlf: bool, maxBytes: nat) {
    |payload| + (if crlf then 2 else 1) <= maxBytes
  }

  predicate Good(item: Item, maxBytes: nat) {
    match item
    case CountedItem(digits, payload) =>
      1 <= |digits| <= 9 && AllDigits(digits) && Value(digits) == |payload| <= maxBytes
    case LineItem(line, crlf) => LineBytes(line, crlf) && LineFits(line, crlf, maxBytes) && LooksLikeLine(line)
  }

  lemma CountAtStart(digits: string, rest: string)
    requires AllDigits(digits) && rest != "" && !IsDigit(rest[0])
    ensures var s := digits + rest; DigitRun(s) == |digits| && s[..|digits|] == digits && s[|digits|] == rest[0]
  {
    var s, d := digits + rest, |digits|;
    assert s[..d] == digits && s[d] == rest[0];
    DigitRunIs(s, d);
  }

  /** A count of up to ten digits and a space: what is read depends on the bytes after it. */
  lemma CountedReads(digits: string, tail: string, maxBytes: nat)
    requires 1 <= |digits| <= 10 && AllDigits(digits)
    ensures var n := Value(digits);
            ReadCounted(digits + (" " + tail), maxBytes) ==
            if n > maxBytes then Bad(TooLarge)
            else if |tail| < n then Bad(if tail == "" then EndOfStream else UnexpectedEnd)
            else Got(tail[..n], tail[n..])
  {
    CountAtStart(digits, " " + tail);
    assert (digits + (" " + tail))[|digits| + 1..] == tail;
  }

  /** Auto-detection sees a count of up to nine digits. */
  lemma AutoCounts(digits: string, tail: string, maxBytes: nat)
    requires 1 <= |digits| <= 9 && AllDigits(digits)
    ensures var s := digits + (" " + tail); ReadOne(s, Auto, maxBytes) == ReadCounted(s, maxBytes)
  {
    CountAtStart(digits, " " + tail);
  }

  /** A counted message of any bytes is given back if and only if it is within the limit, by the
      octet-counting reader with a count of up to ten digits, by auto-detection of up to nine. */
  lemma CountedFitsIff(digits: string, payload: string, rest: string, maxBytes: nat)
    requires 1 <= |digits| <= 10 && AllDigits(digits) && Value(digits) == |payload|
    ensures var s := Wire(CountedItem(digits, payload)) + rest;
            var read := if |payload| <= maxBytes then Got(payload, rest) else Bad(TooLarge);
            ReadOne(s, OctetCounting, maxBytes) == read && (|digits| <= 9 ==> ReadOne(s, Auto, maxBytes) == read)
  {
    WireOfCounted(digits, payload, rest);
    CountedPayload(digits, payload, rest, maxBytes);
  }

  lemma WireOfCounted(digits: string, payload: string, rest: string)
    ensures Wire(CountedItem(digits, payload)) + rest == digits + (" " + (payload + rest))
  {
  }

  lemma CountedPayload(digits: string, payload: string, rest: string, maxBytes: nat)
    requires 1 <= |digits| <= 10 && AllDigits(digits) && Value(digits) == |payload|
    ensures var s := digits + (" " + (payload + rest));
            var read := if |payload| <= maxBytes then Got(payload, rest) else Bad(TooLarge);
            ReadCounted(s, maxBytes) == read && (|digits| <= 9 ==> ReadOne(s, Auto, maxBytes) == read)
  {
    var tail := payload + rest;
    assert tail[..|payload|] == payload && tail[|payload|..] == rest;
    CountedReads(digits, tail, maxBytes);
    if |digits| <= 9 { AutoCounts(digits, tail, maxBytes); }
  }

  lemma TrimsLineEnd(line: string, crlf: bool)
    requires LineBytes(line, crlf)
    ensures TrimLine(line + LineEnd(crlf)) == line
  {
    var s := line + LineEnd(crlf);
    assert s[..|s| - 1] == if crlf then line + [CR] else line;
    assert (line + [CR])[..|line|] == line;
  }

  lemma FirstLine(body: string, rest: string, maxBytes: nat)
    requires forall i :: 0 <= i < |body| ==> body[i] != LF
    ensures ReadLine(body + ([LF] + rest), maxBytes) ==
            if |body| + 1 <= maxBytes then Got(TrimLine(body + [LF]), rest) else Bad(TooLarge)
  {
    var s := body + ([LF] + rest);
    IndexIs(s, LF, |body|);
    assert s[..|body| + 1] == body + [LF] && s[|body| + 1..] == rest;
  }

  /** A line is given back without its end if and only if it is within the limit with it. */
  lemma LineFitsIff(line: string, crlf: bool, rest: string, maxBytes: nat)
    requires LineBytes(line, crlf)
    ensures ReadOne(Wire(LineItem(line, crlf)) + rest, Newline, maxBytes) ==
            if LineFits(line, crlf, maxBytes) then Got(line, rest) else Bad(TooLarge)
  {
    var body := if crlf then line + [CR] else line;
    assert Wire(LineItem(line, crlf)) + rest == body + ([LF] + rest);
    assert line + LineEnd(crlf) == body + [LF];
    FirstLine(body, rest, maxBytes);
    TrimsLineEnd(line, crlf);
  }

  /** Exactly the lines that do not begin like a count survive auto-detection. */
  lemma LineSurvivesAutoIff(line: string, crlf: bool, rest: string, maxBytes: nat)
    requires LineBytes(line, crlf) && LineFits(line, crlf, maxBytes)
    ensures ReadOne(Wire(LineItem(line, crlf)) + rest, Auto, maxBytes) == Got(line, rest) <==> LooksLikeLine(line)
  {
    var s, d := line + LineEnd(crlf) + rest, DigitRun(line);
    assert s[..d] == line[..d];
    assert d < |line| ==> s[d] == line[d];
    DigitRunIs(s, d);
    LineFitsIff(line, crlf, rest, maxBytes);
    if 0 < d <= 9 && d < |line| && line[d] == ' ' {
      // Taken for a count: a payload as long as the line would reach over the LF.
      var k := |line| + |LineEnd(crlf)| - 1;
      var read := ReadCounted(s, maxBytes);
      assert s[k] == LF;
      if read.Got? && |read.payload| == |line| {
        assert read.payload[k - d - 1] == s[k];
      }
    }
  }

  lemma GoodItemIsRead(item: Item, rest: string, maxBytes: nat)
    requires Good(item, maxBytes)
    ensures ReadOne(Wire(item) + rest, Auto, maxBytes) == Got(item.payload, rest)
  {
    match item
    case CountedItem(digits, payload) => CountedFitsIff(digits, payload, rest, maxBytes);
    case LineItem(line, crlf) => LineSurvivesAutoIff(line, crlf, rest, maxBytes);
  }

  lemma SessionStep(s: string, mode: Mode, maxBytes: nat, payload: string, rest: string)
    requires ReadOne(s, mode, maxBytes) == Got(payload, rest)
    ensures var (more, err) := Session(rest, mode, maxBytes);
            Session(s, mode, maxBytes) == (if payload == "" then more else [payload] + more, err)
  {
  }

  lemma SessionEnds(mode: Mode, maxBytes: nat)
    ensures Session("", mode, maxBytes) == ([], EndOfStream)
  {
  }

  /** Any mixture of counted messages and lines comes back message by message, and then the
      stream ends: one framing is never taken for the other. */
  lemma {:induction false} MixedStreamDecodes(items: seq<Item>, maxBytes: nat)
    requires forall i :: 0 <= i < |items| ==> Good(items[i], maxBytes)
    ensures Session(WireAll(items), Auto, maxBytes) == (Payloads(items), EndOfStream)
  {
    if items == [] {
      SessionEnds(Auto, maxBytes);
    } else {
      var rest := WireAll(items[1..]);
      MixedStreamDecodes(items[1..], maxBytes);
      GoodItemIsRead(items[0], rest, maxBytes);
      SessionStep(Wire(items[0]) + rest, Auto, maxBytes, items[0].payload, rest);
    }
  }

  /* ---------- The end of the stream, and what is no message ---------- */

  /** The last line of a stream, without LF, may use the whole limit; a CR at its end is cut off
      but counts. */
  lemma LastLineFitsIff(line: string, cr: bool, maxBytes: nat)
    requires LineBytes(line, cr) && (line != "" || cr)
    ensures var s := if cr then line + [CR] else line;
            ReadOne(s, Newline, maxBytes) == if |s| <= maxBytes then Got(line, "") else Bad(TooLarge)
  {
    var s := if cr then line + [CR] else line;
    IndexIs(s, LF, |s|);
    assert cr ==> s[..|line|] == line;
  }

  /** Auto-detection also needs a byte after the leading digits: a last line of digits only is
      taken for the start of a count, and is lost with a clean end of stream. */
  lemma LastLineSurvivesAutoIff(line: string, maxBytes: nat)
    requires LineBytes(line, false) && line != ""
    ensures ReadOne(line, Auto, maxBytes) == Got(line, "") <==>
            |line| <= maxBytes && DigitRun(line) < |line| && LooksLikeLine(line)
    ensures DigitRun(line) == |line| <= 9 ==> ReadOne(line, Auto, maxBytes) == Bad(EndOfStream)
  {
    var d := DigitRun(line);
    LastLineFitsIff(line, false, maxBytes);
    if d < |line| && d <= 9 && line[d] == ' ' && d > 0 {
      var read := ReadCounted(line, maxBytes);
      assert read.Got? ==> |read.payload| < |line|;
    }
  }

  /** Counts that are refused: none at all, one that is followed by neither digit nor space, one
      cut off by the end of the stream, one with too few bytes after it, and under auto-detection
      one of ten digits. */
  lemma BadCounts(digits: string, c: char, part: string, rest: string, maxBytes: nat)
    requires AllDigits(digits) && |digits| <= 10 && c != ' ' && !IsDigit(c)
    ensures ReadOne(" " + rest, OctetCounting, maxBytes) == Bad(InvalidCount)
    ensures ReadOne(digits + [c] + rest, OctetCounting, maxBytes) == Bad(InvalidCount)
    ensures ReadOne(digits, OctetCounting, maxBytes) == Bad(EndOfStream)
    ensures 1 <= |digits| && |part| < Value(digits) <= maxBytes ==>
              ReadOne(digits + " " + part, OctetCounting, maxBytes)
              == Bad(if part == "" then EndOfStream else UnexpectedEnd)
    ensures |digits| == 10 ==> ReadOne(digits + rest, Auto, maxBytes) == Bad(TooLarge)
  {
    NoCountAtAll(rest, maxBytes);
    CountCutShort(digits, c, rest, maxBytes);
    assert digits + " " + part == digits + (" " + part);
    if 1 <= |digits| { CountedReads(digits, part, maxBytes); }
    assert (digits + rest)[..|digits|] == digits;
    DigitRunIs(digits + rest, |digits|);
  }

  lemma NoCountAtAll(rest: string, maxBytes: nat)
    ensures ReadCounted(" " + rest, maxBytes) == Bad(InvalidCount)
  {
    CountAtStart("", " " + rest);
    assert "" + (" " + rest) == " " + rest;
  }

  lemma CountCutShort(digits: string, c: char, rest: string, maxBytes: nat)
    requires AllDigits(digits) && |digits| <= 10 && c != ' ' && !IsDigit(c)
    ensures ReadCounted(digits + [c] + rest, maxBytes) == Bad(InvalidCount)
    ensures ReadCounted(digits, maxBytes) == Bad(EndOfStream)
  {
    CountAtStart(digits, [c] + rest);
    assert digits + [c] + rest == digits + ([c] + rest);
    assert digits[..|digits|] == digits;
    DigitRunIs(digits, |digits|);
  }

  /** After eleven digits the count ends without a space. */
  lemma ElevenDigits(digits: string, payload: string, rest: string, maxBytes: nat)
    requires |digits| == 11 && AllDigits(digits) && Value(digits) == |payload| <= maxBytes
    ensures ReadOne(digits + payload + rest, OctetCounting, maxBytes) == Got(payload, rest)
  {
    var s := digits + payload + rest;
    assert s[..11] == digits && s[11..] == payload + rest;
    DigitRunIs(s, 11);
  }
}
