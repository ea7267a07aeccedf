/**
 The RFC 5424 parser of backend/internal/parser/parser.go: header, structured data with its
 escapes (section 6.3.3 of RFC 5424) and message (section 6.4). RFC 3339 timestamps are an
 abstract partial function of the token.
 */
module Rfc5424 {
  import opened Bytes
  import opened Wrappers

  /** The three bytes of U+FEFF in UTF-8. */
  const BOM := "\U{EF}\U{BB}\U{BF}"

  type Clock = string -> Option<int>

  datatype Event = Event(
    timestamp: int, inferred: bool, message: string, hostname: string,
    facility: nat, severity: nat, priority: nat,
    appName: string, processId: string, messageId: string, fields: map<string, string>)

  datatype Outcome = Parsed(event: Event) | Invalid

  /* ---------- Library functions ---------- */

  /** `strings.TrimRight(s, "\r\n")`. */
  function TrimEnd(s: string): string {
    if s != "" && (s[|s| - 1] == CR || s[|s| - 1] == LF) then TrimEnd(s[..|s| - 1]) else s
  }

  /** `strings.TrimLeft(s, " ")`. */
  function TrimSpaces(s: string): (r: string)
    ensures |r| <= |s|
    ensures r == "" || r[0] != ' '
  {
    if s != "" && s[0] == ' ' then TrimSpaces(s[1..]) else s
  }

  /** `strconv.Atoi`, which takes an optional sign. */
  function Atoi(s: string): Option<int> {
    var digits := if s != "" && (s[0] == '+' || s[0] == '-') then s[1..] else s;
    if digits == "" || !AllDigits(digits) then None
    else
      var n: int := Value(digits);
      Some(if s[0] == '-' then -n else n)
  }

  /* ---------- Header ---------- */

  function Priority(value: string): (r: Option<nat>)
    ensures r.Some? ==> r.value <= 191
  {
    match Atoi(value)
    case None => None
    case Some(n) => if 0 <= n <= 191 then Some(n) else None
  }

  function CutToken(value: string): (r: Option<(string, string)>)
    ensures r.Some? ==> |r.value.1| < |value|
  {
    var i := Index(value, ' ');
    if i == |value| then None else Some((value[..i], TrimSpaces(value[i + 1..])))
  }

  function Spaces(n: nat): string { seq(n, _ => ' ') }

  lemma {:induction false} TrimCutsSpaces(s: string) returns (n: nat)
    ensures s == Spaces(n) + TrimSpaces(s)
  {
    if s != "" && s[0] == ' ' {
      n := TrimCutsSpaces(s[1..]);
      assert s == [s[0]] + s[1..] && [' '] + Spaces(n) == Spaces(n + 1);
      n := n + 1;
    } else {
      n := 0;
      assert Spaces(0) == "";
    }
  }

  /** A string without a space has no token; otherwise it is the token, which has no space,
      then one or more spaces, then the rest, which does not begin with one. */
  lemma CutTokenSplits(value: string) returns (n: nat)
    ensures CutToken(value).None? <==> ' ' !in value
    ensures CutToken(value).Some? ==>
              var (token, rest) := CutToken(value).value;
              && n > 0 && value == token + Spaces(n) + rest
              && ' ' !in token && (rest == "" || rest[0] != ' ')
  {
    n := 0;
    var i := Index(value, ' ');
    if i < |value| {
      n := TrimCutsSpaces(value[i + 1..]);
      SpacesJoin(value[..i], n, TrimSpaces(value[i + 1..]));
      assert value == value[..i] + ([' '] + value[i + 1..]);
      n := n + 1;
    }
  }

  lemma SpacesJoin(token: string, n: nat, rest: string)
    ensures token + ([' '] + (Spaces(n) + rest)) == token + Spaces(n + 1) + rest
  {
    assert [' '] + Spaces(n) == Spaces(n + 1);
  }

  function NilValue(v: string): string { if v == "-" then "" else v }

  /** `n` more tokens after the given ones, and what follows them. */
  function CutTokens(rest: string, n: nat, tokens: seq<string>): (r: Option<(seq<string>, string)>)
    ensures r.Some? ==> |r.value.0| == |tokens| + n
    decreases n
  {
    if n == 0 then Some((tokens, rest))
    else
      match CutToken(rest)
      case None => None
      case Some((token, remaining)) => CutTokens(remaining, n - 1, tokens + [token])
  }

  /* ---------- Structured data ---------- */

  datatype ValueScan = Closed(value: string, rest: string) | Open

  datatype ParamScan = Param(name: string, value: string, rest: string) | NoParam

  datatype DataScan = Scanned(rest: string, fields: map<string, string>) | BadData

  /** Where the first of the given bytes stands. */
  function Until(s: string, stops: string): (k: nat)
    ensures k <= |s|
    ensures forall i :: 0 <= i < k ==> s[i] !in stops
    ensures k < |s| ==> s[k] in stops
  {
    if s == "" || s[0] in stops then 0 else 1 + Until(s[1..], stops)
  }

  predicate NeedsEscape(c: char) { c == '"' || c == '\\' || c == ']' }

  /** The value up to its closing quote, escapes undone; a backslash before any other byte stays. */
  function ScanValue(s: string, acc: string): (r: ValueScan)
    ensures r.Closed? ==> |r.rest| < |s|
    decreases |s|
  {
    if s == "" then Open
    else if s[0] == '"' then Closed(acc, s[1..])
    else if s[0] == '\\' then
      if |s| == 1 then Open
      else ScanValue(s[2..], acc + (if NeedsEscape(s[1]) then [s[1]] else ['\\', s[1]]))
    else ScanValue(s[1..], acc + [s[0]])
  }

  function FieldKey(id: string, name: string): string { "syslog.sd." + id + "." + name }

  /** One parameter, spaces before it skipped. */
  function ScanParam(s: string): (r: ParamScan)
    ensures r.Param? ==> |r.rest| < |s|
  {
    ScanNamed(TrimSpaces(s))
  }

  function ScanNamed(t: string): (r: ParamScan)
    ensures r.Param? ==> |r.rest| < |t|
  {
    var k := Until(t, "=] ");
    if k == 0 || k >= |t| || t[k] != '=' then NoParam
    else
      match ScanQuoted(t[k + 1..])
      case Open => NoParam
      case Closed(value, rest) => Param(t[..k], value, rest)
  }

  /** A value with its opening quote. */
  function ScanQuoted(u: string): (r: ValueScan)
    ensures r.Closed? ==> |r.rest| < |u|
  {
    if u == "" || u[0] != '"' then Open else ScanValue(u[1..], "")
  }

  /** The parameters of one element, up to its closing bracket. */
  function ScanParams(s: string, id: string, fields: map<string, string>): (r: DataScan)
    ensures r.Scanned? ==> |r.rest| <= |s| && (r.rest == "" || r.rest[0] == ']')
    decreases |s|
  {
    if s == "" || s[0] == ']' then Scanned(s, fields)
    else
      match ScanParam(s)
      case NoParam => BadData
      case Param(name, value, rest) => ScanParams(rest, id, fields[FieldKey(id, name) := value])
  }

  /** One element, its opening bracket already read. */
  function ScanElement(t: string, fields: map<string, string>): (r: DataScan)
    ensures r.Scanned? ==> |r.rest| <= |t|
  {
    var k := Until(t, " ]");
    if k == 0 then BadData else AfterBracket(ScanParams(t[k..], t[..k], fields))
  }

  /** The closing bracket of an element has to be there. */
  function AfterBracket(scan: DataScan): (r: DataScan)
    ensures r.Scanned? ==> scan.Scanned? && |r.rest| < |scan.rest|
  {
    if scan.BadData? || scan.rest == "" then BadData else Scanned(scan.rest[1..], scan.fields)
  }

  function ScanElements(s: string, fields: map<string, string>): DataScan
    decreases |s|
  {
    if s == "" || s[0] != '[' then Scanned(s, fields)
    else
      match ScanElement(s[1..], fields)
      case BadData => BadData
      case Scanned(rest, more) => ScanElements(rest, more)
  }

  function ScanData(joined: string): DataScan {
    if joined == "-" then Scanned("", map[])
    else if HasPrefix(joined, "- ") then Scanned(joined[2..], map[])
    else if joined == "" || joined[0] != '[' then BadData
    else ScanElements(joined, map[])
  }

  /* ---------- The parser ---------- */

  function ParseMessage(payload: string, received: int, clock: Clock): Outcome {
    var s := TrimEnd(payload);
    if !HasPrefix(s, "<") then Invalid
    else
      var end := Index(s, '>');
      if end == |s| || end < 2 || end > 4 then Invalid
      else
        match Priority(s[1..end])
        case None => Invalid
        case Some(n) => ParseHeader(n, s[end + 1..], received, clock)
  }

  function ParseHeader(n: nat, rest: string, received: int, clock: Clock): Outcome {
    match CutTokens(rest, 6, [])
    case None => Invalid
    case Some((parts, data)) => FromParts(n, parts, ScanData(data), received, clock)
  }

  function FromParts(n: nat, parts: seq<string>, scan: DataScan, received: int, clock: Clock): Outcome
    requires |parts| == 6
  {
    var stamp := if parts[1] == "-" then Some(received) else clock(parts[1]);
    if parts[0] != "1" || stamp.None? || scan.BadData? then Invalid
    else
      Parsed(Event(stamp.value, parts[1] == "-", TrimPrefix(TrimPrefix(scan.rest, " "), BOM),
                   NilValue(parts[2]), n / 8, n % 8, n,
                   NilValue(parts[3]), NilValue(parts[4]), NilValue(parts[5]), scan.fields))
  }

  /** A parsed event has a priority of at most 191, made of a facility and one of eight severities. */
  lemma PriorityIsSplit(payload: string, received: int, clock: Clock)
    ensures var outcome := ParseMessage(payload, received, clock);
            outcome.Parsed? ==>
              var e := outcome.event;
              e.priority == 8 * e.facility + e.severity && e.facility <= 23 && e.severity <= 7
  {
  }

  datatype Format = FormatRfc5424 | FormatRfc3164 | FormatUnknown

  /** `Detect`; the RFC 3164 pattern is a parameter. */
  function Detect(s: string, matchesRfc3164: string -> bool): Format {
    var end := Index(s, '>');
    if |s| < 4 || s[0] != '<' || end == |s| || end < 2 || end > 4 || Atoi(s[1..end]).None? then FormatUnknown
    else
      var rest := s[end + 1..];
      if |rest| >= 2 && '1' <= rest[0] <= '9' && rest[1] == ' ' then FormatRfc5424
      else if matchesRfc3164(s) then FormatRfc3164
      else FormatUnknown
  }

  /* ---------- The loops of the parser ---------- */

  /** The loop over a quoted value; `i` is just past the opening quote. */
  method ReadValue(joined: string, start: nat) returns (scan: ValueScan)
    requires start <= |joined|
    ensures scan == ScanValue(joined[start..], "")
  {
    var i, value := start, "";
    while i < |joined|
      invariant start <= i <= |joined|
      invariant ScanValue(joined[start..], "") == ScanValue(joined[i..], value)
      decreases |joined| - i
    {
      ghost var s := joined[i..];
      var ch := joined[i];
      i := i + 1;
      if ch == '"' {
        return Closed(value, joined[i..]);
      }
      if ch == '\\' {
        if i >= |joined| {
          return Open;
        }
        var escaped := joined[i];
        i := i + 1;
        assert s[2..] == joined[i..] && s[1] == escaped;
        if escaped == '"' || escaped == '\\' || escaped == ']' {
          value := value + [escaped];
        } else {
          value := value + ['\\', escaped];
        }
      } else {
        assert s[1..] == joined[i..];
        value := value + [ch];
      }
    }
    return Open;
  }

  /** `i` moved to the first of the given bytes. */
  method ScanTo(joined: string, start: nat, stops: string) returns (i: nat)
    requires start <= |joined|
    ensures i == start + Until(joined[start..], stops)
  {
    i := start;
    while i < |joined| && joined[i] !in stops
      invariant start <= i <= |joined|
      invariant start + Until(joined[start..], stops) == i + Until(joined[i..], stops)
    {
      assert joined[i..][1..] == joined[i + 1..];
      i := i + 1;
    }
  }

  method SkipSpaces(joined: string, start: nat) returns (i: nat)
    requires start <= |joined|
    ensures start <= i <= |joined| && joined[i..] == TrimSpaces(joined[start..])
  {
    i := start;
    while i < |joined| && joined[i] == ' '
      invariant start <= i <= |joined|
      invariant TrimSpaces(joined[start..]) == TrimSpaces(joined[i..])
    {
      assert joined[i..][1..] == joined[i + 1..];
      i := i + 1;
    }
  }

  method ReadQuoted(joined: string, start: nat) returns (ok: bool, value: string, next: nat)
    requires start <= |joined|
    ensures ok ==> start < next <= |joined| && ScanQuoted(joined[start..]) == Closed(value, joined[next..])
    ensures !ok ==> ScanQuoted(joined[start..]) == Open
  {
    ok, value, next := false, "", start;
    if start < |joined| && joined[start] == '"' {
      assert joined[start..][1..] == joined[start + 1..];
      var scan := ReadValue(joined, start + 1);
      if scan.Closed? {
        SuffixAt(joined, start + 1, "");
        ok, value, next := true, scan.value, |joined| - |scan.rest|;
      }
    }
  }

  lemma Slices(joined: string, start: nat, k: nat)
    requires start <= k <= |joined|
    ensures joined[start..][..k - start] == joined[start..k]
    ensures joined[start..][k - start..] == joined[k..]
    ensures k < |joined| ==> joined[start..][k - start + 1..] == joined[k + 1..]
  {
  }

  method ReadNamed(joined: string, start: nat) returns (ok: bool, name: string, value: string, next: nat)
    requires start <= |joined|
    ensures ok ==> start < next <= |joined| && ScanNamed(joined[start..]) == Param(name, value, joined[next..])
    ensures !ok ==> ScanNamed(joined[start..]) == NoParam
  {
    ok, name, value, next := false, "", "", start;
    var k := ScanTo(joined, start, "=] ");
    if k == start || k >= |joined| || joined[k] != '=' {
      return;
    }
    Slices(joined, start, k);
    name := joined[start..k];
    ok, value, next := ReadQuoted(joined, k + 1);
  }

  method ReadParam(joined: string, i: nat) returns (ok: bool, name: string, value: string, next: nat)
    requires i <= |joined|
    ensures ok ==> i < next <= |joined| && ScanParam(joined[i..]) == Param(name, value, joined[next..])
    ensures !ok ==> ScanParam(joined[i..]) == NoParam
  {
    var nameStart := SkipSpaces(joined, i);
    ok, name, value, next := ReadNamed(joined, nameStart);
  }

  /** The loop over the parameters of one element. */
  method ReadParams(joined: string, start: nat, id: string, fields: map<string, string>)
    returns (ok: bool, i: nat, more: map<string, string>)
    requires start <= |joined|
    ensures ok ==> start <= i <= |joined| && ScanParams(joined[start..], id, fields) == Scanned(joined[i..], more)
    ensures !ok ==> ScanParams(joined[start..], id, fields) == BadData
  {
    i, more := start, fields;
    while i < |joined| && joined[i] != ']'
      invariant start <= i <= |joined|
      invariant ScanParams(joined[start..], id, fields) == ScanParams(joined[i..], id, more)
      decreases |joined| - i
    {
      var found, name, value, next := ReadParam(joined, i);
      if !found {
        return false, i, more;
      }
      i, more := next, more[FieldKey(id, name) := value];
    }
    ok := true;
  }

  /** The parameters and the closing bracket. */
  method ReadToBracket(joined: string, start: nat, id: string, fields: map<string, string>)
    returns (ok: bool, i: nat, more: map<string, string>)
    requires start <= |joined|
    ensures ok ==> start <= i <= |joined|
    ensures AfterBracket(ScanParams(joined[start..], id, fields)) == if ok then Scanned(joined[i..], more) else BadData
  {
    ok, i, more := ReadParams(joined, start, id, fields);
    if !ok || i >= |joined| {
      return false, i, more;
    }
    assert joined[i..][1..] == joined[i + 1..];
    i := i + 1;
  }

  method ReadElement(joined: string, start: nat, fields: map<string, string>)
    returns (ok: bool, i: nat, more: map<string, string>)
    requires start <= |joined|
    ensures ok ==> start <= i <= |joined| && ScanElement(joined[start..], fields) == Scanned(joined[i..], more)
    ensures !ok ==> ScanElement(joined[start..], fields) == BadData
  {
    var idEnd := ScanTo(joined, start, " ]");
    if idEnd == start {
      return false, start, fields;
    }
    Slices(joined, start, idEnd);
    ok, i, more := ReadToBracket(joined, idEnd, joined[start..idEnd], fields);
  }

  /** What is left after a value is a suffix, so an index describes it. */
  lemma {:induction false} SuffixAt(joined: string, start: nat, acc: string)
    requires start <= |joined|
    ensures var r := ScanValue(joined[start..], acc);
            r.Closed? ==> |r.rest| < |joined| - start && r.rest == joined[|joined| - |r.rest|..]
    decreases |joined| - start
  {
    var s := joined[start..];
    if s != "" && s[0] == '\\' && |s| > 1 {
      assert s[2..] == joined[start + 2..];
      SuffixAt(joined, start + 2, acc + (if NeedsEscape(s[1]) then [s[1]] else ['\\', s[1]]));
    } else if s != "" && s[0] != '"' {
      assert s[1..] == joined[start + 1..];
      SuffixAt(joined, start + 1, acc + [s[0]]);
    }
  }

  method ParseStructuredData(joined: string) returns (scan: DataScan)
    ensures scan == ScanData(joined)
  {
    if joined == "-" {
      return Scanned("", map[]);
    }
    if HasPrefix(joined, "- ") {
      return Scanned(joined[2..], map[]);
    }
    if joined == "" || joined[0] != '[' {
      return BadData;
    }
    assert joined[0..] == joined;
    scan := ReadElements(joined);
  }

  lemma ElementsNext(joined: string, i: nat, fields: map<string, string>)
    requires i < |joined| && joined[i] == '['
    ensures ScanElements(joined[i..], fields) ==
            match ScanElement(joined[i + 1..], fields)
            case BadData => BadData
            case Scanned(rest, more) => ScanElements(rest, more)
  {
    assert joined[i..][1..] == joined[i + 1..];
  }

  /** The loop over the elements. */
  method ReadElements(joined: string) returns (scan: DataScan)
    ensures scan == ScanElements(joined[0..], map[])
  {
    var i, fields := 0, map[];
    while i < |joined| && joined[i] == '['
      invariant i <= |joined|
      invariant ScanElements(joined[0..], map[]) == ScanElements(joined[i..], fields)
      decreases |joined| - i
    {
      ElementsNext(joined, i, fields);
      var ok, next, more := ReadElement(joined, i + 1, fields);
      if !ok {
        return BadData;
      }
      i, fields := next, more;
    }
    return Scanned(joined[i..], fields);
  }

  /** The parser itself, with its loop over the six header tokens. */
  method Parse(payload: string, received: int, clock: Clock) returns (outcome: Outcome)
    ensures outcome == ParseMessage(payload, received, clock)
  {
    var s := TrimEnd(payload);
    if !HasPrefix(s, "<") {
      return Invalid;
    }
    var end := Index(s, '>');
    if end == |s| || end < 2 || end > 4 {
      return Invalid;
    }
    var n := Priority(s[1..end]);
    if n.None? {
      return Invalid;
    }
    var rest := s[end + 1..];
    var ok, parts, data := CutHeader(rest, 6);
    if !ok || parts[0] != "1" {
      return Invalid;
    }
    var stamp := if parts[1] == "-" then Some(received) else clock(parts[1]);
    if stamp.None? {
      return Invalid;
    }
    var scan := ParseStructuredData(data);
    if scan.BadData? {
      return Invalid;
    }
    var message := TrimPrefix(scan.rest, " ");
    message := TrimPrefix(message, BOM);
    return Parsed(Event(stamp.value, parts[1] == "-", message, NilValue(parts[2]), n.value / 8, n.value % 8, n.value,
                        NilValue(parts[3]), NilValue(parts[4]), NilValue(parts[5]), scan.fields));
  }

  lemma CutStep(s: string, n: nat, acc: seq<string>, token: string, rest: string)
    requires n > 0 && CutToken(s) == Some((token, rest))
    ensures CutTokens(s, n, acc) == CutTokens(rest, n - 1, acc + [token])
  {
  }

  /** The loop over `n` header tokens. */
  method CutHeader(header: string, n: nat) returns (ok: bool, parts: seq<string>, rest: string)
    ensures ok <==> CutTokens(header, n, []).Some?
    ensures ok ==> CutTokens(header, n, []) == Some((parts, rest)) && |parts| == n
  {
    parts, rest := [], header;
    for i := 0 to n
      invariant |parts| == i
      invariant CutTokens(header, n, []) == CutTokens(rest, n - i, parts)
    {
      var cut := CutToken(rest);
      if cut.None? {
        return false, parts, rest;
      }
      var (token, remaining) := cut.value;
      CutStep(rest, n - i, parts, token, remaining);
      parts, rest := parts + [token], remaining;
    }
    ok := true;
  }
}
