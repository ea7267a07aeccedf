/**
 A printer for RFC 5424 messages (section 6 of RFC 5424) and the proof that the parser
 gives back what was printed.
 */
module Rfc5424RoundTrip {
  import opened Bytes
  import opened Rfc5424
  import opened Sequences
  import opened Wrappers
  import G = Rfc5424Grammar

  datatype Param = Param(name: string, value: string)

  datatype Element = Element(id: string, params: seq<Param>)

  /** Header fields are "" when absent. */
  datatype Message = Message(
    priority: nat, timestamp: string, hostname: string, appName: string, processId: string, messageId: string,
    data: seq<Element>, text: Option<string>)

  /* ---------- The printer ---------- */

  function Field(v: string): string { if v == "" then "-" else v }

  function EscapeChar(c: char): string { if NeedsEscape(c) then ['\\', c] else [c] }

  function Escape(v: string): string {
    if v == "" then "" else EscapeChar(v[0]) + Escape(v[1..])
  }

  function Quote(v: string): string { "\"" + Escape(v) + "\"" }

  function PrintParam(p: Param): string { " " + p.name + "=" + Quote(p.value) }

  function PrintParams(ps: seq<Param>): string {
    if ps == [] then "" else PrintParam(ps[0]) + PrintParams(ps[1..])
  }

  function PrintElement(e: Element): string { "[" + e.id + PrintParams(e.params) + "]" }

  function PrintElements(es: seq<Element>): string {
    if es == [] then "" else PrintElement(es[0]) + PrintElements(es[1..])
  }

  function PrintData(es: seq<Element>): string { if es == [] then "-" else PrintElements(es) }

  function PrintText(text: Option<string>): string { if text.None? then "" else " " + text.value }

  function Header(m: Message): seq<string> {
    ["1", Field(m.timestamp), Field(m.hostname), Field(m.appName), Field(m.processId), Field(m.messageId)]
  }

  function PrintTokens(tokens: seq<string>): string {
    if tokens == [] then "" else tokens[0] + " " + PrintTokens(tokens[1..])
  }

  /** Everything after the priority. */
  function Body(m: Message): string {
    PrintTokens(Header(m)) + (PrintData(m.data) + PrintText(m.text))
  }

  function Print(m: Message): string {
    "<" + Decimal(m.priority) + ">" + Body(m)
  }

  /* ---------- What may be printed ---------- */

  predicate FieldOk(v: string) { v != "-" && ' ' !in v }

  predicate ParamOk(p: Param) { p.name != "" && '=' !in p.name && ']' !in p.name && ' ' !in p.name }

  predicate ElementOk(e: Element) {
    e.id != "" && ' ' !in e.id && ']' !in e.id && forall i :: 0 <= i < |e.params| ==> ParamOk(e.params[i])
  }

  predicate MessageOk(m: Message, clock: Clock) {
    && m.priority <= 191
    && FieldOk(m.timestamp) && (m.timestamp != "" ==> clock(m.timestamp).Some?)
    && FieldOk(m.hostname) && FieldOk(m.appName) && FieldOk(m.processId) && FieldOk(m.messageId)
    && (forall i :: 0 <= i < |m.data| ==> ElementOk(m.data[i]))
  }

  /** The fields of the parameters in order, later ones winning. */
  function FoldParams(id: string, ps: seq<Param>, fields: map<string, string>): map<string, string> {
    if ps == [] then fields else FoldParams(id, ps[1..], fields[FieldKey(id, ps[0].name) := ps[0].value])
  }

  function FoldElements(es: seq<Element>, fields: map<string, string>): map<string, string> {
    if es == [] then fields else FoldElements(es[1..], FoldParams(es[0].id, es[0].params, fields))
  }

  /** What the parser makes of a printed text: the line end goes, then after NILVALUE data one
      more space, then a BOM. */
  function ReceivedText(m: Message): string {
    if m.text.None? then ""
    else
      var t := TrimEnd(m.text.value);
      TrimPrefix(if m.data == [] then TrimPrefix(t, " ") else t, BOM)
  }

  function Expected(m: Message, received: int, clock: Clock): Event
    requires MessageOk(m, clock)
  {
    Event(if m.timestamp == "" then received else clock(m.timestamp).value, m.timestamp == "",
          ReceivedText(m), m.hostname, m.priority / 8, m.priority % 8, m.priority,
          m.appName, m.processId, m.messageId, FoldElements(m.data, map[]))
  }

  /* ---------- Priority ---------- */

  lemma DecimalLength(n: nat)
    requires n <= 191
    ensures 1 <= |Decimal(n)| <= 3
  {
    if n >= 10 {
      if n / 10 >= 10 {
        assert n / 10 / 10 < 10;
        assert |Decimal(n / 10 / 10)| == 1;
      }
      assert |Decimal(n / 10)| <= 2;
    }
  }

  lemma PriorityReads(n: nat)
    requires n <= 191
    ensures Priority(Decimal(n)) == Some(n)
  {
    DecimalIsDigits(n);
    assert IsDigit(Decimal(n)[0]);
  }

  /* ---------- What is printed is a text of the grammar ---------- */

  function RawUnits(v: string): seq<G.Unit> {
    if v == "" then []
    else [if NeedsEscape(v[0]) then G.Escaped(v[0]) else G.Plain(v[0])] + RawUnits(v[1..])
  }

  lemma {:induction false} EscapeIsText(v: string)
    ensures G.UnitsOk(RawUnits(v)) && G.UnitsText(RawUnits(v)) == Escape(v) && G.UnitsValue(RawUnits(v)) == v
  {
    if v != "" {
      EscapeIsText(v[1..]);
      assert RawUnits(v)[1..] == RawUnits(v[1..]);
      assert v == [v[0]] + v[1..];
    }
  }

  function RawParams(ps: seq<Param>): (raw: seq<G.RawParam>)
    ensures |raw| == |ps|
  {
    if ps == [] then [] else [G.RawParam(1, ps[0].name, RawUnits(ps[0].value))] + RawParams(ps[1..])
  }

  lemma ParamIsText(p: Param)
    ensures G.ParamText(G.RawParam(1, p.name, RawUnits(p.value))) == PrintParam(p)
  {
    EscapeIsText(p.value);
    assert Spaces(1) == " ";
  }

  lemma {:induction false} ParamsAreText(ps: seq<Param>, id: string, fields: map<string, string>)
    requires forall i :: 0 <= i < |ps| ==> ParamOk(ps[i])
    ensures var raw := RawParams(ps);
            && G.ParamsOk(raw) && (raw != [] ==> raw[0].spaces > 0)
            && G.ParamsText(raw) == PrintParams(ps) && G.ParamsFields(id, raw, fields) == FoldParams(id, ps, fields)
  {
    if ps != [] {
      ParamIsText(ps[0]);
      EscapeIsText(ps[0].value);
      ParamsAreText(ps[1..], id, fields[FieldKey(id, ps[0].name) := ps[0].value]);
      assert RawParams(ps)[1..] == RawParams(ps[1..]);
    }
  }

  function RawElements(es: seq<Element>): (raw: seq<G.RawElement>)
    ensures |raw| == |es|
  {
    if es == [] then [] else [G.RawElement(es[0].id, RawParams(es[0].params))] + RawElements(es[1..])
  }

  lemma ElementIsText(e: Element, fields: map<string, string>)
    requires ElementOk(e)
    ensures var raw := G.RawElement(e.id, RawParams(e.params));
            && G.ElementOk(raw) && G.ElementText(raw) == PrintElement(e)
            && G.ParamsFields(raw.id, raw.params, fields) == FoldParams(e.id, e.params, fields)
  {
    ParamsAreText(e.params, e.id, fields);
  }

  lemma {:induction false} ElementsAreText(es: seq<Element>, fields: map<string, string>)
    requires forall i :: 0 <= i < |es| ==> ElementOk(es[i])
    ensures var raw := RawElements(es);
            && G.ElementsOk(raw) && G.ElementsText(raw) == PrintElements(es)
            && G.ElementsFields(raw, fields) == FoldElements(es, fields)
  {
    if es != [] {
      ElementIsText(es[0], fields);
      ElementsAreText(es[1..], FoldParams(es[0].id, es[0].params, fields));
      assert RawElements(es)[1..] == RawElements(es[1..]);
    }
  }

  function RawData(es: seq<Element>, text: Option<string>): G.RawData {
    if es != [] then G.Elements(RawElements(es), PrintText(text))
    else if text.Some? then G.NilThen(text.value)
    else G.NilOnly
  }

  lemma DataIsText(es: seq<Element>, text: Option<string>)
    requires forall i :: 0 <= i < |es| ==> ElementOk(es[i])
    ensures var raw := RawData(es, text);
            && G.DataOk(raw) && G.DataText(raw) == PrintData(es) + PrintText(text)
            && G.DataFields(raw) == FoldElements(es, map[])
  {
    if es == [] {
      NilIsText(text);
    } else {
      ElementDataIsText(es, text);
    }
  }

  lemma ElementDataIsText(es: seq<Element>, text: Option<string>)
    requires es != [] && forall i :: 0 <= i < |es| ==> ElementOk(es[i])
    ensures var raw := RawData(es, text);
            && G.DataOk(raw) && G.DataText(raw) == PrintElements(es) + PrintText(text)
            && G.DataFields(raw) == FoldElements(es, map[])
  {
    var raw := RawElements(es);
    ElementsAreText(es, map[]);
    TextStarts(text);
    ElementDataOk(raw, PrintText(text));
  }

  lemma TextStarts(text: Option<string>)
    ensures PrintText(text) == "" || PrintText(text)[0] == ' '
  {
  }

  lemma ElementDataOk(raw: seq<G.RawElement>, text: string)
    requires G.ElementsOk(raw) && raw != [] && (text == "" || text[0] == ' ')
    ensures var d := G.Elements(raw, text);
            && G.DataOk(d) && G.DataText(d) == G.ElementsText(raw) + text
            && G.DataFields(d) == G.ElementsFields(raw, map[])
  {
  }

  lemma NilIsText(text: Option<string>)
    ensures var raw := RawData([], text);
            G.DataOk(raw) && G.DataText(raw) == PrintData([]) + PrintText(text) && G.DataFields(raw) == map[]
  {
    if text.Some? {
      Regroup("-", " ", text.value);
    }
  }

  function RawTokens(tokens: seq<string>): (raw: seq<G.Token>)
    ensures |raw| == |tokens| && forall i :: 0 <= i < |raw| ==> raw[i] == G.Token(tokens[i], 1)
  {
    if tokens == [] then [] else [G.Token(tokens[0], 1)] + RawTokens(tokens[1..])
  }

  lemma {:induction false} TokensAreText(tokens: seq<string>)
    ensures G.TokensText(RawTokens(tokens)) == PrintTokens(tokens)
  {
    if tokens != [] {
      TokensAreText(tokens[1..]);
      assert RawTokens(tokens)[1..] == RawTokens(tokens[1..]);
      assert Spaces(1) == " ";
    }
  }

  function Raw(m: Message): G.RawMessage {
    G.RawMessage(Decimal(m.priority), RawTokens(Header(m)), RawData(m.data, m.text))
  }

  lemma PrintIsText(m: Message, clock: Clock)
    requires MessageOk(m, clock)
    ensures G.MessageOk(Raw(m), clock) && Print(m) == G.MessageText(Raw(m))
  {
    PriorityIsText(m.priority);
    DataIsText(m.data, m.text);
    TokensAreText(Header(m));
    HeaderOk(m, clock);
  }

  lemma PriorityIsText(n: nat)
    requires n <= 191
    ensures 1 <= |Decimal(n)| <= 3 && '>' !in Decimal(n) && Priority(Decimal(n)) == Some(n)
  {
    DecimalIsDigits(n);
    DecimalLength(n);
    PriorityReads(n);
  }

  lemma HeaderOk(m: Message, clock: Clock)
    requires MessageOk(m, clock)
    ensures G.TokensOk(RawTokens(Header(m))) && Header(m)[0] == "1"
    ensures Header(m)[1] == "-" || clock(Header(m)[1]).Some?
  {
    forall i | 0 <= i < 6 ensures Header(m)[i] != "" && ' ' !in Header(m)[i] {}
  }

  lemma TextMeansExpected(m: Message, received: int, clock: Clock)
    requires MessageOk(m, clock) && Trimmed(m) == m && G.MessageOk(Raw(m), clock)
    ensures G.MessageEvent(Raw(m), received, clock) == Expected(m, received, clock)
  {
    PriorityReads(m.priority);
    DataIsText(m.data, m.text);
    if m.text.Some? {
      assert PrintText(m.text)[..1] == " " && PrintText(m.text)[1..] == m.text.value;
    }
  }

  /* ---------- The whole message ---------- */

  lemma {:induction false} TrimEndKeeps(pre: string, t: string)
    requires pre != "" && pre[|pre| - 1] != CR && pre[|pre| - 1] != LF
    ensures TrimEnd(pre + t) == pre + TrimEnd(t)
  {
    if t == "" {
      assert pre + t == pre;
    } else if t[|t| - 1] == CR || t[|t| - 1] == LF {
      TrimEndKeeps(pre, t[..|t| - 1]);
      assert (pre + t)[..|pre + t| - 1] == pre + t[..|t| - 1];
    }
  }

  function Trimmed(m: Message): Message {
    m.(text := if m.text.None? then None else Some(TrimEnd(m.text.value)))
  }

  function Front(m: Message): string {
    "<" + Decimal(m.priority) + ">" + (PrintTokens(Header(m)) + PrintData(m.data))
  }

  lemma PrintIsFront(m: Message)
    ensures Print(m) == Front(m) + PrintText(m.text)
  {
    var tokens, data, text := PrintTokens(Header(m)), PrintData(m.data), PrintText(m.text);
    Regroup(tokens, data, text);
    Regroup("<" + Decimal(m.priority) + ">", tokens + data, text);
  }

  lemma {:induction false} ElementsEnd(es: seq<Element>)
    requires es != []
    ensures PrintElements(es) != "" && PrintElements(es)[|PrintElements(es)| - 1] == ']'
  {
    if |es| > 1 { ElementsEnd(es[1..]); }
  }

  lemma FrontEnds(m: Message)
    ensures var f := Front(m); f != "" && f[|f| - 1] != CR && f[|f| - 1] != LF
  {
    if m.data != [] { ElementsEnd(m.data); }
    var d := PrintData(m.data);
    assert d != "" && (d[|d| - 1] == ']' || d[|d| - 1] == '-');
    LastOf("<" + Decimal(m.priority) + ">", PrintTokens(Header(m)), d);
  }

  lemma LastOf(a: string, b: string, c: string)
    requires c != ""
    ensures var s := a + (b + c); s != "" && s[|s| - 1] == c[|c| - 1]
  {
  }

  lemma TextTrims(front: string, text: Option<string>)
    requires front != "" && front[|front| - 1] != CR && front[|front| - 1] != LF
    ensures TrimEnd(front + PrintText(text)) ==
            front + PrintText(if text.None? then None else Some(TrimEnd(text.value)))
  {
    if text.None? {
      TrimEndKeeps(front, "");
    } else {
      assert front + PrintText(text) == (front + " ") + text.value;
      TrimEndKeeps(front + " ", text.value);
      assert front + " " + TrimEnd(text.value) == front + (" " + TrimEnd(text.value));
    }
  }

  /** Trimming the line end only touches the text. */
  lemma PrintTrims(m: Message)
    ensures TrimEnd(Print(m)) == Print(Trimmed(m))
  {
    FrontEnds(m);
    PrintIsFront(m);
    PrintIsFront(Trimmed(m));
    TextTrims(Front(m), m.text);
  }

  lemma ExpectedTrims(m: Message, received: int, clock: Clock)
    requires MessageOk(m, clock)
    ensures Trimmed(Trimmed(m)) == Trimmed(m)
    ensures Expected(Trimmed(m), received, clock) == Expected(m, received, clock)
  {
    if m.text.Some? { TrimEndTwice(m.text.value); }
  }

  /** Printing, then parsing, gives the message back: every header field, every structured
      data field with its escapes undone and the last value winning, and the text. */
  lemma RoundTrip(m: Message, received: int, clock: Clock)
    requires MessageOk(m, clock)
    ensures ParseMessage(Print(m), received, clock) == Parsed(Expected(m, received, clock))
  {
    var t := Trimmed(m);
    PrintTrims(m);
    ExpectedTrims(m, received, clock);
    PrintIsText(t, clock);
    G.TextIsParsed(Print(m), Raw(t), received, clock);
    TextMeansExpected(t, received, clock);
  }

  lemma {:induction false} TrimEndTwice(s: string)
    ensures TrimEnd(TrimEnd(s)) == TrimEnd(s)
  {
    if s != "" { TrimEndTwice(s[..|s| - 1]); }
  }

  /** The text comes back unchanged exactly when it does not end in CR or LF, does not begin
      with a BOM and, after NILVALUE structured data, does not begin with a space. */
  lemma TextSurvivesIff(m: Message, received: int, clock: Clock)
    requires MessageOk(m, clock) && m.text.Some?
    ensures var text := m.text.value;
            ParseMessage(Print(m), received, clock) == Parsed(Expected(m, received, clock).(message := text)) <==>
              && (text == "" || (text[|text| - 1] != CR && text[|text| - 1] != LF))
              && !HasPrefix(text, BOM)
              && (m.data == [] ==> !HasPrefix(text, " "))
  {
    RoundTrip(m, received, clock);
    TrimEndShortens(m.text.value);
  }

  lemma {:induction false} TrimEndShortens(s: string)
    ensures |TrimEnd(s)| <= |s|
    ensures TrimEnd(s) == s <==> (s == "" || (s[|s| - 1] != CR && s[|s| - 1] != LF))
  {
    if s != "" { TrimEndShortens(s[..|s| - 1]); }
  }

  /** Auto-detection sends every printed message to this parser. */
  lemma PrintedIsDetected(m: Message, clock: Clock, matchesRfc3164: string -> bool)
    requires MessageOk(m, clock)
    ensures Detect(Print(m), matchesRfc3164) == FormatRfc5424
  {
    assert PrintTokens(Header(m)) == "1" + " " + PrintTokens(Header(m)[1..]);
    assert Body(m)[0] == '1' && Body(m)[1] == ' ';
    PriorityIsText(m.priority);
    G.DetectHeader(Decimal(m.priority), Body(m), matchesRfc3164);
  }
}
