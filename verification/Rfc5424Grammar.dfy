/**
 The language that the RFC 5424 parser accepts, with the meaning of every text in it. The
 parser is more liberal than section 6 of RFC 5424: more than one space between tokens, no
 space between parameters, a backslash before any byte. Everything else is rejected.
 */
module Rfc5424Grammar {
  import opened Bytes
  import opened Wrappers
  import opened Sequences
  import opened Rfc5424

  /* ---------- Texts ---------- */

  /** A byte of a quoted value that stands for itself, or a backslash and a byte. */
  datatype Unit = Plain(c: char) | Escaped(c: char)

  /** A parameter with the spaces before it. */
  datatype RawParam = RawParam(spaces: nat, name: string, units: seq<Unit>)

  datatype RawElement = RawElement(id: string, params: seq<RawParam>)

  /** Structured data with what follows it. */
  datatype RawData = NilOnly | NilThen(text: string) | Elements(elements: seq<RawElement>, text: string)

  /** A token with the spaces after it. */
  datatype Token = Token(text: string, spaces: nat)

  datatype RawMessage = RawMessage(pri: string, tokens: seq<Token>, data: RawData)

  function UnitText(u: Unit): string {
    match u case Plain(c) => [c] case Escaped(c) => ['\\', c]
  }

  function UnitsText(us: seq<Unit>): string {
    if us == [] then "" else UnitText(us[0]) + UnitsText(us[1..])
  }

  function QuotedText(us: seq<Unit>): string { "\"" + (UnitsText(us) + "\"") }

  function ParamText(p: RawParam): string { Spaces(p.spaces) + (p.name + ("=" + QuotedText(p.units))) }

  function ParamsText(ps: seq<RawParam>): string {
    if ps == [] then "" else ParamText(ps[0]) + ParamsText(ps[1..])
  }

  function ElementText(e: RawElement): string { "[" + (e.id + (ParamsText(e.params) + "]")) }

  function ElementsText(es: seq<RawElement>): string {
    if es == [] then "" else ElementText(es[0]) + ElementsText(es[1..])
  }

  function DataText(d: RawData): string {
    match d
    case NilOnly => "-"
    case NilThen(text) => "- " + text
    case Elements(es, text) => ElementsText(es) + text
  }

  function TokensText(ts: seq<Token>): string {
    if ts == [] then "" else ts[0].text + (Spaces(ts[0].spaces) + TokensText(ts[1..]))
  }

  function MessageText(m: RawMessage): string {
    "<" + m.pri + ">" + (TokensText(m.tokens) + DataText(m.data))
  }

  /* ---------- Which of them are in the language ---------- */

  predicate UnitOk(u: Unit) { u.Plain? ==> u.c != '"' && u.c != '\\' }

  predicate UnitsOk(us: seq<Unit>) { forall i :: 0 <= i < |us| ==> UnitOk(us[i]) }

  predicate NameOk(name: string) { name != "" && '=' !in name && ']' !in name && ' ' !in name }

  predicate ParamOk(p: RawParam) { NameOk(p.name) && UnitsOk(p.units) }

  predicate ParamsOk(ps: seq<RawParam>) { forall i :: 0 <= i < |ps| ==> ParamOk(ps[i]) }

  predicate ElementOk(e: RawElement) {
    && e.id != "" && ' ' !in e.id && ']' !in e.id
    && ParamsOk(e.params) && (e.params != [] ==> e.params[0].spaces > 0)
  }

  predicate ElementsOk(es: seq<RawElement>) { forall i :: 0 <= i < |es| ==> ElementOk(es[i]) }

  predicate DataOk(d: RawData) {
    d.Elements? ==> d.elements != [] && ElementsOk(d.elements) && (d.text == "" || d.text[0] != '[')
  }

  predicate TokenOk(t: Token) { t.text != "" && ' ' !in t.text && t.spaces > 0 }

  predicate TokensOk(ts: seq<Token>) { forall i :: 0 <= i < |ts| ==> TokenOk(ts[i]) }

  predicate MessageOk(m: RawMessage, clock: Clock) {
    && 1 <= |m.pri| <= 3 && '>' !in m.pri && Priority(m.pri).Some?
    && |m.tokens| == 6 && TokensOk(m.tokens) && m.tokens[0].text == "1"
    && (m.tokens[1].text == "-" || clock(m.tokens[1].text).Some?)
    && DataOk(m.data)
  }

  /* ---------- What they mean ---------- */

  /** A backslash disappears before a quote, a backslash and a closing bracket, and stays before
      any other byte. */
  function UnitValue(u: Unit): string {
    if u == Escaped('"') || u == Escaped('\\') || u == Escaped(']') then [u.c] else UnitText(u)
  }

  function UnitsValue(us: seq<Unit>): string {
    if us == [] then "" else UnitValue(us[0]) + UnitsValue(us[1..])
  }

  function ParamsFields(id: string, ps: seq<RawParam>, fields: map<string, string>): map<string, string> {
    if ps == [] then fields
    else ParamsFields(id, ps[1..], fields["syslog.sd." + id + "." + ps[0].name := UnitsValue(ps[0].units)])
  }

  function ElementsFields(es: seq<RawElement>, fields: map<string, string>): map<string, string> {
    if es == [] then fields else ElementsFields(es[1..], ParamsFields(es[0].id, es[0].params, fields))
  }

  function DataFields(d: RawData): map<string, string> {
    if d.Elements? then ElementsFields(d.elements, map[]) else map[]
  }

  function DataRest(d: RawData): string { if d.NilOnly? then "" else d.text }

  function OrNil(token: string): string { if token == "-" then "" else token }

  function MessageEvent(m: RawMessage, received: int, clock: Clock): Event
    requires MessageOk(m, clock)
  {
    var n, stamp := Priority(m.pri).value, m.tokens[1].text;
    Event(if stamp == "-" then received else clock(stamp).value, stamp == "-",
          TrimPrefix(TrimPrefix(DataRest(m.data), " "), BOM), OrNil(m.tokens[2].text), n / 8, n % 8, n,
          OrNil(m.tokens[3].text), OrNil(m.tokens[4].text), OrNil(m.tokens[5].text), DataFields(m.data))
  }

  /* ---------- Quoted values ---------- */

  lemma ScanUnit(u: Unit, s: string, acc: string)
    requires UnitOk(u)
    ensures ScanValue(UnitText(u) + s, acc) == ScanValue(s, acc + UnitValue(u))
  {
    var t := UnitText(u) + s;
    assert t[|UnitText(u)|..] == s;
  }

  /** The exact value of every quoted text, and exactly when there is none: every string is a
      sequence of units and then a quote, or nothing, or a single backslash. */
  lemma {:induction false} ValueOfUnits(us: seq<Unit>, tail: string, acc: string)
    requires UnitsOk(us)
    ensures tail != "" && tail[0] == '"' ==>
              ScanValue(UnitsText(us) + tail, acc) == Closed(acc + UnitsValue(us), tail[1..])
    ensures tail == "" || tail == "\\" ==> ScanValue(UnitsText(us) + tail, acc) == Open
  {
    if us == [] {
      assert UnitsText(us) + tail == tail && acc + UnitsValue(us) == acc;
    } else {
      ValueOfUnits(us[1..], tail, acc + UnitValue(us[0]));
      FirstUnit(us, tail, acc);
    }
  }

  lemma FirstUnit(us: seq<Unit>, tail: string, acc: string)
    requires UnitsOk(us) && us != []
    ensures ScanValue(UnitsText(us) + tail, acc) == ScanValue(UnitsText(us[1..]) + tail, acc + UnitValue(us[0]))
    ensures acc + UnitsValue(us) == acc + UnitValue(us[0]) + UnitsValue(us[1..])
  {
    UnitsHead(us, tail);
    ScanUnit(us[0], UnitsText(us[1..]) + tail, acc);
    Regroup(acc, UnitValue(us[0]), UnitsValue(us[1..]));
  }

  lemma UnitsHead(us: seq<Unit>, tail: string)
    requires us != []
    ensures UnitsText(us) + tail == UnitText(us[0]) + (UnitsText(us[1..]) + tail)
  {
    Regroup(UnitText(us[0]), UnitsText(us[1..]), tail);
  }

  lemma {:induction false} UnitsOfValue(s: string) returns (us: seq<Unit>, tail: string)
    ensures UnitsOk(us) && s == UnitsText(us) + tail
    ensures tail == "" || tail == "\\" || tail[0] == '"'
    decreases |s|
  {
    if s == "" || s[0] == '"' || s == "\\" {
      us, tail := [], s;
    } else {
      var u := if s[0] == '\\' then Escaped(s[1]) else Plain(s[0]);
      var n := |UnitText(u)|;
      us, tail := UnitsOfValue(s[n..]);
      assert s == UnitText(u) + s[n..];
      assert UnitsText([u] + us) == UnitText(u) + UnitsText(us) by { assert ([u] + us)[1..] == us; }
      us := [u] + us;
    }
  }

  lemma QuotedScans(us: seq<Unit>, post: string)
    requires UnitsOk(us)
    ensures ScanQuoted(QuotedText(us) + post) == Closed(UnitsValue(us), post)
  {
    var s := QuotedText(us) + post;
    assert s[1..] == UnitsText(us) + ("\"" + post);
    ValueOfUnits(us, "\"" + post, "");
    assert ("\"" + post)[1..] == post && "" + UnitsValue(us) == UnitsValue(us);
  }

  lemma QuotedIsText(u: string) returns (us: seq<Unit>)
    ensures ScanQuoted(u).Closed? ==>
              UnitsOk(us) && u == QuotedText(us) + ScanQuoted(u).rest && ScanQuoted(u).value == UnitsValue(us)
  {
    us := [];
    if u != "" && u[0] == '"' {
      var tail;
      us, tail := UnitsOfValue(u[1..]);
      ValueOfUnits(us, tail, "");
      assert "" + UnitsValue(us) == UnitsValue(us);
      if tail != "" && tail[0] == '"' {
        assert u == "\"" + (UnitsText(us) + "\"") + tail[1..];
      }
    }
  }

  /* ---------- Parameters ---------- */

  lemma {:induction false} TrimsSpaces(n: nat, t: string)
    requires t == "" || t[0] != ' '
    ensures TrimSpaces(Spaces(n) + t) == t
  {
    if n == 0 {
      assert Spaces(n) + t == t;
    } else {
      TrimsSpaces(n - 1, t);
      assert (Spaces(n) + t)[1..] == Spaces(n - 1) + t;
    }
  }

  lemma StopsAt(name: string, rest: string, stops: string)
    requires (forall i :: 0 <= i < |name| ==> name[i] !in stops) && rest != "" && rest[0] in stops
    ensures Until(name + rest, stops) == |name|
  {
    var s, k := name + rest, Until(name + rest, stops);
    assert forall i :: 0 <= i < |name| ==> s[i] == name[i];
    assert s[|name|] == rest[0];
  }

  lemma NamedScans(name: string, us: seq<Unit>, post: string)
    requires NameOk(name) && UnitsOk(us)
    ensures ScanNamed(name + ("=" + (QuotedText(us) + post))) == Param(name, UnitsValue(us), post)
  {
    var rest := "=" + (QuotedText(us) + post);
    var t, k := name + rest, |name|;
    StopsAt(name, rest, "=] ");
    assert t[..k] == name && t[k] == '=' && t[k + 1..] == QuotedText(us) + post;
    QuotedScans(us, post);
  }

  lemma ParamScans(p: RawParam, post: string)
    requires ParamOk(p)
    ensures ScanParam(ParamText(p) + post) == Param(p.name, UnitsValue(p.units), post)
  {
    var named := p.name + ("=" + (QuotedText(p.units) + post));
    assert ParamText(p) + post == Spaces(p.spaces) + named;
    assert named[0] == p.name[0];
    TrimsSpaces(p.spaces, named);
    NamedScans(p.name, p.units, post);
  }

  lemma NamedIsText(t: string) returns (us: seq<Unit>)
    ensures ScanNamed(t).Param? ==>
              var name := ScanNamed(t).name;
              && NameOk(name) && UnitsOk(us) && ScanNamed(t).value == UnitsValue(us)
              && t == name + ("=" + QuotedText(us)) + ScanNamed(t).rest
  {
    us := [];
    var k := Until(t, "=] ");
    if 0 < k < |t| && t[k] == '=' {
      us := QuotedIsText(t[k + 1..]);
      assert t == t[..k] + (['='] + t[k + 1..]);
      assert forall i :: 0 <= i < k ==> t[..k][i] == t[i] && t[i] !in "=] ";
      if ScanNamed(t).Param? {
        PlainName(t[..k]);
      }
    }
  }

  lemma PlainName(name: string)
    requires name != "" && forall i :: 0 <= i < |name| ==> name[i] !in "=] "
    ensures NameOk(name)
  {
    assert '=' in "=] " && ']' in "=] " && ' ' in "=] ";
  }

  lemma ParamIsText(s: string) returns (p: RawParam)
    requires ScanParam(s).Param?
    ensures var r := ScanParam(s);
            ParamOk(p) && s == ParamText(p) + r.rest && p.name == r.name && UnitsValue(p.units) == r.value
  {
    var n := TrimCutsSpaces(s);
    var us := NamedIsText(TrimSpaces(s));
    p := RawParam(n, ScanParam(s).name, us);
  }

  lemma ParamStarts(p: RawParam, rest: string)
    requires ParamOk(p)
    ensures var s := ParamText(p) + rest; s != "" && s[0] != ']' && (s[0] == ' ' <==> p.spaces > 0)
  {
    assert (ParamText(p) + rest)[0] == if p.spaces > 0 then Spaces(p.spaces)[0] else p.name[0];
  }

  lemma ParamsStart(ps: seq<RawParam>, post: string)
    requires ParamsOk(ps) && ps != []
    ensures var s := ParamsText(ps) + post;
            s != "" && s[0] != ']' && (s[0] == ' ' <==> ps[0].spaces > 0)
  {
    ParamStarts(ps[0], ParamsText(ps[1..]) + post);
    ParamsHead(ps, post);
  }

  lemma ParamsHead(ps: seq<RawParam>, post: string)
    requires ps != []
    ensures ParamsText(ps) + post == ParamText(ps[0]) + (ParamsText(ps[1..]) + post)
  {
  }

  lemma {:induction false} ParamsScan(ps: seq<RawParam>, id: string, fields: map<string, string>, post: string)
    requires ParamsOk(ps) && post != "" && post[0] == ']'
    ensures ScanParams(ParamsText(ps) + post, id, fields) == Scanned(post, ParamsFields(id, ps, fields))
  {
    if ps == [] {
      assert ParamsText(ps) + post == post;
    } else {
      var rest := ParamsText(ps[1..]) + post;
      var more := fields["syslog.sd." + id + "." + ps[0].name := UnitsValue(ps[0].units)];
      ParamsStart(ps, post);
      ParamsHead(ps, post);
      ParamScans(ps[0], rest);
      ParamsScan(ps[1..], id, more, post);
    }
  }

  lemma ParamsCons(p: RawParam, ps: seq<RawParam>, id: string, fields: map<string, string>, rest: string)
    ensures ParamsText([p] + ps) + rest == ParamText(p) + (ParamsText(ps) + rest)
    ensures ParamsFields(id, [p] + ps, fields) ==
            ParamsFields(id, ps, fields["syslog.sd." + id + "." + p.name := UnitsValue(p.units)])
  {
    assert ([p] + ps)[1..] == ps;
  }

  lemma {:induction false} ParamsAreText(s: string, id: string, fields: map<string, string>) returns (ps: seq<RawParam>)
    requires ScanParams(s, id, fields).Scanned?
    ensures var r := ScanParams(s, id, fields);
            && ParamsOk(ps) && s == ParamsText(ps) + r.rest && r.fields == ParamsFields(id, ps, fields)
            && (s != "" && s[0] == ' ' ==> ps != [] && ps[0].spaces > 0)
    decreases |s|
  {
    if s == "" || s[0] == ']' {
      ps := [];
      assert s == "" + s;
    } else {
      var p := ParamIsText(s);
      var r := ScanParam(s);
      var more := fields[FieldKey(id, r.name) := r.value];
      ps := ParamsAreText(r.rest, id, more);
      ParamsCons(p, ps, id, fields, ScanParams(s, id, fields).rest);
      ParamStarts(p, r.rest);
      ps := [p] + ps;
    }
  }

  /* ---------- Elements ---------- */

  lemma ElementScans(e: RawElement, fields: map<string, string>, post: string)
    requires ElementOk(e)
    ensures var s := ElementText(e) + post;
            s[0] == '[' && ScanElement(s[1..], fields) == Scanned(post, ParamsFields(e.id, e.params, fields))
  {
    var rest := ParamsText(e.params) + ("]" + post);
    var t, k := e.id + rest, |e.id|;
    assert (ElementText(e) + post)[1..] == t;
    if e.params == [] {
      assert rest == "]" + post;
    } else {
      ParamsStart(e.params, "]" + post);
    }
    assert forall i :: 0 <= i < k ==> e.id[i] !in " ]";
    StopsAt(e.id, rest, " ]");
    assert t[..k] == e.id && t[k..] == rest;
    ParamsScan(e.params, e.id, fields, "]" + post);
    assert ("]" + post)[1..] == post;
  }

  lemma ElementIsText(t: string, fields: map<string, string>) returns (e: RawElement)
    requires ScanElement(t, fields).Scanned?
    ensures var r := ScanElement(t, fields);
            ElementOk(e) && "[" + t == ElementText(e) + r.rest && r.fields == ParamsFields(e.id, e.params, fields)
  {
    var k := Until(t, " ]");
    var id, after := t[..k], t[k..];
    var ps := ParamsAreText(after, id, fields);
    var r := ScanParams(after, id, fields);
    e := RawElement(id, ps);
    PlainId(t, k);
    ElementJoins(t, k, ps, r.rest);
    if ps != [] {
      FirstHasSpace(t, k, ps, r.rest);
    }
  }

  lemma PlainId(t: string, k: nat)
    requires k == Until(t, " ]")
    ensures ' ' !in t[..k] && ']' !in t[..k]
  {
    assert forall i :: 0 <= i < k ==> t[..k][i] == t[i];
    assert ' ' in " ]" && ']' in " ]";
  }

  lemma ElementJoins(t: string, k: nat, ps: seq<RawParam>, rest: string)
    requires k <= |t| && t[k..] == ParamsText(ps) + rest && rest != "" && rest[0] == ']'
    ensures "[" + t == ElementText(RawElement(t[..k], ps)) + rest[1..]
  {
    var id, text, tail := t[..k], ParamsText(ps), rest[1..];
    assert rest == "]" + tail && t == id + t[k..];
    assert "[" + (id + (text + ("]" + tail))) == "[" + (id + (text + "]")) + tail;
  }

  /** The id ends at a space or a bracket, so the first parameter has a space before it. */
  lemma FirstHasSpace(t: string, k: nat, ps: seq<RawParam>, rest: string)
    requires k == Until(t, " ]") && ParamsOk(ps) && ps != [] && t[k..] == ParamsText(ps) + rest
    ensures ps[0].spaces > 0
  {
    ParamsStart(ps, rest);
    assert t[k] == t[k..][0];
  }

  lemma {:induction false} ElementsScan(es: seq<RawElement>, fields: map<string, string>, post: string)
    requires ElementsOk(es) && (post == "" || post[0] != '[')
    ensures ScanElements(ElementsText(es) + post, fields) == Scanned(post, ElementsFields(es, fields))
  {
    if es == [] {
      assert ElementsText(es) + post == post;
    } else {
      var rest := ElementsText(es[1..]) + post;
      assert ElementsText(es) + post == ElementText(es[0]) + rest;
      ElementScans(es[0], fields, rest);
      ElementsScan(es[1..], ParamsFields(es[0].id, es[0].params, fields), post);
    }
  }

  lemma {:induction false} ElementsAreText(s: string, fields: map<string, string>) returns (es: seq<RawElement>)
    requires ScanElements(s, fields).Scanned?
    ensures var r := ScanElements(s, fields);
            && ElementsOk(es) && s == ElementsText(es) + r.rest && r.fields == ElementsFields(es, fields)
            && (r.rest == "" || r.rest[0] != '[') && (s != "" && s[0] == '[' ==> es != [])
    decreases |s|
  {
    if s == "" || s[0] != '[' {
      es := [];
      assert s == "" + s;
    } else {
      var r := ScanElement(s[1..], fields);
      var e := ElementIsText(s[1..], fields);
      assert s == "[" + s[1..];
      assert ScanElements(s, fields) == ScanElements(r.rest, r.fields);
      es := ElementsAreText(r.rest, r.fields);
      ElementsCons(e, es, fields, ScanElements(r.rest, r.fields).rest);
      es := [e] + es;
    }
  }

  lemma ElementsCons(e: RawElement, es: seq<RawElement>, fields: map<string, string>, rest: string)
    ensures ElementsText([e] + es) + rest == ElementText(e) + (ElementsText(es) + rest)
    ensures ElementsFields([e] + es, fields) == ElementsFields(es, ParamsFields(e.id, e.params, fields))
  {
    assert ([e] + es)[1..] == es;
  }

  /* ---------- Structured data ---------- */

  lemma DataScans(d: RawData)
    requires DataOk(d)
    ensures ScanData(DataText(d)) == Scanned(DataRest(d), DataFields(d))
  {
    match d
    case NilOnly =>
    case NilThen(text) =>
      assert ("- " + text)[..2] == "- " && ("- " + text)[2..] == text;
    case Elements(es, text) =>
      ElementsScan(es, map[], text);
      ElementsStart(es, text);
      BracketScans(ElementsText(es) + text);
  }

  lemma ElementsStart(es: seq<RawElement>, text: string)
    requires es != []
    ensures var s := ElementsText(es) + text; s != "" && s[0] == '['
  {
    assert ElementsText(es)[0] == ElementText(es[0])[0];
  }

  lemma BracketScans(s: string)
    requires s != "" && s[0] == '['
    ensures ScanData(s) == ScanElements(s, map[])
  {
    assert |s| >= 2 ==> s[..2][0] == '[';
  }

  lemma DataIsText(s: string) returns (d: RawData)
    requires ScanData(s).Scanned?
    ensures DataOk(d) && s == DataText(d) && ScanData(s) == Scanned(DataRest(d), DataFields(d))
  {
    if s == "-" {
      d := NilOnly;
    } else if HasPrefix(s, "- ") {
      d := NilThen(s[2..]);
    } else {
      var es := ElementsAreText(s, map[]);
      d := Elements(es, ScanData(s).rest);
    }
  }

  /* ---------- Tokens ---------- */

  lemma TokenScans(t: Token, post: string)
    requires TokenOk(t) && (post == "" || post[0] != ' ')
    ensures CutToken(t.text + (Spaces(t.spaces) + post)) == Some((t.text, post))
  {
    var s, k := t.text + (Spaces(t.spaces) + post), |t.text|;
    assert s[k] == Spaces(t.spaces)[0] == ' ';
    IndexIs(s, ' ', k);
    assert s[..k] == t.text && s[k + 1..] == Spaces(t.spaces - 1) + post;
    TrimsSpaces(t.spaces - 1, post);
  }

  function Texts(ts: seq<Token>): (texts: seq<string>)
    ensures |texts| == |ts| && forall i :: 0 <= i < |ts| ==> texts[i] == ts[i].text
  {
    seq(|ts|, i requires 0 <= i < |ts| => ts[i].text)
  }

  lemma {:induction false} TokensScan(ts: seq<Token>, acc: seq<string>, post: string)
    requires TokensOk(ts) && (post == "" || post[0] != ' ')
    ensures CutTokens(TokensText(ts) + post, |ts|, acc) == Some((acc + Texts(ts), post))
  {
    if ts == [] {
      assert TokensText(ts) + post == post && acc + Texts(ts) == acc;
    } else {
      FirstTokenScans(ts, acc, post);
      TokensScan(ts[1..], acc + [ts[0].text], post);
      TextsJoin(acc, ts[0], ts[1..]);
      assert ts == [ts[0]] + ts[1..];
    }
  }

  lemma FirstTokenScans(ts: seq<Token>, acc: seq<string>, post: string)
    requires TokensOk(ts) && ts != [] && (post == "" || post[0] != ' ')
    ensures CutTokens(TokensText(ts) + post, |ts|, acc)
            == CutTokens(TokensText(ts[1..]) + post, |ts| - 1, acc + [ts[0].text])
  {
    var rest := TokensText(ts[1..]) + post;
    TokensStart(ts[1..], post);
    TokenScans(ts[0], rest);
    TokensHead(ts, post);
    CutStep(ts[0].text + (Spaces(ts[0].spaces) + rest), |ts|, acc, ts[0].text, rest);
  }

  lemma TokensHead(ts: seq<Token>, post: string)
    requires ts != []
    ensures TokensText(ts) + post == ts[0].text + (Spaces(ts[0].spaces) + (TokensText(ts[1..]) + post))
  {
    Regroup(ts[0].text, Spaces(ts[0].spaces) + TokensText(ts[1..]), post);
    Regroup(Spaces(ts[0].spaces), TokensText(ts[1..]), post);
  }

  lemma TokensStart(ts: seq<Token>, post: string)
    requires TokensOk(ts) && (post == "" || post[0] != ' ')
    ensures var s := TokensText(ts) + post; s == "" || s[0] != ' '
  {
    if ts == [] {
      assert TokensText(ts) + post == post;
    } else {
      assert (TokensText(ts) + post)[0] == ts[0].text[0];
    }
  }

  /** The tokens that `CutTokens` finds, if the first of them is not empty. */
  lemma {:induction false} TokensAreText(s: string, n: nat, acc: seq<string>) returns (ts: seq<Token>)
    requires CutTokens(s, n, acc).Some? && (s == "" || s[0] != ' ')
    ensures var (parts, rest) := CutTokens(s, n, acc).value;
            TokensOk(ts) && |ts| == n && parts == acc + Texts(ts) && s == TokensText(ts) + rest
    decreases n
  {
    if n == 0 {
      ts := [];
      assert acc + Texts(ts) == acc && "" + s == s;
    } else {
      var t := TokenIsText(s);
      var remaining := CutToken(s).value.1;
      CutStep(s, n, acc, t.text, remaining);
      ts := TokensAreText(remaining, n - 1, acc + [t.text]);
      TokensJoin(t, ts, CutTokens(s, n, acc).value.1);
      TextsJoin(acc, t, ts);
      ts := [t] + ts;
    }
  }

  lemma TokenIsText(s: string) returns (t: Token)
    requires CutToken(s).Some? && (s == "" || s[0] != ' ')
    ensures var (token, rest) := CutToken(s).value;
            TokenOk(t) && t.text == token && s == t.text + Spaces(t.spaces) + rest && (rest == "" || rest[0] != ' ')
  {
    var k := CutTokenSplits(s);
    var (token, rest) := CutToken(s).value;
    t := Token(token, k);
    assert (Spaces(k) + rest)[0] == ' ';
    assert s == token + (Spaces(k) + rest);
  }

  lemma TextsJoin(acc: seq<string>, t: Token, ts: seq<Token>)
    ensures acc + [t.text] + Texts(ts) == acc + Texts([t] + ts)
  {
  }

  lemma TokensJoin(t: Token, ts: seq<Token>, rest: string)
    ensures t.text + Spaces(t.spaces) + (TokensText(ts) + rest) == TokensText([t] + ts) + rest
  {
    assert ([t] + ts)[1..] == ts;
  }

  /* ---------- The whole message ---------- */

  lemma HeaderSplits(pri: string, body: string)
    requires '>' !in pri
    ensures var s := "<" + pri + ">" + body;
            HasPrefix(s, "<") && Index(s, '>') == |pri| + 1 && s[1..|pri| + 1] == pri && s[|pri| + 2..] == body
  {
    var s := "<" + pri + ">" + body;
    assert s[|pri| + 1] == '>';
    assert forall i :: 1 <= i < |pri| + 1 ==> s[i] == pri[i - 1];
    IndexIs(s, '>', |pri| + 1);
  }

  /* ---------- Detection ---------- */

  /** A number in angle brackets, with a sign or not, and something after it. */
  predicate Numbered(pri: string, rest: string) {
    1 <= |pri| <= 3 && '>' !in pri && Atoi(pri).Some? && |pri| + |rest| >= 2
  }

  /** A version digit other than 0, and a space. */
  predicate Versioned(rest: string) { |rest| >= 2 && '1' <= rest[0] <= '9' && rest[1] == ' ' }

  lemma DetectHeader(pri: string, rest: string, matchesRfc3164: string -> bool)
    requires Numbered(pri, rest)
    ensures var s := "<" + pri + ">" + rest;
            Detect(s, matchesRfc3164) ==
            if Versioned(rest) then FormatRfc5424 else if matchesRfc3164(s) then FormatRfc3164 else FormatUnknown
  {
    var s := "<" + pri + ">" + rest;
    HeaderSplits(pri, rest);
    assert s[0] == s[..1][0] == '<';
  }

  ghost predicate HasHeader(s: string, pri: string, rest: string) {
    Numbered(pri, rest) && s == "<" + pri + ">" + rest
  }

  /** Each format is detected exactly for its own texts. */
  lemma DetectIff(s: string, matchesRfc3164: string -> bool)
    ensures Detect(s, matchesRfc3164) == FormatRfc5424 <==>
            exists pri, rest :: HasHeader(s, pri, rest) && Versioned(rest)
    ensures Detect(s, matchesRfc3164) == FormatRfc3164 <==>
            exists pri, rest :: HasHeader(s, pri, rest) && !Versioned(rest) && matchesRfc3164(s)
  {
    forall pri, rest | HasHeader(s, pri, rest)
      ensures Detect(s, matchesRfc3164) ==
              if Versioned(rest) then FormatRfc5424 else if matchesRfc3164(s) then FormatRfc3164 else FormatUnknown
    {
      DetectHeader(pri, rest, matchesRfc3164);
    }
    if Detect(s, matchesRfc3164) != FormatUnknown {
      var end := Index(s, '>');
      assert s[..1] == [s[0]] == "<";
      AnglesSplit(s, end);
      assert HasHeader(s, s[1..end], s[end + 1..]);
    }
  }

  /** A number has an optional sign and at least one digit, and nothing else. */
  lemma AtoiIff(s: string, n: int)
    ensures Atoi(s) == Some(n) <==>
            exists digits :: digits != "" && AllDigits(digits) && SignedValue(s, digits, n)
  {
    if Atoi(s) == Some(n) {
      var digits := if s[0] == '+' || s[0] == '-' then s[1..] else s;
      assert s == if s[0] == '+' || s[0] == '-' then [s[0]] + digits else digits;
      assert SignedValue(s, digits, n);
    }
    forall digits | digits != "" && AllDigits(digits) && SignedValue(s, digits, n) ensures Atoi(s) == Some(n) {
      assert ("+" + digits)[1..] == digits && ("-" + digits)[1..] == digits;
      assert digits[0] != '+' && digits[0] != '-';
    }
  }

  ghost predicate SignedValue(s: string, digits: string, n: int)
    requires AllDigits(digits)
  {
    ((s == digits || s == "+" + digits) && n == Value(digits)) || (s == "-" + digits && n + Value(digits) == 0)
  }

  /* ---------- The parser ---------- */

  lemma PriorityParses(payload: string, pri: string, body: string, received: int, clock: Clock)
    requires TrimEnd(payload) == "<" + pri + ">" + body && '>' !in pri && 1 <= |pri| <= 3 && Priority(pri).Some?
    ensures ParseMessage(payload, received, clock) == ParseHeader(Priority(pri).value, body, received, clock)
  {
    HeaderSplits(pri, body);
  }

  lemma BodyParses(m: RawMessage, received: int, clock: Clock)
    requires MessageOk(m, clock)
    ensures ParseHeader(Priority(m.pri).value, TokensText(m.tokens) + DataText(m.data), received, clock)
            == Parsed(MessageEvent(m, received, clock))
  {
    DataStarts(m.data);
    TokensScan(m.tokens, [], DataText(m.data));
    assert [] + Texts(m.tokens) == Texts(m.tokens);
    DataScans(m.data);
  }

  /** Every text of the language is parsed to its meaning. */
  lemma TextIsParsed(payload: string, m: RawMessage, received: int, clock: Clock)
    requires MessageOk(m, clock) && TrimEnd(payload) == MessageText(m)
    ensures ParseMessage(payload, received, clock) == Parsed(MessageEvent(m, received, clock))
  {
    PriorityParses(payload, m.pri, TokensText(m.tokens) + DataText(m.data), received, clock);
    BodyParses(m, received, clock);
  }

  lemma DataStarts(d: RawData)
    requires DataOk(d)
    ensures DataText(d) != "" && DataText(d)[0] != ' '
  {
    if d.Elements? { ElementsStart(d.elements, d.text); }
  }

  lemma PriorityIsText(payload: string, received: int, clock: Clock) returns (pri: string, body: string)
    requires ParseMessage(payload, received, clock).Parsed?
    ensures TrimEnd(payload) == "<" + pri + ">" + body && '>' !in pri && 1 <= |pri| <= 3 && Priority(pri).Some?
    ensures ParseHeader(Priority(pri).value, body, received, clock).Parsed?
  {
    var s := TrimEnd(payload);
    var end := Index(s, '>');
    pri, body := s[1..end], s[end + 1..];
    AnglesSplit(s, end);
  }

  lemma AnglesSplit(s: string, end: nat)
    requires HasPrefix(s, "<") && 1 <= end < |s| && s[end] == '>' && forall i :: 0 <= i < end ==> s[i] != '>'
    ensures s == "<" + s[1..end] + ">" + s[end + 1..] && '>' !in s[1..end]
  {
    assert s[0] == s[..1][0] == '<';
    assert forall i :: 0 <= i < end - 1 ==> s[1..end][i] == s[i + 1];
  }

  lemma BodyIsText(n: nat, body: string, received: int, clock: Clock) returns (ts: seq<Token>, d: RawData)
    requires ParseHeader(n, body, received, clock).Parsed?
    ensures |ts| == 6 && TokensOk(ts) && ts[0].text == "1" && (ts[1].text == "-" || clock(ts[1].text).Some?)
    ensures DataOk(d) && body == TokensText(ts) + DataText(d)
  {
    var (parts, data) := CutTokens(body, 6, []).value;
    FirstTokenStarts(body, 6, parts, data);
    ts := TokensAreText(body, 6, []);
    assert [] + Texts(ts) == Texts(ts);
    d := DataIsText(data);
  }

  /** And everything that is parsed is a text of the language. */
  lemma ParsedIsText(payload: string, received: int, clock: Clock) returns (m: RawMessage)
    requires ParseMessage(payload, received, clock).Parsed?
    ensures MessageOk(m, clock) && TrimEnd(payload) == MessageText(m)
  {
    var pri, body := PriorityIsText(payload, received, clock);
    var ts, d := BodyIsText(Priority(pri).value, body, received, clock);
    m := RawMessage(pri, ts, d);
  }

  /** The first token is not empty, so the text does not begin with a space. */
  lemma FirstTokenStarts(s: string, n: nat, parts: seq<string>, rest: string)
    requires n > 0 && CutTokens(s, n, []) == Some((parts, rest)) && parts[0] != ""
    ensures s == "" || s[0] != ' '
  {
    var (token, remaining) := CutToken(s).value;
    CutStep(s, n, [], token, remaining);
    FirstStays(remaining, n - 1, [] + [token]);
  }

  lemma {:induction false} FirstStays(s: string, n: nat, acc: seq<string>)
    requires acc != [] && CutTokens(s, n, acc).Some?
    ensures CutTokens(s, n, acc).value.0[0] == acc[0]
    decreases n
  {
    if n > 0 {
      var (token, remaining) := CutToken(s).value;
      CutStep(s, n, acc, token, remaining);
      FirstStays(remaining, n - 1, acc + [token]);
    }
  }

  ghost predicate IsTextOf(payload: string, m: RawMessage, clock: Clock) {
    MessageOk(m, clock) && TrimEnd(payload) == MessageText(m)
  }

  /** The parser accepts exactly the texts of the language, each with its meaning. */
  lemma ParsedIff(payload: string, received: int, clock: Clock, e: Event)
    ensures ParseMessage(payload, received, clock) == Parsed(e) <==>
            exists m :: IsTextOf(payload, m, clock) && e == MessageEvent(m, received, clock)
  {
    forall m | IsTextOf(payload, m, clock)
      ensures ParseMessage(payload, received, clock) == Parsed(MessageEvent(m, received, clock))
    {
      TextIsParsed(payload, m, received, clock);
    }
    if ParseMessage(payload, received, clock) == Parsed(e) {
      var m := ParsedIsText(payload, received, clock);
      assert IsTextOf(payload, m, clock);
    }
  }
}
