/**
 The storage row of a log entry, `toDirectRow` in
 backend/internal/storage/victorialogs/row.go:11-59. Go visits a map in any order, so the
 order of fields and labels is a parameter.
 */
module DirectRow {
  import opened Bytes
  import opened Wrappers

  /** Times and the schema version are already formatted. */
  datatype Entry = Entry(
    id: string, tenantId: string, timestamp: string, receivedAt: string, message: string, protocol: string,
    format: string, sourceId: string, sourceType: string, parseStatus: string, schemaVersion: string,
    rawMessage: string, hostname: string, sourceIp: string, facilityName: string, severityName: string,
    appName: string, processId: string, messageId: string, source: string, sourcePort: nat,
    facility: Option<nat>, severity: Option<nat>, priority: Option<nat>, timestampInferred: bool,
    fields: map<string, string>, labels: map<string, string>)

  type Row = map<string, string>

  /** The keys that `toDirectRow` writes itself. */
  const MANDATORY := {
    "id", "tenant_id", "timestamp", "received_at", "message", "protocol", "format", "source_id", "source_type",
    "parse_status", "schema_version"}

  const STRINGS := {
    "raw_message", "hostname", "source_ip", "facility_name", "severity_name", "app_name", "process_id",
    "message_id", "source"}

  const NUMBERS := {"source_port", "facility", "severity", "priority", "timestamp_inferred"}

  const RESERVED := MANDATORY + STRINGS + NUMBERS

  function EventKey(k: string): string { "event." + k }

  function LabelKey(k: string): string { "label." + k }

  /** `optionalString`. */
  function OptionalString(row: Row, key: string, value: string): (r: Row)
    ensures row.Keys <= r.Keys <= row.Keys + {key}
  {
    if value != "" then row[key := value] else row
  }

  function OptionalNumber(row: Row, key: string, value: Option<nat>): (r: Row)
    ensures row.Keys <= r.Keys <= row.Keys + {key}
  {
    if value.Some? then row[key := Decimal(value.value)] else row
  }

  function Mandatory(e: Entry): (out: Row)
    ensures out.Keys == MANDATORY
  {
    map["id" := e.id, "tenant_id" := e.tenantId, "timestamp" := e.timestamp, "received_at" := e.receivedAt,
        "message" := e.message, "protocol" := e.protocol, "format" := e.format, "source_id" := e.sourceId,
        "source_type" := e.sourceType, "parse_status" := e.parseStatus, "schema_version" := e.schemaVersion]
  }

  function WithOrigin(row: Row, e: Entry): (out: Row)
    ensures row.Keys <= out.Keys <= row.Keys + STRINGS
  {
    var r := OptionalString(row, "raw_message", e.rawMessage);
    var r := OptionalString(r, "hostname", e.hostname);
    OptionalString(r, "source_ip", e.sourceIp)
  }

  function WithNames(row: Row, e: Entry): (out: Row)
    ensures row.Keys <= out.Keys <= row.Keys + STRINGS
  {
    var r := OptionalString(row, "facility_name", e.facilityName);
    var r := OptionalString(r, "severity_name", e.severityName);
    OptionalString(r, "app_name", e.appName)
  }

  function WithIds(row: Row, e: Entry): (out: Row)
    ensures row.Keys <= out.Keys <= row.Keys + STRINGS
  {
    var r := OptionalString(row, "process_id", e.processId);
    var r := OptionalString(r, "message_id", e.messageId);
    OptionalString(r, "source", e.source)
  }

  function WithPort(row: Row, e: Entry): (out: Row)
    ensures row.Keys <= out.Keys <= row.Keys + NUMBERS
  {
    var r := OptionalNumber(row, "source_port", if e.sourcePort != 0 then Some(e.sourcePort) else None);
    OptionalNumber(r, "facility", e.facility)
  }

  function WithLevel(row: Row, e: Entry): (out: Row)
    ensures row.Keys <= out.Keys <= row.Keys + NUMBERS
  {
    var r := OptionalNumber(row, "severity", e.severity);
    var r := OptionalNumber(r, "priority", e.priority);
    if e.timestampInferred then r["timestamp_inferred" := "true"] else r
  }

  /** The row before the loop over the fields. */
  function Base(e: Entry): (row: Row)
    ensures MANDATORY <= row.Keys <= RESERVED
  {
    WithLevel(WithPort(WithIds(WithNames(WithOrigin(Mandatory(e), e), e), e), e), e)
  }

  /* ---------- The value under each key ---------- */

  function Lookup(row: Row, k: string): Option<string> { if k in row then Some(row[k]) else None }

  function Text(v: string): Option<string> { if v == "" then None else Some(v) }

  function Number(n: Option<nat>): Option<string> { if n.None? then None else Some(Decimal(n.value)) }

  /** The values that are always there. */
  function MandatoryValue(e: Entry, k: string): Option<string> {
    if k == "id" then Some(e.id)
    else if k == "tenant_id" then Some(e.tenantId)
    else if k == "timestamp" then Some(e.timestamp)
    else if k == "received_at" then Some(e.receivedAt)
    else if k == "message" then Some(e.message)
    else if k == "protocol" then Some(e.protocol)
    else if k == "format" then Some(e.format)
    else if k == "source_id" then Some(e.sourceId)
    else if k == "source_type" then Some(e.sourceType)
    else if k == "parse_status" then Some(e.parseStatus)
    else if k == "schema_version" then Some(e.schemaVersion)
    else None
  }

  /** The strings that are there when they are not empty. */
  function OriginValue(e: Entry, k: string): Option<string> {
    if k == "raw_message" then Text(e.rawMessage)
    else if k == "hostname" then Text(e.hostname)
    else if k == "source_ip" then Text(e.sourceIp)
    else None
  }

  function NameValue(e: Entry, k: string): Option<string> {
    if k == "facility_name" then Text(e.facilityName)
    else if k == "severity_name" then Text(e.severityName)
    else if k == "app_name" then Text(e.appName)
    else None
  }

  function IdValue(e: Entry, k: string): Option<string> {
    if k == "process_id" then Text(e.processId)
    else if k == "message_id" then Text(e.messageId)
    else if k == "source" then Text(e.source)
    else None
  }

  /** The numbers that are there when they are known, and the mark of an inferred time. */
  function PortValue(e: Entry, k: string): Option<string> {
    if k == "source_port" then Number(if e.sourcePort == 0 then None else Some(e.sourcePort))
    else if k == "facility" then Number(e.facility)
    else None
  }

  function LevelValue(e: Entry, k: string): Option<string> {
    if k == "severity" then Number(e.severity)
    else if k == "priority" then Number(e.priority)
    else if k == "timestamp_inferred" && e.timestampInferred then Some("true")
    else None
  }

  function Or(first: Option<string>, second: Option<string>): Option<string> {
    if first.Some? then first else second
  }

  lemma MandatoryAt(e: Entry, k: string)
    ensures Lookup(Mandatory(e), k) == MandatoryValue(e, k)
  {
  }

  lemma OriginAt(row: Row, e: Entry, k: string)
    ensures Lookup(WithOrigin(row, e), k) == Or(OriginValue(e, k), Lookup(row, k))
  {
  }

  lemma NamesAt(row: Row, e: Entry, k: string)
    ensures Lookup(WithNames(row, e), k) == Or(NameValue(e, k), Lookup(row, k))
  {
  }

  lemma IdsAt(row: Row, e: Entry, k: string)
    ensures Lookup(WithIds(row, e), k) == Or(IdValue(e, k), Lookup(row, k))
  {
  }

  lemma PortAt(row: Row, e: Entry, k: string)
    ensures Lookup(WithPort(row, e), k) == Or(PortValue(e, k), Lookup(row, k))
  {
  }

  lemma LevelAt(row: Row, e: Entry, k: string)
    ensures Lookup(WithLevel(row, e), k) == Or(LevelValue(e, k), Lookup(row, k))
  {
  }

  /** The base row has exactly these values: the fixed ones, the strings that are not empty, and
      the numbers that are known. */
  lemma BaseValues(e: Entry, k: string)
    ensures Lookup(Base(e), k) ==
            Or(LevelValue(e, k), Or(PortValue(e, k),
               Or(IdValue(e, k), Or(NameValue(e, k), Or(OriginValue(e, k), MandatoryValue(e, k))))))
  {
    var r0 := Mandatory(e);
    var r1 := WithOrigin(r0, e);
    var r2 := WithNames(r1, e);
    var r3 := WithIds(r2, e);
    MandatoryAt(e, k);
    OriginAt(r0, e, k);
    NamesAt(r1, e, k);
    IdsAt(r2, e, k);
    PortAt(r3, e, k);
    LevelAt(WithPort(r3, e), e, k);
  }

  /* ---------- The two loops ---------- */

  /** A field whose key is taken goes under "event." instead. */
  function PutField(row: Row, k: string, v: string): Row {
    if k in row then row[EventKey(k) := v] else row[k := v]
  }

  function PutFields(row: Row, order: seq<string>, fields: map<string, string>): Row
    requires KeySet(order) <= fields.Keys
  {
    if order == [] then row
    else
      var n := |order| - 1;
      PutField(PutFields(row, order[..n], fields), order[n], fields[order[n]])
  }

  function PutLabels(row: Row, order: seq<string>, labels: map<string, string>): Row
    requires KeySet(order) <= labels.Keys
  {
    if order == [] then row
    else
      var n := |order| - 1;
      PutLabels(row, order[..n], labels)[LabelKey(order[n]) := labels[order[n]]]
  }

  ghost function KeySet(order: seq<string>): (keys: set<string>)
    ensures forall k :: k in order <==> k in keys
  {
    set k | k in order
  }

  /** An order in which a map can be visited: every key once. */
  ghost predicate IsOrder(order: seq<string>, keys: set<string>) {
    && (forall i, j :: 0 <= i < j < |order| ==> order[i] != order[j])
    && KeySet(order) == keys
  }

  method AddFields(base: Row, order: seq<string>, fields: map<string, string>) returns (row: Row)
    requires KeySet(order) <= fields.Keys
    ensures row == PutFields(base, order, fields)
  {
    row := base;
    for i := 0 to |order|
      invariant row == PutFields(base, order[..i], fields)
    {
      var k := order[i];
      assert order[..i + 1][..i] == order[..i];
      if k in row {
        row := row[EventKey(k) := fields[k]];
      } else {
        row := row[k := fields[k]];
      }
    }
    assert order[..|order|] == order;
  }

  method AddLabels(base: Row, order: seq<string>, labels: map<string, string>) returns (row: Row)
    requires KeySet(order) <= labels.Keys
    ensures row == PutLabels(base, order, labels)
  {
    row := base;
    for i := 0 to |order|
      invariant row == PutLabels(base, order[..i], labels)
    {
      assert order[..i + 1][..i] == order[..i];
      row := row[LabelKey(order[i]) := labels[order[i]]];
    }
    assert order[..|order|] == order;
  }

  method ToDirectRow(e: Entry, fieldOrder: seq<string>, labelOrder: seq<string>) returns (row: Row)
    requires IsOrder(fieldOrder, e.fields.Keys) && IsOrder(labelOrder, e.labels.Keys)
    ensures row == PutLabels(PutFields(Base(e), fieldOrder, e.fields), labelOrder, e.labels)
  {
    row := Base(e);
    row := AddFields(row, fieldOrder, e.fields);
    row := AddLabels(row, labelOrder, e.labels);
  }

  /* ---------- What every order keeps ---------- */

  /** No key of the base could be an "event." or "label." key. */
  ghost predicate BaseOk(base: Row) {
    forall k :: k in base ==> !HasPrefix(k, "event.") && !HasPrefix(k, "label.")
  }

  predicate Plain(k: string) { k != "" && k[0] != 'e' && k[0] != 'l' }

  lemma MandatoryKeysArePlain(k: string)
    ensures k in MANDATORY ==> Plain(k)
  {
  }

  lemma StringKeysArePlain(k: string)
    ensures k in STRINGS ==> Plain(k)
  {
  }

  lemma NumberKeysArePlain(k: string)
    ensures k in NUMBERS ==> Plain(k)
  {
  }

  lemma PlainHasNoPrefix(k: string)
    requires Plain(k)
    ensures !HasPrefix(k, "event.") && !HasPrefix(k, "label.")
  {
  }

  lemma BaseIsOk(e: Entry)
    ensures BaseOk(Base(e))
  {
    forall k | k in Base(e) ensures !HasPrefix(k, "event.") && !HasPrefix(k, "label.") {
      MandatoryKeysArePlain(k);
      StringKeysArePlain(k);
      NumberKeysArePlain(k);
      PlainHasNoPrefix(k);
    }
  }

  lemma PrefixedKeys(k: string)
    ensures HasPrefix(EventKey(k), "event.") && EventKey(k)[6..] == k && |EventKey(k)| == |k| + 6
    ensures HasPrefix(LabelKey(k), "label.") && LabelKey(k)[6..] == k
    ensures !HasPrefix(EventKey(k), "label.")
  {
    assert EventKey(k)[..6] == "event." && LabelKey(k)[..6] == "label.";
    assert "event."[0] != "label."[0];
  }

  /** Whatever the order, and whatever the keys: nothing written before the loops changes. */
  lemma {:induction false} FieldsKeepBase(base: Row, order: seq<string>, fields: map<string, string>, b: string)
    requires BaseOk(base) && b in base && KeySet(order) <= fields.Keys
    ensures b in PutFields(base, order, fields) && PutFields(base, order, fields)[b] == base[b]
  {
    if order != [] {
      FieldsKeepBase(base, order[..|order| - 1], fields, b);
      PrefixedKeys(order[|order| - 1]);
    }
  }

  lemma {:induction false} LabelsKeep(row: Row, order: seq<string>, labels: map<string, string>, b: string)
    requires KeySet(order) <= labels.Keys
    requires b in row && forall k :: k in order ==> LabelKey(k) != b
    ensures b in PutLabels(row, order, labels) && PutLabels(row, order, labels)[b] == row[b]
  {
    if order != [] { LabelsKeep(row, order[..|order| - 1], labels, b); }
  }

  lemma BaseIsNeverOverwritten(e: Entry, fieldOrder: seq<string>, labelOrder: seq<string>, b: string)
    requires KeySet(fieldOrder) <= e.fields.Keys && KeySet(labelOrder) <= e.labels.Keys
    ensures var row := PutLabels(PutFields(Base(e), fieldOrder, e.fields), labelOrder, e.labels);
            b in Base(e) ==> b in row && row[b] == Base(e)[b]
  {
    if b in Base(e) {
      BaseIsOk(e);
      FieldsKeepBase(Base(e), fieldOrder, e.fields, b);
      forall k | k in labelOrder ensures LabelKey(k) != b { PrefixedKeys(k); }
      LabelsKeep(PutFields(Base(e), fieldOrder, e.fields), labelOrder, e.labels, b);
    }
  }

  /* ---------- When the order does not matter ---------- */

  /** A reserved field key together with the key it is moved to. */
  predicate Clash(base: Row, keys: set<string>) {
    exists k :: k in base && k in keys && EventKey(k) in keys
  }

  /** Where a field goes when there is no clash. */
  function Dest(base: Row, k: string): string { if k in base then EventKey(k) else k }

  /** The fields of `done` are in the row, each at its place, and nothing else is. */
  ghost predicate Filled(base: Row, fields: map<string, string>, done: set<string>, row: Row)
    requires done <= fields.Keys
  {
    && row.Keys == base.Keys + (set k | k in done :: Dest(base, k))
    && (forall b :: b in base ==> row[b] == base[b])
    && (forall k :: k in done ==> row[Dest(base, k)] == fields[k])
  }

  lemma DestsDiffer(base: Row, keys: set<string>, k: string, l: string)
    requires BaseOk(base) && !Clash(base, keys) && k in keys && l in keys && k != l
    ensures Dest(base, k) != Dest(base, l)
    ensures Dest(base, k) !in base
  {
    PrefixedKeys(k);
    PrefixedKeys(l);
  }

  lemma DestIsNew(base: Row, k: string)
    requires BaseOk(base)
    ensures Dest(base, k) !in base
  {
    PrefixedKeys(k);
  }

  lemma PutFieldFills(base: Row, fields: map<string, string>, done: set<string>, row: Row, k: string)
    requires BaseOk(base) && !Clash(base, fields.Keys)
    requires done <= fields.Keys && Filled(base, fields, done, row)
    requires k in fields && k !in done
    ensures Filled(base, fields, done + {k}, PutField(row, k, fields[k]))
  {
    DestIsNew(base, k);
    forall l | l in done ensures Dest(base, l) != Dest(base, k) && Dest(base, l) !in base {
      DestsDiffer(base, fields.Keys, l, k);
    }
    var after := PutField(row, k, fields[k]);
    assert after == row[Dest(base, k) := fields[k]];
  }

  /** Without a clash every order of the fields places each field by itself. */
  lemma {:induction false} FieldsFill(base: Row, order: seq<string>, fields: map<string, string>)
    requires BaseOk(base) && !Clash(base, fields.Keys)
    requires KeySet(order) <= fields.Keys
    requires forall i, j :: 0 <= i < j < |order| ==> order[i] != order[j]
    ensures Filled(base, fields, KeySet(order), PutFields(base, order, fields))
  {
    if order != [] {
      var n := |order| - 1;
      var init, k := order[..n], order[n];
      FieldsFill(base, init, fields);
      PutFieldFills(base, fields, KeySet(init), PutFields(base, init, fields), k);
      KeySetGrows(init, k);
      assert init + [k] == order;
    }
  }

  lemma KeySetGrows(order: seq<string>, k: string)
    ensures KeySet(order + [k]) == KeySet(order) + {k}
  {
  }

  lemma FilledOnce(base: Row, fields: map<string, string>, done: set<string>, r1: Row, r2: Row)
    requires done <= fields.Keys && Filled(base, fields, done, r1) && Filled(base, fields, done, r2)
    ensures r1 == r2
  {
    assert r1.Keys == r2.Keys;
    forall x | x in r1 ensures r1[x] == r2[x] {
      if x !in base {
        var k :| k in done && Dest(base, k) == x;
      }
    }
  }

  lemma SameFields(base: Row, order1: seq<string>, order2: seq<string>, fields: map<string, string>)
    requires BaseOk(base) && !Clash(base, fields.Keys)
    requires IsOrder(order1, fields.Keys) && IsOrder(order2, fields.Keys)
    ensures PutFields(base, order1, fields) == PutFields(base, order2, fields)
  {
    FieldsFill(base, order1, fields);
    FieldsFill(base, order2, fields);
    FilledOnce(base, fields, fields.Keys, PutFields(base, order1, fields), PutFields(base, order2, fields));
  }

  /** The labels of `done` are in the row under their own keys, and every other key is as before. */
  ghost predicate Labelled(row: Row, labels: map<string, string>, done: set<string>, out: Row)
    requires done <= labels.Keys
  {
    && out.Keys == row.Keys + (set l | l in done :: LabelKey(l))
    && (forall l :: l in done ==> out[LabelKey(l)] == labels[l])
    && (forall x :: x in row && (forall l :: l in done ==> LabelKey(l) != x) ==> out[x] == row[x])
  }

  lemma PutLabelFills(row: Row, labels: map<string, string>, done: set<string>, out: Row, k: string)
    requires done <= labels.Keys && Labelled(row, labels, done, out) && k in labels
    ensures Labelled(row, labels, done + {k}, out[LabelKey(k) := labels[k]])
  {
    forall l | l in done ensures l == k || LabelKey(l) != LabelKey(k) {
      PrefixedKeys(l);
      PrefixedKeys(k);
    }
  }

  lemma {:induction false} LabelsFill(row: Row, order: seq<string>, labels: map<string, string>)
    requires KeySet(order) <= labels.Keys
    ensures Labelled(row, labels, KeySet(order), PutLabels(row, order, labels))
  {
    if order != [] {
      var n := |order| - 1;
      var init, k := order[..n], order[n];
      LabelsFill(row, init, labels);
      PutLabelFills(row, labels, KeySet(init), PutLabels(row, init, labels), k);
      KeySetGrows(init, k);
      assert init + [k] == order;
    }
  }

  lemma LabelledOnce(row: Row, labels: map<string, string>, done: set<string>, r1: Row, r2: Row)
    requires done <= labels.Keys && Labelled(row, labels, done, r1) && Labelled(row, labels, done, r2)
    ensures r1 == r2
  {
    assert r1.Keys == r2.Keys;
    forall x | x in r1 ensures r1[x] == r2[x] {
      if l :| l in done && LabelKey(l) == x {
        assert r1[LabelKey(l)] == r2[LabelKey(l)];
      }
    }
  }

  lemma SameLabels(row: Row, order1: seq<string>, order2: seq<string>, labels: map<string, string>)
    requires IsOrder(order1, labels.Keys) && IsOrder(order2, labels.Keys)
    ensures PutLabels(row, order1, labels) == PutLabels(row, order2, labels)
  {
    LabelsFill(row, order1, labels);
    LabelsFill(row, order2, labels);
    LabelledOnce(row, labels, labels.Keys, PutLabels(row, order1, labels), PutLabels(row, order2, labels));
  }

  /** If no reserved field key comes with the key it is moved to, the row is the same for every
      order of fields and labels. */
  lemma RowIsOrderFree(base: Row, fields: map<string, string>, labels: map<string, string>,
                       fo1: seq<string>, lo1: seq<string>, fo2: seq<string>, lo2: seq<string>)
    requires BaseOk(base) && !Clash(base, fields.Keys)
    requires IsOrder(fo1, fields.Keys) && IsOrder(fo2, fields.Keys)
    requires IsOrder(lo1, labels.Keys) && IsOrder(lo2, labels.Keys)
    ensures PutLabels(PutFields(base, fo1, fields), lo1, labels) == PutLabels(PutFields(base, fo2, fields), lo2, labels)
  {
    SameFields(base, fo1, fo2, fields);
    SameLabels(PutFields(base, fo1, fields), lo1, lo2, labels);
  }

  /** Then every label is kept, and every field is kept under its own key or its "event." key
      unless a label has exactly that key. */
  lemma NothingIsLost(base: Row, fields: map<string, string>, labels: map<string, string>,
                      fo: seq<string>, lo: seq<string>)
    requires BaseOk(base) && !Clash(base, fields.Keys)
    requires IsOrder(fo, fields.Keys) && IsOrder(lo, labels.Keys)
    ensures var row := PutLabels(PutFields(base, fo, fields), lo, labels);
            && (forall l :: l in labels ==> LabelKey(l) in row && row[LabelKey(l)] == labels[l])
            && (forall k :: k in fields && (forall l :: l in labels ==> LabelKey(l) != Dest(base, k)) ==>
                  Dest(base, k) in row && row[Dest(base, k)] == fields[k])
  {
    FieldsFill(base, fo, fields);
    LabelsFill(PutFields(base, fo, fields), lo, labels);
  }
}
