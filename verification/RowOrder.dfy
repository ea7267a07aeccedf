/**
 When the storage row depends on the order in which Go visits the fields of an entry.
 */
module RowOrder {
  import opened Bytes
  import opened DirectRow
  import opened Sequences

  lemma {:induction false} SomeOrder(keys: set<string>) returns (order: seq<string>)
    ensures IsOrder(order, keys)
  {
    if keys == {} {
      order := [];
    } else {
      var k :| k in keys;
      order := SomeOrder(keys - {k});
      KeySetGrows(order, k);
      order := order + [k];
    }
  }

  /** Once a key is in the row, fields other than the one moved there leave it alone. */
  lemma {:induction false} StaysPut(row: Row, order: seq<string>, fields: map<string, string>, k: string)
    requires KeySet(order) <= fields.Keys && k !in order && EventKey(k) in row
    ensures EventKey(k) in PutFields(row, order, fields)
    ensures PutFields(row, order, fields)[EventKey(k)] == row[EventKey(k)]
  {
    if order != [] {
      var n := |order| - 1;
      StaysPut(row, order[..n], fields, k);
      PrefixedKeys(k);
      PrefixedKeys(order[n]);
    }
  }

  /** A key that is not in the row can only get the value of the field with that key. */
  lemma {:induction false} ComesFromItself(row: Row, order: seq<string>, fields: map<string, string>, k: string)
    requires KeySet(order) <= fields.Keys && k !in order && EventKey(k) !in row
    ensures var out := PutFields(row, order, fields);
            EventKey(k) in out ==> EventKey(k) in fields && out[EventKey(k)] == fields[EventKey(k)]
  {
    if order != [] {
      var n := |order| - 1;
      ComesFromItself(row, order[..n], fields, k);
      PrefixedKeys(k);
      PrefixedKeys(order[n]);
    }
  }

  lemma {:induction false} PutFieldsAppend(row: Row, a: seq<string>, b: seq<string>, fields: map<string, string>)
    requires KeySet(a) <= fields.Keys && KeySet(b) <= fields.Keys
    ensures KeySet(a + b) <= fields.Keys
    ensures PutFields(row, a + b, fields) == PutFields(PutFields(row, a, fields), b, fields)
  {
    if b == [] {
      assert a + b == a;
    } else {
      var n := |b| - 1;
      PutFieldsAppend(row, a, b[..n], fields);
      assert (a + b)[..|a + b| - 1] == a + b[..n] && (a + b)[|a + b| - 1] == b[n];
    }
  }

  lemma TwoFields(row: Row, x: string, y: string, fields: map<string, string>)
    requires x in fields && y in fields
    ensures KeySet([x, y]) <= fields.Keys
    ensures PutFields(row, [x, y], fields) == PutField(PutField(row, x, fields[x]), y, fields[y])
  {
    assert [x, y][..1] == [x] && [x][..0] == [];
    assert PutFields(row, [x], fields) == PutField(PutFields(row, [], fields), x, fields[x]);
  }

  /** Every "event." key of the row is shorter than a given key. */
  ghost predicate OnlyShorter(row: Row, x: string) {
    forall z :: z in row && HasPrefix(z, "event.") ==> |z| < |x|
  }

  /** The two clashing fields, in the one order and in the other: only the first order leaves
      anything under "event.event.". */
  lemma TwoOrders(base: Row, k: string, fields: map<string, string>)
    requires BaseOk(base) && k in base && k in fields && EventKey(k) in fields
    ensures KeySet([k, EventKey(k)]) <= fields.Keys && KeySet([EventKey(k), k]) <= fields.Keys
    ensures var r1 := PutFields(base, [k, EventKey(k)], fields);
            EventKey(EventKey(k)) in r1
    ensures OnlyShorter(PutFields(base, [EventKey(k), k], fields), EventKey(EventKey(k)))
  {
    PrefixedKeys(k);
    PrefixedKeys(EventKey(k));
    TwoFields(base, k, EventKey(k), fields);
    TwoFields(base, EventKey(k), k, fields);
  }

  lemma TwoFirst(x: string, y: string, rest: seq<string>, keys: set<string>)
    requires x != y && x in keys && y in keys && IsOrder(rest, keys - {x, y})
    ensures IsOrder([x, y] + rest, keys)
  {
    assert KeySet([x, y] + rest) == {x, y} + KeySet(rest);
  }

  /** The keys that are at least `n` long. */
  ghost function AtLeast(keys: set<string>, n: nat): set<string> { set z | z in keys && |z| >= n }

  lemma FewerLonger(keys: set<string>, x: string)
    requires x in keys
    ensures |AtLeast(keys, |EventKey(x)|)| < |AtLeast(keys, |x|)|
  {
    PrefixedKeys(x);
    var longer, all := AtLeast(keys, |EventKey(x)|), AtLeast(keys, |x|);
    SubsetSize(longer, all - {x});
  }

  /** The keys x, event.x, event.event.x, ... as far as they are field keys. */
  ghost function Chain(x: string, keys: set<string>): seq<string>
    decreases |AtLeast(keys, |x|)|
  {
    if x !in keys then [] else FewerLonger(keys, x); [x] + Chain(EventKey(x), keys)
  }

  /** The first of them that is no field key. */
  ghost function Top(x: string, keys: set<string>): (top: string)
    ensures top !in keys
    decreases |AtLeast(keys, |x|)|
  {
    if x !in keys then x else FewerLonger(keys, x); Top(EventKey(x), keys)
  }

  lemma {:induction false} ChainIsOrder(x: string, keys: set<string>)
    requires HasPrefix(x, "event.")
    ensures forall z :: z in Chain(x, keys) ==> z in keys && |z| >= |x| && HasPrefix(z, "event.")
    ensures IsOrder(Chain(x, keys), KeySet(Chain(x, keys))) && KeySet(Chain(x, keys)) <= keys
    decreases |AtLeast(keys, |x|)|
  {
    if x in keys {
      FewerLonger(keys, x);
      PrefixedKeys(x);
      ChainIsOrder(EventKey(x), keys);
    }
  }

  /** The top is where the last key of the chain would be moved. */
  lemma {:induction false} TopIsMoved(x: string, keys: set<string>) returns (t: string)
    ensures Top(EventKey(x), keys) == EventKey(t) && (t == x || t in Chain(EventKey(x), keys))
    decreases |AtLeast(keys, |EventKey(x)|)|
  {
    if EventKey(x) in keys {
      FewerLonger(keys, EventKey(x));
      t := TopIsMoved(EventKey(x), keys);
    } else {
      t := x;
    }
  }

  lemma OneField(row: Row, x: string, rest: seq<string>, fields: map<string, string>)
    requires x in fields && KeySet(rest) <= fields.Keys
    ensures KeySet([x] + rest) <= fields.Keys
    ensures PutFields(row, [x] + rest, fields) == PutFields(PutField(row, x, fields[x]), rest, fields)
  {
    PutFieldsAppend(row, [x], rest, fields);
    assert [x][..0] == [];
  }

  /** If the first key of the chain is taken, every field moves on to the next: the top is written. */
  lemma {:induction false} Cascade(row: Row, x: string, fields: map<string, string>)
    requires HasPrefix(x, "event.") && x in row && KeySet(Chain(x, fields.Keys)) <= fields.Keys
    ensures Top(x, fields.Keys) in PutFields(row, Chain(x, fields.Keys), fields)
    decreases |AtLeast(fields.Keys, |x|)|
  {
    if x in fields {
      FewerLonger(fields.Keys, x);
      PrefixedKeys(x);
      ChainIsOrder(EventKey(x), fields.Keys);
      OneField(row, x, Chain(EventKey(x), fields.Keys), fields);
      Cascade(PutField(row, x, fields[x]), EventKey(x), fields);
    }
  }

  /** If none of them is taken, every field stays at its own key: the top is not written. */
  lemma {:induction false} NoCascade(row: Row, x: string, fields: map<string, string>)
    requires HasPrefix(x, "event.") && OnlyShorter(row, x) && KeySet(Chain(x, fields.Keys)) <= fields.Keys
    ensures HasPrefix(Top(x, fields.Keys), "event.")
    ensures OnlyShorter(PutFields(row, Chain(x, fields.Keys), fields), Top(x, fields.Keys))
    decreases |AtLeast(fields.Keys, |x|)|
  {
    if x in fields {
      FewerLonger(fields.Keys, x);
      PrefixedKeys(x);
      ChainIsOrder(EventKey(x), fields.Keys);
      OneField(row, x, Chain(EventKey(x), fields.Keys), fields);
      NoCascade(PutField(row, x, fields[x]), EventKey(x), fields);
    }
  }

  lemma OrdersJoin(a: seq<string>, b: seq<string>)
    requires IsOrder(a, KeySet(a)) && IsOrder(b, KeySet(b)) && KeySet(a) !! KeySet(b)
    ensures IsOrder(a + b, KeySet(a) + KeySet(b))
  {
    var both := a + b;
    forall i, j | 0 <= i < j < |both| ensures both[i] != both[j] {
      if i < |a| <= j {
        assert both[i] in a && both[j] in b;
      }
    }
    assert KeySet(both) == KeySet(a) + KeySet(b);
  }

  /** All fields in the order [x, y], then the chain above them, then the others. */
  lemma ClashOrder(x: string, y: string, from: string, keys: set<string>, rest: seq<string>)
    requires x != y && x in keys && y in keys
    requires HasPrefix(from, "event.") && x !in Chain(from, keys) && y !in Chain(from, keys)
    requires IsOrder(rest, keys - {x, y} - KeySet(Chain(from, keys)))
    ensures IsOrder([x, y] + (Chain(from, keys) + rest), keys)
  {
    var chain := Chain(from, keys);
    ChainIsOrder(from, keys);
    OrdersJoin(chain, rest);
    TwoFirst(x, y, chain + rest, keys);
  }

  /** What is left of the two orders behind their first two keys. */
  lemma ThreeParts(row: Row, a: seq<string>, b: seq<string>, c: seq<string>, fields: map<string, string>)
    requires KeySet(a) <= fields.Keys && KeySet(b) <= fields.Keys && KeySet(c) <= fields.Keys
    ensures KeySet(a + (b + c)) <= fields.Keys
    ensures PutFields(row, a + (b + c), fields) == PutFields(PutFields(PutFields(row, a, fields), b, fields), c, fields)
  {
    PutFieldsAppend(row, a, b + c, fields);
    PutFieldsAppend(PutFields(row, a, fields), b, c, fields);
  }

  /** With a clash the order of the fields matters, whatever their values: in one order the
      fields of a chain push each other upwards, in the other they stay where they are. */
  lemma ClashBreaksOrder(base: Row, fields: map<string, string>, k: string)
    returns (order1: seq<string>, order2: seq<string>, top: string)
    requires BaseOk(base) && k in base && k in fields && EventKey(k) in fields
    ensures IsOrder(order1, fields.Keys) && IsOrder(order2, fields.Keys) && HasPrefix(top, "event.")
    ensures top in PutFields(base, order1, fields) && top !in PutFields(base, order2, fields)
  {
    var keys, e1 := fields.Keys, EventKey(k);
    var e2 := EventKey(e1);
    PrefixedKeys(k);
    PrefixedKeys(e1);
    ChainIsOrder(e2, keys);
    var chain := Chain(e2, keys);
    var rest := SomeOrder(keys - {k, e1} - KeySet(chain));
    assert {e1, k} == {k, e1};
    ClashOrder(k, e1, e2, keys, rest);
    ClashOrder(e1, k, e2, keys, rest);
    order1, order2, top := [k, e1] + (chain + rest), [e1, k] + (chain + rest), Top(e2, keys);
    TwoOrders(base, k, fields);
    ThreeParts(base, [k, e1], chain, rest, fields);
    ThreeParts(base, [e1, k], chain, rest, fields);
    var t := TopIsMoved(e1, keys);
    var r1, r2 := PutFields(base, [k, e1], fields), PutFields(base, [e1, k], fields);
    Cascade(r1, e2, fields);
    NoCascade(r2, e2, fields);
    StaysPut(PutFields(r1, chain, fields), rest, fields, t);
    ComesFromItself(PutFields(r2, chain, fields), rest, fields, t);
  }

  /** Labels neither write nor remove a key that is no label key. */
  lemma LabelsLeaveKey(row: Row, order: seq<string>, labels: map<string, string>, x: string)
    requires IsOrder(order, labels.Keys) && HasPrefix(x, "event.")
    ensures x in PutLabels(row, order, labels) <==> x in row
  {
    LabelsFill(row, order, labels);
    forall l | l in labels ensures LabelKey(l) != x {
      PrefixedKeys(l);
      assert x[0] == x[..6][0] == 'e' && LabelKey(l)[0] == 'l';
    }
  }

  /** Every order of fields and labels gives the same row. */
  ghost predicate OrderFree(base: Row, fields: map<string, string>, labels: map<string, string>) {
    forall fo1, fo2, lo1, lo2 ::
      (&& IsOrder(fo1, fields.Keys) && IsOrder(fo2, fields.Keys)
       && IsOrder(lo1, labels.Keys) && IsOrder(lo2, labels.Keys)) ==>
        PutLabels(PutFields(base, fo1, fields), lo1, labels) == PutLabels(PutFields(base, fo2, fields), lo2, labels)
  }

  lemma ClashIsNotFree(base: Row, fields: map<string, string>, labels: map<string, string>)
    requires BaseOk(base) && Clash(base, fields.Keys)
    ensures !OrderFree(base, fields, labels)
  {
    var k :| k in base && k in fields.Keys && EventKey(k) in fields.Keys;
    var fo1, fo2, top := ClashBreaksOrder(base, fields, k);
    var lo := SomeOrder(labels.Keys);
    LabelsLeaveKey(PutFields(base, fo1, fields), lo, labels, top);
    LabelsLeaveKey(PutFields(base, fo2, fields), lo, labels, top);
  }

  lemma NoClashIsFree(base: Row, fields: map<string, string>, labels: map<string, string>)
    requires BaseOk(base) && !Clash(base, fields.Keys)
    ensures OrderFree(base, fields, labels)
  {
    forall fo1, fo2, lo1, lo2 |
      && IsOrder(fo1, fields.Keys) && IsOrder(fo2, fields.Keys)
      && IsOrder(lo1, labels.Keys) && IsOrder(lo2, labels.Keys)
      ensures PutLabels(PutFields(base, fo1, fields), lo1, labels)
           == PutLabels(PutFields(base, fo2, fields), lo2, labels)
    {
      RowIsOrderFree(base, fields, labels, fo1, lo1, fo2, lo2);
    }
  }

  /** The row of an entry is the same for every iteration order if and only if no field key
      that the base row has taken comes together with its own "event." key. */
  lemma OrderFreeIff(e: Entry)
    ensures OrderFree(Base(e), e.fields, e.labels) <==> !Clash(Base(e), e.fields.Keys)
  {
    var base := Base(e);
    BaseIsOk(e);
    if Clash(base, e.fields.Keys) {
      ClashIsNotFree(base, e.fields, e.labels);
    } else {
      NoClashIsFree(base, e.fields, e.labels);
    }
  }

  /* ---------- When every order keeps every value ---------- */

  /** Every field is in the row under its own or its "event." key, and every label under its own. */
  ghost predicate Kept(row: Row, fields: map<string, string>, labels: map<string, string>) {
    && (forall k :: k in fields ==> FieldKept(row, k, fields[k]))
    && (forall l :: l in labels ==> LabelKey(l) in row && row[LabelKey(l)] == labels[l])
  }

  predicate FieldKept(row: Row, k: string, v: string) {
    (k in row && row[k] == v) || (EventKey(k) in row && row[EventKey(k)] == v)
  }

  /** A field that has the key of a label. */
  predicate LabelClash(keys: set<string>, labelKeys: set<string>) {
    exists l :: l in labelKeys && LabelKey(l) in keys
  }

  /** Whatever the values and the orders, nothing is lost. */
  ghost predicate KeepsAll(base: Row, keys: set<string>, labelKeys: set<string>) {
    forall fields: map<string, string>, labels: map<string, string>, fo, lo ::
      (fields.Keys == keys && labels.Keys == labelKeys && IsOrder(fo, keys) && IsOrder(lo, labelKeys)) ==>
        Kept(PutLabels(PutFields(base, fo, fields), lo, labels), fields, labels)
  }

  /** With a clash the order [event.k, k, ...] puts the value of k over that of event.k, and the
      key above holds at most its own field: the value of event.k is gone, whatever the fields. */
  lemma ClashOverwrites(base: Row, fields: map<string, string>, k: string) returns (order: seq<string>)
    requires BaseOk(base) && k in base && k in fields && EventKey(k) in fields
    ensures IsOrder(order, fields.Keys)
    ensures var row, e1 := PutFields(base, order, fields), EventKey(k);
            && e1 in row && row[e1] == fields[k]
            && (EventKey(e1) in row ==> EventKey(e1) in fields && row[EventKey(e1)] == fields[EventKey(e1)])
  {
    var keys, e1 := fields.Keys, EventKey(k);
    PrefixedKeys(k);
    PrefixedKeys(e1);
    var rest := SomeOrder(keys - {e1, k});
    TwoFirst(e1, k, rest, keys);
    order := [e1, k] + rest;
    TwoFields(base, e1, k, fields);
    PutFieldsAppend(base, [e1, k], rest, fields);
    var row := PutFields(base, [e1, k], fields);
    StaysPut(row, rest, fields, k);
    ComesFromItself(row, rest, fields, e1);
  }

  lemma ClashLoses(base: Row, keys: set<string>, labelKeys: set<string>)
    requires BaseOk(base) && Clash(base, keys)
    ensures !KeepsAll(base, keys, labelKeys)
  {
    var k :| k in base && k in keys && EventKey(k) in keys;
    var fields, labels := map x | x in keys :: x, map l | l in labelKeys :: l;
    var e1 := EventKey(k);
    var fo := ClashOverwrites(base, fields, k);
    var lo := SomeOrder(labelKeys);
    var before := PutFields(base, fo, fields);
    PrefixedKeys(k);
    PrefixedKeys(e1);
    LabelsKeepOther(before, lo, labels, e1);
    LabelsKeepOther(before, lo, labels, EventKey(e1));
    assert !FieldKept(PutLabels(before, lo, labels), e1, fields[e1]);
  }

  /** Labels leave every "event." key as it is. */
  lemma LabelsKeepOther(row: Row, order: seq<string>, labels: map<string, string>, x: string)
    requires IsOrder(order, labels.Keys) && HasPrefix(x, "event.")
    ensures x in PutLabels(row, order, labels) <==> x in row
    ensures x in row ==> PutLabels(row, order, labels)[x] == row[x]
  {
    LabelsLeaveKey(row, order, labels, x);
    if x in row {
      forall l | l in order ensures LabelKey(l) != x {
        PrefixedKeys(l);
        assert x[0] == x[..6][0] == 'e' && LabelKey(l)[0] == 'l';
      }
      LabelsKeep(row, order, labels, x);
    }
  }

  /** A label with the key of a field overwrites it. */
  lemma LabelOverwrites(base: Row, fields: map<string, string>, labels: map<string, string>,
                        fo: seq<string>, lo: seq<string>, l: string)
    requires BaseOk(base) && !Clash(base, fields.Keys) && l in labels && LabelKey(l) in fields
    requires (forall x :: x in fields ==> fields[x] == x) && labels[l] == ""
    requires IsOrder(fo, fields.Keys) && IsOrder(lo, labels.Keys)
    ensures !FieldKept(PutLabels(PutFields(base, fo, fields), lo, labels), LabelKey(l), fields[LabelKey(l)])
  {
    var k, before := LabelKey(l), PutFields(base, fo, fields);
    PrefixedKeys(l);
    PrefixedKeys(k);
    LabelsFill(before, lo, labels);
    LabelsKeepOther(before, lo, labels, EventKey(k));
    FieldsFill(base, fo, fields);
    EventKeyIsNotMine(base, fields, before, k);
  }

  lemma LabelClashLoses(base: Row, keys: set<string>, labelKeys: set<string>)
    requires BaseOk(base) && !Clash(base, keys) && LabelClash(keys, labelKeys)
    ensures !KeepsAll(base, keys, labelKeys)
  {
    var l :| l in labelKeys && LabelKey(l) in keys;
    var fields, labels := map x | x in keys :: x, map x | x in labelKeys :: "";
    assert fields.Keys == keys && labels.Keys == labelKeys;
    var fo := SomeOrder(keys);
    var lo := SomeOrder(labelKeys);
    LabelOverwrites(base, fields, labels, fo, lo, l);
    assert !Kept(PutLabels(PutFields(base, fo, fields), lo, labels), fields, labels);
  }

  lemma EventKeyIsNotMine(base: Row, fields: map<string, string>, row: Row, k: string)
    requires BaseOk(base) && k !in base && Filled(base, fields, fields.Keys, row)
    requires forall x :: x in fields ==> fields[x] == x
    ensures EventKey(k) in row ==> row[EventKey(k)] != k
  {
    PrefixedKeys(k);
    if EventKey(k) in row {
      var x :| x in fields && Dest(base, x) == EventKey(k);
      PrefixedKeys(x);
    }
  }

  /** Every value is kept in every order if and only if no field key that the base row has taken
      comes with its own "event." key, and no field has the key of a label. */
  lemma KeepsAllIff(e: Entry)
    ensures KeepsAll(Base(e), e.fields.Keys, e.labels.Keys) <==>
            !Clash(Base(e), e.fields.Keys) && !LabelClash(e.fields.Keys, e.labels.Keys)
  {
    BaseIsOk(e);
    KeepsAllOf(Base(e), e.fields.Keys, e.labels.Keys);
  }

  lemma KeepsAllOf(base: Row, keys: set<string>, labelKeys: set<string>)
    requires BaseOk(base)
    ensures KeepsAll(base, keys, labelKeys) <==> !Clash(base, keys) && !LabelClash(keys, labelKeys)
  {
    if Clash(base, keys) {
      ClashLoses(base, keys, labelKeys);
    } else if LabelClash(keys, labelKeys) {
      LabelClashLoses(base, keys, labelKeys);
    } else {
      forall fields: map<string, string>, labels: map<string, string>, fo, lo |
        fields.Keys == keys && labels.Keys == labelKeys && IsOrder(fo, keys) && IsOrder(lo, labelKeys)
        ensures Kept(PutLabels(PutFields(base, fo, fields), lo, labels), fields, labels)
      {
        NothingIsLost(base, fields, labels, fo, lo);
        DestsAreNoLabels(base, keys, labelKeys);
      }
    }
  }

  lemma DestsAreNoLabels(base: Row, keys: set<string>, labelKeys: set<string>)
    requires BaseOk(base) && !LabelClash(keys, labelKeys)
    ensures forall k, l :: k in keys && l in labelKeys ==> LabelKey(l) != Dest(base, k)
  {
    forall k, l | k in keys && l in labelKeys ensures LabelKey(l) != Dest(base, k) {
      PrefixedKeys(k);
      PrefixedKeys(l);
    }
  }
}
