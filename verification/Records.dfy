/** Records: CBOR maps with known text keys in canonical order. */
module Records {
  import opened Names
  import opened Cbor

  // ---- key order -----------------------------------------------------------

  predicate KeySorted(fs: seq<Field>) {
    forall i, j :: 0 <= i < j < |fs| ==> Less(EncKey(fs[i].key), EncKey(fs[j].key))
  }

  /** Canonical order: shorter keys first, then bytewise. */
  predicate KeyBelow(a: Bytes, b: Bytes) { |a| < |b| || (|a| == |b| && Less(a, b)) }

  lemma ShortKey(a: Bytes)
    requires |a| < 24
    ensures EncKey(a) == [ToByte(96 + |a|)] + a
  {
  }

  lemma KeyOrder(a: Bytes, b: Bytes)
    requires |a| < 24 && |b| < 24 && KeyBelow(a, b)
    ensures Less(EncKey(a), EncKey(b))
  {
    ShortKey(a);
    ShortKey(b);
    assert EncKey(a)[1..] == a && EncKey(b)[1..] == b;
  }

  /** Two records in order with the same fields are one. */
  lemma {:induction false} SortedFieldsUnique(a: seq<Field>, b: seq<Field>)
    requires KeySorted(a) && KeySorted(b) && forall f :: f in a <==> f in b
    ensures a == b
  {
    LessIsStrictTotal();
    assert b != [] ==> b[0] in b;
    if a != [] {
      assert a[0] in a;
      assert a[0] in b && b[0] in a;
      assert a[0] == b[0];
      forall f ensures f in a[1..] <==> f in b[1..] {
        assert f in a <==> f == a[0] || f in a[1..];
        assert f in b <==> f == b[0] || f in b[1..];
        assert a[0] !in a[1..] && b[0] !in b[1..];
      }
      SortedFieldsUnique(a[1..], b[1..]);
    }
  }

  // ---- looking fields up ---------------------------------------------------

  function Get(fs: seq<Field>, key: Bytes): (r: Option<Val>)
    ensures r.Some? ==> Field(key, r.value) in fs
    ensures r.None? ==> forall i :: 0 <= i < |fs| ==> fs[i].key != key
  {
    if fs == [] then None else if fs[0].key == key then Some(fs[0].val) else Get(fs[1..], key)
  }

  lemma {:induction false} GetMember(fs: seq<Field>, f: Field)
    requires KeySorted(fs) && f in fs
    ensures Get(fs, f.key) == Some(f.val)
  {
    LessIsStrictTotal();
    if fs[0] != f {
      assert f in fs[1..];
      var i :| 0 <= i < |fs[1..]| && fs[1..][i] == f;
      assert Less(EncKey(fs[0].key), EncKey(fs[i + 1].key));
      GetMember(fs[1..], f);
    }
  }

  // ---- what fits, field by field -------------------------------------------

  predicate FieldFits(shape: Shape, f: Field)
    requires shape.SMap?
  {
    && Utf8(f.key) && |f.key| < U64
    && ShapeOf(shape.keys, f.key).Some? && Fits(ShapeOf(shape.keys, f.key).value, f.val)
  }

  lemma {:induction false} FitsEach(shape: Shape, last: Bytes, fs: seq<Field>)
    requires shape.SMap? && FitsFields(shape, last, fs)
    ensures KeySorted(fs) && forall i :: 0 <= i < |fs| ==> FieldFits(shape, fs[i]) && Less(last, EncKey(fs[i].key))
    decreases |fs|
  {
    if fs != [] {
      var first := EncKey(fs[0].key);
      FitsEach(shape, first, fs[1..]);
      forall i | 1 <= i < |fs| ensures FieldFits(shape, fs[i]) && Less(first, EncKey(fs[i].key)) && Less(last, EncKey(fs[i].key)) {
        assert fs[i] == fs[1..][i - 1];
        LessTransitive(last, first, EncKey(fs[i].key));
      }
      forall i, j | 1 <= i < j < |fs| ensures Less(EncKey(fs[i].key), EncKey(fs[j].key)) {
        assert fs[i] == fs[1..][i - 1] && fs[j] == fs[1..][j - 1];
      }
    }
  }

  lemma {:induction false} EachFits(shape: Shape, last: Bytes, fs: seq<Field>)
    requires shape.SMap? && KeySorted(fs) && forall i :: 0 <= i < |fs| ==> FieldFits(shape, fs[i])
    requires fs != [] ==> Less(last, EncKey(fs[0].key))
    ensures FitsFields(shape, last, fs)
    decreases |fs|
  {
    if fs != [] {
      assert FieldFits(shape, fs[0]);
      assert |fs| > 1 ==> fs[1..][0] == fs[1];
      EachFits(shape, EncKey(fs[0].key), fs[1..]);
    }
  }

  predicate DistinctKeys(keys: seq<KeyShape>) { forall i, j :: 0 <= i < j < |keys| ==> keys[i].key != keys[j].key }

  lemma {:induction false} ShapeAt(keys: seq<KeyShape>, i: nat)
    requires DistinctKeys(keys) && i < |keys| && 0 < |keys[i].key| < 24
    ensures ShapeOf(keys, keys[i].key) == Some(keys[i].shape)
  {
    if i > 0 {
      assert keys[0].key != keys[i].key;
      ShapeAt(keys[1..], i - 1);
    }
  }

  // ---- arrays --------------------------------------------------------------

  lemma {:induction false} FitsEachItem(shape: Shape, items: seq<Val>)
    requires shape.SArray?
    ensures FitsItems(shape, items) <==> forall i :: 0 <= i < |items| ==> Fits(shape.of, items[i])
    decreases |items|
  {
    if items != [] {
      FitsEachItem(shape, items[1..]);
      assert items == [items[0]] + items[1..];
      assert forall i :: 0 <= i < |items| - 1 ==> items[1..][i] == items[i + 1];
      assert forall i :: 1 <= i < |items| ==> items[i] == items[1..][i - 1];
    }
  }

  // ---- encode_map_sorted ---------------------------------------------------

  predicate DistinctFields(fs: seq<Field>) { forall i, j :: 0 <= i < j < |fs| ==> fs[i].key != fs[j].key }

  lemma EncKeyInjective(a: Bytes, b: Bytes)
    requires |a| < 24 && |b| < 24 && EncKey(a) == EncKey(b)
    ensures a == b
  {
    ShortKey(a);
    ShortKey(b);
    assert EncKey(a)[1..] == a && EncKey(b)[1..] == b;
  }

  predicate ShortKeys(fs: seq<Field>) { forall i :: 0 <= i < |fs| ==> |fs[i].key| < 24 }

  lemma FirstNotBelow(s: seq<Field>, f: Field, i: nat, k: nat)
    requires KeySorted(s) && ShortKeys(s) && |f.key| < 24 && i <= k < |s| && s[i].key != f.key
    requires !Less(EncKey(s[i].key), EncKey(f.key))
    ensures Less(EncKey(f.key), EncKey(s[k].key))
  {
    if EncKey(s[i].key) == EncKey(f.key) { EncKeyInjective(s[i].key, f.key); }
    LessTrichotomy(EncKey(s[i].key), EncKey(f.key));
    if i < k { LessTransitive(EncKey(f.key), EncKey(s[i].key), EncKey(s[k].key)); }
  }

  lemma Placed(s: seq<Field>, f: Field, i: nat)
    requires KeySorted(s) && ShortKeys(s) && |f.key| < 24 && i <= |s|
    requires forall k :: 0 <= k < i ==> Less(EncKey(s[k].key), EncKey(f.key))
    requires forall k :: i <= k < |s| ==> Less(EncKey(f.key), EncKey(s[k].key))
    ensures var r := s[..i] + [f] + s[i..]; KeySorted(r) && ShortKeys(r) && forall x :: x in r <==> x == f || x in s
  {
    var r := s[..i] + [f] + s[i..];
    InsertedAt(s, f, i, r);
    forall a, b | 0 <= a < b < |r| ensures Less(EncKey(r[a].key), EncKey(r[b].key)) {
      PlacedPair(s, f, i, r, a, b);
    }
  }

  lemma PlacedPair(s: seq<Field>, f: Field, i: nat, r: seq<Field>, a: nat, b: nat)
    requires KeySorted(s) && i <= |s| && |r| == |s| + 1 && a < b < |r|
    requires forall k :: 0 <= k < i ==> Less(EncKey(s[k].key), EncKey(f.key))
    requires forall k :: i <= k < |s| ==> Less(EncKey(f.key), EncKey(s[k].key))
    requires forall k :: 0 <= k < |r| ==> r[k] == if k < i then s[k] else if k == i then f else s[k - 1]
    ensures Less(EncKey(r[a].key), EncKey(r[b].key))
  {
    if b < i {
      assert r[a] == s[a] && r[b] == s[b];
    } else if b == i {
      assert r[a] == s[a];
    } else if a == i {
      assert r[b] == s[b - 1];
    } else {
      assert r[a] == (if a < i then s[a] else s[a - 1]) && r[b] == s[b - 1];
    }
  }

  method InsertField(s: seq<Field>, f: Field) returns (r: seq<Field>)
    requires KeySorted(s) && ShortKeys(s) && |f.key| < 24
    requires forall k :: 0 <= k < |s| ==> s[k].key != f.key
    ensures KeySorted(r) && ShortKeys(r) && forall x :: x in r <==> x == f || x in s
  {
    var i := 0;
    while i < |s| && Less(EncKey(s[i].key), EncKey(f.key))
      invariant 0 <= i <= |s|
      invariant forall k :: 0 <= k < i ==> Less(EncKey(s[k].key), EncKey(f.key))
    {
      i := i + 1;
    }
    forall k | i <= k < |s| ensures Less(EncKey(f.key), EncKey(s[k].key)) { FirstNotBelow(s, f, i, k); }
    Placed(s, f, i);
    r := s[..i] + [f] + s[i..];
  }

  /** `encode_map_sorted`: whatever the order the fields come in, the bytes are those
      of the one ordered record that holds them. */
  method EncodeMapSorted(fs: seq<Field>) returns (out: Bytes)
    requires DistinctFields(fs) && ShortKeys(fs)
    ensures forall s :: KeySorted(s) && (forall f :: f in s <==> f in fs) ==> out == Enc(VMap(s))
  {
    var sorted: seq<Field> := [];
    var k := 0;
    while k < |fs|
      invariant 0 <= k <= |fs| && KeySorted(sorted) && ShortKeys(sorted)
      invariant forall f :: f in sorted <==> f in fs[..k]
    {
      forall i | 0 <= i < |sorted| ensures sorted[i].key != fs[k].key {
        assert sorted[i] in fs[..k];
      }
      sorted := InsertField(sorted, fs[k]);
      assert fs[..k + 1] == fs[..k] + [fs[k]];
      k := k + 1;
    }
    assert fs[..k] == fs;
    forall s | KeySorted(s) && (forall f :: f in s <==> f in fs) ensures s == sorted {
      SortedFieldsUnique(s, sorted);
    }
    out := WriteMap(sorted);
  }

  /** The header, then each key and value in turn. */
  method WriteMap(fs: seq<Field>) returns (out: Bytes)
    ensures out == Enc(VMap(fs))
  {
    out := EncHead(5, |fs|);
    var k := 0;
    assert fs[0..] == fs;
    while k < |fs|
      invariant 0 <= k <= |fs| && out + EncFields(fs[k..]) == Enc(VMap(fs))
    {
      OneMoreField(out, fs, k);
      out := out + EncKey(fs[k].key) + Enc(fs[k].val);
      k := k + 1;
    }
    assert fs[k..] == [] && out + EncFields([]) == out;
  }

  lemma OneMoreField(out: Bytes, fs: seq<Field>, k: nat)
    requires k < |fs|
    ensures out + EncFields(fs[k..]) == out + EncKey(fs[k].key) + Enc(fs[k].val) + EncFields(fs[k + 1..])
  {
    var key, val, more := EncKey(fs[k].key), Enc(fs[k].val), EncFields(fs[k + 1..]);
    assert fs[k..][1..] == fs[k + 1..];
    Assoc(out, key + val, more);
    Assoc(out, key, val);
  }

  // ---- records by position -------------------------------------------------

  /** Keys in canonical order. */
  predicate KeysOk(keys: seq<KeyShape>) {
    && (forall i :: 0 <= i < |keys| ==> Utf8(keys[i].key) && 0 < |keys[i].key| < 24)
    && (forall i, j :: 0 <= i < j < |keys| ==> Less(EncKey(keys[i].key), EncKey(keys[j].key)))
  }

  /** Enough to place the keys of every record here: length, then first letter. */
  predicate Ahead(a: Bytes, b: Bytes) { |a| < |b| || (|a| == |b| > 0 && a[0] < b[0]) }

  predicate Ascii(s: Bytes) { forall i :: 0 <= i < |s| ==> Code(s[i]) < 0x80 }

  predicate StepsUp(keys: seq<KeyShape>) {
    && (forall i :: 0 <= i < |keys| ==> Ascii(keys[i].key) && 0 < |keys[i].key| < 24)
    && (forall i :: 0 <= i < |keys| - 1 ==> Ahead(keys[i].key, keys[i + 1].key))
  }

  lemma {:induction false} AsciiIsUtf8(s: Bytes)
    requires Ascii(s)
    ensures Utf8(s)
  {
    if s != [] { AsciiIsUtf8(s[1..]); }
  }

  lemma {:induction false} StepsUpFar(keys: seq<KeyShape>, i: nat, j: nat)
    requires StepsUp(keys) && i < j < |keys|
    ensures Ahead(keys[i].key, keys[j].key)
    decreases j - i
  {
    if i + 1 < j {
      assert Ahead(keys[i].key, keys[i + 1].key);
      StepsUpFar(keys, i + 1, j);
    }
  }

  lemma KeysInOrder(keys: seq<KeyShape>)
    requires StepsUp(keys)
    ensures KeysOk(keys)
  {
    forall i | 0 <= i < |keys| ensures Utf8(keys[i].key) { AsciiIsUtf8(keys[i].key); }
    forall i, j | 0 <= i < j < |keys| ensures Less(EncKey(keys[i].key), EncKey(keys[j].key)) {
      StepsUpFar(keys, i, j);
      KeyOrder(keys[i].key, keys[j].key);
    }
  }

  predicate ValsFit(keys: seq<KeyShape>, vals: seq<Option<Val>>) {
    |vals| == |keys| && forall i :: 0 <= i < |keys| && vals[i].Some? ==> Fits(keys[i].shape, vals[i].value)
  }

  /** The fields that are present, in key order. */
  function Present(keys: seq<KeyShape>, vals: seq<Option<Val>>): seq<Field>
    requires |keys| == |vals|
  {
    if keys == [] then [] else
    (if vals[0].Some? then [Field(keys[0].key, vals[0].value)] else []) + Present(keys[1..], vals[1..])
  }

  /** The value under each key, if any. */
  function Pick(keys: seq<KeyShape>, fs: seq<Field>): seq<Option<Val>> {
    seq(|keys|, i requires 0 <= i < |keys| => Get(fs, keys[i].key))
  }

  predicate HasAt(keys: seq<KeyShape>, vals: seq<Option<Val>>, f: Field, i: int) {
    0 <= i < |keys| && i < |vals| && keys[i].key == f.key && vals[i] == Some(f.val)
  }

  lemma {:induction false} PresentMember(keys: seq<KeyShape>, vals: seq<Option<Val>>, f: Field)
    requires |keys| == |vals|
    ensures f in Present(keys, vals) <==> exists i :: HasAt(keys, vals, f, i)
  {
    if keys != [] {
      PresentMember(keys[1..], vals[1..], f);
      if i :| HasAt(keys[1..], vals[1..], f, i) { assert HasAt(keys, vals, f, i + 1); }
      if i :| HasAt(keys, vals, f, i) {
        if i > 0 { assert HasAt(keys[1..], vals[1..], f, i - 1); }
      }
      if f in Present(keys, vals) && f !in Present(keys[1..], vals[1..]) { assert HasAt(keys, vals, f, 0); }
    }
  }

  lemma {:induction false} PresentSorted(keys: seq<KeyShape>, vals: seq<Option<Val>>)
    requires |keys| == |vals| && KeysOk(keys)
    ensures KeySorted(Present(keys, vals))
  {
    if keys != [] {
      var more := Present(keys[1..], vals[1..]);
      PresentSorted(keys[1..], vals[1..]);
      forall j | 0 <= j < |more| ensures Less(EncKey(keys[0].key), EncKey(more[j].key)) {
        PresentMember(keys[1..], vals[1..], more[j]);
        var i :| HasAt(keys[1..], vals[1..], more[j], i);
        assert keys[1..][i] == keys[i + 1];
      }
    }
  }

  lemma KeysDistinct(keys: seq<KeyShape>)
    requires KeysOk(keys)
    ensures DistinctKeys(keys)
  {
    forall i, j | 0 <= i < j < |keys| ensures keys[i].key != keys[j].key {
      LessTrichotomy(EncKey(keys[i].key), EncKey(keys[j].key));
    }
  }

  lemma {:induction false} PresentCount(keys: seq<KeyShape>, vals: seq<Option<Val>>)
    requires |keys| == |vals|
    ensures |Present(keys, vals)| <= |keys|
  {
    if keys != [] { PresentCount(keys[1..], vals[1..]); }
  }

  lemma PresentFits(keys: seq<KeyShape>, vals: seq<Option<Val>>)
    requires KeysOk(keys) && ValsFit(keys, vals)
    ensures FitsFields(SMap(keys), [], Present(keys, vals))
  {
    var fs := Present(keys, vals);
    PresentSorted(keys, vals);
    KeysDistinct(keys);
    forall j | 0 <= j < |fs| ensures FieldFits(SMap(keys), fs[j]) {
      PresentMember(keys, vals, fs[j]);
      var i :| HasAt(keys, vals, fs[j], i);
      ShapeAt(keys, i);
    }
    EachFits(SMap(keys), [], fs);
  }

  /** Picking gives back what was laid out. */
  lemma PickPresent(keys: seq<KeyShape>, vals: seq<Option<Val>>)
    requires KeysOk(keys) && |keys| == |vals|
    ensures Pick(keys, Present(keys, vals)) == vals
  {
    var fs := Present(keys, vals);
    PresentSorted(keys, vals);
    KeysDistinct(keys);
    forall i | 0 <= i < |keys| ensures Get(fs, keys[i].key) == vals[i] {
      if vals[i].Some? {
        var f := Field(keys[i].key, vals[i].value);
        assert HasAt(keys, vals, f, i);
        PresentMember(keys, vals, f);
        GetMember(fs, f);
      } else {
        var got := Get(fs, keys[i].key);
        if got.Some? { PresentMember(keys, vals, Field(keys[i].key, got.value)); }
      }
    }
  }

  /** Laying out what was picked gives back the fields: a record that fits has one form. */
  lemma PresentPick(keys: seq<KeyShape>, fs: seq<Field>)
    requires KeysOk(keys) && FitsFields(SMap(keys), [], fs)
    ensures Present(keys, Pick(keys, fs)) == fs && ValsFit(keys, Pick(keys, fs))
  {
    var vals := Pick(keys, fs);
    FitsEach(SMap(keys), [], fs);
    PresentSorted(keys, vals);
    KeysDistinct(keys);
    forall f ensures f in fs <==> f in Present(keys, vals) {
      PresentMember(keys, vals, f);
      if f in fs { PickedAt(keys, fs, f); }
    }
    SortedFieldsUnique(fs, Present(keys, vals));
    forall i | 0 <= i < |keys| && vals[i].Some? ensures Fits(keys[i].shape, vals[i].value) {
      var f := Field(keys[i].key, vals[i].value);
      assert f in fs;
      ShapeAt(keys, i);
    }
  }

  lemma PickedAt(keys: seq<KeyShape>, fs: seq<Field>, f: Field)
    requires KeySorted(fs) && f in fs && FieldFits(SMap(keys), f) && KeysOk(keys)
    ensures exists i :: HasAt(keys, Pick(keys, fs), f, i)
  {
    GetMember(fs, f);
    var i :| 0 <= i < |keys| && keys[i].shape == ShapeOf(keys, f.key).value && NamesKey(keys[i], f.key);
    assert HasAt(keys, Pick(keys, fs), f, i);
  }

  // ---- the order an encoder lists its fields in ----------------------------

  /** `order` names each present field once. */
  predicate Orders(vals: seq<Option<Val>>, order: seq<nat>) {
    && (forall j :: 0 <= j < |order| ==> order[j] < |vals| && vals[order[j]].Some?)
    && (forall i, j :: 0 <= i < j < |order| ==> order[i] != order[j])
    && (forall i :: 0 <= i < |vals| && vals[i].Some? ==> i in order)
  }

  function Listed(keys: seq<KeyShape>, vals: seq<Option<Val>>, order: seq<nat>): (fs: seq<Field>)
    requires |keys| == |vals| && Orders(vals, order)
    ensures |fs| == |order|
  {
    seq(|order|, j requires 0 <= j < |order| => Field(keys[order[j]].key, vals[order[j]].value))
  }

  /** Listing in any order and sorting writes the canonical record. */
  method EncodeListed(keys: seq<KeyShape>, vals: seq<Option<Val>>, order: seq<nat>) returns (out: Bytes)
    requires KeysOk(keys) && |keys| == |vals| && Orders(vals, order)
    ensures out == Enc(VMap(Present(keys, vals)))
  {
    KeysDistinct(keys);
    var fs := Listed(keys, vals, order);
    forall i, j | 0 <= i < j < |fs| ensures fs[i].key != fs[j].key {
      assert order[i] != order[j];
    }
    out := EncodeMapSorted(fs);
    PresentSorted(keys, vals);
    forall f ensures f in Present(keys, vals) <==> f in fs { ListedSame(keys, vals, order, f); }
  }

  lemma ListedSame(keys: seq<KeyShape>, vals: seq<Option<Val>>, order: seq<nat>, f: Field)
    requires |keys| == |vals| && Orders(vals, order)
    ensures f in Present(keys, vals) <==> f in Listed(keys, vals, order)
  {
    PresentMember(keys, vals, f);
    var fs := Listed(keys, vals, order);
    if i :| HasAt(keys, vals, f, i) {
      var j :| 0 <= j < |order| && order[j] == i;
      assert fs[j] == f;
    }
    if f in fs {
      var j :| 0 <= j < |fs| && fs[j] == f;
      assert HasAt(keys, vals, f, order[j]);
    }
  }
}
