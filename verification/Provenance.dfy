/** Provenance manifests: exact size arithmetic and two encodings that never mix. */
module Provenance {
  import opened Names
  import opened Cbor
  import opened Records
  import opened Objects

  const MAX_ENTRIES: nat := 1_000_000
  const MAX_LABEL_BYTES: nat := 1_024
  const MAX_SERIALIZED_BYTES: nat := 67_108_864

  datatype Encoding = Legacy | Version1

  /** An attribution: the object id in hex, and who introduced it. */
  datatype Label = Label(id: Bytes, agent: Bytes)

  /** Entries in id order, as the map holds them. */
  datatype Manifest = Manifest(entries: seq<Label>, encoding: Encoding)

  // ---- encoding ------------------------------------------------------------

  function LabelFields(es: seq<Label>): seq<Field> {
    seq(|es|, i requires 0 <= i < |es| => Field(es[i].id, VText(es[i].agent)))
  }

  const LabelsShape: Shape := SMap([KeyShape([], SText)])

  const EnvelopeShape: Shape := SMap([KeyShape("entries", LabelsShape), KeyShape("version", SUint(1, 1))])

  function EnvelopeVals(es: seq<Label>): (r: seq<Option<Val>>)
    ensures |r| == 2
  {
    [Some(VMap(LabelFields(es))), Some(VUint(1))]
  }

  function Envelope(es: seq<Label>): seq<Field> { Present(EnvelopeShape.keys, EnvelopeVals(es)) }

  function EncodeManifest(m: Manifest): Bytes {
    if m.encoding.Legacy? then Enc(VMap(LabelFields(m.entries))) else Enc(VMap(Envelope(m.entries)))
  }

  // ---- size arithmetic -----------------------------------------------------

  function HeadLen(n: nat): nat {
    if n <= 23 then 1 else if n <= 0xff then 2 else if n <= 0xffff then 3 else if n <= 0xffff_ffff then 5 else 9
  }

  function TextLen(bytes: nat): nat { HeadLen(bytes) + bytes }

  lemma HeadLenExact(major: nat, n: nat)
    requires major < 8
    ensures |EncHead(major, n)| == HeadLen(n)
  {
  }

  lemma FieldLen(f: Field, more: seq<Field>)
    requires f.val.VText?
    ensures |EncFields([f] + more)| == TextLen(|f.key|) + TextLen(|f.val.text|) + |EncFields(more)|
  {
    assert ([f] + more)[1..] == more;
    HeadLenExact(3, |f.key|);
    HeadLenExact(3, |f.val.text|);
  }

  predicate LabelsFit(es: seq<Label>) { forall i :: 0 <= i < |es| ==> |es[i].agent| <= MAX_LABEL_BYTES }

  predicate IdsOk(es: seq<Label>) { forall i :: 0 <= i < |es| ==> IdKey(es[i].id) }

  /** Bytes still to come from entry `k` on. */
  function LabelsLen(es: seq<Label>, k: nat): nat
    requires k <= |es|
  {
    |EncFields(LabelFields(es[k..]))|
  }

  lemma LastField(es: seq<Label>, k: nat)
    requires k < |es| && IdsOk(es)
    ensures LabelsLen(es, k) == TextLen(64) + TextLen(|es[k].agent|) + LabelsLen(es, k + 1)
  {
    var f := Field(es[k].id, VText(es[k].agent));
    assert LabelFields(es[k..]) == [f] + LabelFields(es[k + 1..]);
    FieldLen(f, LabelFields(es[k + 1..]));
  }

  /** `entries_encoded_len`: refuses what is too big, otherwise the exact length. */
  method EntriesEncodedLen(es: seq<Label>) returns (r: Result<nat>)
    requires IdsOk(es)
    ensures r.Ok? <==> |es| <= MAX_ENTRIES && LabelsFit(es)
    ensures r.Ok? ==> r.value == |Enc(VMap(LabelFields(es)))|
  {
    if |es| > MAX_ENTRIES {
      return Err(Invalid);
    }
    var serialized := HeadLen(|es|);
    var k := 0;
    ghost var total := |Enc(VMap(LabelFields(es)))|;
    HeadLenExact(5, |es|);
    assert es[0..] == es;
    while k < |es|
      invariant 0 <= k <= |es| && LabelsFit(es[..k])
      invariant serialized + LabelsLen(es, k) == total
    {
      LastField(es, k);
      if |es[k].agent| > MAX_LABEL_BYTES {
        return Err(Invalid);
      }
      serialized := serialized + TextLen(64) + TextLen(|es[k].agent|);
      assert es[..k + 1] == es[..k] + [es[k]];
      k := k + 1;
    }
    assert es[k..] == [] && es[..k] == es && LabelFields(es[k..]) == [];
    r := Ok(serialized);
  }

  lemma EnvelopeLen(es: seq<Label>)
    ensures |Enc(VMap(Envelope(es)))| == 1 + TextLen(7) + |Enc(VMap(LabelFields(es)))| + TextLen(7) + 1
  {
    var keys, vals := EnvelopeShape.keys, EnvelopeVals(es);
    var last := Field("version", VUint(1));
    assert keys[1..][1..] == [] && Present(keys[1..][1..], vals[1..][1..]) == [];
    assert Present(keys[1..], vals[1..]) == [last] + [];
    assert Envelope(es) == [Field("entries", VMap(LabelFields(es)))] + [last];
    TwoFields("entries", VMap(LabelFields(es)), "version", VUint(1));
  }

  lemma TwoFields(a: Bytes, v: Val, b: Bytes, w: Val)
    ensures |Enc(VMap([Field(a, v)] + [Field(b, w)]))| == 1 + |EncKey(a)| + |Enc(v)| + |EncKey(b)| + |Enc(w)|
  {
    var fs := [Field(a, v)] + [Field(b, w)];
    assert fs[1..] == [Field(b, w)] && fs[1..][1..] == [];
    assert EncFields(fs[1..]) == EncKey(b) + Enc(w) + EncFields([]);
    assert EncFields(fs) == EncKey(a) + Enc(v) + EncFields(fs[1..]);
  }

  /** `manifest_encoded_len`: exactly the length of the encoding, in both encodings. */
  method ManifestEncodedLen(m: Manifest) returns (r: Result<nat>)
    requires IdsOk(m.entries)
    ensures r.Ok? <==> |m.entries| <= MAX_ENTRIES && LabelsFit(m.entries)
    ensures r.Ok? ==> r.value == |EncodeManifest(m)|
  {
    var entries := EntriesEncodedLen(m.entries);
    if entries.Err? || m.encoding.Legacy? {
      return entries;
    }
    EnvelopeLen(m.entries);
    r := Ok(HeadLen(2) + TextLen(7) + entries.value + TextLen(7) + HeadLen(1));
  }

  // ---- decoding ------------------------------------------------------------

  function LabelsOf(fs: seq<Field>): seq<Label> {
    seq(|fs|, i requires 0 <= i < |fs| => Label(fs[i].key, AsText(Some(fs[i].val))))
  }

  /** `looks_legacy`: decided by the first key alone. */
  function LooksLegacy(bytes: Bytes): Option<bool> {
    var head := ParseHead(bytes);
    if head.NoHead? || head.major != 5 || head.n > |head.rest| / 2 then None
    else if head.n == 0 then Some(true)
    else
      var key := TakeText(head.rest);
      if key.Bad? || |key.val| > 64 then None else Some(IdKey(key.val))
  }

  /** The fields of a manifest, by whichever encoding it looks to be. */
  function ReadManifest(bytes: Bytes): Option<Manifest> {
    if |bytes| > MAX_SERIALIZED_BYTES || LooksLegacy(bytes).None? then None
    else if LooksLegacy(bytes).value then
      var r := Parse(LabelsShape, bytes);
      if r.Bad? || r.rest != [] || !r.val.VMap? then None else Some(Manifest(LabelsOf(r.val.fields), Legacy))
    else
      var r := Parse(EnvelopeShape, bytes);
      if r.Bad? || r.rest != [] || !r.val.VMap? then None else
      var v := Pick(EnvelopeShape.keys, r.val.fields);
      if v[0].None? || v[1].None? || !v[0].value.VMap? then None
      else Some(Manifest(LabelsOf(v[0].value.fields), Version1))
  }

  predicate WithinLimits(m: Manifest) {
    |m.entries| <= MAX_ENTRIES && LabelsFit(m.entries) && |EncodeManifest(m)| <= MAX_SERIALIZED_BYTES
  }

  /** `decode`: read, check the limits, and compare with the re-encoding. */
  function DecodeManifest(bytes: Bytes): Option<Manifest> {
    var m := ReadManifest(bytes);
    if m.None? || !WithinLimits(m.value) || EncodeManifest(m.value) != bytes then None else m
  }

  predicate InIdOrder(es: seq<Label>) { forall i, j :: 0 <= i < j < |es| ==> Less(es[i].id, es[j].id) }

  predicate WfManifest(m: Manifest) {
    && IdsOk(m.entries) && InIdOrder(m.entries) && WithinLimits(m)
    && forall i :: 0 <= i < |m.entries| ==> Utf8(m.entries[i].agent)
  }

  lemma IdKeyOrder(a: Bytes, b: Bytes)
    requires IdKey(a) && IdKey(b)
    ensures Less(EncKey(a), EncKey(b)) <==> Less(a, b)
  {
    LongKey(a);
    LongKey(b);
    assert EncKey(a)[1..][1..] == a && EncKey(b)[1..][1..] == b;
  }

  lemma LongKey(a: Bytes)
    requires |a| == 64
    ensures EncKey(a) == [ToByte(0x78), ToByte(64)] + a
  {
    assert Be(64, 1) == [ToByte(64)];
  }

  lemma IdKeyText(a: Bytes)
    requires IdKey(a)
    ensures Utf8(a)
  {
    AsciiIsUtf8(a);
  }

  lemma LabelsFitShape(es: seq<Label>)
    requires IdsOk(es) && InIdOrder(es) && |es| < U64
    requires forall i :: 0 <= i < |es| ==> Utf8(es[i].agent) && |es[i].agent| < U64
    ensures Fits(LabelsShape, VMap(LabelFields(es)))
  {
    var fs := LabelFields(es);
    forall i, j | 0 <= i < j < |fs| ensures Less(EncKey(fs[i].key), EncKey(fs[j].key)) { IdKeyOrder(es[i].id, es[j].id); }
    forall i | 0 <= i < |fs| ensures FieldFits(LabelsShape, fs[i]) {
      IdKeyText(es[i].id);
      assert ShapeOf(LabelsShape.keys, fs[i].key) == Some(SText);
    }
    EachFits(LabelsShape, [], fs);
  }

  lemma LabelsBack(es: seq<Label>)
    ensures LabelsOf(LabelFields(es)) == es
  {
  }

  lemma EnvelopeKeysOk()
    ensures KeysOk(EnvelopeShape.keys)
  {
    KeysInOrder(EnvelopeShape.keys);
  }

  /** A current manifest starts with a key that is no object id. */
  lemma EnvelopeNotLegacy(es: seq<Label>, bytes: Bytes)
    requires bytes == Enc(VMap(Envelope(es)))
    ensures LooksLegacy(bytes) == Some(false)
  {
    var keys, vals := EnvelopeShape.keys, EnvelopeVals(es);
    var fs := Envelope(es);
    assert fs[0] == Field("entries", VMap(LabelFields(es)));
    assert keys[1..][1..] == [] && Present(keys[1..][1..], vals[1..][1..]) == [];
    assert |Present(keys[1..], vals[1..])| == 1;
    FirstKey(fs, bytes);
  }

  lemma FirstKey(fs: seq<Field>, bytes: Bytes)
    requires fs != [] && |fs| < U64 && bytes == Enc(VMap(fs)) && |fs[0].key| < 24 && Ascii(fs[0].key)
    ensures LooksLegacy(bytes) == Some(false)
  {
    var body := EncFields(fs);
    HeadComplete(5, |fs|, body);
    var more := Enc(fs[0].val) + EncFields(fs[1..]);
    Assoc(EncKey(fs[0].key), Enc(fs[0].val), EncFields(fs[1..]));
    AsciiIsUtf8(fs[0].key);
    TextComplete(fs[0].key, more);
  }

  lemma LegacyLooksLegacy(es: seq<Label>, bytes: Bytes)
    requires IdsOk(es) && |es| < U64 && bytes == Enc(VMap(LabelFields(es)))
    ensures LooksLegacy(bytes) == Some(true)
  {
    var fs := LabelFields(es);
    var body := EncFields(fs);
    HeadComplete(5, |fs|, body);
    if es != [] { FirstIdKey(fs, es[0].id); }
    LegacyByHead(bytes, |fs|, body);
  }

  lemma LegacyByHead(bytes: Bytes, n: nat, body: Bytes)
    requires ParseHead(bytes) == Head(5, n, body) && |body| >= 2 * n
    requires n > 0 ==> TakeText(body).Got? && IdKey(TakeText(body).val)
    ensures LooksLegacy(bytes) == Some(true)
  {
  }

  lemma FirstIdKey(fs: seq<Field>, id: Bytes)
    requires fs != [] && fs[0].key == id && IdKey(id)
    ensures var key := TakeText(EncFields(fs)); key.Got? && key.val == id
  {
    var more := Enc(fs[0].val) + EncFields(fs[1..]);
    Assoc(EncKey(id), Enc(fs[0].val), EncFields(fs[1..]));
    IdKeyText(id);
    TextComplete(id, more);
  }

  lemma LegacyReads(es: seq<Label>, bytes: Bytes)
    requires Fits(LabelsShape, VMap(LabelFields(es))) && IdsOk(es) && |es| < U64
    requires bytes == Enc(VMap(LabelFields(es))) && |bytes| <= MAX_SERIALIZED_BYTES
    ensures ReadManifest(bytes) == Some(Manifest(es, Legacy))
  {
    LegacyLooksLegacy(es, bytes);
    Complete(LabelsShape, VMap(LabelFields(es)), []);
    assert bytes + [] == bytes;
    LabelsBack(es);
  }

  lemma CurrentReads(es: seq<Label>, bytes: Bytes)
    requires Fits(LabelsShape, VMap(LabelFields(es)))
    requires bytes == Enc(VMap(Envelope(es))) && |bytes| <= MAX_SERIALIZED_BYTES
    ensures ReadManifest(bytes) == Some(Manifest(es, Version1))
  {
    EnvelopeNotLegacy(es, bytes);
    EnvelopeReads(es, bytes);
    LabelsBack(es);
  }

  /** Encoding then decoding gives the manifest back, with its legacy flag. */
  lemma ManifestRoundTrip(m: Manifest)
    requires WfManifest(m)
    ensures DecodeManifest(EncodeManifest(m)) == Some(m)
  {
    ManifestReads(m, EncodeManifest(m));
  }

  lemma ManifestReads(m: Manifest, bytes: Bytes)
    requires WfManifest(m) && bytes == EncodeManifest(m)
    ensures ReadManifest(bytes) == Some(m)
  {
    LabelsFitShape(m.entries);
    match m.encoding
    case Legacy => LegacyReads(m.entries, bytes);
    case Version1 => CurrentReads(m.entries, bytes);
  }

  lemma EnvelopeValsFit(es: seq<Label>)
    requires Fits(LabelsShape, VMap(LabelFields(es)))
    ensures ValsFit(EnvelopeShape.keys, EnvelopeVals(es))
  {
  }

  lemma EnvelopeReads(es: seq<Label>, bytes: Bytes)
    requires Fits(LabelsShape, VMap(LabelFields(es))) && bytes == Enc(VMap(Envelope(es)))
    ensures Parse(EnvelopeShape, bytes) == Got(VMap(Envelope(es)), []) && Pick(EnvelopeShape.keys, Envelope(es)) == EnvelopeVals(es)
  {
    EnvelopeKeysOk();
    EnvelopeValsFit(es);
    RecordReads(EnvelopeShape, EnvelopeVals(es), Envelope(es), bytes);
  }

  lemma RecordReads(shape: Shape, vals: seq<Option<Val>>, fs: seq<Field>, bytes: Bytes)
    requires shape.SMap? && KeysOk(shape.keys) && ValsFit(shape.keys, vals) && |shape.keys| < U64
    requires fs == Present(shape.keys, vals) && bytes == Enc(VMap(fs))
    ensures Parse(shape, bytes) == Got(VMap(fs), []) && Pick(shape.keys, fs) == vals
  {
    PresentFits(shape.keys, vals);
    PickPresent(shape.keys, vals);
    PresentCount(shape.keys, vals);
    Complete(shape, VMap(fs), []);
    assert bytes + [] == bytes;
  }

  // ---- the final comparison never fires ------------------------------------

  lemma LabelsReadBack(fs: seq<Field>)
    requires FitsFields(LabelsShape, [], fs)
    ensures LabelFields(LabelsOf(fs)) == fs && IdsOk(LabelsOf(fs)) && InIdOrder(LabelsOf(fs))
  {
    FitsEach(LabelsShape, [], fs);
    forall i | 0 <= i < |fs| ensures fs[i].val.VText? && IdKey(fs[i].key) { LabelField(fs[i]); }
    forall i, j | 0 <= i < j < |fs| ensures Less(fs[i].key, fs[j].key) { IdKeyOrder(fs[i].key, fs[j].key); }
  }

  lemma LabelField(f: Field)
    requires FieldFits(LabelsShape, f)
    ensures f.val.VText? && IdKey(f.key)
  {
  }

  /** Whatever the parsers accept re-encodes to the very bytes that were read, so the
      decoder's own comparison with the re-encoding rejects nothing. */
  lemma ReencodingAgrees(bytes: Bytes)
    requires ReadManifest(bytes).Some?
    ensures EncodeManifest(ReadManifest(bytes).value) == bytes
  {
    if LooksLegacy(bytes).value {
      ParseSound(LabelsShape, bytes);
      var r := Parse(LabelsShape, bytes);
      LabelsReadBack(r.val.fields);
      assert Enc(r.val) + [] == Enc(r.val);
    } else {
      ParseSound(EnvelopeShape, bytes);
      var r := Parse(EnvelopeShape, bytes);
      EnvelopeReadBack(r.val.fields);
      assert Enc(r.val) + [] == Enc(r.val);
    }
  }

  lemma EnvelopeReadBack(fs: seq<Field>)
    requires FitsFields(EnvelopeShape, [], fs)
    requires var v := Pick(EnvelopeShape.keys, fs); v[0].Some? && v[1].Some? && v[0].value.VMap?
    ensures Envelope(LabelsOf(Pick(EnvelopeShape.keys, fs)[0].value.fields)) == fs
  {
    EnvelopeKeysOk();
    PresentPick(EnvelopeShape.keys, fs);
    EnvelopeValsBack(Pick(EnvelopeShape.keys, fs));
  }

  lemma EnvelopeValsBack(v: seq<Option<Val>>)
    requires ValsFit(EnvelopeShape.keys, v) && v[0].Some? && v[1].Some? && v[0].value.VMap?
    ensures EnvelopeVals(LabelsOf(v[0].value.fields)) == v
  {
    var keys := EnvelopeShape.keys;
    assert Fits(keys[0].shape, v[0].value) && Fits(keys[1].shape, v[1].value);
    LabelsReadBack(v[0].value.fields);
  }
}
