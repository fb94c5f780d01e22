/** Blob, Tree, Commit and Snapshot files: one value, one byte form. */
module Objects {
  import opened Names
  import opened Cbor
  import opened CborReader
  import opened Records

  const MAX_TREE_ENTRIES: nat := 100_000
  const MAX_COMMIT_PARENTS: nat := 1_024

  // ---- the file frame ------------------------------------------------------

  const BlobType: nat := 1
  const TreeType: nat := 2
  const CommitType: nat := 3
  const SnapshotType: nat := 5

  /** `encode_file`: type, four-byte header length, header, payload. */
  function EncodeFile(ty: nat, header: Bytes, payload: Bytes): Bytes
    requires ty < 256
  {
    [ToByte(ty)] + Be(|header|, 4) + header + payload
  }

  datatype Framed = NoFile | File(ty: nat, header: Bytes, payload: Bytes)

  /** `parse_file`. */
  function ParseFile(bytes: Bytes): Framed {
    if |bytes| < 5 || !(1 <= Code(bytes[0]) <= 6) then NoFile else
    var n := Unbe(bytes[1..5]);
    if 5 + n > |bytes| then NoFile else File(Code(bytes[0]), bytes[5..5 + n], bytes[5 + n..])
  }

  predicate HeaderFits(header: Bytes) { |header| < 0x1_0000_0000 }

  lemma FileSound(bytes: Bytes)
    requires ParseFile(bytes).File?
    ensures var f := ParseFile(bytes);
      1 <= f.ty <= 6 && HeaderFits(f.header) && bytes == EncodeFile(f.ty, f.header, f.payload)
  {
    var f := ParseFile(bytes);
    BeUnbe(bytes[1..5]);
    PowersOf256();
    assert bytes == [bytes[0]] + bytes[1..5] + f.header + f.payload;
  }

  lemma FileComplete(ty: nat, header: Bytes, payload: Bytes)
    requires 1 <= ty <= 6 && HeaderFits(header)
    ensures ParseFile(EncodeFile(ty, header, payload)) == File(ty, header, payload)
  {
    var bytes := EncodeFile(ty, header, payload);
    PowersOf256();
    UnbeBe(|header|, 4);
    assert bytes[1..5] == Be(|header|, 4);
    assert bytes[5..5 + |header|] == header && bytes[5 + |header|..] == payload;
  }

  // ---- headers -------------------------------------------------------------

  /** The fields of an object header: the whole header is one map of the shape. */
  function HeaderFields(shape: Shape, ty: nat, bytes: Bytes): Option<seq<Field>>
    requires shape.SMap?
  {
    var f := ParseFile(bytes);
    if f.NoFile? || f.ty != ty then None else
    var r := Parse(shape, f.header);
    if r.Bad? || r.rest != [] || !r.val.VMap? then None else Some(r.val.fields)
  }

  /** Exactly the bytes of an ordered record of the shape. */
  lemma HeaderSound(shape: Shape, ty: nat, bytes: Bytes)
    requires shape.SMap? && HeaderFields(shape, ty, bytes).Some? && ty < 256
    ensures var fs := HeaderFields(shape, ty, bytes).value;
      && FitsFields(shape, [], fs) && HeaderFits(Enc(VMap(fs)))
      && bytes == EncodeFile(ty, Enc(VMap(fs)), ParseFile(bytes).payload)
  {
    FileSound(bytes);
    var f := ParseFile(bytes);
    ParseSound(shape, f.header);
    var r := Parse(shape, f.header);
    assert Enc(r.val) + [] == Enc(r.val);
  }

  lemma HeaderComplete(shape: Shape, ty: nat, fs: seq<Field>, payload: Bytes)
    requires shape.SMap? && FitsFields(shape, [], fs) && |fs| < U64 && 1 <= ty <= 6 && HeaderFits(Enc(VMap(fs)))
    ensures HeaderFields(shape, ty, EncodeFile(ty, Enc(VMap(fs)), payload)) == Some(fs)
    ensures ParseFile(EncodeFile(ty, Enc(VMap(fs)), payload)).payload == payload
  {
    FileComplete(ty, Enc(VMap(fs)), payload);
    Complete(shape, VMap(fs), []);
    assert Enc(VMap(fs)) + [] == Enc(VMap(fs));
  }

  /** Fields laid out by position read back by position. */
  lemma LaidOutReadsBack(shape: Shape, ty: nat, vals: seq<Option<Val>>)
    requires shape.SMap? && KeysOk(shape.keys) && ValsFit(shape.keys, vals) && 1 <= ty <= 6 && |shape.keys| < U64
    requires HeaderFits(Enc(VMap(Present(shape.keys, vals))))
    ensures var bytes := EncodeFile(ty, Enc(VMap(Present(shape.keys, vals))), []);
      var fs := HeaderFields(shape, ty, bytes);
      fs.Some? && Pick(shape.keys, fs.value) == vals && ParseFile(bytes).payload == []
  {
    PresentFits(shape.keys, vals);
    PickPresent(shape.keys, vals);
    PresentCount(shape.keys, vals);
    HeaderComplete(shape, ty, Present(shape.keys, vals), []);
  }

  /** A header read with the cursor. */
  method ReadHeader(shape: Shape, ty: nat, bytes: Bytes) returns (r: Option<seq<Field>>)
    requires shape.SMap?
    ensures r == HeaderFields(shape, ty, bytes)
  {
    var f := ParseFile(bytes);
    if f.NoFile? || f.ty != ty {
      return None;
    }
    var reader := new Reader(f.header);
    var v := reader.ReadValue(shape);
    if v.None? || reader.pos != |reader.buf| || !v.value.VMap? {
      return None;
    }
    r := Some(v.value.fields);
  }

  function AsBytes(v: Option<Val>): Bytes { if v.Some? && v.value.VBytes? then v.value.bytes else [] }
  function AsText(v: Option<Val>): Bytes { if v.Some? && v.value.VText? then v.value.text else [] }
  function AsUint(v: Option<Val>): nat { if v.Some? && v.value.VUint? then v.value.n else 0 }
  function AsBool(v: Option<Val>): bool { v.Some? && v.value.VBool? && v.value.b }
  function AsItems(v: Option<Val>): seq<Val> { if v.Some? && v.value.VArray? then v.value.items else [] }

  const Id32: Shape := SBytes(32)
  const Time: Shape := SUint(0, U64 - 1)

  // ---- Blob ----------------------------------------------------------------

  datatype Blob = Blob(data: Bytes)

  const BlobShape: Shape := SMap([KeyShape("size", Time)])

  function BlobFields(b: Blob): seq<Field> { [Field("size", VUint(|b.data|))] }

  /** `Blob::encode`. */
  function EncodeBlob(b: Blob): Bytes { EncodeFile(BlobType, Enc(VMap(BlobFields(b))), b.data) }

  /** `Blob::decode`. */
  function DecodeBlob(bytes: Bytes): Option<Blob> {
    var fs := HeaderFields(BlobShape, BlobType, bytes);
    if fs.None? || Get(fs.value, "size").None? then None else
    var payload := ParseFile(bytes).payload;
    if AsUint(Get(fs.value, "size")) != |payload| then None else Some(Blob(payload))
  }

  predicate WfBlob(b: Blob) { |b.data| < U64 }

  lemma BlobFits(b: Blob)
    requires WfBlob(b)
    ensures FitsFields(BlobShape, [], BlobFields(b)) && HeaderFits(Enc(VMap(BlobFields(b))))
  {
    var fs := BlobFields(b);
    ShapeAt(BlobShape.keys, 0);
    assert Utf8("size");
    EachFits(BlobShape, [], fs);
    assert fs[1..] == [] && EncFields(fs) == EncKey("size") + Enc(VUint(|b.data|)) + EncFields(fs[1..]);
  }

  lemma BlobRoundTrip(b: Blob)
    requires WfBlob(b)
    ensures DecodeBlob(EncodeBlob(b)) == Some(b)
  {
    BlobFits(b);
    HeaderComplete(BlobShape, BlobType, BlobFields(b), b.data);
    GetMember(BlobFields(b), BlobFields(b)[0]);
  }

  lemma BlobCanonical(bytes: Bytes)
    requires DecodeBlob(bytes).Some?
    ensures WfBlob(DecodeBlob(bytes).value) && bytes == EncodeBlob(DecodeBlob(bytes).value)
  {
    HeaderSound(BlobShape, BlobType, bytes);
    var fs := HeaderFields(BlobShape, BlobType, bytes).value;
    FitsEach(BlobShape, [], fs);
    var b := DecodeBlob(bytes).value;
    forall f ensures f in fs <==> f in BlobFields(b) {
      if f in fs {
        GetMember(fs, f);
        OnlyKeys(BlobShape, f);
      }
    }
    SortedFieldsUnique(fs, BlobFields(b));
  }

  /** A field that fits is one of the shape's own keys, with a value of its shape. */
  lemma OnlyKeys(shape: Shape, f: Field)
    requires shape.SMap? && FieldFits(shape, f) && forall i :: 0 <= i < |shape.keys| ==> shape.keys[i].key != []
    ensures exists i :: 0 <= i < |shape.keys| && shape.keys[i].key == f.key && Fits(shape.keys[i].shape, f.val)
  {
    var ks := ShapeOf(shape.keys, f.key).value;
    var i :| 0 <= i < |shape.keys| && shape.keys[i].shape == ks && NamesKey(shape.keys[i], f.key);
  }
}
