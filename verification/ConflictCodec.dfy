/** Conflict headers: they read back, but more than one byte form reads as one value. */
module ConflictCodec {
  import opened Names
  import opened Cbor
  import opened Records
  import opened Objects
  import opened CommitCodec

  const MAX_CONFLICT_ITEMS: nat := 100_000
  const ConflictType: nat := 4

  datatype Side = Side(path: Bytes, a: Option<Bytes>, b: Option<Bytes>, base: Option<Bytes>)

  datatype Conflict = Conflict(bases: seq<Bytes>, ours: Bytes, theirs: Bytes, paths: seq<Side>, causal: seq<Bytes>)

  const OptId: Shape := SOptBytes(32)

  const SideShape: Shape := SMap([
    KeyShape("a", OptId), KeyShape("b", OptId), KeyShape("p", SText), KeyShape("base", OptId)])

  const SidesShape: Shape := SArray(SideShape, MAX_CONFLICT_ITEMS)

  const IdArray: Shape := SArray(Id32, MAX_CONFLICT_ITEMS)

  const ConflictShape: Shape := SMap([
    KeyShape("ours", Id32), KeyShape("bases", IdArray), KeyShape("paths", SidesShape), KeyShape("causal", IdArray),
    KeyShape("theirs", Id32)])

  // ---- one path ------------------------------------------------------------

  function OptVal(id: Option<Bytes>): Val { if id.Some? then VBytes(id.value) else VNull }

  function AsOpt(v: Option<Val>): Option<Bytes> { if v.Some? && v.value.VBytes? then Some(v.value.bytes) else None }

  function SideVals(s: Side): (r: seq<Option<Val>>)
    ensures |r| == 4
  {
    [Some(OptVal(s.a)), Some(OptVal(s.b)), Some(VText(s.path)), Some(OptVal(s.base))]
  }

  function SideVal(s: Side): Val { VMap(Present(SideShape.keys, SideVals(s))) }

  /** Only the path is required; an absent side reads as none. */
  function SideOf(v: seq<Option<Val>>): Option<Side>
    requires |v| == 4
  {
    if v[2].None? then None else Some(Side(AsText(v[2]), AsOpt(v[0]), AsOpt(v[1]), AsOpt(v[3])))
  }

  function SideFrom(v: Val): Option<Side> { if v.VMap? then SideOf(Pick(SideShape.keys, v.fields)) else None }

  predicate OptOk(id: Option<Bytes>) { id.Some? ==> |id.value| == 32 }

  predicate WfSide(s: Side) { TextOk(s.path) && OptOk(s.a) && OptOk(s.b) && OptOk(s.base) }

  lemma SideKeysOk()
    ensures KeysOk(SideShape.keys)
  {
    KeysInOrder(SideShape.keys);
  }

  lemma SideValsFit(s: Side)
    requires WfSide(s)
    ensures ValsFit(SideShape.keys, SideVals(s)) && SideOf(SideVals(s)) == Some(s)
  {
  }

  lemma SideFits(s: Side)
    requires WfSide(s)
    ensures Fits(SideShape, SideVal(s)) && SideFrom(SideVal(s)) == Some(s)
  {
    var keys, vals := SideShape.keys, SideVals(s);
    SideKeysOk();
    SideValsFit(s);
    PresentFits(keys, vals);
    PickPresent(keys, vals);
    PresentCount(keys, vals);
  }

  // ---- the whole conflict --------------------------------------------------

  function SideItems(ss: seq<Side>): seq<Val> { seq(|ss|, i requires 0 <= i < |ss| => SideVal(ss[i])) }

  function SidesFrom(items: seq<Val>): (r: Option<seq<Side>>)
    ensures r.Some? ==> |r.value| == |items| && forall i :: 0 <= i < |items| ==> SideFrom(items[i]) == Some(r.value[i])
    ensures r.None? ==> exists i :: 0 <= i < |items| && SideFrom(items[i]).None?
  {
    if items == [] then Some([]) else
    var one, more := SideFrom(items[0]), SidesFrom(items[1..]);
    assert items == [items[0]] + items[1..];
    if one.None? || more.None? then None else Some([one.value] + more.value)
  }

  lemma SidesFit(ss: seq<Side>)
    requires forall i :: 0 <= i < |ss| ==> WfSide(ss[i])
    ensures FitsItems(SidesShape, SideItems(ss)) && SidesFrom(SideItems(ss)) == Some(ss)
  {
    var items := SideItems(ss);
    forall i | 0 <= i < |ss| ensures Fits(SideShape, items[i]) && SideFrom(items[i]) == Some(ss[i]) { SideFits(ss[i]); }
    FitsEachItem(SidesShape, items);
    assert SidesFrom(items).Some?;
    assert SidesFrom(items).value == ss;
  }

  function ConflictVals(c: Conflict): (r: seq<Option<Val>>)
    ensures |r| == 5
  {
    [Some(VBytes(c.ours)), Some(VArray(IdVals(c.bases))), Some(VArray(SideItems(c.paths))),
     Some(VArray(IdVals(c.causal))), Some(VBytes(c.theirs))]
  }

  function ConflictHeader(c: Conflict): Bytes { Enc(VMap(Present(ConflictShape.keys, ConflictVals(c)))) }

  function EncodeConflict(c: Conflict): Bytes { EncodeFile(ConflictType, ConflictHeader(c), []) }

  /** `unwrap_or_default`: absent arrays read as empty. */
  function ConflictOf(v: seq<Option<Val>>): Option<Conflict>
    requires |v| == 5
  {
    if v[0].None? || v[4].None? then None else
    var sides := SidesFrom(AsItems(v[2]));
    if sides.None? then None
    else Some(Conflict(Ids(AsItems(v[1])), AsBytes(v[0]), AsBytes(v[4]), sides.value, Ids(AsItems(v[3]))))
  }

  /** `Conflict::decode`. */
  function DecodeConflict(bytes: Bytes): Option<Conflict> {
    var fs := HeaderFields(ConflictShape, ConflictType, bytes);
    if fs.None? || ParseFile(bytes).payload != [] then None else ConflictOf(Pick(ConflictShape.keys, fs.value))
  }

  /** What `Conflict::validate` admits. */
  predicate WfConflict(c: Conflict) {
    && |c.ours| == 32 && |c.theirs| == 32 && AllIds(c.bases) && AllIds(c.causal)
    && |c.bases| <= MAX_CONFLICT_ITEMS && |c.causal| <= MAX_CONFLICT_ITEMS && |c.paths| <= MAX_CONFLICT_ITEMS
    && (forall i :: 0 <= i < |c.paths| ==> WfSide(c.paths[i]))
    && HeaderFits(ConflictHeader(c))
  }

  lemma ConflictKeysOk()
    ensures KeysOk(ConflictShape.keys)
  {
    KeysInOrder(ConflictShape.keys);
  }

  lemma ConflictValsFit(c: Conflict)
    requires WfConflict(c)
    ensures ValsFit(ConflictShape.keys, ConflictVals(c))
  {
    IdsFit(IdArray, c.bases);
    IdsFit(IdArray, c.causal);
    SidesFit(c.paths);
    ConflictFitBack(ConflictVals(c));
  }

  /** A missing `bases` array reads like an empty one. */
  lemma ConflictValsBack(c: Conflict, v: seq<Option<Val>>)
    requires WfConflict(c) && |v| == 5 && (v == ConflictVals(c) || (c.bases == [] && v == ConflictVals(c)[1 := None]))
    ensures ConflictOf(v) == Some(c)
  {
    IdsThere(c.bases, v[1]);
    IdsThere(c.causal, v[3]);
    SidesFit(c.paths);
    assert AsItems(v[2]) == SideItems(c.paths);
    ConflictParts(v, c);
  }

  lemma IdsThere(ids: seq<Bytes>, v: Option<Val>)
    requires AllIds(ids) && (v == Some(VArray(IdVals(ids))) || (ids == [] && v == None))
    ensures Ids(AsItems(v)) == ids
  {
    IdsFit(IdArray, ids);
  }

  lemma ConflictParts(v: seq<Option<Val>>, c: Conflict)
    requires |v| == 5 && v[0] == Some(VBytes(c.ours)) && v[4] == Some(VBytes(c.theirs))
    requires Ids(AsItems(v[1])) == c.bases && Ids(AsItems(v[3])) == c.causal && SidesFrom(AsItems(v[2])) == Some(c.paths)
    ensures ConflictOf(v) == Some(c)
  {
  }

  lemma ConflictRoundTrip(c: Conflict)
    requires WfConflict(c)
    ensures DecodeConflict(EncodeConflict(c)) == Some(c)
  {
    ConflictKeysOk();
    ConflictValsFit(c);
    LaidOutReadsBack(ConflictShape, ConflictType, ConflictVals(c));
    ConflictValsBack(c, ConflictVals(c));
  }

  /** The same header with the empty `bases` array left out. */
  function WithoutBases(c: Conflict): Bytes {
    EncodeFile(ConflictType, Enc(VMap(Present(ConflictShape.keys, ConflictVals(c)[1 := None]))), [])
  }

  /** A conflict with no base has a second byte form that decodes to it, so the bytes
      a conflict decodes from need not be the bytes it encodes to. */
  lemma ConflictNotCanonical(c: Conflict)
    requires WfConflict(c) && c.bases == [] && HeaderFits(Enc(VMap(Present(ConflictShape.keys, ConflictVals(c)[1 := None]))))
    ensures DecodeConflict(WithoutBases(c)) == Some(c) && WithoutBases(c) != EncodeConflict(c)
  {
    var vals := ConflictVals(c)[1 := None];
    ConflictKeysOk();
    ConflictValsFit(c);
    LaidOutReadsBack(ConflictShape, ConflictType, vals);
    LaidOutReadsBack(ConflictShape, ConflictType, ConflictVals(c));
    ConflictValsBack(c, vals);
    assert vals[1] != ConflictVals(c)[1];
  }

  // ---- exactly when the bytes are canonical --------------------------------

  predicate AllThere(vals: seq<Option<Val>>) { forall i :: 0 <= i < |vals| ==> vals[i].Some? }

  predicate FullSide(v: Val) { v.VMap? && AllThere(Pick(SideShape.keys, v.fields)) }

  predicate FullVals(v: seq<Option<Val>>)
    requires |v| == 5
  {
    AllThere(v) && forall i :: 0 <= i < |AsItems(v[2])| ==> FullSide(AsItems(v[2])[i])
  }

  /** Every key of the format is written out, in the header and in each path. */
  predicate FullHeader(bytes: Bytes) {
    var fs := HeaderFields(ConflictShape, ConflictType, bytes);
    fs.Some? && FullVals(Pick(ConflictShape.keys, fs.value))
  }

  predicate OptFits(v: Val) { v.VNull? || (v.VBytes? && |v.bytes| == 32) }

  /** The side values, position by position. */
  predicate SideFit(v: seq<Option<Val>>) {
    && |v| == 4 && (v[0].Some? ==> OptFits(v[0].value)) && (v[1].Some? ==> OptFits(v[1].value))
    && (v[2].Some? ==> v[2].value.VText? && TextOk(v[2].value.text)) && (v[3].Some? ==> OptFits(v[3].value))
  }

  lemma SideFitOf(v: seq<Option<Val>>)
    requires ValsFit(SideShape.keys, v)
    ensures SideFit(v)
  {
    var keys := SideShape.keys;
    assert v[0].Some? ==> Fits(keys[0].shape, v[0].value);
    assert v[1].Some? ==> Fits(keys[1].shape, v[1].value);
    assert v[2].Some? ==> Fits(keys[2].shape, v[2].value);
    assert v[3].Some? ==> Fits(keys[3].shape, v[3].value);
  }

  lemma SideValsBack(v: seq<Option<Val>>)
    requires SideFit(v) && AllThere(v)
    ensures SideOf(v).Some? && SideVals(SideOf(v).value) == v
  {
  }

  lemma SideBack(v: Val)
    requires Fits(SideShape, v) && FullSide(v)
    ensures SideFrom(v).Some? && SideVal(SideFrom(v).value) == v
  {
    SideKeysOk();
    PresentPick(SideShape.keys, v.fields);
    SideFitOf(Pick(SideShape.keys, v.fields));
    SideValsBack(Pick(SideShape.keys, v.fields));
  }

  lemma SidesBack(items: seq<Val>)
    requires FitsItems(SidesShape, items) && SidesFrom(items).Some? && forall i :: 0 <= i < |items| ==> FullSide(items[i])
    ensures SideItems(SidesFrom(items).value) == items
  {
    var sides := SidesFrom(items).value;
    FitsEachItem(SidesShape, items);
    forall i | 0 <= i < |items| ensures SideVal(sides[i]) == items[i] { SideAt(items[i], sides[i]); }
  }

  lemma SideAt(v: Val, s: Side)
    requires Fits(SideShape, v) && FullSide(v) && SideFrom(v) == Some(s)
    ensures SideVal(s) == v
  {
    SideBack(v);
  }

  lemma IdArrayBack(v: Option<Val>)
    requires v.Some? && Fits(IdArray, v.value)
    ensures v == Some(VArray(IdVals(Ids(AsItems(v)))))
  {
    IdsBack(IdArray, v.value.items);
  }

  lemma SideArrayBack(v: Option<Val>)
    requires v.Some? && Fits(SidesShape, v.value) && SidesFrom(AsItems(v)).Some?
    requires forall i :: 0 <= i < |AsItems(v)| ==> FullSide(AsItems(v)[i])
    ensures v == Some(VArray(SideItems(SidesFrom(AsItems(v)).value)))
  {
    SidesBack(v.value.items);
  }

  predicate IdFits(v: Val) { v.VBytes? && |v.bytes| == 32 }

  /** The conflict values, position by position. */
  predicate ConflictFit(v: seq<Option<Val>>) {
    && |v| == 5 && (v[0].Some? ==> IdFits(v[0].value)) && (v[4].Some? ==> IdFits(v[4].value))
    && (v[1].Some? ==> Fits(IdArray, v[1].value)) && (v[3].Some? ==> Fits(IdArray, v[3].value))
    && (v[2].Some? ==> Fits(SidesShape, v[2].value))
  }

  lemma ConflictFitOf(v: seq<Option<Val>>)
    requires ValsFit(ConflictShape.keys, v)
    ensures ConflictFit(v)
  {
    var keys := ConflictShape.keys;
    assert v[0].Some? ==> Fits(keys[0].shape, v[0].value);
    assert v[1].Some? ==> Fits(keys[1].shape, v[1].value);
    assert v[2].Some? ==> Fits(keys[2].shape, v[2].value);
    assert v[3].Some? ==> Fits(keys[3].shape, v[3].value);
    assert v[4].Some? ==> Fits(keys[4].shape, v[4].value);
  }

  lemma FullValsBack(v: seq<Option<Val>>)
    requires ConflictFit(v) && ConflictOf(v).Some? && FullVals(v)
    ensures ConflictVals(ConflictOf(v).value) == v
  {
    assert v[0].Some? && v[1].Some? && v[2].Some? && v[3].Some? && v[4].Some?;
    IdArrayBack(v[1]);
    IdArrayBack(v[3]);
    SideArrayBack(v[2]);
    FullParts(v, ConflictOf(v).value);
  }

  lemma FullParts(v: seq<Option<Val>>, c: Conflict)
    requires |v| == 5 && v[0] == Some(VBytes(c.ours)) && v[4] == Some(VBytes(c.theirs))
    requires v[1] == Some(VArray(IdVals(c.bases))) && v[3] == Some(VArray(IdVals(c.causal)))
    requires v[2] == Some(VArray(SideItems(c.paths)))
    ensures ConflictVals(c) == v
  {
  }

  lemma ConflictValsFull(c: Conflict)
    ensures FullVals(ConflictVals(c))
  {
    SideKeysOk();
    forall i | 0 <= i < |c.paths| ensures FullSide(SideItems(c.paths)[i]) {
      PickPresent(SideShape.keys, SideVals(c.paths[i]));
    }
  }

  lemma SideOfWf(v: Val)
    requires Fits(SideShape, v) && SideFrom(v).Some?
    ensures WfSide(SideFrom(v).value)
  {
    SideKeysOk();
    PresentPick(SideShape.keys, v.fields);
    SideFitOf(Pick(SideShape.keys, v.fields));
    SideWf(Pick(SideShape.keys, v.fields));
  }

  lemma SideWf(v: seq<Option<Val>>)
    requires SideFit(v) && SideOf(v).Some?
    ensures WfSide(SideOf(v).value)
  {
  }

  /** Whatever decodes is a conflict the encoder could write. */
  lemma ConflictOfFits(v: seq<Option<Val>>)
    requires ConflictFit(v) && ConflictOf(v).Some?
    ensures ConflictFit(ConflictVals(ConflictOf(v).value))
  {
    var c := ConflictOf(v).value;
    ArrayBack(v[1], IdArray);
    ArrayBack(v[3], IdArray);
    IdsFit(IdArray, c.bases);
    IdsFit(IdArray, c.causal);
    SidesOfFit(v[2]);
  }

  lemma ConflictFitBack(v: seq<Option<Val>>)
    requires ConflictFit(v)
    ensures ValsFit(ConflictShape.keys, v)
  {
  }

  lemma ArrayBack(v: Option<Val>, shape: Shape)
    requires shape == IdArray && (v.Some? ==> Fits(shape, v.value))
    ensures AllIds(Ids(AsItems(v))) && |Ids(AsItems(v))| <= MAX_CONFLICT_ITEMS
  {
    if v.Some? { IdsBack(shape, v.value.items); }
  }

  lemma SidesOfFit(v: Option<Val>)
    requires (v.Some? ==> Fits(SidesShape, v.value)) && SidesFrom(AsItems(v)).Some?
    ensures Fits(SidesShape, VArray(SideItems(SidesFrom(AsItems(v)).value)))
  {
    var items := AsItems(v);
    var sides := SidesFrom(items).value;
    if v.Some? { FitsEachItem(SidesShape, items); }
    forall i | 0 <= i < |sides| ensures WfSide(sides[i]) { SideOfWf(items[i]); }
    SidesFit(sides);
  }

  /** Bytes that decode to a conflict are the bytes it encodes to exactly when no key
      of the format was left out. */
  lemma ConflictCanonicalIff(bytes: Bytes)
    requires DecodeConflict(bytes).Some?
    ensures bytes == EncodeConflict(DecodeConflict(bytes).value) <==> FullHeader(bytes)
  {
    HeaderSound(ConflictShape, ConflictType, bytes);
    var keys, fs := ConflictShape.keys, HeaderFields(ConflictShape, ConflictType, bytes).value;
    var c := DecodeConflict(bytes).value;
    ConflictKeysOk();
    PresentPick(keys, fs);
    if FullHeader(bytes) {
      ConflictFitOf(Pick(keys, fs));
      FullValsBack(Pick(keys, fs));
    } else if bytes == EncodeConflict(c) {
      SameFields(bytes);
      PickPresent(keys, ConflictVals(c));
      ConflictValsFull(c);
    }
  }

  lemma SameFields(bytes: Bytes)
    requires DecodeConflict(bytes).Some? && bytes == EncodeConflict(DecodeConflict(bytes).value)
    ensures HeaderFields(ConflictShape, ConflictType, bytes).value
      == Present(ConflictShape.keys, ConflictVals(DecodeConflict(bytes).value))
  {
    var keys, c := ConflictShape.keys, DecodeConflict(bytes).value;
    HeaderSound(ConflictShape, ConflictType, bytes);
    var fs, mine := HeaderFields(ConflictShape, ConflictType, bytes).value, Present(keys, ConflictVals(c));
    ConflictKeysOk();
    PresentPick(keys, fs);
    ConflictFitOf(Pick(keys, fs));
    ConflictOfFits(Pick(keys, fs));
    ConflictFitBack(ConflictVals(c));
    PresentFits(keys, ConflictVals(c));
    SameHeader(Enc(VMap(fs)), Enc(VMap(mine)));
    PresentCount(keys, Pick(keys, fs));
    PresentCount(keys, ConflictVals(c));
    SameBytesSameFields(ConflictShape, fs, mine);
  }

  lemma SameHeader(a: Bytes, b: Bytes)
    requires EncodeFile(ConflictType, a, []) == EncodeFile(ConflictType, b, [])
    ensures a == b
  {
    assert EncodeFile(ConflictType, a, [])[5..] == a && EncodeFile(ConflictType, b, [])[5..] == b;
  }

  lemma SameBytesSameFields(shape: Shape, a: seq<Field>, b: seq<Field>)
    requires shape.SMap? && FitsFields(shape, [], a) && FitsFields(shape, [], b) && |a| < U64 && |b| < U64
    requires Enc(VMap(a)) == Enc(VMap(b))
    ensures a == b
  {
    Complete(shape, VMap(a), []);
    Complete(shape, VMap(b), []);
  }
}
