/** Commit and Snapshot headers. */
module CommitCodec {
  import opened Names
  import opened Cbor
  import opened Records
  import opened Objects

  // ---- id arrays -----------------------------------------------------------

  function IdVals(ids: seq<Bytes>): seq<Val> { seq(|ids|, i requires 0 <= i < |ids| => VBytes(ids[i])) }

  function Ids(items: seq<Val>): seq<Bytes> { seq(|items|, i requires 0 <= i < |items| => AsBytes(Some(items[i]))) }

  predicate AllIds(ids: seq<Bytes>) { forall i :: 0 <= i < |ids| ==> |ids[i]| == 32 }

  lemma IdsBack(shape: Shape, items: seq<Val>)
    requires shape.SArray? && shape.of == Id32 && FitsItems(shape, items)
    ensures IdVals(Ids(items)) == items && AllIds(Ids(items))
  {
    FitsEachItem(shape, items);
  }

  lemma IdsFit(shape: Shape, ids: seq<Bytes>)
    requires shape.SArray? && shape.of == Id32 && AllIds(ids)
    ensures FitsItems(shape, IdVals(ids)) && Ids(IdVals(ids)) == ids
  {
    FitsEachItem(shape, IdVals(ids));
  }

  // ---- Commit --------------------------------------------------------------

  datatype Commit = Commit(tree: Bytes, parents: seq<Bytes>, agent: Bytes, msg: Bytes, ts: nat, landmark: bool,
                           contrib: Option<Bytes>)

  const Parents: Shape := SArray(Id32, MAX_COMMIT_PARENTS)

  const CommitShape: Shape := SMap([
    KeyShape("lm", SBool), KeyShape("ts", Time), KeyShape("msg", SText), KeyShape("tree", Id32),
    KeyShape("agent", SText), KeyShape("contrib", Id32), KeyShape("parents", Parents)])

  /** Each key's value, in the order of the shape; `contrib` may be absent. */
  function CommitVals(c: Commit): (r: seq<Option<Val>>)
    ensures |r| == 7
  {
    [Some(VBool(c.landmark)), Some(VUint(c.ts)), Some(VText(c.msg)), Some(VBytes(c.tree)), Some(VText(c.agent)),
     if c.contrib.Some? then Some(VBytes(c.contrib.value)) else None, Some(VArray(IdVals(c.parents)))]
  }

  function CommitHeader(c: Commit): Bytes { Enc(VMap(Present(CommitShape.keys, CommitVals(c)))) }

  function EncodeCommit(c: Commit): Bytes { EncodeFile(CommitType, CommitHeader(c), []) }

  function CommitOf(v: seq<Option<Val>>): Option<Commit>
    requires |v| == 7
  {
    if v[0].None? || v[1].None? || v[2].None? || v[3].None? || v[4].None? || v[6].None? then None
    else Some(Commit(AsBytes(v[3]), Ids(AsItems(v[6])), AsText(v[4]), AsText(v[2]), AsUint(v[1]), AsBool(v[0]),
                     if v[5].None? then None else Some(AsBytes(v[5]))))
  }

  /** `Commit::decode`. */
  function DecodeCommit(bytes: Bytes): Option<Commit> {
    var fs := HeaderFields(CommitShape, CommitType, bytes);
    if fs.None? || ParseFile(bytes).payload != [] then None else CommitOf(Pick(CommitShape.keys, fs.value))
  }

  predicate TextOk(s: Bytes) { Utf8(s) && |s| < U64 }

  predicate WfCommit(c: Commit) {
    && |c.tree| == 32 && AllIds(c.parents) && |c.parents| <= MAX_COMMIT_PARENTS
    && TextOk(c.agent) && TextOk(c.msg) && c.ts < U64
    && (c.contrib.Some? ==> |c.contrib.value| == 32)
    && HeaderFits(CommitHeader(c))
  }

  lemma CommitKeysOk()
    ensures KeysOk(CommitShape.keys)
  {
    KeysInOrder(CommitShape.keys);
  }

  /** The values of a well-formed commit fit, and read back as that commit. */
  lemma CommitValsFit(c: Commit)
    requires WfCommit(c)
    ensures ValsFit(CommitShape.keys, CommitVals(c)) && CommitOf(CommitVals(c)) == Some(c)
  {
    IdsFit(Parents, c.parents);
  }

  lemma CommitRoundTrip(c: Commit)
    requires WfCommit(c)
    ensures DecodeCommit(EncodeCommit(c)) == Some(c)
  {
    CommitKeysOk();
    CommitValsFit(c);
    LaidOutReadsBack(CommitShape, CommitType, CommitVals(c));
  }

  /** Values that fit and make a commit are that commit's values. */
  lemma CommitValsBack(v: seq<Option<Val>>)
    requires ValsFit(CommitShape.keys, v) && CommitOf(v).Some?
    ensures var c := CommitOf(v).value;
      && CommitVals(c) == v && |c.tree| == 32 && AllIds(c.parents) && |c.parents| <= MAX_COMMIT_PARENTS
      && TextOk(c.agent) && TextOk(c.msg) && c.ts < U64 && (c.contrib.Some? ==> |c.contrib.value| == 32)
  {
    var keys := CommitShape.keys;
    assert Fits(keys[0].shape, v[0].value) && Fits(keys[1].shape, v[1].value) && Fits(keys[2].shape, v[2].value)
      && Fits(keys[3].shape, v[3].value) && Fits(keys[4].shape, v[4].value) && Fits(keys[6].shape, v[6].value);
    assert v[5].Some? ==> Fits(keys[5].shape, v[5].value);
    IdsBack(Parents, v[6].value.items);
  }

  lemma CommitCanonical(bytes: Bytes)
    requires DecodeCommit(bytes).Some?
    ensures bytes == EncodeCommit(DecodeCommit(bytes).value) && WfCommit(DecodeCommit(bytes).value)
  {
    HeaderSound(CommitShape, CommitType, bytes);
    var fs := HeaderFields(CommitShape, CommitType, bytes).value;
    CommitKeysOk();
    PresentPick(CommitShape.keys, fs);
    CommitValsBack(Pick(CommitShape.keys, fs));
  }

  /** The order in which `Commit::encode` lists its fields. */
  function CommitOrder(c: Commit): seq<nat> { [4, 0, 2, 6, 3, 1] + (if c.contrib.Some? then [5] else []) }

  method WriteCommit(c: Commit) returns (out: Bytes)
    ensures out == EncodeCommit(c)
  {
    CommitKeysOk();
    var header := EncodeListed(CommitShape.keys, CommitVals(c), CommitOrder(c));
    out := EncodeFile(CommitType, header, []);
  }

  method ReadCommit(bytes: Bytes) returns (r: Option<Commit>)
    ensures r == DecodeCommit(bytes)
  {
    var fs := ReadHeader(CommitShape, CommitType, bytes);
    if fs.None? || ParseFile(bytes).payload != [] {
      return None;
    }
    r := CommitOf(Pick(CommitShape.keys, fs.value));
  }

  // ---- Snapshot ------------------------------------------------------------

  datatype Snapshot = Snapshot(tree: Bytes, commit: Bytes, tag: Bytes, ts: nat, prov: Bytes, pk: Bytes, sig: Bytes)

  const SnapshotShape: Shape := SMap([
    KeyShape("pk", Id32), KeyShape("ts", Time), KeyShape("sig", SBytes(64)), KeyShape("tag", SText),
    KeyShape("prov", Id32), KeyShape("tree", Id32), KeyShape("commit", Id32)])

  function SnapshotVals(s: Snapshot): (r: seq<Option<Val>>)
    ensures |r| == 7
  {
    [Some(VBytes(s.pk)), Some(VUint(s.ts)), Some(VBytes(s.sig)), Some(VText(s.tag)), Some(VBytes(s.prov)),
     Some(VBytes(s.tree)), Some(VBytes(s.commit))]
  }

  function SnapshotHeader(s: Snapshot): Bytes { Enc(VMap(Present(SnapshotShape.keys, SnapshotVals(s)))) }

  function EncodeSnapshot(s: Snapshot): Bytes { EncodeFile(SnapshotType, SnapshotHeader(s), []) }

  function SnapshotOf(v: seq<Option<Val>>): Option<Snapshot>
    requires |v| == 7
  {
    if exists i :: 0 <= i < 7 && v[i].None? then None
    else Some(Snapshot(AsBytes(v[5]), AsBytes(v[6]), AsText(v[3]), AsUint(v[1]), AsBytes(v[4]), AsBytes(v[0]), AsBytes(v[2])))
  }

  /** `Snapshot::decode`. */
  function DecodeSnapshot(bytes: Bytes): Option<Snapshot> {
    var fs := HeaderFields(SnapshotShape, SnapshotType, bytes);
    if fs.None? || ParseFile(bytes).payload != [] then None else SnapshotOf(Pick(SnapshotShape.keys, fs.value))
  }

  predicate WfSnapshot(s: Snapshot) {
    && |s.tree| == 32 && |s.commit| == 32 && |s.prov| == 32 && |s.pk| == 32 && |s.sig| == 64
    && TextOk(s.tag) && s.ts < U64 && HeaderFits(SnapshotHeader(s))
  }

  lemma SnapshotKeysOk()
    ensures KeysOk(SnapshotShape.keys)
  {
    KeysInOrder(SnapshotShape.keys);
  }

  lemma SnapshotValsFit(s: Snapshot)
    requires WfSnapshot(s)
    ensures ValsFit(SnapshotShape.keys, SnapshotVals(s)) && SnapshotOf(SnapshotVals(s)) == Some(s)
  {
  }

  lemma SnapshotRoundTrip(s: Snapshot)
    requires WfSnapshot(s)
    ensures DecodeSnapshot(EncodeSnapshot(s)) == Some(s)
  {
    SnapshotKeysOk();
    SnapshotValsFit(s);
    LaidOutReadsBack(SnapshotShape, SnapshotType, SnapshotVals(s));
  }

  lemma SnapshotValsBack(v: seq<Option<Val>>)
    requires ValsFit(SnapshotShape.keys, v) && SnapshotOf(v).Some?
    ensures var s := SnapshotOf(v).value;
      && SnapshotVals(s) == v && |s.tree| == 32 && |s.commit| == 32 && |s.prov| == 32 && |s.pk| == 32 && |s.sig| == 64
      && TextOk(s.tag) && s.ts < U64
  {
    var keys := SnapshotShape.keys;
    assert forall i :: 0 <= i < 7 ==> v[i].Some? && Fits(keys[i].shape, v[i].value);
    assert Fits(keys[0].shape, v[0].value) && Fits(keys[1].shape, v[1].value) && Fits(keys[2].shape, v[2].value)
      && Fits(keys[3].shape, v[3].value) && Fits(keys[4].shape, v[4].value) && Fits(keys[5].shape, v[5].value)
      && Fits(keys[6].shape, v[6].value);
  }

  lemma SnapshotCanonical(bytes: Bytes)
    requires DecodeSnapshot(bytes).Some?
    ensures bytes == EncodeSnapshot(DecodeSnapshot(bytes).value) && WfSnapshot(DecodeSnapshot(bytes).value)
  {
    HeaderSound(SnapshotShape, SnapshotType, bytes);
    var fs := HeaderFields(SnapshotShape, SnapshotType, bytes).value;
    SnapshotKeysOk();
    PresentPick(SnapshotShape.keys, fs);
    SnapshotValsBack(Pick(SnapshotShape.keys, fs));
  }

  /** The order in which `Snapshot::encode` lists its fields. */
  method WriteSnapshot(s: Snapshot) returns (out: Bytes)
    ensures out == EncodeSnapshot(s)
  {
    SnapshotKeysOk();
    var header := EncodeListed(SnapshotShape.keys, SnapshotVals(s), [6, 0, 4, 2, 3, 5, 1]);
    out := EncodeFile(SnapshotType, header, []);
  }

  method ReadSnapshot(bytes: Bytes) returns (r: Option<Snapshot>)
    ensures r == DecodeSnapshot(bytes)
  {
    var fs := ReadHeader(SnapshotShape, SnapshotType, bytes);
    if fs.None? || ParseFile(bytes).payload != [] {
      return None;
    }
    r := SnapshotOf(Pick(SnapshotShape.keys, fs.value));
  }
}
