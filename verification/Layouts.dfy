/** Which key of an encoded header holds which field, and which byte each file starts with. */
module Layouts {
  import opened Names
  import opened Cbor
  import opened Records
  import opened Objects
  import M = CommitCodec
  import T = TreeCodec
  import F = ConflictCodec
  import R = Contribution
  import P = Provenance

  /** The header is a record in which this key holds this value. */
  predicate Under(header: Bytes, fs: seq<Field>, key: Bytes, v: Val) { header == Enc(VMap(fs)) && Get(fs, key) == Some(v) }

  predicate Absent(header: Bytes, fs: seq<Field>, key: Bytes) { header == Enc(VMap(fs)) && Get(fs, key) == None }

  lemma ValueAt(keys: seq<KeyShape>, vals: seq<Option<Val>>, i: nat)
    requires KeysOk(keys) && |keys| == |vals| && i < |keys|
    ensures Get(Present(keys, vals), keys[i].key) == vals[i]
  {
    PickPresent(keys, vals);
    assert Pick(keys, Present(keys, vals))[i] == vals[i];
  }

  lemma AllValues(keys: seq<KeyShape>, vals: seq<Option<Val>>)
    requires KeysOk(keys) && |keys| == |vals|
    ensures forall i :: 0 <= i < |keys| ==> Get(Present(keys, vals), keys[i].key) == vals[i]
  {
    forall i | 0 <= i < |keys| ensures Get(Present(keys, vals), keys[i].key) == vals[i] { ValueAt(keys, vals, i); }
  }

  /** The major types of RFC 8949, by kind of value. */
  lemma MajorTypes(v: Val)
    ensures var first := Code(Enc(v)[0]);
      match v
      case VUint(_) => first / 32 == 0
      case VBytes(_) => first / 32 == 2
      case VText(_) => first / 32 == 3
      case VArray(_) => first / 32 == 4
      case VMap(_) => first / 32 == 5
      case VBool(b) => first == if b then 0xf5 else 0xf4
      case VNull => first == 0xf6
  {
    match v
    case VUint(n) => HeadMajor(0, n);
    case VBytes(b) => HeadMajor(2, |b|);
    case VText(t) => HeadMajor(3, |t|);
    case VArray(items) => HeadMajor(4, |items|);
    case VMap(fields) => HeadMajor(5, |fields|);
    case _ =>
  }

  lemma HeadMajor(major: nat, n: nat)
    requires major < 8
    ensures Code(EncHead(major, n)[0]) / 32 == major
  {
  }

  lemma StartsWith(ty: nat, header: Bytes, payload: Bytes)
    requires ty < 256
    ensures EncodeFile(ty, header, payload) != [] && Code(EncodeFile(ty, header, payload)[0]) == ty
  {
  }

  lemma CommitLayout(c: M.Commit) returns (fs: seq<Field>)
    ensures var header, bytes := M.CommitHeader(c), M.EncodeCommit(c);
      && bytes == EncodeFile(3, header, []) && Code(bytes[0]) == 3
      && Under(header, fs, "tree", VBytes(c.tree)) && Under(header, fs, "agent", VText(c.agent))
      && Under(header, fs, "msg", VText(c.msg)) && Under(header, fs, "ts", VUint(c.ts))
      && Under(header, fs, "lm", VBool(c.landmark)) && Under(header, fs, "parents", VArray(M.IdVals(c.parents)))
      && (if c.contrib.Some? then Under(header, fs, "contrib", VBytes(c.contrib.value)) else Absent(header, fs, "contrib"))
  {
    var keys, vals := M.CommitShape.keys, M.CommitVals(c);
    fs := Present(keys, vals);
    M.CommitKeysOk();
    AllValues(keys, vals);
    assert keys[0].key == "lm" && keys[1].key == "ts" && keys[2].key == "msg" && keys[3].key == "tree";
    assert keys[4].key == "agent" && keys[5].key == "contrib" && keys[6].key == "parents";
  }

  lemma SnapshotLayout(s: M.Snapshot) returns (fs: seq<Field>)
    ensures var header, bytes := M.SnapshotHeader(s), M.EncodeSnapshot(s);
      && bytes == EncodeFile(5, header, []) && Code(bytes[0]) == 5
      && Under(header, fs, "tree", VBytes(s.tree)) && Under(header, fs, "commit", VBytes(s.commit))
      && Under(header, fs, "tag", VText(s.tag)) && Under(header, fs, "ts", VUint(s.ts))
      && Under(header, fs, "prov", VBytes(s.prov)) && Under(header, fs, "pk", VBytes(s.pk))
      && Under(header, fs, "sig", VBytes(s.sig))
  {
    var keys, vals := M.SnapshotShape.keys, M.SnapshotVals(s);
    fs := Present(keys, vals);
    M.SnapshotKeysOk();
    AllValues(keys, vals);
    assert keys[0].key == "pk" && keys[1].key == "ts" && keys[2].key == "sig" && keys[3].key == "tag";
    assert keys[4].key == "prov" && keys[5].key == "tree" && keys[6].key == "commit";
  }

  lemma EntryLayout(e: T.Entry) returns (fs: seq<Field>)
    ensures var v := Enc(T.EntryVal(e));
      && Under(v, fs, "n", VText(e.name)) && Under(v, fs, "id", VBytes(e.id)) && Under(v, fs, "x", VBool(e.exec))
      && Under(v, fs, "k", VUint(if e.isTree then 2 else 1))
  {
    var keys, vals := T.EntryShape.keys, T.EntryVals(e);
    fs := Present(keys, vals);
    T.EntryKeysOk();
    AllValues(keys, vals);
    assert keys[0].key == "k" && keys[1].key == "n" && keys[2].key == "x" && keys[3].key == "id";
  }

  lemma TreeLayout(t: T.Tree) returns (fs: seq<Field>)
    ensures Under(T.TreeHeader(t), fs, "e", VArray(T.EntryItems(t.entries)))
    ensures T.EncodeTree(t).Some? ==> T.EncodeTree(t).value == EncodeFile(2, T.TreeHeader(t), []) && Code(T.EncodeTree(t).value[0]) == 2
  {
    var keys, vals := T.TreeShape.keys, T.TreeVals(t);
    fs := Present(keys, vals);
    T.TreeKeysOk();
    AllValues(keys, vals);
    assert keys[0].key == "e";
    StartsWith(2, T.TreeHeader(t), []);
  }

  lemma SideLayout(s: F.Side) returns (fs: seq<Field>)
    ensures var v := Enc(F.SideVal(s));
      && Under(v, fs, "p", VText(s.path))
      && Under(v, fs, "a", if s.a.Some? then VBytes(s.a.value) else VNull)
      && Under(v, fs, "b", if s.b.Some? then VBytes(s.b.value) else VNull)
      && Under(v, fs, "base", if s.base.Some? then VBytes(s.base.value) else VNull)
  {
    var keys, vals := F.SideShape.keys, F.SideVals(s);
    fs := Present(keys, vals);
    F.SideKeysOk();
    AllValues(keys, vals);
    assert keys[0].key == "a" && keys[1].key == "b" && keys[2].key == "p" && keys[3].key == "base";
  }

  lemma ConflictLayout(c: F.Conflict) returns (fs: seq<Field>)
    ensures var header, bytes := F.ConflictHeader(c), F.EncodeConflict(c);
      && bytes == EncodeFile(4, header, []) && Code(bytes[0]) == 4
      && Under(header, fs, "ours", VBytes(c.ours)) && Under(header, fs, "theirs", VBytes(c.theirs))
      && Under(header, fs, "bases", VArray(M.IdVals(c.bases))) && Under(header, fs, "causal", VArray(M.IdVals(c.causal)))
      && Under(header, fs, "paths", VArray(F.SideItems(c.paths)))
  {
    var keys, vals := F.ConflictShape.keys, F.ConflictVals(c);
    fs := Present(keys, vals);
    F.ConflictKeysOk();
    AllValues(keys, vals);
    assert keys[0].key == "ours" && keys[1].key == "bases" && keys[2].key == "paths";
    assert keys[3].key == "causal" && keys[4].key == "theirs";
  }

  lemma ReadLayout(r: R.ReadOf) returns (fs: seq<Field>)
    ensures var v := Enc(R.ReadVal(r)); Under(v, fs, "p", VText(r.path)) && Under(v, fs, "id", VBytes(r.id))
  {
    var vals := [Some(VText(r.path)), Some(VBytes(r.id))];
    fs := Present(R.ReadKeys, vals);
    KeysInOrder(R.ReadKeys);
    AllValues(R.ReadKeys, vals);
    assert R.ReadKeys[0].key == "p" && R.ReadKeys[1].key == "id";
  }

  lemma ContributionLayout(c: R.Contribution) returns (fs: seq<Field>)
    ensures var header := R.Header(c);
      && Under(header, fs, "base", VBytes(c.base)) && Under(header, fs, "tree", VBytes(c.tree))
      && Under(header, fs, "agent", VText(c.agent)) && Under(header, fs, "ts", VUint(c.ts))
      && Under(header, fs, "parents", VArray(M.IdVals(c.parents)))
      && Under(header, fs, "reads", VArray(R.ReadVals(c.inputs))) && Under(header, fs, "writes", VArray(R.PathVals(c.writes)))
  {
    var keys, vals := R.Keys, R.Vals(c);
    fs := Present(keys, vals);
    ContributionKeys(keys);
    AllValues(keys, vals);
  }

  lemma ContributionKeys(keys: seq<KeyShape>)
    requires keys == R.Keys
    ensures KeysOk(keys) && |keys| == 7
    ensures keys[0].key == "ts" && keys[1].key == "base" && keys[2].key == "tree" && keys[3].key == "agent"
    ensures keys[4].key == "reads" && keys[5].key == "writes" && keys[6].key == "parents"
  {
    R.KeysUp();
  }

  /** A manifest maps each object id to who introduced it. */
  lemma ManifestLayout(m: P.Manifest) returns (fs: seq<Field>)
    ensures |fs| == |m.entries| && forall i :: 0 <= i < |fs| ==> fs[i] == Field(m.entries[i].id, VText(m.entries[i].agent))
    ensures m.encoding.Legacy? ==> P.EncodeManifest(m) == Enc(VMap(fs))
    ensures m.encoding.Version1? ==> P.EncodeManifest(m) == Enc(VMap(P.Envelope(m.entries))) && Wraps(P.Envelope(m.entries), fs)
  {
    fs := P.LabelFields(m.entries);
    EnvelopeWraps(m.entries, fs);
  }

  /** The current form puts that map under "entries", beside version 1. */
  predicate Wraps(top: seq<Field>, fs: seq<Field>) {
    Get(top, "entries") == Some(VMap(fs)) && Get(top, "version") == Some(VUint(1))
  }

  lemma EnvelopeWraps(es: seq<P.Label>, fs: seq<Field>)
    requires fs == P.LabelFields(es)
    ensures Wraps(P.Envelope(es), fs)
  {
    var keys, vals := P.EnvelopeShape.keys, P.EnvelopeVals(es);
    P.EnvelopeKeysOk();
    ValueAt(keys, vals, 0);
    ValueAt(keys, vals, 1);
    assert keys[0].key == "entries" && keys[1].key == "version";
  }

  lemma BlobLayout(b: Blob) returns (header: Bytes, fs: seq<Field>)
    ensures EncodeBlob(b) == EncodeFile(1, header, b.data) && Code(EncodeBlob(b)[0]) == 1
    ensures Under(header, fs, "size", VUint(|b.data|))
  {
    fs := BlobFields(b);
    header := Enc(VMap(fs));
    GetMember(fs, fs[0]);
    StartsWith(1, header, b.data);
  }
}
