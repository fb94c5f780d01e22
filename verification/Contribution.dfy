/** Contribution receipts: the size preflight bounds the real header. */
module Contribution {
  import opened Names
  import opened Cbor
  import opened Records
  import opened Objects
  import opened CommitCodec
  import opened Provenance

  const MAX_ITEMS: nat := 100_000
  const MAX_PARENTS: nat := 1_024
  const MAX_PATH_BYTES: nat := 4_096
  const MAX_AGENT_BYTES: nat := 1_024
  const MAX_SERIALIZED_HEADER_BYTES: nat := 8_388_608
  const ContributionType: nat := 6

  datatype ReadOf = ReadOf(path: Bytes, id: Bytes)

  datatype Contribution = Contribution(base: Bytes, tree: Bytes, parents: seq<Bytes>, inputs: seq<ReadOf>, writes: seq<Bytes>,
                                       agent: Bytes, ts: nat)

  // ---- the header ----------------------------------------------------------

  const ReadKeys: seq<KeyShape> := [KeyShape("p", SText), KeyShape("id", Id32)]

  function ReadVal(r: ReadOf): Val { VMap(Present(ReadKeys, [Some(VText(r.path)), Some(VBytes(r.id))])) }

  const Inputs: Shape := SArray(SMap(ReadKeys), MAX_ITEMS)
  const Paths: Shape := SArray(SText, MAX_ITEMS)
  const ParentIds: Shape := SArray(Id32, MAX_PARENTS)

  function KeysWith(inputs: Shape, paths: Shape, parents: Shape): seq<KeyShape> {
    [KeyShape("ts", Time), KeyShape("base", Id32), KeyShape("tree", Id32), KeyShape("agent", SText),
     KeyShape("reads", inputs), KeyShape("writes", paths), KeyShape("parents", parents)]
  }

  const Keys: seq<KeyShape> := KeysWith(Inputs, Paths, ParentIds)

  function ReadVals(rs: seq<ReadOf>): seq<Val> { seq(|rs|, i requires 0 <= i < |rs| => ReadVal(rs[i])) }

  function PathVals(ps: seq<Bytes>): seq<Val> { seq(|ps|, i requires 0 <= i < |ps| => VText(ps[i])) }

  function Vals(c: Contribution): (r: seq<Option<Val>>)
    ensures |r| == 7
  {
    [Some(VUint(c.ts)), Some(VBytes(c.base)), Some(VBytes(c.tree)), Some(VText(c.agent)),
     Some(VArray(ReadVals(c.inputs))), Some(VArray(PathVals(c.writes))), Some(VArray(IdVals(c.parents)))]
  }

  function Header(c: Contribution): Bytes { Enc(VMap(Present(Keys, Vals(c)))) }

  // ---- lengths -------------------------------------------------------------

  lemma ShortHead(major: nat, n: nat)
    requires major < 8
    ensures n <= 0xffff_ffff ==> |EncHead(major, n)| <= 5
    ensures n <= 0xffff ==> |EncHead(major, n)| <= 3
    ensures |EncHead(major, n)| <= 9
  {
    HeadLenExact(major, n);
  }

  /** The bytes of the fields from position `k` on. */
  function LenFrom(keys: seq<KeyShape>, vals: seq<Option<Val>>, k: nat): nat
    requires |keys| == |vals| && k <= |keys|
    decreases |keys| - k
  {
    if k == |keys| then 0 else
    (if vals[k].Some? then |EncKey(keys[k].key)| + |Enc(vals[k].value)| else 0) + LenFrom(keys, vals, k + 1)
  }

  lemma {:induction false} PresentLen(keys: seq<KeyShape>, vals: seq<Option<Val>>, k: nat)
    requires |keys| == |vals| && k <= |keys|
    ensures |EncFields(Present(keys[k..], vals[k..]))| == LenFrom(keys, vals, k)
    decreases |keys| - k
  {
    if k < |keys| {
      PresentLen(keys, vals, k + 1);
      assert keys[k..][1..] == keys[k + 1..] && vals[k..][1..] == vals[k + 1..];
      var more := Present(keys[k + 1..], vals[k + 1..]);
      if vals[k].Some? {
        var f := Field(keys[k].key, vals[k].value);
        assert ([f] + more)[1..] == more;
        assert Present(keys[k..], vals[k..]) == [f] + more;
      } else {
        assert Present(keys[k..], vals[k..]) == [] + more;
        assert [] + more == more;
      }
    }
  }

  lemma RecordLen(keys: seq<KeyShape>, vals: seq<Option<Val>>)
    requires |keys| == |vals| && |keys| < 24
    ensures |Enc(VMap(Present(keys, vals)))| == 1 + LenFrom(keys, vals, 0)
  {
    PresentCount(keys, vals);
    PresentLen(keys, vals, 0);
    assert keys[0..] == keys && vals[0..] == vals;
    HeadLenExact(5, |Present(keys, vals)|);
  }

  lemma KeyLen(key: Bytes)
    requires |key| < 24
    ensures |EncKey(key)| == 1 + |key|
  {
    ShortKey(key);
  }

  function ReadsLen(rs: seq<ReadOf>): nat { if rs == [] then 0 else |rs[0].path| + 64 + ReadsLen(rs[1..]) }

  function WritesLen(ps: seq<Bytes>): nat { if ps == [] then 0 else |ps[0]| + 8 + WritesLen(ps[1..]) }

  predicate PathsShort(ps: seq<Bytes>) { forall i :: 0 <= i < |ps| ==> |ps[i]| <= MAX_PATH_BYTES }

  function ReadPaths(rs: seq<ReadOf>): seq<Bytes> { seq(|rs|, i requires 0 <= i < |rs| => rs[i].path) }

  lemma OneReadLen(r: ReadOf)
    requires |r.path| <= MAX_PATH_BYTES && |r.id| == 32
    ensures |Enc(ReadVal(r))| <= |r.path| + 64
  {
    var vals := [Some(VText(r.path)), Some(VBytes(r.id))];
    RecordLen(ReadKeys, vals);
    assert LenFrom(ReadKeys, vals, 2) == 0;
    assert LenFrom(ReadKeys, vals, 1) == |EncKey(ReadKeys[1].key)| + |Enc(VBytes(r.id))|;
    assert LenFrom(ReadKeys, vals, 0) == |EncKey(ReadKeys[0].key)| + |Enc(VText(r.path))| + LenFrom(ReadKeys, vals, 1);
    KeyLen(ReadKeys[0].key);
    KeyLen(ReadKeys[1].key);
    ShortHead(3, |r.path|);
    ShortHead(2, |r.id|);
  }

  lemma {:induction false} ReadsBound(rs: seq<ReadOf>)
    requires PathsShort(ReadPaths(rs)) && forall i :: 0 <= i < |rs| ==> |rs[i].id| == 32
    ensures |EncItems(ReadVals(rs))| <= ReadsLen(rs)
    decreases |rs|
  {
    if rs != [] {
      assert ReadPaths(rs)[0] == rs[0].path;
      OneReadLen(rs[0]);
      assert forall i :: 0 <= i < |rs| - 1 ==> ReadPaths(rs[1..])[i] == ReadPaths(rs)[i + 1];
      ReadsBound(rs[1..]);
      assert ReadVals(rs)[1..] == ReadVals(rs[1..]);
    }
  }

  lemma {:induction false} WritesBound(ps: seq<Bytes>)
    requires PathsShort(ps)
    ensures |EncItems(PathVals(ps))| <= WritesLen(ps)
    decreases |ps|
  {
    if ps != [] {
      ShortHead(3, |ps[0]|);
      WritesBound(ps[1..]);
      assert PathVals(ps)[1..] == PathVals(ps[1..]);
    }
  }

  lemma {:induction false} ParentsBound(ids: seq<Bytes>)
    requires AllIds(ids)
    ensures |EncItems(IdVals(ids))| <= 40 * |ids|
    decreases |ids|
  {
    if ids != [] {
      ShortHead(2, |ids[0]|);
      ParentsBound(ids[1..]);
      assert IdVals(ids)[1..] == IdVals(ids[1..]);
    }
  }

  // ---- validate ------------------------------------------------------------

  function Estimate(c: Contribution): nat {
    1_024 + |c.agent| + 40 * |c.parents| + ReadsLen(c.inputs) + WritesLen(c.writes)
  }

  predicate PathOk(p: Bytes) { 0 < |p| <= MAX_PATH_BYTES && '\0' !in p }

  /** `validate_sorted_unique`. */
  predicate PathsOk(ps: seq<Bytes>) {
    && (forall i :: 0 <= i < |ps| ==> PathOk(ps[i]))
    && (forall i :: 0 <= i < |ps| - 1 ==> Less(ps[i], ps[i + 1]))
  }

  predicate Admitted(c: Contribution) {
    && |c.parents| <= MAX_PARENTS && |c.inputs| <= MAX_ITEMS && |c.writes| <= MAX_ITEMS
    && 0 < |c.agent| <= MAX_AGENT_BYTES
    && Estimate(c) <= MAX_SERIALIZED_HEADER_BYTES
    && PathsOk(ReadPaths(c.inputs)) && PathsOk(c.writes)
  }

  /** Ids are 32 bytes and the clock is a 64-bit count: the types say so. */
  predicate Typed(c: Contribution) {
    && |c.base| == 32 && |c.tree| == 32 && AllIds(c.parents) && c.ts < U64
    && forall i :: 0 <= i < |c.inputs| ==> |c.inputs[i].id| == 32
  }

  method SortedUnique(ps: seq<Bytes>) returns (ok: bool)
    ensures ok == PathsOk(ps)
  {
    var k := 0;
    while k < |ps|
      invariant 0 <= k <= |ps| && PathsOk(ps[..k])
    {
      assert ps[..k + 1] == ps[..k] + [ps[k]];
      if !PathOk(ps[k]) {
        return false;
      }
      if k > 0 && !Less(ps[k - 1], ps[k]) {
        return false;
      }
      k := k + 1;
    }
    assert ps[..k] == ps;
    ok := true;
  }

  /** `validate`: the limits, the preflight estimate, the path lists. */
  method Validate(c: Contribution) returns (ok: bool)
    ensures ok == Admitted(c)
  {
    if |c.parents| > MAX_PARENTS || |c.inputs| > MAX_ITEMS || |c.writes| > MAX_ITEMS {
      return false;
    }
    if c.agent == [] || |c.agent| > MAX_AGENT_BYTES {
      return false;
    }
    var estimated := 1_024 + |c.agent| + 40 * |c.parents|;
    var k := 0;
    assert c.inputs[0..] == c.inputs && c.writes[0..] == c.writes;
    while k < |c.inputs|
      invariant 0 <= k <= |c.inputs|
      invariant estimated + ReadsLen(c.inputs[k..]) + WritesLen(c.writes) == Estimate(c)
    {
      assert c.inputs[k..][1..] == c.inputs[k + 1..];
      estimated := estimated + |c.inputs[k].path| + 64;
      k := k + 1;
    }
    assert c.inputs[k..] == [];
    k := 0;
    while k < |c.writes|
      invariant 0 <= k <= |c.writes|
      invariant estimated + WritesLen(c.writes[k..]) == Estimate(c)
    {
      assert c.writes[k..][1..] == c.writes[k + 1..];
      estimated := estimated + |c.writes[k]| + 8;
      k := k + 1;
    }
    assert c.writes[k..] == [];
    if estimated > MAX_SERIALIZED_HEADER_BYTES {
      return false;
    }
    var inputsOk := SortedUnique(ReadPaths(c.inputs));
    var writesOk := SortedUnique(c.writes);
    ok := inputsOk && writesOk;
  }

  /** The estimate is at least the real header length of everything admitted. */
  lemma EstimateBounds(c: Contribution)
    requires Admitted(c) && Typed(c)
    ensures |Header(c)| <= Estimate(c) <= MAX_SERIALIZED_HEADER_BYTES
  {
    RecordLen(Keys, Vals(c));
    ReadsBound(c.inputs);
    WritesBound(c.writes);
    ParentsBound(c.parents);
    ArrayLens(c);
    SevenFields(Keys, Vals(c));
    KeyLen(Keys[0].key);
    KeyLen(Keys[1].key);
    KeyLen(Keys[2].key);
    KeyLen(Keys[3].key);
    KeyLen(Keys[4].key);
    KeyLen(Keys[5].key);
    KeyLen(Keys[6].key);
  }

  lemma SevenFields(keys: seq<KeyShape>, v: seq<Option<Val>>)
    requires |keys| == 7 && |v| == 7 && forall i :: 0 <= i < 7 ==> v[i].Some?
    ensures LenFrom(keys, v, 0)
      == |EncKey(keys[0].key)| + |Enc(v[0].value)| + |EncKey(keys[1].key)| + |Enc(v[1].value)|
       + |EncKey(keys[2].key)| + |Enc(v[2].value)| + |EncKey(keys[3].key)| + |Enc(v[3].value)|
       + |EncKey(keys[4].key)| + |Enc(v[4].value)| + |EncKey(keys[5].key)| + |Enc(v[5].value)|
       + |EncKey(keys[6].key)| + |Enc(v[6].value)|
  {
    assert LenFrom(keys, v, 7) == 0;
    assert LenFrom(keys, v, 6) == |EncKey(keys[6].key)| + |Enc(v[6].value)|;
    assert LenFrom(keys, v, 5) == |EncKey(keys[5].key)| + |Enc(v[5].value)| + LenFrom(keys, v, 6);
    assert LenFrom(keys, v, 4) == |EncKey(keys[4].key)| + |Enc(v[4].value)| + LenFrom(keys, v, 5);
    assert LenFrom(keys, v, 3) == |EncKey(keys[3].key)| + |Enc(v[3].value)| + LenFrom(keys, v, 4);
    assert LenFrom(keys, v, 2) == |EncKey(keys[2].key)| + |Enc(v[2].value)| + LenFrom(keys, v, 3);
    assert LenFrom(keys, v, 1) == |EncKey(keys[1].key)| + |Enc(v[1].value)| + LenFrom(keys, v, 2);
  }

  lemma ArrayLens(c: Contribution)
    requires Admitted(c) && Typed(c)
    ensures var v := Vals(c);
      && |Enc(v[0].value)| <= 9 && |Enc(v[1].value)| <= 35 && |Enc(v[2].value)| <= 35 && |Enc(v[3].value)| <= 3 + |c.agent|
      && |Enc(v[4].value)| <= 5 + |EncItems(ReadVals(c.inputs))| && |Enc(v[5].value)| <= 5 + |EncItems(PathVals(c.writes))|
      && |Enc(v[6].value)| <= 3 + |EncItems(IdVals(c.parents))|
  {
    ShortHead(0, c.ts);
    ShortHead(2, 32);
    ShortHead(3, |c.agent|);
    ShortHead(4, |c.inputs|);
    ShortHead(4, |c.writes|);
    ShortHead(4, |c.parents|);
  }

  /** `encode`: after the preflight the final size check never fires. */
  method EncodeContribution(c: Contribution) returns (r: Result<Bytes>)
    requires Typed(c)
    ensures r.Ok? <==> Admitted(c)
    ensures r.Ok? ==> r.value == EncodeFile(ContributionType, Header(c), [])
  {
    var ok := Validate(c);
    if !ok {
      return Err(Invalid);
    }
    KeysUp();
    var header := EncodeListed(Keys, Vals(c), [3, 1, 6, 4, 2, 0, 5]);
    EstimateBounds(c);
    if |header| > MAX_SERIALIZED_HEADER_BYTES {
      return Err(Invalid);
    }
    r := Ok(EncodeFile(ContributionType, header, []));
  }

  lemma KeysUp()
    ensures KeysOk(Keys)
  {
    KeysWithUp(Inputs, Paths, ParentIds);
  }

  lemma KeysWithUp(inputs: Shape, paths: Shape, parents: Shape)
    ensures KeysOk(KeysWith(inputs, paths, parents))
  {
    KeyLengths(inputs, paths, parents);
    KeyLetters(inputs, paths, parents);
    SevenUp(KeysWith(inputs, paths, parents));
  }

  predicate Lengths(ks: seq<KeyShape>) {
    && |ks| == 7 && |ks[0].key| == 2 && |ks[1].key| == 4 && |ks[2].key| == 4 && |ks[3].key| == 5
    && |ks[4].key| == 5 && |ks[5].key| == 6 && |ks[6].key| == 7
  }

  lemma KeyLengths(inputs: Shape, paths: Shape, parents: Shape)
    ensures Lengths(KeysWith(inputs, paths, parents))
  {
  }

  lemma KeyLetters(inputs: Shape, paths: Shape, parents: Shape)
    ensures var ks := KeysWith(inputs, paths, parents);
      && |ks| == 7 && (forall i :: 0 <= i < 7 ==> Ascii(ks[i].key))
      && |ks[1].key| > 0 && |ks[2].key| > 0 && ks[1].key[0] < ks[2].key[0]
      && |ks[3].key| > 0 && |ks[4].key| > 0 && ks[3].key[0] < ks[4].key[0]
  {
  }

  lemma SevenUp(ks: seq<KeyShape>)
    requires Lengths(ks) && (forall i :: 0 <= i < 7 ==> Ascii(ks[i].key))
    requires ks[1].key[0] < ks[2].key[0] && ks[3].key[0] < ks[4].key[0]
    ensures KeysOk(ks)
  {
    forall i | 0 <= i < 6 ensures Ahead(ks[i].key, ks[i + 1].key) { }
    KeysInOrder(ks);
  }
}
