/** Tree headers: entries in name order, each a small record. */
module TreeCodec {
  import opened Names
  import opened Cbor
  import opened Records
  import opened Objects
  import opened CommitCodec

  datatype Entry = Entry(name: Bytes, isTree: bool, id: Bytes, exec: bool)

  datatype Tree = Tree(entries: seq<Entry>)

  const EntryShape: Shape := SMap([
    KeyShape("k", SUint(1, 2)), KeyShape("n", SText), KeyShape("x", SBool), KeyShape("id", Id32)])

  const EntriesShape: Shape := SArray(EntryShape, MAX_TREE_ENTRIES)

  const TreeShape: Shape := SMap([KeyShape("e", EntriesShape)])

  // ---- one entry -----------------------------------------------------------

  function EntryVals(e: Entry): (r: seq<Option<Val>>)
    ensures |r| == 4
  {
    [Some(VUint(if e.isTree then 2 else 1)), Some(VText(e.name)), Some(VBool(e.exec)), Some(VBytes(e.id))]
  }

  function EntryVal(e: Entry): Val { VMap(Present(EntryShape.keys, EntryVals(e))) }

  function EntryOf(v: seq<Option<Val>>): Option<Entry>
    requires |v| == 4
  {
    if exists i :: 0 <= i < 4 && v[i].None? then None
    else Some(Entry(AsText(v[1]), AsUint(v[0]) == 2, AsBytes(v[3]), AsBool(v[2])))
  }

  function EntryFrom(v: Val): Option<Entry> {
    if v.VMap? then EntryOf(Pick(EntryShape.keys, v.fields)) else None
  }

  predicate WfEntry(e: Entry) { TextOk(e.name) && |e.id| == 32 }

  lemma EntryKeysOk()
    ensures KeysOk(EntryShape.keys)
  {
    KeysInOrder(EntryShape.keys);
  }

  lemma EntryValsFit(e: Entry)
    requires WfEntry(e)
    ensures ValsFit(EntryShape.keys, EntryVals(e)) && EntryOf(EntryVals(e)) == Some(e)
  {
  }

  lemma EntryFits(e: Entry)
    requires WfEntry(e)
    ensures Fits(EntryShape, EntryVal(e)) && EntryFrom(EntryVal(e)) == Some(e)
  {
    var keys, vals := EntryShape.keys, EntryVals(e);
    EntryKeysOk();
    EntryValsFit(e);
    PresentFits(keys, vals);
    PickPresent(keys, vals);
    PresentCount(keys, vals);
  }

  lemma EntryValsBack(v: seq<Option<Val>>)
    requires ValsFit(EntryShape.keys, v) && EntryOf(v).Some?
    ensures EntryVals(EntryOf(v).value) == v && WfEntry(EntryOf(v).value)
  {
    var keys := EntryShape.keys;
    assert Fits(keys[0].shape, v[0].value) && Fits(keys[1].shape, v[1].value) && Fits(keys[2].shape, v[2].value)
      && Fits(keys[3].shape, v[3].value);
  }

  lemma EntryBack(v: Val)
    requires Fits(EntryShape, v) && EntryFrom(v).Some?
    ensures EntryVal(EntryFrom(v).value) == v && WfEntry(EntryFrom(v).value)
  {
    EntryKeysOk();
    PresentPick(EntryShape.keys, v.fields);
    EntryValsBack(Pick(EntryShape.keys, v.fields));
  }

  // ---- the list of entries -------------------------------------------------

  function EntryItems(es: seq<Entry>): seq<Val> { seq(|es|, i requires 0 <= i < |es| => EntryVal(es[i])) }

  /** All entries, or nothing if one lacks a field. */
  function EntriesFrom(items: seq<Val>): (r: Option<seq<Entry>>)
    ensures r.Some? ==> |r.value| == |items| && forall i :: 0 <= i < |items| ==> EntryFrom(items[i]) == Some(r.value[i])
    ensures r.None? ==> exists i :: 0 <= i < |items| && EntryFrom(items[i]).None?
  {
    if items == [] then Some([]) else
    var one, more := EntryFrom(items[0]), EntriesFrom(items[1..]);
    assert items == [items[0]] + items[1..];
    if one.None? || more.None? then None else Some([one.value] + more.value)
  }

  lemma EntriesFit(es: seq<Entry>)
    requires forall i :: 0 <= i < |es| ==> WfEntry(es[i])
    ensures FitsItems(EntriesShape, EntryItems(es)) && EntriesFrom(EntryItems(es)) == Some(es)
  {
    var items := EntryItems(es);
    forall i | 0 <= i < |es| ensures Fits(EntryShape, items[i]) && EntryFrom(items[i]) == Some(es[i]) { EntryFits(es[i]); }
    FitsEachItem(EntriesShape, items);
    assert EntriesFrom(items).Some?;
    assert EntriesFrom(items).value == es;
  }

  lemma EntriesBack(items: seq<Val>)
    requires FitsItems(EntriesShape, items) && EntriesFrom(items).Some?
    ensures EntryItems(EntriesFrom(items).value) == items
    ensures forall i :: 0 <= i < |items| ==> WfEntry(EntriesFrom(items).value[i])
  {
    var es := EntriesFrom(items).value;
    EachEntryFits(items);
    forall i | 0 <= i < |items| ensures EntryVal(es[i]) == items[i] && WfEntry(es[i]) { EntryAt(items[i], es[i]); }
    AllEntries(items, es);
  }

  lemma EachEntryFits(items: seq<Val>)
    requires FitsItems(EntriesShape, items)
    ensures forall i :: 0 <= i < |items| ==> Fits(EntryShape, items[i])
  {
    FitsEachItem(EntriesShape, items);
  }

  lemma AllEntries(items: seq<Val>, es: seq<Entry>)
    requires |es| == |items| && forall i :: 0 <= i < |items| ==> EntryVal(es[i]) == items[i]
    ensures EntryItems(es) == items
  {
  }

  lemma EntryAt(v: Val, e: Entry)
    requires Fits(EntryShape, v) && EntryFrom(v) == Some(e)
    ensures EntryVal(e) == v && WfEntry(e)
  {
    EntryBack(v);
  }

  // ---- the whole tree ------------------------------------------------------

  predicate NamesOk(t: Tree) { forall i :: 0 <= i < |t.entries| ==> ValidName(t.entries[i].name) }

  predicate InOrder(t: Tree) {
    forall i, j :: 0 <= i < j < |t.entries| ==> Less(t.entries[i].name, t.entries[j].name)
  }

  function TreeVals(t: Tree): (r: seq<Option<Val>>)
    ensures |r| == 1
  {
    [Some(VArray(EntryItems(t.entries)))]
  }

  function TreeHeader(t: Tree): Bytes { Enc(VMap(Present(TreeShape.keys, TreeVals(t)))) }

  /** `Tree::encode`: refuses too many entries and invalid names. */
  function EncodeTree(t: Tree): Option<Bytes> {
    if |t.entries| > MAX_TREE_ENTRIES || !NamesOk(t) then None else Some(EncodeFile(TreeType, TreeHeader(t), []))
  }

  function TreeOf(v: seq<Option<Val>>): Option<Tree>
    requires |v| == 1
  {
    if v[0].None? then None else
    var es := EntriesFrom(AsItems(v[0]));
    if es.None? || !NamesOk(Tree(es.value)) || !InOrder(Tree(es.value)) then None else Some(Tree(es.value))
  }

  /** `Tree::decode`, with `Tree::from_canonical`. */
  function DecodeTree(bytes: Bytes): Option<Tree> {
    var fs := HeaderFields(TreeShape, TreeType, bytes);
    if fs.None? || ParseFile(bytes).payload != [] then None else TreeOf(Pick(TreeShape.keys, fs.value))
  }

  predicate WfTree(t: Tree) {
    && |t.entries| <= MAX_TREE_ENTRIES && NamesOk(t) && InOrder(t) && HeaderFits(TreeHeader(t))
    && (forall i :: 0 <= i < |t.entries| ==> WfEntry(t.entries[i]))
  }

  lemma TreeKeysOk()
    ensures KeysOk(TreeShape.keys)
  {
    KeysInOrder(TreeShape.keys);
  }

  lemma TreeValsFit(t: Tree)
    requires WfTree(t)
    ensures ValsFit(TreeShape.keys, TreeVals(t)) && TreeOf(TreeVals(t)) == Some(t)
  {
    EntriesFit(t.entries);
  }

  lemma TreeRoundTrip(t: Tree)
    requires WfTree(t)
    ensures EncodeTree(t).Some? && DecodeTree(EncodeTree(t).value) == Some(t)
  {
    TreeKeysOk();
    TreeValsFit(t);
    LaidOutReadsBack(TreeShape, TreeType, TreeVals(t));
  }

  lemma TreeValsBack(v: seq<Option<Val>>)
    requires ValsFit(TreeShape.keys, v) && TreeOf(v).Some?
    ensures var t := TreeOf(v).value;
      && TreeVals(t) == v && |t.entries| <= MAX_TREE_ENTRIES && forall i :: 0 <= i < |t.entries| ==> WfEntry(t.entries[i])
  {
    assert Fits(TreeShape.keys[0].shape, v[0].value);
    EntriesBack(v[0].value.items);
  }

  lemma TreeCanonical(bytes: Bytes)
    requires DecodeTree(bytes).Some?
    ensures WfTree(DecodeTree(bytes).value) && EncodeTree(DecodeTree(bytes).value) == Some(bytes)
  {
    HeaderSound(TreeShape, TreeType, bytes);
    var fs := HeaderFields(TreeShape, TreeType, bytes).value;
    TreeKeysOk();
    PresentPick(TreeShape.keys, fs);
    TreeValsBack(Pick(TreeShape.keys, fs));
  }

  /** `Tree::encode`: refuses an over-full tree, then writes the entries in their header. */
  method WriteTree(t: Tree) returns (r: Option<Bytes>)
    ensures r == EncodeTree(t)
  {
    if |t.entries| > MAX_TREE_ENTRIES {
      return None;
    }
    var entries := WriteEntries(t.entries);
    if entries.None? {
      return None;
    }
    TreeHeaderIs(t, EntryItems(t.entries));
    r := Some(EncodeFile(TreeType, EncHead(5, 1) + EncKey("e") + entries.value, []));
  }

  /** Entry by entry, each entry's fields listed and sorted. */
  method WriteEntries(es: seq<Entry>) returns (r: Option<Bytes>)
    ensures r == if NamesOk(Tree(es)) then Some(Enc(VArray(EntryItems(es)))) else None
  {
    var out := EncHead(4, |es|);
    var k := 0;
    ghost var items := EntryItems(es);
    ghost var total := Enc(VArray(items));
    assert items[0..] == items;
    while k < |es|
      invariant 0 <= k <= |es| && out + EncItems(items[k..]) == total
      invariant forall i :: 0 <= i < k ==> ValidName(es[i].name)
    {
      if !ValidName(es[k].name) {
        return None;
      }
      var one := WriteEntry(es[k]);
      OneEntryMore(es, items, out, one, total, k);
      out := out + one;
      k := k + 1;
    }
    EntriesDone(out, items);
    r := Some(out);
  }

  method WriteEntry(e: Entry) returns (out: Bytes)
    ensures out == Enc(EntryVal(e))
  {
    EntryKeysOk();
    out := EncodeListed(EntryShape.keys, EntryVals(e), [3, 0, 1, 2]);
  }

  lemma OneEntryMore(es: seq<Entry>, items: seq<Val>, out: Bytes, one: Bytes, total: Bytes, k: nat)
    requires items == EntryItems(es) && k < |es| && one == Enc(EntryVal(es[k])) && out + EncItems(items[k..]) == total
    ensures out + one + EncItems(items[k + 1..]) == total
  {
    EntryAppended(out, items, k);
  }

  lemma EntryAppended(out: Bytes, items: seq<Val>, k: nat)
    requires k < |items|
    ensures out + EncItems(items[k..]) == out + Enc(items[k]) + EncItems(items[k + 1..])
  {
    assert items[k..][1..] == items[k + 1..];
    Assoc(out, Enc(items[k]), EncItems(items[k + 1..]));
  }

  lemma EntriesDone(out: Bytes, items: seq<Val>)
    ensures out + EncItems(items[|items|..]) == out
  {
    assert items[|items|..] == [];
  }

  lemma TreeHeaderIs(t: Tree, items: seq<Val>)
    requires items == EntryItems(t.entries)
    ensures TreeHeader(t) == EncHead(5, 1) + EncKey("e") + Enc(VArray(items))
  {
    var keys, vals := TreeShape.keys, TreeVals(t);
    var none: seq<Field> := [];
    assert keys[1..] == [] && Present(keys[1..], vals[1..]) == none;
    assert [Field(keys[0].key, vals[0].value)] + none == [Field("e", VArray(items))];
    OneFieldMap("e", VArray(items));
  }

  lemma OneFieldMap(key: Bytes, v: Val)
    ensures Enc(VMap([Field(key, v)])) == EncHead(5, 1) + EncKey(key) + Enc(v)
  {
    var fs := [Field(key, v)];
    assert fs[1..] == [] && EncFields(fs) == EncKey(key) + Enc(v) + EncFields(fs[1..]);
    assert EncFields(fs) == EncKey(key) + Enc(v);
    Assoc(EncHead(5, 1), EncKey(key), Enc(v));
  }

  method ReadTree(bytes: Bytes) returns (r: Option<Tree>)
    ensures r == DecodeTree(bytes)
  {
    var fs := ReadHeader(TreeShape, TreeType, bytes);
    if fs.None? || ParseFile(bytes).payload != [] {
      return None;
    }
    r := TreeOf(Pick(TreeShape.keys, fs.value));
  }
}
