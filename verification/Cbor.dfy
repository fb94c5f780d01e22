/** Deterministic CBOR (section 4.2.1 of RFC 8949), the subset the objects use. */
module Cbor {
  import opened Names

  type Byte = c: char | c as int < 256 witness '\0'

  type Bytes = seq<Byte>

  const U64: nat := 0x1_0000_0000_0000_0000

  function ToByte(n: nat): Byte
    requires n < 256
  {
    n as char
  }

  function Code(b: Byte): nat { b as int }

  // ---- big-endian numbers --------------------------------------------------

  function Pow256(k: nat): nat { if k == 0 then 1 else 256 * Pow256(k - 1) }

  function Be(n: nat, k: nat): (s: Bytes)
    ensures |s| == k
    decreases k
  {
    if k == 0 then [] else Be(n / 256, k - 1) + [ToByte(n % 256)]
  }

  function Unbe(s: Bytes): nat { if s == [] then 0 else 256 * Unbe(s[..|s| - 1]) + Code(s[|s| - 1]) }

  lemma {:induction false} UnbeBe(n: nat, k: nat)
    requires n < Pow256(k)
    ensures Unbe(Be(n, k)) == n
    decreases k
  {
    if k > 0 {
      UnbeBe(n / 256, k - 1);
      assert Be(n, k)[..k - 1] == Be(n / 256, k - 1);
    }
  }

  lemma LastByte(u: nat, c: nat)
    requires c < 256
    ensures (256 * u + c) / 256 == u && (256 * u + c) % 256 == c
  {
  }

  lemma {:induction false} BeUnbe(s: Bytes)
    ensures Be(Unbe(s), |s|) == s && Unbe(s) < Pow256(|s|)
  {
    if s != [] {
      var init := s[..|s| - 1];
      var u, c := Unbe(init), Code(s[|s| - 1]);
      BeUnbe(init);
      LastByte(u, c);
      assert Unbe(s) == 256 * u + c;
      assert Be(Unbe(s), |s|) == Be(u, |init|) + [s[|s| - 1]];
      assert s == init + [s[|s| - 1]];
    }
  }

  // ---- heads: major type and shortest-form argument ------------------------

  /** `u8_len`: the additional-information field. */
  function Ai(n: nat): nat {
    if n < 24 then n else if n <= 0xff then 24 else if n <= 0xffff then 25 else if n <= 0xffff_ffff then 26 else 27
  }

  function Width(ai: nat): nat { if ai == 24 then 1 else if ai == 25 then 2 else if ai == 26 then 4 else 8 }

  /** The least argument allowed to take a form. */
  function Least(ai: nat): nat {
    if ai == 24 then 24 else if ai == 25 then 0x100 else if ai == 26 then 0x1_0000 else 0x1_0000_0000
  }

  function EncHead(major: nat, n: nat): (s: Bytes)
    requires major < 8
    ensures |s| > 0
  {
    [ToByte(32 * major + Ai(n))] + (if Ai(n) < 24 then [] else Be(n, Width(Ai(n))))
  }

  datatype Head = NoHead | Head(major: nat, n: nat, rest: Bytes)

  /** `header` and `take_uint`: no tags, no indefinite lengths, shortest form only. */
  function ParseHead(s: Bytes): (r: Head)
    ensures r.Head? ==> r.major < 8 && |r.rest| < |s|
  {
    if s == [] then NoHead else
    var major, ai := Code(s[0]) / 32, Code(s[0]) % 32;
    if major == 6 then NoHead
    else if ai < 24 then Head(major, ai, s[1..])
    else if ai > 27 || |s| < 1 + Width(ai) then NoHead
    else
      var n := Unbe(s[1..1 + Width(ai)]);
      if n < Least(ai) then NoHead else Head(major, n, s[1 + Width(ai)..])
  }

  lemma PowersOf256()
    ensures Pow256(1) == 0x100 && Pow256(2) == 0x1_0000 && Pow256(4) == 0x1_0000_0000 && Pow256(8) == U64
  {
    assert Pow256(3) == 0x100_0000;
    assert Pow256(5) == 0x100_0000_0000;
    assert Pow256(6) == 0x1_0000_0000_0000;
    assert Pow256(7) == 0x100_0000_0000_0000;
  }

  /** The shortest-form test leaves one form for each argument. */
  lemma OneForm(ai: nat, n: nat)
    requires 24 <= ai <= 27 && Least(ai) <= n < Pow256(Width(ai))
    ensures Ai(n) == ai && n < U64
  {
    PowersOf256();
  }

  lemma FirstByte(b: Byte)
    ensures ToByte(32 * (Code(b) / 32) + Code(b) % 32) == b && Code(b) / 32 < 8
  {
  }

  lemma WideHead(s: Bytes, ai: nat, w: nat)
    requires ParseHead(s).Head? && ai == Code(s[0]) % 32 && ai >= 24 && w == Width(ai)
    ensures var r := ParseHead(s);
      && ai <= 27 && |s| >= 1 + w && r.major == Code(s[0]) / 32 && r.major != 6
      && r.n == Unbe(s[1..1 + w]) && r.n >= Least(ai) && r.rest == s[1 + w..]
  {
  }

  /** Whatever head is read is the one encoding of what it says. */
  lemma HeadSound(s: Bytes)
    requires ParseHead(s).Head?
    ensures var r := ParseHead(s); r.n < U64 && r.major != 6 && s == EncHead(r.major, r.n) + r.rest
  {
    var r := ParseHead(s);
    var ai := Code(s[0]) % 32;
    FirstByte(s[0]);
    if ai >= 24 {
      var w := Width(ai);
      WideHead(s, ai, w);
      BeUnbe(s[1..1 + w]);
      OneForm(ai, r.n);
      assert EncHead(r.major, r.n) == [s[0]] + s[1..1 + w];
      assert s == [s[0]] + s[1..1 + w] + s[1 + w..];
    } else {
      assert s == [s[0]] + s[1..];
    }
  }

  lemma HeadComplete(major: nat, n: nat, rest: Bytes)
    requires major < 8 && major != 6 && n < U64
    ensures ParseHead(EncHead(major, n) + rest) == Head(major, n, rest)
  {
    var s := EncHead(major, n) + rest;
    assert Code(s[0]) / 32 == major && Code(s[0]) % 32 == Ai(n);
    if Ai(n) >= 24 {
      var w := Width(Ai(n));
      PowersOf256();
      UnbeBe(n, w);
      assert s[1..1 + w] == Be(n, w) && s[1 + w..] == rest;
    } else {
      assert s[1..] == rest;
    }
  }

  // ---- text ----------------------------------------------------------------

  predicate Cont(b: Byte, lo: nat, hi: nat) { lo <= Code(b) <= hi }

  /** Well-formed UTF-8 (section 4 of RFC 3629). */
  predicate Utf8(s: Bytes)
    decreases |s|
  {
    if s == [] then true else
    var b := Code(s[0]);
    if b < 0x80 then Utf8(s[1..])
    else if 0xC2 <= b <= 0xDF then |s| >= 2 && Cont(s[1], 0x80, 0xBF) && Utf8(s[2..])
    else if 0xE0 <= b <= 0xEF then
      && |s| >= 3 && Cont(s[1], if b == 0xE0 then 0xA0 else 0x80, if b == 0xED then 0x9F else 0xBF)
      && Cont(s[2], 0x80, 0xBF) && Utf8(s[3..])
    else
      && 0xF0 <= b <= 0xF4 && |s| >= 4
      && Cont(s[1], if b == 0xF0 then 0x90 else 0x80, if b == 0xF4 then 0x8F else 0xBF)
      && Cont(s[2], 0x80, 0xBF) && Cont(s[3], 0x80, 0xBF) && Utf8(s[4..])
  }

  // ---- values and the shapes the decoders expect ---------------------------

  datatype Val =
    | VUint(n: nat) | VBool(b: bool) | VBytes(bytes: Bytes) | VText(text: Bytes) | VNull
    | VArray(items: seq<Val>) | VMap(fields: seq<Field>)

  datatype Field = Field(key: Bytes, val: Val)

  datatype Shape =
    | SUint(lo: nat, hi: nat) | SBool | SBytes(len: nat) | SOptBytes(len: nat) | SText
    | SArray(of: Shape, max: nat) | SMap(keys: seq<KeyShape>)

  /** A known key; the nameless key stands for any object id in hex. */
  datatype KeyShape = KeyShape(key: Bytes, shape: Shape)

  predicate LowerHex(b: Byte) { 48 <= Code(b) <= 57 || 97 <= Code(b) <= 102 }

  predicate IdKey(key: Bytes) { |key| == 64 && forall i :: 0 <= i < 64 ==> LowerHex(key[i]) }

  predicate NamesKey(k: KeyShape, key: Bytes) { if k.key == [] then IdKey(key) else k.key == key }

  function Enc(v: Val): (s: Bytes)
    ensures |s| > 0
  {
    match v
    case VUint(n) => EncHead(0, n)
    case VBool(b) => [ToByte(if b then 0xf5 else 0xf4)]
    case VNull => [ToByte(0xf6)]
    case VBytes(bytes) => EncHead(2, |bytes|) + bytes
    case VText(text) => EncHead(3, |text|) + text
    case VArray(items) => EncHead(4, |items|) + EncItems(items)
    case VMap(fields) => EncHead(5, |fields|) + EncFields(fields)
  }

  function EncItems(items: seq<Val>): (s: Bytes)
    ensures |s| >= |items|
  {
    if items == [] then [] else Enc(items[0]) + EncItems(items[1..])
  }

  function EncFields(fields: seq<Field>): (s: Bytes)
    ensures |s| >= 2 * |fields|
  {
    if fields == [] then [] else EncKey(fields[0].key) + Enc(fields[0].val) + EncFields(fields[1..])
  }

  function EncKey(key: Bytes): (s: Bytes)
    ensures |s| > 0
  {
    EncHead(3, |key|) + key
  }

  function ShapeOf(keys: seq<KeyShape>, key: Bytes): (r: Option<Shape>)
    ensures r.Some? ==> exists i :: 0 <= i < |keys| && keys[i].shape == r.value && NamesKey(keys[i], key)
  {
    if keys == [] then None else if NamesKey(keys[0], key) then Some(keys[0].shape) else
    var r := ShapeOf(keys[1..], key);
    assert r.Some? ==> exists i :: 0 <= i < |keys[1..]| && keys[1..][i] == keys[i + 1] && keys[i + 1].shape == r.value && NamesKey(keys[i + 1], key);
    r
  }

  /** A value of the expected shape, within the format's limits. */
  predicate Fits(shape: Shape, v: Val)
    decreases shape, 1, 0
  {
    match shape
    case SUint(lo, hi) => v.VUint? && lo <= v.n <= hi && v.n < U64
    case SBool => v.VBool?
    case SBytes(len) => v.VBytes? && |v.bytes| == len && len < U64
    case SOptBytes(len) => v.VNull? || (v.VBytes? && |v.bytes| == len && len < U64)
    case SText => v.VText? && Utf8(v.text) && |v.text| < U64
    case SArray(of, max) => v.VArray? && |v.items| <= max && |v.items| < U64 && FitsItems(shape, v.items)
    case SMap(_) => v.VMap? && |v.fields| < U64 && FitsFields(shape, [], v.fields)
  }

  predicate FitsItems(shape: Shape, items: seq<Val>)
    requires shape.SArray?
    decreases shape, 0, |items|
  {
    items == [] || (Fits(shape.of, items[0]) && FitsItems(shape, items[1..]))
  }

  /** Keys known, strictly increasing in their encoded form, values of their shape. */
  predicate FitsFields(shape: Shape, last: Bytes, fields: seq<Field>)
    requires shape.SMap?
    decreases shape, 0, |fields|
  {
    fields == [] || (
      var f := fields[0];
      var ks := ShapeOf(shape.keys, f.key);
      && Utf8(f.key) && |f.key| < U64
      && Less(last, EncKey(f.key))
      && ks.Some? && Fits(ks.value, f.val)
      && FitsFields(shape, EncKey(f.key), fields[1..]))
  }

  datatype Parsed<T> = Bad | Got(val: T, rest: Bytes)

  function TakeText(s: Bytes): (r: Parsed<Bytes>)
    ensures r.Got? ==> |r.rest| < |s|
  {
    var head := ParseHead(s);
    if head.NoHead? || head.major != 3 || head.n > |head.rest| || !Utf8(head.rest[..head.n]) then Bad
    else Got(head.rest[..head.n], head.rest[head.n..])
  }

  function TakeBytes(s: Bytes, len: nat): (r: Parsed<Bytes>) {
    var head := ParseHead(s);
    if head.NoHead? || head.major != 2 || head.n > |head.rest| || head.n != len then Bad
    else Got(head.rest[..head.n], head.rest[head.n..])
  }

  /** Reading a value of a given shape from the front of the input. */
  function Parse(shape: Shape, s: Bytes): Parsed<Val>
    decreases shape, 1, 0
  {
    match shape
    case SUint(lo, hi) =>
      var head := ParseHead(s);
      if head.NoHead? || head.major != 0 || !(lo <= head.n <= hi) then Bad else Got(VUint(head.n), head.rest)
    case SBool =>
      if s == [] || (Code(s[0]) != 0xf4 && Code(s[0]) != 0xf5) then Bad else Got(VBool(Code(s[0]) == 0xf5), s[1..])
    case SBytes(len) =>
      var r := TakeBytes(s, len);
      if r.Bad? then Bad else Got(VBytes(r.val), r.rest)
    case SOptBytes(len) =>
      if s != [] && Code(s[0]) == 0xf6 then Got(VNull, s[1..]) else
      var r := TakeBytes(s, len);
      if r.Bad? then Bad else Got(VBytes(r.val), r.rest)
    case SText =>
      var r := TakeText(s);
      if r.Bad? then Bad else Got(VText(r.val), r.rest)
    case SArray(of, max) =>
      var head := ParseHead(s);
      if head.NoHead? || head.major != 4 || head.n > |head.rest| || head.n > max then Bad else
      var r := ParseItems(shape, head.n, head.rest);
      if r.Bad? then Bad else Got(VArray(r.val), r.rest)
    case SMap(_) => ParseMap(shape, ParseHead(s))
  }

  /** The map behind a head; every field takes at least two bytes. */
  function ParseMap(shape: Shape, head: Head): Parsed<Val>
    requires shape.SMap?
    decreases shape, 0, if head.Head? then |head.rest| + 1 else 0
  {
    if head.NoHead? || head.major != 5 || head.n > |head.rest| / 2 then Bad else
    var r := ParseFields(shape, [], head.n, head.rest);
    if r.Bad? then Bad else Got(VMap(r.val), r.rest)
  }

  function ParseItems(shape: Shape, n: nat, s: Bytes): Parsed<seq<Val>>
    requires shape.SArray?
    decreases shape, 0, n
  {
    if n == 0 then Got([], s) else
    var one := Parse(shape.of, s);
    if one.Bad? then Bad else
    var more := ParseItems(shape, n - 1, one.rest);
    if more.Bad? then Bad else Got([one.val] + more.val, more.rest)
  }

  function ParseFields(shape: Shape, last: Bytes, n: nat, s: Bytes): Parsed<seq<Field>>
    requires shape.SMap?
    decreases shape, 0, n
  {
    if n == 0 then Got([], s) else
    var key := TakeText(s);
    if key.Bad? || !Less(last, EncKey(key.val)) then Bad else
    var ks := ShapeOf(shape.keys, key.val);
    if ks.None? then Bad else
    var val := Parse(ks.value, key.rest);
    if val.Bad? then Bad else
    var more := ParseFields(shape, EncKey(key.val), n - 1, val.rest);
    if more.Bad? then Bad else Got([Field(key.val, val.val)] + more.val, more.rest)
  }

  predicate Reads(shape: Shape, last: Bytes, n: nat, s: Bytes, fields: seq<Field>, rest: Bytes)
    requires shape.SMap?
  {
    ParseFields(shape, last, n, s) == Got(fields, rest)
  }

  predicate ReadsItems(shape: Shape, n: nat, s: Bytes, items: seq<Val>, rest: Bytes)
    requires shape.SArray?
  {
    ParseItems(shape, n, s) == Got(items, rest)
  }

  // ---- read what was written -----------------------------------------------

  lemma Assoc(a: Bytes, b: Bytes, c: Bytes)
    ensures a + b + c == a + (b + c)
  {
  }

  lemma Halves(a: Bytes, b: Bytes)
    ensures (a + b)[..|a|] == a && (a + b)[|a|..] == b
  {
  }

  lemma TextAfterHead(s: Bytes, text: Bytes, rest: Bytes)
    requires ParseHead(s) == Head(3, |text|, text + rest) && Utf8(text)
    ensures TakeText(s) == Got(text, rest)
  {
    Halves(text, rest);
  }

  lemma TextComplete(text: Bytes, rest: Bytes)
    requires Utf8(text) && |text| < U64
    ensures TakeText(EncKey(text) + rest) == Got(text, rest)
  {
    var head := EncHead(3, |text|);
    Assoc(head, text, rest);
    HeadComplete(3, |text|, text + rest);
    TextAfterHead(head + (text + rest), text, rest);
  }

  lemma BytesAfterHead(s: Bytes, bytes: Bytes, rest: Bytes)
    requires ParseHead(s) == Head(2, |bytes|, bytes + rest)
    ensures TakeBytes(s, |bytes|) == Got(bytes, rest)
  {
    Halves(bytes, rest);
  }

  lemma BytesComplete(bytes: Bytes, rest: Bytes)
    requires |bytes| < U64
    ensures TakeBytes(Enc(VBytes(bytes)) + rest, |bytes|) == Got(bytes, rest)
  {
    var head := EncHead(2, |bytes|);
    Assoc(head, bytes, rest);
    HeadComplete(2, |bytes|, bytes + rest);
    BytesAfterHead(head + (bytes + rest), bytes, rest);
  }

  lemma OptComplete(len: nat, v: Val, rest: Bytes)
    requires Fits(SOptBytes(len), v)
    ensures Parse(SOptBytes(len), Enc(v) + rest) == Got(v, rest)
  {
    if v.VNull? {
      assert (Enc(v) + rest)[1..] == rest;
    } else {
      BytesComplete(v.bytes, rest);
      HeadByte(2, |v.bytes|);
      assert (Enc(v) + rest)[0] == EncHead(2, |v.bytes|)[0];
    }
  }

  lemma HeadByte(major: nat, n: nat)
    requires major < 7
    ensures Code(EncHead(major, n)[0]) < 0xe0
  {
  }

  lemma BoolComplete(b: bool, rest: Bytes)
    ensures Parse(SBool, Enc(VBool(b)) + rest) == Got(VBool(b), rest)
  {
    assert (Enc(VBool(b)) + rest)[1..] == rest;
  }

  lemma {:induction false} Complete(shape: Shape, v: Val, rest: Bytes)
    requires Fits(shape, v)
    ensures Parse(shape, Enc(v) + rest) == Got(v, rest)
    decreases shape, 1, 0
  {
    match shape
    case SUint(_, _) => HeadComplete(0, v.n, rest);
    case SBool => BoolComplete(v.b, rest);
    case SBytes(_) => BytesComplete(v.bytes, rest);
    case SOptBytes(len) => OptComplete(len, v, rest);
    case SText => TextComplete(v.text, rest);
    case SArray(_, _) =>
      ItemsComplete(shape, |v.items|, v.items, rest);
      ArrayComplete(shape, v.items, rest);
    case SMap(_) =>
      FieldsComplete(shape, [], |v.fields|, v.fields, rest);
      MapComplete(shape, v.fields, rest);
  }

  lemma ArrayComplete(shape: Shape, items: seq<Val>, rest: Bytes)
    requires shape.SArray? && |items| <= shape.max && |items| < U64
    requires ReadsItems(shape, |items|, EncItems(items) + rest, items, rest)
    ensures Parse(shape, Enc(VArray(items)) + rest) == Got(VArray(items), rest)
  {
    var head, body := EncHead(4, |items|), EncItems(items);
    Assoc(head, body, rest);
    HeadComplete(4, |items|, body + rest);
  }

  lemma MapComplete(shape: Shape, fields: seq<Field>, rest: Bytes)
    requires shape.SMap? && |fields| < U64
    requires Reads(shape, [], |fields|, EncFields(fields) + rest, fields, rest)
    ensures Parse(shape, Enc(VMap(fields)) + rest) == Got(VMap(fields), rest)
  {
    var head, body := EncHead(5, |fields|), EncFields(fields);
    Assoc(head, body, rest);
    HeadComplete(5, |fields|, body + rest);
    var s := head + (body + rest);
    assert Enc(VMap(fields)) + rest == s;
    MapAfterHead(shape, s, fields, body + rest, rest);
  }

  lemma MapAfterHead(shape: Shape, s: Bytes, fields: seq<Field>, body: Bytes, rest: Bytes)
    requires shape.SMap? && ParseHead(s) == Head(5, |fields|, body) && |body| >= 2 * |fields|
    requires ParseFields(shape, [], |fields|, body) == Got(fields, rest)
    ensures Parse(shape, s) == Got(VMap(fields), rest)
  {
    var head := ParseHead(s);
    ParseIsMap(shape, s, head);
    MapOfFields(shape, |fields|, body, fields, rest);
  }

  lemma ParseIsMap(shape: Shape, s: Bytes, head: Head)
    requires shape.SMap? && head == ParseHead(s)
    ensures Parse(shape, s) == ParseMap(shape, head)
  {
  }

  lemma MapOfFields(shape: Shape, n: nat, body: Bytes, fields: seq<Field>, rest: Bytes)
    requires shape.SMap? && |body| >= 2 * n && ParseFields(shape, [], n, body) == Got(fields, rest)
    ensures ParseMap(shape, Head(5, n, body)) == Got(VMap(fields), rest)
  {
  }

  lemma {:induction false} ItemsComplete(shape: Shape, n: nat, items: seq<Val>, rest: Bytes)
    requires shape.SArray? && FitsItems(shape, items) && n == |items|
    ensures ReadsItems(shape, n, EncItems(items) + rest, items, rest)
    decreases shape, 0, n
  {
    if n == 0 {
      assert EncItems(items) + rest == rest;
    } else {
      var m, one, more := n - 1, Enc(items[0]), EncItems(items[1..]);
      ItemsComplete(shape, m, items[1..], rest);
      Complete(shape.of, items[0], more + rest);
      Assoc(one, more, rest);
      ItemStep(shape, m, items, one + (more + rest), rest, more + rest);
    }
  }

  lemma ItemStep(shape: Shape, m: nat, items: seq<Val>, s: Bytes, rest: Bytes, after: Bytes)
    requires shape.SArray? && items != [] && Parse(shape.of, s) == Got(items[0], after)
    requires ReadsItems(shape, m, after, items[1..], rest)
    ensures ReadsItems(shape, m + 1, s, items, rest)
  {
    assert items == [items[0]] + items[1..];
  }

  /** One field read off the front, the others already known to read back. */
  lemma FieldStep(shape: Shape, last: Bytes, m: nat, fields: seq<Field>, s: Bytes, rest: Bytes, afterKey: Bytes, afterVal: Bytes)
    requires shape.SMap? && fields != [] && ShapeOf(shape.keys, fields[0].key).Some?
    requires Less(last, EncKey(fields[0].key))
    requires TakeText(s) == Got(fields[0].key, afterKey)
    requires Parse(ShapeOf(shape.keys, fields[0].key).value, afterKey) == Got(fields[0].val, afterVal)
    requires Reads(shape, EncKey(fields[0].key), m, afterVal, fields[1..], rest)
    ensures Reads(shape, last, m + 1, s, fields, rest)
  {
    var f := fields[0];
    FieldFirst(shape, last, m, s, f.key, ShapeOf(shape.keys, f.key).value, f.val, afterKey, afterVal, fields[1..], rest);
    assert fields == [Field(f.key, f.val)] + fields[1..];
  }

  lemma FieldFirst(shape: Shape, last: Bytes, m: nat, s: Bytes, key: Bytes, ks: Shape, val: Val, afterKey: Bytes,
                   afterVal: Bytes, more: seq<Field>, rest: Bytes)
    requires shape.SMap? && ShapeOf(shape.keys, key) == Some(ks) && Less(last, EncKey(key))
    requires TakeText(s) == Got(key, afterKey) && Parse(ks, afterKey) == Got(val, afterVal)
    requires Reads(shape, EncKey(key), m, afterVal, more, rest)
    ensures Reads(shape, last, m + 1, s, [Field(key, val)] + more, rest)
  {
  }

  lemma SplitField(f: Field, more: Bytes, rest: Bytes)
    ensures EncKey(f.key) + Enc(f.val) + more + rest == EncKey(f.key) + (Enc(f.val) + (more + rest))
  {
    var k, v := EncKey(f.key), Enc(f.val);
    Assoc(k + v, more, rest);
    Assoc(k, v, more + rest);
  }

  lemma {:induction false} FieldsComplete(shape: Shape, last: Bytes, n: nat, fields: seq<Field>, rest: Bytes)
    requires shape.SMap? && FitsFields(shape, last, fields) && n == |fields|
    ensures Reads(shape, last, n, EncFields(fields) + rest, fields, rest)
    decreases shape, 0, n
  {
    if n == 0 {
      assert EncFields(fields) + rest == rest;
    } else {
      var m, f, more := n - 1, fields[0], EncFields(fields[1..]);
      FieldsComplete(shape, EncKey(f.key), m, fields[1..], rest);
      FieldFront(shape, f, more + rest);
      SplitField(f, more, rest);
      FieldStep(shape, last, m, fields, EncKey(f.key) + (Enc(f.val) + (more + rest)), rest, Enc(f.val) + (more + rest), more + rest);
    }
  }

  lemma {:induction false} FieldFront(shape: Shape, f: Field, after: Bytes)
    requires shape.SMap? && Utf8(f.key) && |f.key| < U64
    requires ShapeOf(shape.keys, f.key).Some? && Fits(ShapeOf(shape.keys, f.key).value, f.val)
    ensures TakeText(EncKey(f.key) + (Enc(f.val) + after)) == Got(f.key, Enc(f.val) + after)
    ensures Parse(ShapeOf(shape.keys, f.key).value, Enc(f.val) + after) == Got(f.val, after)
    decreases shape, 0, 0
  {
    TextComplete(f.key, Enc(f.val) + after);
    Complete(ShapeOf(shape.keys, f.key).value, f.val, after);
  }

  // ---- nothing else reads as that value ------------------------------------

  lemma TextSound(s: Bytes)
    requires TakeText(s).Got?
    ensures var r := TakeText(s); Utf8(r.val) && |r.val| < U64 && s == EncKey(r.val) + r.rest
  {
    HeadSound(s);
    var head := ParseHead(s);
    var text, rest := head.rest[..head.n], head.rest[head.n..];
    assert head.rest == text + rest;
    Assoc(EncHead(3, head.n), text, rest);
  }

  lemma BytesSound(s: Bytes, len: nat)
    requires TakeBytes(s, len).Got?
    ensures var r := TakeBytes(s, len); |r.val| == len < U64 && s == EncHead(2, len) + r.val + r.rest
  {
    HeadSound(s);
    var head := ParseHead(s);
    var bytes, rest := head.rest[..head.n], head.rest[head.n..];
    assert head.rest == bytes + rest;
    Assoc(EncHead(2, head.n), bytes, rest);
  }

  lemma {:induction false} ParseSound(shape: Shape, s: Bytes)
    requires Parse(shape, s).Got?
    ensures Fits(shape, Parse(shape, s).val) && s == Enc(Parse(shape, s).val) + Parse(shape, s).rest
    decreases shape, 1, 0
  {
    match shape
    case SUint(_, _) => HeadSound(s);
    case SBool => assert s == [s[0]] + s[1..];
    case SBytes(len) => BytesSound(s, len);
    case SOptBytes(len) => OptSound(len, s);
    case SText => TextSound(s);
    case SArray(_, _) =>
      ItemsSound(shape, ParseHead(s).n, ParseHead(s).rest);
      ArraySound(shape, s);
    case SMap(_) =>
      var head := ParseHead(s);
      var r := ParseFields(shape, [], head.n, head.rest);
      FieldsSound(shape, [], head.n, head.rest, r.val, r.rest);
      MapSound(shape, s);
  }

  lemma OptSound(len: nat, s: Bytes)
    requires Parse(SOptBytes(len), s).Got?
    ensures var r := Parse(SOptBytes(len), s); Fits(SOptBytes(len), r.val) && s == Enc(r.val) + r.rest
  {
    if s != [] && Code(s[0]) == 0xf6 {
      assert s == [s[0]] + s[1..];
    } else {
      BytesSound(s, len);
    }
  }

  lemma ArraySound(shape: Shape, s: Bytes)
    requires shape.SArray? && Parse(shape, s).Got?
    requires var head := ParseHead(s); var r := ParseItems(shape, head.n, head.rest);
      |r.val| == head.n && FitsItems(shape, r.val) && head.rest == EncItems(r.val) + r.rest
    ensures Fits(shape, Parse(shape, s).val) && s == Enc(Parse(shape, s).val) + Parse(shape, s).rest
  {
    HeadSound(s);
    var head := ParseHead(s);
    var r := ParseItems(shape, head.n, head.rest);
    Assoc(EncHead(4, head.n), EncItems(r.val), r.rest);
  }

  lemma MapSound(shape: Shape, s: Bytes)
    requires shape.SMap? && Parse(shape, s).Got? && ParseMap(shape, ParseHead(s)).Got?
    requires var head := ParseHead(s); var r := ParseFields(shape, [], head.n, head.rest);
      |r.val| == head.n && FitsFields(shape, [], r.val) && head.rest == EncFields(r.val) + r.rest
    ensures Fits(shape, Parse(shape, s).val) && s == Enc(Parse(shape, s).val) + Parse(shape, s).rest
  {
    HeadSound(s);
    var head := ParseHead(s);
    var r := ParseFields(shape, [], head.n, head.rest);
    Assoc(EncHead(5, head.n), EncFields(r.val), r.rest);
  }

  lemma {:induction false} ItemsSound(shape: Shape, n: nat, s: Bytes)
    requires shape.SArray? && ParseItems(shape, n, s).Got?
    ensures var r := ParseItems(shape, n, s); |r.val| == n && FitsItems(shape, r.val) && s == EncItems(r.val) + r.rest
    decreases shape, 0, n
  {
    if n > 0 {
      var one := Parse(shape.of, s);
      ParseSound(shape.of, s);
      ItemsSound(shape, n - 1, one.rest);
      var more := ParseItems(shape, n - 1, one.rest);
      ItemCons(shape, one.val, more.val, more.rest);
    }
  }

  lemma ItemCons(shape: Shape, v: Val, items: seq<Val>, rest: Bytes)
    requires shape.SArray? && Fits(shape.of, v) && FitsItems(shape, items)
    ensures FitsItems(shape, [v] + items) && EncItems([v] + items) + rest == Enc(v) + (EncItems(items) + rest)
  {
    assert ([v] + items)[1..] == items;
    Assoc(Enc(v), EncItems(items), rest);
  }

  lemma FieldCons(shape: Shape, last: Bytes, f: Field, fields: seq<Field>, rest: Bytes)
    requires shape.SMap? && Utf8(f.key) && |f.key| < U64 && Less(last, EncKey(f.key))
    requires ShapeOf(shape.keys, f.key).Some? && Fits(ShapeOf(shape.keys, f.key).value, f.val)
    requires FitsFields(shape, EncKey(f.key), fields)
    ensures FitsFields(shape, last, [f] + fields)
    ensures EncFields([f] + fields) + rest == EncKey(f.key) + (Enc(f.val) + (EncFields(fields) + rest))
  {
    assert ([f] + fields)[1..] == fields;
    SplitField(f, EncFields(fields), rest);
  }

  /** The first field of a successful read, and what is left to read. */
  datatype Step = Step(f: Field, key: Bytes, afterKey: Bytes, afterVal: Bytes, more: seq<Field>, rest: Bytes)

  function FirstStep(shape: Shape, last: Bytes, m: nat, s: Bytes): Step
    requires shape.SMap? && ParseFields(shape, last, m + 1, s).Got?
  {
    var k := TakeText(s);
    var val := Parse(ShapeOf(shape.keys, k.val).value, k.rest);
    var r := ParseFields(shape, EncKey(k.val), m, val.rest);
    Step(Field(k.val, val.val), EncKey(k.val), k.rest, val.rest, r.val, r.rest)
  }

  lemma RestReads(shape: Shape, last: Bytes, m: nat, s: Bytes) returns (st: Step)
    requires shape.SMap? && ParseFields(shape, last, m + 1, s).Got?
    ensures Reads(shape, st.key, m, st.afterVal, st.more, st.rest)
    ensures forall t | t == s :: FirstStep(shape, last, m, t) == st
  {
    st := FirstStep(shape, last, m, s);
  }

  lemma FirstField(shape: Shape, last: Bytes, m: nat, s: Bytes)
    requires shape.SMap? && ParseFields(shape, last, m + 1, s).Got?
    ensures var st := FirstStep(shape, last, m, s);
      && st.key == EncKey(st.f.key) && Less(last, st.key) && TakeText(s) == Got(st.f.key, st.afterKey)
      && ShapeOf(shape.keys, st.f.key).Some?
      && Parse(ShapeOf(shape.keys, st.f.key).value, st.afterKey) == Got(st.f.val, st.afterVal)
      && ParseFields(shape, last, m + 1, s) == Got([st.f] + st.more, st.rest)
  {
  }

  /** The read fields fit, and re-encode to what was read. */
  ghost predicate FieldsRead(shape: Shape, last: Bytes, n: nat, s: Bytes, fields: seq<Field>, rest: Bytes)
    requires shape.SMap?
  {
    |fields| == n && FitsFields(shape, last, fields) && s == EncFields(fields) + rest
  }

  lemma {:induction false} FieldsSound(shape: Shape, last: Bytes, n: nat, s: Bytes, fields: seq<Field>, rest: Bytes)
    requires shape.SMap? && Reads(shape, last, n, s, fields, rest)
    ensures FieldsRead(shape, last, n, s, fields, rest)
    decreases shape, 0, n
  {
    if n > 0 {
      var m := n - 1;
      var st := RestReads(shape, last, m, s);
      FieldsSound(shape, st.key, m, st.afterVal, st.more, st.rest);
      FirstField(shape, last, m, s);
      assert FirstStep(shape, last, m, s) == st;
      KeyAndValue(shape, st.f, s, st.afterKey, st.afterVal);
      FieldRead(shape, last, n, s, st.f, st.afterVal, st.more, st.rest);
    }
  }

  lemma {:induction false} KeyAndValue(shape: Shape, f: Field, s: Bytes, afterKey: Bytes, afterVal: Bytes)
    requires shape.SMap? && TakeText(s) == Got(f.key, afterKey) && ShapeOf(shape.keys, f.key).Some?
    requires Parse(ShapeOf(shape.keys, f.key).value, afterKey) == Got(f.val, afterVal)
    ensures Utf8(f.key) && |f.key| < U64 && Fits(ShapeOf(shape.keys, f.key).value, f.val)
    ensures s == EncKey(f.key) + (Enc(f.val) + afterVal)
    decreases shape, 0, 0
  {
    TextSound(s);
    ParseSound(ShapeOf(shape.keys, f.key).value, afterKey);
  }

  lemma FieldRead(shape: Shape, last: Bytes, n: nat, s: Bytes, f: Field, afterVal: Bytes, more: seq<Field>, rest: Bytes)
    requires shape.SMap? && n > 0 && Utf8(f.key) && |f.key| < U64 && Less(last, EncKey(f.key))
    requires ShapeOf(shape.keys, f.key).Some? && Fits(ShapeOf(shape.keys, f.key).value, f.val)
    requires s == EncKey(f.key) + (Enc(f.val) + afterVal)
    requires FieldsRead(shape, EncKey(f.key), n - 1, afterVal, more, rest)
    ensures FieldsRead(shape, last, n, s, [f] + more, rest)
  {
    FieldCons(shape, last, f, more, rest);
  }
}
