/** The cursor that decoders advance over their input. */
module CborReader {
  import opened Names
  import opened Cbor

  /** Items read so far, then the rest of the loop. */
  function Prepend<T>(done: seq<T>, more: Parsed<seq<T>>): Parsed<seq<T>> {
    if more.Bad? then Bad else Got(done + more.val, more.rest)
  }

  lemma PrependOne<T>(done: seq<T>, x: T, more: Parsed<seq<T>>)
    ensures Prepend(done, Prepend([x], more)) == Prepend(done + [x], more)
  {
    if more.Got? { assert done + ([x] + more.val) == done + [x] + more.val; }
  }

  lemma PrependNone<T>(more: Parsed<seq<T>>)
    ensures Prepend([], more) == more
  {
    if more.Got? { assert [] + more.val == more.val; }
  }

  lemma PrependDone<T>(done: seq<T>, rest: Bytes)
    ensures Prepend(done, Got([], rest)) == Got(done, rest)
  {
    assert done + [] == done;
  }

  /** One turn of the array loop. */
  lemma OneItem(shape: Shape, left: nat, s: Bytes)
    requires shape.SArray?
    ensures var one := Parse(shape.of, s);
      ParseItems(shape, left + 1, s) == if one.Bad? then Bad else Prepend([one.val], ParseItems(shape, left, one.rest))
  {
  }

  /** One turn of the map loop. */
  lemma OneField(shape: Shape, last: Bytes, left: nat, s: Bytes)
    requires shape.SMap?
    ensures var key := TakeText(s);
      key.Bad? || !Less(last, EncKey(key.val)) || ShapeOf(shape.keys, key.val).None? ==>
        ParseFields(shape, last, left + 1, s) == Bad
    ensures var key := TakeText(s);
      key.Got? && Less(last, EncKey(key.val)) && ShapeOf(shape.keys, key.val).Some? ==>
        var val := Parse(ShapeOf(shape.keys, key.val).value, key.rest);
        ParseFields(shape, last, left + 1, s) == if val.Bad? then Bad
          else Prepend([Field(key.val, val.val)], ParseFields(shape, EncKey(key.val), left, val.rest))
  {
  }

  class Reader {
    const buf: Bytes
    var pos: nat

    ghost predicate Valid()
      reads this
    {
      pos <= |buf|
    }

    function Rest(): Bytes
      requires Valid()
      reads this
    {
      buf[pos..]
    }

    constructor (buf: Bytes)
      ensures Valid() && Rest() == buf
    {
      this.buf, pos := buf, 0;
    }

    method Take(n: nat) returns (r: Option<Bytes>)
      requires Valid()
      modifies this
      ensures Valid()
      ensures r.Some? <==> n <= |old(Rest())|
      ensures r.Some? ==> r.value == old(Rest())[..n] && Rest() == old(Rest())[n..]
    {
      if pos + n > |buf| {
        return None;
      }
      r := Some(buf[pos..pos + n]);
      pos := pos + n;
    }

    /** `header` then `take_uint`. */
    method TakeHead() returns (r: Option<(nat, nat)>)
      requires Valid()
      modifies this
      ensures Valid()
      ensures r.Some? <==> ParseHead(old(Rest())).Head?
      ensures r.Some? ==> Head(r.value.0, r.value.1, Rest()) == ParseHead(old(Rest()))
    {
      ghost var s := Rest();
      var first := Take(1);
      if first.None? {
        return None;
      }
      var major, ai := Code(first.value[0]) / 32, Code(first.value[0]) % 32;
      if major == 6 {
        return None;
      }
      if ai < 24 {
        return Some((major, ai));
      }
      if ai > 27 {
        return None;
      }
      var wide := Take(Width(ai));
      if wide.None? {
        return None;
      }
      assert wide.value == s[1..1 + Width(ai)] && Rest() == s[1 + Width(ai)..];
      if Unbe(wide.value) < Least(ai) {
        return None;
      }
      r := Some((major, Unbe(wide.value)));
    }

    method Text() returns (r: Option<Bytes>)
      requires Valid()
      modifies this
      ensures Valid()
      ensures r.Some? <==> TakeText(old(Rest())).Got?
      ensures r.Some? ==> Got(r.value, Rest()) == TakeText(old(Rest()))
    {
      var head := TakeHead();
      if head.None? || head.value.0 != 3 || head.value.1 > |buf| - pos {
        return None;
      }
      r := Take(head.value.1);
      if !Utf8(r.value) {
        return None;
      }
    }

    method FixedBytes(len: nat) returns (r: Option<Bytes>)
      requires Valid()
      modifies this
      ensures Valid()
      ensures r.Some? <==> TakeBytes(old(Rest()), len).Got?
      ensures r.Some? ==> Got(r.value, Rest()) == TakeBytes(old(Rest()), len)
    {
      var head := TakeHead();
      if head.None? || head.value.0 != 2 || head.value.1 > |buf| - pos || head.value.1 != len {
        return None;
      }
      r := Take(len);
    }

    /** Reads exactly what the value-level parser reads, and stops where it stops. */
    method ReadValue(shape: Shape) returns (r: Option<Val>)
      requires Valid()
      modifies this
      ensures Valid()
      ensures r.Some? <==> Parse(shape, old(Rest())).Got?
      ensures r.Some? ==> Got(r.value, Rest()) == Parse(shape, old(Rest()))
      decreases shape, 2
    {
      match shape
      case SArray(_, _) => r := ReadArray(shape);
      case SMap(_) => r := ReadMap(shape);
      case SText =>
        var t := Text();
        r := if t.None? then None else Some(VText(t.value));
      case SBytes(len) =>
        var b := FixedBytes(len);
        r := if b.None? then None else Some(VBytes(b.value));
      case SOptBytes(len) =>
        if pos < |buf| && Code(buf[pos]) == 0xf6 {
          pos := pos + 1;
          return Some(VNull);
        }
        var b := FixedBytes(len);
        r := if b.None? then None else Some(VBytes(b.value));
      case SBool =>
        var b := Take(1);
        if b.None? || (Code(b.value[0]) != 0xf4 && Code(b.value[0]) != 0xf5) {
          return None;
        }
        r := Some(VBool(Code(b.value[0]) == 0xf5));
      case SUint(lo, hi) =>
        var head := TakeHead();
        if head.None? || head.value.0 != 0 || !(lo <= head.value.1 <= hi) {
          return None;
        }
        r := Some(VUint(head.value.1));
    }

    method ReadArray(shape: Shape) returns (r: Option<Val>)
      requires Valid() && shape.SArray?
      modifies this
      ensures Valid()
      ensures r.Some? <==> Parse(shape, old(Rest())).Got?
      ensures r.Some? ==> Got(r.value, Rest()) == Parse(shape, old(Rest()))
      decreases shape, 1
    {
      var head := TakeHead();
      if head.None? || head.value.0 != 4 || head.value.1 > |buf| - pos || head.value.1 > shape.max {
        return None;
      }
      var items := ReadItems(shape, head.value.1);
      r := if items.None? then None else Some(VArray(items.value));
    }

    method ReadItems(shape: Shape, n: nat) returns (r: Option<seq<Val>>)
      requires Valid() && shape.SArray?
      modifies this
      ensures Valid()
      ensures r.Some? <==> ParseItems(shape, n, old(Rest())).Got?
      ensures r.Some? ==> Got(r.value, Rest()) == ParseItems(shape, n, old(Rest()))
      decreases shape, 0
    {
      var items: seq<Val>, left: nat := [], n;
      ghost var whole := ParseItems(shape, left, Rest());
      PrependNone(whole);
      while left > 0
        invariant Valid() && Prepend(items, ParseItems(shape, left, Rest())) == whole
      {
        left := left - 1;
        OneItem(shape, left, Rest());
        var one := ReadValue(shape.of);
        if one.None? {
          return None;
        }
        PrependOne(items, one.value, ParseItems(shape, left, Rest()));
        items := items + [one.value];
      }
      PrependDone(items, Rest());
      r := Some(items);
    }

    method ReadMap(shape: Shape) returns (r: Option<Val>)
      requires Valid() && shape.SMap?
      modifies this
      ensures Valid()
      ensures r.Some? <==> Parse(shape, old(Rest())).Got?
      ensures r.Some? ==> Got(r.value, Rest()) == Parse(shape, old(Rest()))
      decreases shape, 1
    {
      var head := TakeHead();
      if head.None? || head.value.0 != 5 || head.value.1 > (|buf| - pos) / 2 {
        return None;
      }
      var fields := ReadFields(shape, head.value.1);
      r := if fields.None? then None else Some(VMap(fields.value));
    }

    /** The key loop: each key known and above the last one in encoded form. */
    method ReadFields(shape: Shape, n: nat) returns (r: Option<seq<Field>>)
      requires Valid() && shape.SMap?
      modifies this
      ensures Valid()
      ensures r.Some? <==> ParseFields(shape, [], n, old(Rest())).Got?
      ensures r.Some? ==> Got(r.value, Rest()) == ParseFields(shape, [], n, old(Rest()))
      decreases shape, 0
    {
      var fields: seq<Field>, last: Bytes, left: nat := [], [], n;
      ghost var whole := ParseFields(shape, last, left, Rest());
      PrependNone(whole);
      while left > 0
        invariant Valid() && Prepend(fields, ParseFields(shape, last, left, Rest())) == whole
      {
        left := left - 1;
        OneField(shape, last, left, Rest());
        var key := Text();
        if key.None? || !Less(last, EncKey(key.value)) {
          return None;
        }
        var ks := ShapeOf(shape.keys, key.value);
        if ks.None? {
          return None;
        }
        var val := ReadValue(ks.value);
        if val.None? {
          return None;
        }
        last := EncKey(key.value);
        PrependOne(fields, Field(key.value, val.value), ParseFields(shape, last, left, Rest()));
        fields := fields + [Field(key.value, val.value)];
      }
      PrependDone(fields, Rest());
      r := Some(fields);
    }
  }
}
