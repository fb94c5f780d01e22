/** Where a token keeps its parts, and what a signature speaks for. */
module Tokens {
  import opened Names
  import opened Cbor
  import opened Capability

  // ---- layout --------------------------------------------------------------

  /** A two-byte length at `at`, and that many bytes of `field` behind it. */
  predicate FieldAt(raw: Bytes, at: nat, field: Bytes) {
    && at + 2 + |field| <= |raw| && |field| < 0x1_0000
    && 256 * Code(raw[at]) + Code(raw[at + 1]) == |field| && raw[at + 2..at + 2 + |field|] == field
  }

  lemma U16Bytes(f: Bytes)
    requires |f| < 0x1_0000
    ensures |U16(f)| == |f| + 2 && 256 * Code(U16(f)[0]) + Code(U16(f)[1]) == |f| && U16(f)[2..] == f
  {
    assert Be(|f|, 2) == Be(|f| / 256, 1) + [ToByte(|f| % 256)];
    assert Be(|f| / 256, 1) == Be(|f| / 256 / 256, 0) + [ToByte(|f| / 256 % 256)];
  }

  lemma FieldHere(raw: Bytes, at: nat, f: Bytes, rest: Bytes)
    requires |f| < 0x1_0000 && at <= |raw| && raw[at..] == U16(f) + rest
    ensures FieldAt(raw, at, f) && raw[at + 2 + |f|..] == rest
  {
    U16Bytes(f);
    var tail := raw[at..];
    assert raw[at] == tail[0] && raw[at + 1] == tail[1];
    assert raw[at + 2..at + 2 + |f|] == tail[2..2 + |f|] && raw[at + 2 + |f|..] == tail[2 + |f|..];
  }

  /** Where the caveats from position `at` lie, one behind the other. */
  predicate CaveatsAt(raw: Bytes, at: nat, cs: seq<Bytes>, end: nat)
    decreases |cs|
  {
    if cs == [] then at == end else FieldAt(raw, at, cs[0]) && CaveatsAt(raw, at + 2 + |cs[0]|, cs[1..], end)
  }

  lemma {:induction false} CaveatsHere(raw: Bytes, at: nat, cs: seq<Bytes>, sig: Bytes)
    requires FieldsOk(cs) && at <= |raw| && raw[at..] == CaveatBytes(cs) + sig
    ensures |sig| <= |raw| && CaveatsAt(raw, at, cs, |raw| - |sig|) && raw[|raw| - |sig|..] == sig
    decreases |cs|
  {
    if cs == [] {
      assert CaveatBytes(cs) + sig == sig;
    } else {
      Assoc(U16(cs[0]), CaveatBytes(cs[1..]), sig);
      FieldHere(raw, at, cs[0], CaveatBytes(cs[1..]) + sig);
      CaveatsHere(raw, at + 2 + |cs[0]|, cs[1..], sig);
    }
  }

  /** Magic and version, location, identifier, caveats in order, signature. */
  predicate LaidOut(raw: Bytes, cap: Cap) {
    var at := 7 + |cap.loc|;
    var caveats := at + 2 + |cap.id|;
    && |raw| > 32 && raw[..4] == "FMAC" && Code(raw[4]) == 1
    && FieldAt(raw, 5, cap.loc) && FieldAt(raw, at, cap.id)
    && CaveatsAt(raw, caveats, cap.caveats, |raw| - 32) && raw[|raw| - 32..] == cap.sig
  }

  lemma MagicBytes(raw: Bytes, rest: Bytes)
    requires raw == Magic() + rest
    ensures |raw| >= 5 && raw[..4] == "FMAC" && Code(raw[4]) == 1 && raw[5..] == rest
  {
    var m := Magic();
    assert m[..4] == "FMAC" && raw[..4] == m[..4] && raw[4] == m[4];
  }

  lemma TokenLayout(cap: Cap)
    requires WfCap(cap)
    ensures LaidOut(EncodeCap(cap), cap)
  {
    Layout(cap);
    PartsLaidOut(EncodeCap(cap), cap, U16(cap.id) + (CaveatBytes(cap.caveats) + cap.sig), CaveatBytes(cap.caveats) + cap.sig);
  }

  lemma PartsLaidOut(raw: Bytes, cap: Cap, rest: Bytes, tail: Bytes)
    requires FieldOk(cap.loc) && FieldOk(cap.id) && FieldsOk(cap.caveats) && |cap.sig| == 32
    requires raw == Magic() + (U16(cap.loc) + rest) && rest == U16(cap.id) + tail && tail == CaveatBytes(cap.caveats) + cap.sig
    ensures LaidOut(raw, cap)
  {
    MagicBytes(raw, U16(cap.loc) + rest);
    TwoHere(raw, cap.loc, cap.id, rest, tail);
    TailHere(raw, 9 + |cap.loc| + |cap.id|, cap.caveats, cap.sig, tail);
  }

  lemma TwoHere(raw: Bytes, loc: Bytes, id: Bytes, rest: Bytes, tail: Bytes)
    requires FieldOk(loc) && FieldOk(id) && |raw| >= 5 && raw[5..] == U16(loc) + rest && rest == U16(id) + tail
    ensures FieldAt(raw, 5, loc) && FieldAt(raw, 7 + |loc|, id)
    ensures 9 + |loc| + |id| <= |raw| && raw[9 + |loc| + |id|..] == tail
  {
    FieldHere(raw, 5, loc, rest);
    FieldHere(raw, 7 + |loc|, id, tail);
  }

  lemma TailHere(raw: Bytes, at: nat, cs: seq<Bytes>, sig: Bytes, tail: Bytes)
    requires FieldsOk(cs) && |sig| == 32 && tail == CaveatBytes(cs) + sig && at <= |raw| && raw[at..] == tail && at > 0
    ensures |raw| > 32 && CaveatsAt(raw, at, cs, |raw| - 32) && raw[|raw| - 32..] == sig
  {
    CaveatsHere(raw, at, cs, sig);
    assert |raw| == at + |tail|;
  }

  // ---- what a signature speaks for -----------------------------------------

  /** An ideal MAC: no two inputs, and no two keys, give one output. */
  ghost predicate Ideal(h: Mac) { forall k, m, l, n :: h(k, m) == h(l, n) ==> k == l && m == n }

  /** The root secret is not itself something the MAC gives. */
  ghost predicate Secret(h: Mac, root: Bytes) { forall k, m :: h(k, m) != root }

  lemma U16Injective(f: Bytes, x: Bytes, g: Bytes, y: Bytes)
    requires |f| < 0x1_0000 && |g| < 0x1_0000 && U16(f) + x == U16(g) + y
    ensures f == g && x == y
  {
    var s := U16(f) + x;
    assert s[0..] == s;
    FieldHere(s, 0, f, x);
    FieldHere(s, 0, g, y);
  }

  lemma PrefixInjective(loc: Bytes, id: Bytes, loc': Bytes, id': Bytes)
    requires |loc| < 0x1_0000 && |id| < 0x1_0000 && |loc'| < 0x1_0000 && |id'| < 0x1_0000
    requires PrefixBytes(loc, id) == PrefixBytes(loc', id')
    ensures loc == loc' && id == id'
  {
    var m, s := Magic(), PrefixBytes(loc, id);
    Assoc(m, U16(loc), U16(id));
    Assoc(m, U16(loc'), U16(id'));
    assert s[|m|..] == U16(loc) + U16(id);
    assert PrefixBytes(loc', id')[|m|..] == U16(loc') + U16(id');
    U16Injective(loc, U16(id), loc', U16(id'));
    assert U16(id) + [] == U16(id') + [];
    U16Injective(id, [], id', []);
  }

  lemma ExtendIsOutput(h: Mac, root: Bytes, m: Bytes, cs: seq<Bytes>) returns (k: Bytes, n: Bytes)
    ensures Extend(h, h(root, m), cs) == h(k, n)
  {
    if cs == [] {
      k, n := root, m;
    } else {
      k, n := Extend(h, h(root, m), cs[..|cs| - 1]), U16(cs[|cs| - 1]);
    }
  }

  /** A chain with caveats is not one without. */
  lemma NotBare(h: Mac, root: Bytes, m: Bytes, n: Bytes, cs: seq<Bytes>)
    requires Ideal(h) && Secret(h, root) && cs != []
    ensures Extend(h, h(root, m), cs) != h(root, n)
  {
    var init := Extend(h, h(root, m), cs[..|cs| - 1]);
    var k, x := ExtendIsOutput(h, root, m, cs[..|cs| - 1]);
    assert init != root;
  }

  /** Equal chains end in the same caveat, after equal chains. */
  lemma LastCaveat(h: Mac, s: Bytes, cs: seq<Bytes>, t: Bytes, cs': seq<Bytes>)
    requires Ideal(h) && cs != [] && cs' != [] && FieldsOk(cs) && FieldsOk(cs') && Extend(h, s, cs) == Extend(h, t, cs')
    ensures cs[|cs| - 1] == cs'[|cs'| - 1] && Extend(h, s, cs[..|cs| - 1]) == Extend(h, t, cs'[..|cs'| - 1])
  {
    var c, d := cs[|cs| - 1], cs'[|cs'| - 1];
    assert h(Extend(h, s, cs[..|cs| - 1]), U16(c)) == h(Extend(h, t, cs'[..|cs'| - 1]), U16(d));
    assert U16(c) + [] == U16(d) + [];
    U16Injective(c, [], d, []);
  }

  lemma SameByParts(xs: seq<Bytes>, ys: seq<Bytes>)
    requires xs != [] && ys != [] && xs[..|xs| - 1] == ys[..|ys| - 1] && xs[|xs| - 1] == ys[|ys| - 1]
    ensures xs == ys
  {
    assert xs == xs[..|xs| - 1] + [xs[|xs| - 1]] && ys == ys[..|ys| - 1] + [ys[|ys| - 1]];
  }

  /** A chain signature under one root is that of one location, one identifier and one
      caveat list: none can be changed, dropped, added or moved. */
  lemma {:induction false} SignatureSpeaksForOne(h: Mac, root: Bytes, loc: Bytes, id: Bytes, cs: seq<Bytes>,
                                                 loc': Bytes, id': Bytes, cs': seq<Bytes>)
    requires Ideal(h) && Secret(h, root) && FieldsOk(cs) && FieldsOk(cs')
    requires |loc| < 0x1_0000 && |id| < 0x1_0000 && |loc'| < 0x1_0000 && |id'| < 0x1_0000
    requires ChainSig(h, root, loc, id, cs) == ChainSig(h, root, loc', id', cs')
    ensures loc == loc' && id == id' && cs == cs'
    decreases |cs|
  {
    var m, n := PrefixBytes(loc, id), PrefixBytes(loc', id');
    if cs == [] {
      if cs' != [] { NotBare(h, root, n, m, cs'); }
      PrefixInjective(loc, id, loc', id');
    } else {
      if cs' == [] { NotBare(h, root, m, n, cs); }
      var init, init' := cs[..|cs| - 1], cs'[..|cs'| - 1];
      LastCaveat(h, h(root, m), cs, h(root, n), cs');
      SignatureSpeaksForOne(h, root, loc, id, init, loc', id', init');
      SameByParts(cs, cs');
    }
  }
}
