/** Capabilities: caveats only ever narrow, holders extend without the root secret. */
module Capability {
  import opened Names
  import opened Cbor

  const MAX_TOKEN_BYTES: nat := 65_536
  const MAX_CAVEATS: nat := 256
  const MAX_FIELD_BYTES: nat := 65_535

  datatype Op = Read | Write | Branch | MergeOp | Grant | Seal

  // ---- reading one caveat --------------------------------------------------

  datatype Caveat =
    | OpsCaveat(ops: set<Op>) | AllowCaveat(op: Op, refs: seq<Bytes>) | NotCaveat(refs: seq<Bytes>)
    | RefCaveat(refs: seq<Bytes>) | TimeCaveat(until: nat) | AgentCaveat(name: Bytes)

  function ParseOp(s: Bytes): Option<Op> {
    if s == "read" then Some(Read) else if s == "write" then Some(Write) else if s == "branch" then Some(Branch)
    else if s == "merge" then Some(MergeOp) else if s == "grant" then Some(Grant) else if s == "seal" then Some(Seal)
    else None
  }

  predicate Space(b: Byte) { b == ' ' || 9 <= Code(b) <= 13 }

  function Trim(s: Bytes): Bytes
    decreases |s|
  {
    if s == [] then [] else if Space(s[0]) then Trim(s[1..]) else if Space(s[|s| - 1]) then Trim(s[..|s| - 1]) else s
  }

  function Split(s: Bytes, at: Byte): (r: seq<Bytes>)
    ensures |r| > 0
  {
    if s == [] then [[]] else
    var more := Split(s[1..], at);
    if s[0] == at then [[]] + more else [[s[0]] + more[0]] + more[1..]
  }

  /** The trimmed, non-empty items of a comma list. */
  function Items(parts: seq<Bytes>): seq<Bytes> {
    if parts == [] then [] else
    var p := Trim(parts[0]);
    (if p == [] then [] else [p]) + Items(parts[1..])
  }

  function ParseOps(items: seq<Bytes>): Option<set<Op>> {
    if items == [] then Some({}) else
    var one, more := ParseOp(items[0]), ParseOps(items[1..]);
    if one.None? || more.None? then None else Some({one.value} + more.value)
  }

  function Digits(s: Bytes): Option<nat> {
    if s == [] then Some(0) else
    var init := Digits(s[..|s| - 1]);
    var d := Code(s[|s| - 1]);
    if init.None? || !(48 <= d <= 57) then None else Some(10 * init.value + d - 48)
  }

  function ParseU64(s: Bytes): Option<nat> {
    var digits := if s != [] && s[0] == '+' then s[1..] else s;
    var n := Digits(digits);
    if digits == [] || n.None? || n.value >= U64 then None else n
  }

  function IndexOf(s: Bytes, b: Byte): Option<nat> {
    if s == [] then None else if s[0] == b then Some(0) else
    var r := IndexOf(s[1..], b);
    if r.None? then None else Some(r.value + 1)
  }

  function ParseAllow(rest: Bytes): Option<Caveat> {
    var at := IndexOf(rest, ':');
    if at.None? || at.value >= |rest| then None else
    var op, refs := ParseOp(Trim(rest[..at.value])), Items(Split(rest[at.value + 1..], ','));
    if op.None? || refs == [] then None else Some(AllowCaveat(op.value, refs))
  }

  function ParseCaveat(c: Bytes): Option<Caveat> {
    if |c| > MAX_FIELD_BYTES then None
    else if "ops=" <= c then
      var ops := ParseOps(Items(Split(c[4..], ',')));
      if ops.None? then None else Some(OpsCaveat(ops.value))
    else if "allow=" <= c then ParseAllow(c[6..])
    else if "ref!=" <= c then
      var refs := Items(Split(c[5..], ','));
      if refs == [] then None else Some(NotCaveat(refs))
    else if "ref=" <= c then
      var refs := Items(Split(c[4..], ','));
      if refs == [] then None else Some(RefCaveat(refs))
    else if "time<=" <= c then
      var t := ParseU64(c[6..]);
      if t.None? then None else Some(TimeCaveat(t.value))
    else if "agent=" <= c then (if c[6..] == [] then None else Some(AgentCaveat(c[6..])))
    else None
  }

  // ---- the authority caveats leave -----------------------------------------

  datatype Auth = Auth(ops: Option<set<Op>>, refSets: seq<seq<Bytes>>, opRefSets: map<Op, seq<seq<Bytes>>>,
                       refNot: seq<Bytes>, timeLe: Option<nat>, agent: Option<Bytes>, conflict: bool)

  const Unrestricted: Auth := Auth(None, [], map[], [], None, None, false)

  function OpSets(a: Auth, op: Op): seq<seq<Bytes>> { if op in a.opRefSets then a.opRefSets[op] else [] }

  function Restrict(a: Auth, c: Caveat): Auth {
    match c
    case OpsCaveat(ops) => a.(ops := Some(if a.ops.Some? then a.ops.value * ops else ops))
    case AllowCaveat(op, refs) => a.(opRefSets := a.opRefSets[op := OpSets(a, op) + [refs]])
    case NotCaveat(refs) => a.(refNot := a.refNot + refs)
    case RefCaveat(refs) => a.(refSets := a.refSets + [refs])
    case TimeCaveat(t) => a.(timeLe := Some(if a.timeLe.Some? && a.timeLe.value < t then a.timeLe.value else t))
    case AgentCaveat(name) =>
      if a.agent.None? then a.(agent := Some(name)) else if a.agent.value == name then a else a.(conflict := true)
  }

  function RestrictAll(a: Auth, cs: seq<Bytes>): Option<Auth>
    decreases |cs|
  {
    if cs == [] then Some(a) else
    var init := RestrictAll(a, cs[..|cs| - 1]);
    var c := ParseCaveat(cs[|cs| - 1]);
    if init.None? || c.None? then None else Some(Restrict(init.value, c.value))
  }

  /** `parse_caveats`. */
  function ParseCaveats(cs: seq<Bytes>): Option<Auth> {
    if |cs| > MAX_CAVEATS then None else RestrictAll(Unrestricted, cs)
  }

  /** `ref_matches`: a trailing star matches by prefix. */
  predicate RefMatches(glob: Bytes, name: Bytes) {
    if glob != [] && glob[|glob| - 1] == '*' then glob[..|glob| - 1] <= name else glob == name
  }

  predicate MatchesAny(globs: seq<Bytes>, name: Bytes) { exists i :: 0 <= i < |globs| && RefMatches(globs[i], name) }

  predicate AllMatch(sets: seq<seq<Bytes>>, name: Bytes) { forall i :: 0 <= i < |sets| ==> MatchesAny(sets[i], name) }

  /** `allows`. */
  predicate Allows(a: Auth, op: Op, name: Option<Bytes>, now: nat) {
    && !a.conflict
    && a.ops.Some? && op in a.ops.value
    && (a.timeLe.Some? ==> now <= a.timeLe.value)
    && (name.Some? ==>
        && !MatchesAny(a.refNot, name.value)
        && AllMatch(a.refSets, name.value)
        && AllMatch(OpSets(a, op), name.value))
  }

  // ---- narrowing -----------------------------------------------------------

  /** `b` grants nothing that `a` withholds. */
  predicate Narrower(a: Auth, b: Auth) {
    && (a.conflict ==> b.conflict)
    && (a.ops.Some? ==> b.ops.Some? && b.ops.value <= a.ops.value)
    && (a.timeLe.Some? ==> b.timeLe.Some? && b.timeLe.value <= a.timeLe.value)
    && a.refNot <= b.refNot && a.refSets <= b.refSets
    && forall op :: OpSets(a, op) <= OpSets(b, op)
  }

  lemma RestrictNarrows(a: Auth, c: Caveat)
    ensures Narrower(a, Restrict(a, c))
  {
  }

  lemma NarrowerTransitive(a: Auth, b: Auth, c: Auth)
    requires Narrower(a, b) && Narrower(b, c)
    ensures Narrower(a, c)
  {
    forall op ensures OpSets(a, op) <= OpSets(c, op) {
      assert OpSets(a, op) <= OpSets(b, op) && OpSets(b, op) <= OpSets(c, op);
    }
  }

  lemma {:induction false} ExtensionNarrows(cs: seq<Bytes>, extra: seq<Bytes>)
    requires RestrictAll(Unrestricted, cs + extra).Some?
    ensures RestrictAll(Unrestricted, cs).Some?
    ensures Narrower(RestrictAll(Unrestricted, cs).value, RestrictAll(Unrestricted, cs + extra).value)
    decreases |extra|
  {
    if extra == [] {
      assert cs + extra == cs;
    } else {
      var init := extra[..|extra| - 1];
      assert (cs + extra)[..|cs + extra| - 1] == cs + init;
      ExtensionNarrows(cs, init);
      var a, b := RestrictAll(Unrestricted, cs).value, RestrictAll(Unrestricted, cs + init).value;
      var c := ParseCaveat(extra[|extra| - 1]).value;
      RestrictNarrows(b, c);
      NarrowerTransitive(a, b, Restrict(b, c));
    }
  }

  lemma NarrowerAllows(a: Auth, b: Auth, op: Op, name: Option<Bytes>, now: nat)
    requires Narrower(a, b) && a.ops.Some? && Allows(b, op, name, now)
    ensures Allows(a, op, name, now)
  {
    if name.Some? {
      var n := name.value;
      assert forall i :: 0 <= i < |a.refNot| ==> b.refNot[i] == a.refNot[i];
      assert forall i :: 0 <= i < |a.refSets| ==> b.refSets[i] == a.refSets[i];
      assert OpSets(a, op) <= OpSets(b, op);
      assert forall i :: 0 <= i < |OpSets(a, op)| ==> OpSets(b, op)[i] == OpSets(a, op)[i];
    }
  }

  /** Every extension that still parses allows no more than the original. */
  ghost predicate OnlyNarrows(cs: seq<Bytes>) {
    forall extra, op, name, now :: Escalates(cs, extra, op, name, now) ==> false
  }

  /** The extended capability allows something the original does not. */
  ghost predicate Escalates(cs: seq<Bytes>, extra: seq<Bytes>, op: Op, name: Option<Bytes>, now: nat) {
    && ParseCaveats(cs).Some? && ParseCaveats(cs + extra).Some?
    && Allows(ParseCaveats(cs + extra).value, op, name, now)
    && !Allows(ParseCaveats(cs).value, op, name, now)
  }

  /** Whatever any attenuated chain allows, a capability with an `ops=` caveat allowed. */
  lemma AttenuationNarrows(cs: seq<Bytes>, extra: seq<Bytes>, op: Op, name: Option<Bytes>, now: nat)
    requires ParseCaveats(cs).Some? && ParseCaveats(cs).value.ops.Some?
    requires ParseCaveats(cs + extra).Some? && Allows(ParseCaveats(cs + extra).value, op, name, now)
    ensures Allows(ParseCaveats(cs).value, op, name, now)
  {
    ExtensionNarrows(cs, extra);
    NarrowerAllows(ParseCaveats(cs).value, ParseCaveats(cs + extra).value, op, name, now);
  }

  lemma {:induction false} SplitPlain(s: Bytes, at: Byte)
    requires at !in s
    ensures Split(s, at) == [s]
  {
    if s != [] {
      SplitPlain(s[1..], at);
      assert s == [s[0]] + s[1..];
    }
  }

  lemma OneItem(s: Bytes)
    requires s != [] && !Space(s[0]) && !Space(s[|s| - 1])
    ensures Items([s]) == [s]
  {
    assert [s][1..] == [] && Items([]) == [];
  }

  lemma OneOp(s: Bytes, op: Op)
    requires ParseOp(s) == Some(op)
    ensures ParseOps([s]) == Some({op})
  {
    assert [s][1..] == [] && ParseOps([]) == Some({});
    assert {op} + {} == {op};
  }

  lemma ReadCaveat()
    ensures ParseCaveat("ops=read") == Some(OpsCaveat({Read}))
  {
    var c: Bytes := "ops=read";
    var s: Bytes := "read";
    assert c[4..] == s && "ops=" <= c;
    SplitPlain(s, ',');
    OneItem(s);
    OneOp(s, Read);
  }

  /** A capability without `ops=` allows nothing, yet a holder can add one: attenuation
      only narrows exactly when an `ops=` caveat is there already, or the agents
      conflict, or there is no room for another caveat. */
  lemma AttenuationExact(cs: seq<Bytes>)
    requires ParseCaveats(cs).Some?
    ensures OnlyNarrows(cs) <==>
      ParseCaveats(cs).value.ops.Some? || ParseCaveats(cs).value.conflict || |cs| == MAX_CAVEATS
  {
    var a := ParseCaveats(cs).value;
    if a.ops.Some? || a.conflict || |cs| == MAX_CAVEATS {
      forall extra, op, name, now ensures !Escalates(cs, extra, op, name, now) {
        NoEscalation(cs, extra, op, name, now);
      }
    } else {
      var more: seq<Bytes> := ["ops=read"];
      ReadCaveat();
      assert (cs + more)[..|cs|] == cs;
      assert RestrictAll(Unrestricted, cs + more) == Some(Restrict(a, OpsCaveat({Read})));
      assert Escalates(cs, more, Read, None, 0);
    }
  }

  lemma NoEscalation(cs: seq<Bytes>, extra: seq<Bytes>, op: Op, name: Option<Bytes>, now: nat)
    requires ParseCaveats(cs).Some?
    requires var a := ParseCaveats(cs).value; a.ops.Some? || a.conflict || |cs| == MAX_CAVEATS
    ensures !Escalates(cs, extra, op, name, now)
  {
    if ParseCaveats(cs + extra).Some? {
      ExtensionNarrows(cs, extra);
      assert extra == [] ==> cs + extra == cs;
      if ParseCaveats(cs).value.ops.Some? && Allows(ParseCaveats(cs + extra).value, op, name, now) {
        AttenuationNarrows(cs, extra, op, name, now);
      }
    }
  }

  /** The parser's loop over mutable locals. */
  method ParseAll(cs: seq<Bytes>) returns (r: Option<Auth>)
    ensures r == ParseCaveats(cs)
  {
    if |cs| > MAX_CAVEATS {
      return None;
    }
    var a := Unrestricted;
    var k := 0;
    while k < |cs|
      invariant 0 <= k <= |cs| && RestrictAll(Unrestricted, cs[..k]) == Some(a)
    {
      OneMore(cs, k);
      var c := ParseCaveat(cs[k]);
      if c.None? {
        Stuck(cs, k + 1);
        return None;
      }
      a := Restrict(a, c.value);
      k := k + 1;
    }
    assert cs[..k] == cs;
    r := Some(a);
  }

  lemma OneMore(cs: seq<Bytes>, k: nat)
    requires k < |cs|
    ensures var init := RestrictAll(Unrestricted, cs[..k]);
      RestrictAll(Unrestricted, cs[..k + 1])
      == if init.None? || ParseCaveat(cs[k]).None? then None else Some(Restrict(init.value, ParseCaveat(cs[k]).value))
  {
    assert cs[..k + 1][..k] == cs[..k];
  }

  /** One bad caveat spoils the list. */
  lemma {:induction false} Stuck(cs: seq<Bytes>, k: nat)
    requires k <= |cs| && RestrictAll(Unrestricted, cs[..k]).None?
    ensures RestrictAll(Unrestricted, cs).None?
    decreases |cs| - k
  {
    if k == |cs| {
      assert cs[..k] == cs;
    } else {
      OneMore(cs, k);
      Stuck(cs, k + 1);
    }
  }

  // ---- signatures ----------------------------------------------------------

  type Mac = (Bytes, Bytes) -> Bytes

  function U16(s: Bytes): Bytes { Be(|s|, 2) + s }

  function PrefixBytes(loc: Bytes, id: Bytes): Bytes { "FMAC" + [ToByte(1)] + U16(loc) + U16(id) }

  function Extend(h: Mac, sig: Bytes, extra: seq<Bytes>): Bytes
    decreases |extra|
  {
    if extra == [] then sig else h(Extend(h, sig, extra[..|extra| - 1]), U16(extra[|extra| - 1]))
  }

  /** The chain signature: each caveat is keyed by the signature before it. */
  function ChainSig(h: Mac, root: Bytes, loc: Bytes, id: Bytes, cs: seq<Bytes>): Bytes {
    Extend(h, h(root, PrefixBytes(loc, id)), cs)
  }

  datatype Cap = Cap(loc: Bytes, id: Bytes, caveats: seq<Bytes>, sig: Bytes)

  predicate Verifies(h: Mac, root: Bytes, cap: Cap) { cap.sig == ChainSig(h, root, cap.loc, cap.id, cap.caveats) }

  lemma {:induction false} ExtendTwice(h: Mac, sig: Bytes, a: seq<Bytes>, b: seq<Bytes>)
    ensures Extend(h, sig, a + b) == Extend(h, Extend(h, sig, a), b)
    decreases |b|
  {
    if b == [] {
      assert a + b == a;
    } else {
      assert (a + b)[..|a + b| - 1] == a + b[..|b| - 1];
      ExtendTwice(h, sig, a, b[..|b| - 1]);
    }
  }

  /** `final_chain_mac`, as its loop computes it. */
  method SignChain(h: Mac, root: Bytes, loc: Bytes, id: Bytes, cs: seq<Bytes>) returns (sig: Bytes)
    ensures sig == ChainSig(h, root, loc, id, cs)
  {
    if cs == [] {
      return h(root, PrefixBytes(loc, id));
    }
    var prior := cs[..|cs| - 1];
    sig := h(root, PrefixBytes(loc, id));
    ghost var start := sig;
    var k := 0;
    while k < |prior|
      invariant 0 <= k <= |prior| && sig == Extend(h, start, prior[..k])
    {
      assert prior[..k + 1][..k] == prior[..k];
      sig := h(sig, U16(prior[k]));
      k := k + 1;
    }
    assert prior[..k] == prior;
    sig := h(sig, U16(cs[|cs| - 1]));
  }

  /** `attenuate_holder`: needs no root secret, keeps a valid chain valid, and gives a
      capability whose authority is that of the longer caveat list. */
  method AttenuateHolder(h: Mac, cap: Cap, extra: seq<Bytes>) returns (r: Option<Cap>)
    ensures r.Some? <==> ParseCaveats(cap.caveats + extra).Some?
    ensures r.Some? ==>
      r.value == Cap(cap.loc, cap.id, cap.caveats + extra, Extend(h, cap.sig, extra))
    ensures r.Some? ==> forall root :: Verifies(h, root, cap) ==> Verifies(h, root, r.value)
  {
    if |cap.caveats| + |extra| > MAX_CAVEATS {
      return None;
    }
    var caveats, sig := cap.caveats, cap.sig;
    var k := 0;
    while k < |extra|
      invariant 0 <= k <= |extra| && caveats == cap.caveats + extra[..k] && sig == Extend(h, cap.sig, extra[..k])
    {
      if |extra[k]| > MAX_FIELD_BYTES {
        LongCaveat(cap.caveats + extra, |cap.caveats| + k);
        return None;
      }
      assert extra[..k + 1][..k] == extra[..k];
      sig := h(sig, U16(extra[k]));
      caveats := caveats + [extra[k]];
      k := k + 1;
    }
    assert extra[..k] == extra;
    var parsed := ParseAll(caveats);
    if parsed.None? {
      return None;
    }
    r := Some(Cap(cap.loc, cap.id, caveats, sig));
    forall root | Verifies(h, root, cap) ensures Verifies(h, root, r.value) {
      ExtendTwice(h, h(root, PrefixBytes(cap.loc, cap.id)), cap.caveats, extra);
    }
  }

  lemma LongCaveat(cs: seq<Bytes>, k: nat)
    requires k < |cs| && |cs[k]| > MAX_FIELD_BYTES
    ensures RestrictAll(Unrestricted, cs).None?
  {
    OneMore(cs, k);
    Stuck(cs, k + 1);
  }

  // ---- the token -----------------------------------------------------------

  function CaveatBytes(cs: seq<Bytes>): Bytes { if cs == [] then [] else U16(cs[0]) + CaveatBytes(cs[1..]) }

  /** `Cap::encode`. */
  function EncodeCap(cap: Cap): Bytes { PrefixBytes(cap.loc, cap.id) + CaveatBytes(cap.caveats) + cap.sig }

  datatype Cut = NoCut | Cut(field: Bytes, rest: Bytes)

  /** A length-prefixed UTF-8 field that leaves at least `keep` bytes behind it. */
  function TakeField(s: Bytes, keep: nat): (r: Cut)
    ensures r.Cut? ==> |r.rest| < |s|
  {
    if |s| < 2 then NoCut else
    var n := Unbe(s[..2]);
    if 2 + n + keep > |s| || !Utf8(s[2..2 + n]) then NoCut else Cut(s[2..2 + n], s[2 + n..])
  }

  datatype Tail = NoTail | Tail(caveats: seq<Bytes>, sig: Bytes)

  /** The caveat loop: fields until exactly the signature is left. */
  function TakeCaveats(s: Bytes, count: nat): Tail
    decreases |s|
  {
    if |s| < 32 then NoTail
    else if |s| == 32 then Tail([], s)
    else if count >= MAX_CAVEATS || |s| - 32 < 2 then NoTail
    else
      var c := TakeField(s, 32);
      if c.NoCut? then NoTail else
      var more := TakeCaveats(c.rest, count + 1);
      if more.NoTail? then NoTail else Tail([c.field] + more.caveats, more.sig)
  }

  function Magic(): Bytes { "FMAC" + [ToByte(1)] }

  /** `decode_cap`. */
  function DecodeCap(raw: Bytes): Option<Cap> {
    if |raw| > MAX_TOKEN_BYTES || |raw| < 41 || raw[..5] != Magic() then None else
    var loc := TakeField(raw[5..], 34);
    if loc.NoCut? then None else
    var id := TakeField(loc.rest, 32);
    if id.NoCut? then None else
    var tail := TakeCaveats(id.rest, 0);
    if tail.NoTail? || ParseCaveats(tail.caveats).None? then None
    else Some(Cap(loc.field, id.field, tail.caveats, tail.sig))
  }

  predicate FieldOk(s: Bytes) { Utf8(s) && |s| <= MAX_FIELD_BYTES }

  predicate FieldsOk(cs: seq<Bytes>) { forall i :: 0 <= i < |cs| ==> FieldOk(cs[i]) }

  /** A capability within the size limits whose caveats parse. */
  predicate WfCap(cap: Cap) {
    && FieldOk(cap.loc) && FieldOk(cap.id) && FieldsOk(cap.caveats) && |cap.sig| == 32
    && ParseCaveats(cap.caveats).Some? && |EncodeCap(cap)| <= MAX_TOKEN_BYTES
  }

  lemma FieldComplete(f: Bytes, rest: Bytes, keep: nat)
    requires FieldOk(f) && keep <= |rest|
    ensures TakeField(U16(f) + rest, keep) == Cut(f, rest)
  {
    var s := U16(f) + rest;
    PowersOf256();
    UnbeBe(|f|, 2);
    assert s[..2] == Be(|f|, 2) && s[2..2 + |f|] == f && s[2 + |f|..] == rest;
  }

  lemma FieldSound(s: Bytes, keep: nat)
    requires TakeField(s, keep).Cut?
    ensures var r := TakeField(s, keep); FieldOk(r.field) && keep <= |r.rest| && s == U16(r.field) + r.rest
  {
    var r := TakeField(s, keep);
    BeUnbe(s[..2]);
    PowersOf256();
    assert s == s[..2] + r.field + r.rest;
  }

  lemma {:induction false} CaveatsComplete(cs: seq<Bytes>, sig: Bytes, count: nat)
    requires FieldsOk(cs) && |sig| == 32 && count + |cs| <= MAX_CAVEATS
    ensures TakeCaveats(CaveatBytes(cs) + sig, count) == Tail(cs, sig)
    decreases |cs|
  {
    if cs == [] {
      assert CaveatBytes(cs) + sig == sig;
    } else {
      var c, more, next := cs[0], CaveatBytes(cs[1..]), count + 1;
      CaveatsComplete(cs[1..], sig, next);
      FieldComplete(c, more + sig, 32);
      Assoc(U16(c), more, sig);
      CaveatFirst(U16(c) + (more + sig), c, more + sig, cs[1..], sig, count);
      assert cs == [c] + cs[1..];
    }
  }

  lemma CaveatFirst(s: Bytes, c: Bytes, rest: Bytes, more: seq<Bytes>, sig: Bytes, count: nat)
    requires TakeField(s, 32) == Cut(c, rest) && |s| >= 34 && count < MAX_CAVEATS
    requires TakeCaveats(rest, count + 1) == Tail(more, sig)
    ensures TakeCaveats(s, count) == Tail([c] + more, sig)
  {
  }

  lemma {:induction false} CaveatsSound(s: Bytes, count: nat)
    requires TakeCaveats(s, count).Tail? && count <= MAX_CAVEATS
    ensures var r := TakeCaveats(s, count);
      FieldsOk(r.caveats) && |r.sig| == 32 && count + |r.caveats| <= MAX_CAVEATS && s == CaveatBytes(r.caveats) + r.sig
    decreases |s|
  {
    if |s| > 32 {
      FieldSound(s, 32);
      var c := TakeField(s, 32);
      var next := count + 1;
      CaveatsSound(c.rest, next);
      var more := TakeCaveats(c.rest, next);
      assert ([c.field] + more.caveats)[1..] == more.caveats;
      Assoc(U16(c.field), CaveatBytes(more.caveats), more.sig);
    }
  }

  /** The token cut at its fields. */
  lemma Layout(cap: Cap)
    ensures EncodeCap(cap) == Magic() + (U16(cap.loc) + (U16(cap.id) + (CaveatBytes(cap.caveats) + cap.sig)))
  {
    var m, l, i, c, s := Magic(), U16(cap.loc), U16(cap.id), CaveatBytes(cap.caveats), cap.sig;
    Assoc(m + l + i, c, s);
    Assoc(m + l, i, c + s);
    Assoc(m, l, i + (c + s));
  }

  lemma CapRoundTrip(cap: Cap)
    requires WfCap(cap)
    ensures DecodeCap(EncodeCap(cap)) == Some(cap)
  {
    Layout(cap);
    var raw, tail := EncodeCap(cap), CaveatBytes(cap.caveats) + cap.sig;
    var rest := U16(cap.loc) + (U16(cap.id) + tail);
    assert raw == Magic() + rest;
    assert raw[..5] == Magic() && raw[5..] == rest;
    FieldComplete(cap.loc, U16(cap.id) + tail, 34);
    FieldComplete(cap.id, tail, 32);
    CaveatsComplete(cap.caveats, cap.sig, 0);
  }

  lemma CapCanonical(raw: Bytes)
    requires DecodeCap(raw).Some?
    ensures WfCap(DecodeCap(raw).value) && EncodeCap(DecodeCap(raw).value) == raw
  {
    var loc := TakeField(raw[5..], 34);
    FieldSound(raw[5..], 34);
    var id := TakeField(loc.rest, 32);
    FieldSound(loc.rest, 32);
    CaveatsSound(id.rest, 0);
    var cap := DecodeCap(raw).value;
    Layout(cap);
    assert raw == raw[..5] + raw[5..];
  }

  /** Caveats read so far, then what the rest of the loop reads. */
  function Ahead(done: seq<Bytes>, more: Tail): Tail {
    if more.NoTail? then NoTail else Tail(done + more.caveats, more.sig)
  }

  lemma AheadOne(done: seq<Bytes>, c: Bytes, more: Tail)
    ensures Ahead(done, Ahead([c], more)) == Ahead(done + [c], more)
  {
    if more.Tail? { assert done + ([c] + more.caveats) == done + [c] + more.caveats; }
  }

  /** One turn of the caveat loop. */
  lemma CaveatStep(s: Bytes, count: nat)
    requires |s| > 32
    ensures count >= MAX_CAVEATS || |s| - 32 < 2 || TakeField(s, 32).NoCut? ==> TakeCaveats(s, count) == NoTail
    ensures count < MAX_CAVEATS && |s| - 32 >= 2 && TakeField(s, 32).Cut? ==>
      TakeCaveats(s, count) == Ahead([TakeField(s, 32).field], TakeCaveats(TakeField(s, 32).rest, count + 1))
  {
  }

  /** One field at a cursor; `next` is where the cursor goes. */
  method ReadField(raw: Bytes, i: nat, keep: nat) returns (r: Option<Bytes>, next: nat)
    requires i <= |raw|
    ensures next <= |raw|
    ensures TakeField(raw[i..], keep) == if r.None? then NoCut else Cut(r.value, raw[next..])
    ensures r.Some? ==> i < next && next + keep <= |raw|
  {
    ghost var s := raw[i..];
    next := i;
    if i + 2 > |raw| {
      return None, next;
    }
    assert s[..2] == raw[i..i + 2];
    var n := Unbe(raw[i..i + 2]);
    if i + 2 + n + keep > |raw| {
      return None, next;
    }
    assert s[2..2 + n] == raw[i + 2..i + 2 + n] && s[2 + n..] == raw[i + 2 + n..];
    if !Utf8(raw[i + 2..i + 2 + n]) {
      return None, next;
    }
    r, next := Some(raw[i + 2..i + 2 + n]), i + 2 + n;
  }

  /** The caveat loop of `decode_cap`, over a cursor. */
  method ReadCaveats(raw: Bytes, start: nat) returns (r: Tail)
    requires start + 32 <= |raw|
    ensures r == TakeCaveats(raw[start..], 0)
  {
    var i, caveats: seq<Bytes>, count: nat := start, [], 0;
    ghost var whole := TakeCaveats(raw[start..], count);
    AheadNone(whole);
    while i + 32 < |raw|
      invariant i + 32 <= |raw| && Ahead(caveats, TakeCaveats(raw[i..], count)) == whole
      decreases |raw| - i
    {
      CaveatStep(raw[i..], count);
      if count >= MAX_CAVEATS || i + 2 > |raw| - 32 {
        return NoTail;
      }
      var c;
      c, i := ReadField(raw, i, 32);
      if c.None? {
        return NoTail;
      }
      count := count + 1;
      AheadOne(caveats, c.value, TakeCaveats(raw[i..], count));
      caveats := caveats + [c.value];
    }
    AheadDone(caveats, raw[i..]);
    r := Tail(caveats, raw[i..]);
  }

  lemma AheadNone(more: Tail)
    ensures Ahead([], more) == more
  {
    if more.Tail? { assert [] + more.caveats == more.caveats; }
  }

  lemma AheadDone(done: seq<Bytes>, sig: Bytes)
    ensures Ahead(done, Tail([], sig)) == Tail(done, sig)
  {
    assert done + [] == done;
  }

  /** `decode_cap`. */
  method DecodeToken(raw: Bytes) returns (r: Option<Cap>)
    ensures r == DecodeCap(raw)
  {
    if |raw| > MAX_TOKEN_BYTES || |raw| < 41 || raw[..5] != Magic() {
      return None;
    }
    var loc := TakeField(raw[5..], 34);
    if loc.NoCut? {
      return None;
    }
    var id := TakeField(loc.rest, 32);
    if id.NoCut? {
      return None;
    }
    var tail := ReadCaveats(id.rest, 0);
    if tail.NoTail? {
      return None;
    }
    var parsed := ParseAll(tail.caveats);
    r := if parsed.None? then None else Some(Cap(loc.field, id.field, tail.caveats, tail.sig));
  }
}
