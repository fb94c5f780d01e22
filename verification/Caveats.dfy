/** What a list of caveats allows, one caveat at a time, and how each is spelled. */
module Caveats {
  import opened Names
  import opened Cbor
  import opened Capability

  // ---- authority as a conjunction ------------------------------------------

  predicate Starred(glob: Bytes, stem: Bytes) { glob == stem + ['*'] }

  /** The name ends in anything after a starred prefix, or is the glob itself. */
  ghost predicate Covers(glob: Bytes, name: Bytes) {
    || (name == glob && !exists stem: Bytes :: Starred(glob, stem))
    || exists stem: Bytes, more: Bytes :: Starred(glob, stem) && name == stem + more
  }

  ghost predicate CoversAny(globs: seq<Bytes>, name: Bytes) { exists g :: g in globs && Covers(g, name) }

  /** One caveat by itself lets the request pass. */
  ghost predicate Admits(c: Caveat, op: Op, name: Option<Bytes>, now: nat) {
    match c
    case OpsCaveat(ops) => op in ops
    case AllowCaveat(scoped, refs) => scoped == op && name.Some? ==> CoversAny(refs, name.value)
    case RefCaveat(refs) => name.Some? ==> CoversAny(refs, name.value)
    case NotCaveat(refs) => name.Some? ==> !CoversAny(refs, name.value)
    case TimeCaveat(until) => now <= until
    case AgentCaveat(_) => true
  }

  /** The caveats as parsed. */
  ghost predicate Parsed(cs: seq<Bytes>, parsed: seq<Caveat>) {
    |parsed| == |cs| && forall i :: 0 <= i < |cs| ==> ParseCaveat(cs[i]) == Some(parsed[i])
  }

  ghost predicate AllAdmit(cs: seq<Caveat>, op: Op, name: Option<Bytes>, now: nat) {
    forall i :: 0 <= i < |cs| ==> Admits(cs[i], op, name, now)
  }

  predicate NamesOps(cs: seq<Caveat>) { exists i :: 0 <= i < |cs| && cs[i].OpsCaveat? }

  predicate OneAgent(cs: seq<Caveat>) {
    forall i, j :: 0 <= i < j < |cs| && cs[i].AgentCaveat? && cs[j].AgentCaveat? ==> cs[i].name == cs[j].name
  }

  lemma CoversMatches(glob: Bytes, name: Bytes)
    ensures Covers(glob, name) <==> RefMatches(glob, name)
  {
    if glob != [] && glob[|glob| - 1] == '*' {
      var stem := glob[..|glob| - 1];
      assert Starred(glob, stem);
      if RefMatches(glob, name) { assert name == stem + name[|stem|..]; }
      forall other: Bytes | Starred(glob, other) ensures other == stem {
        assert (other + ['*'])[..|glob| - 1] == other;
      }
    } else {
      forall stem: Bytes ensures !Starred(glob, stem) { assert (stem + ['*'])[|stem|] == '*'; }
    }
  }

  lemma CoversMatchesAny(globs: seq<Bytes>, name: Bytes)
    ensures CoversAny(globs, name) <==> MatchesAny(globs, name)
  {
    forall g ensures Covers(g, name) <==> RefMatches(g, name) { CoversMatches(g, name); }
  }

  /** What an authority lets pass, apart from naming operations and agents. */
  predicate Passes(a: Auth, op: Op, name: Option<Bytes>, now: nat) {
    && (a.ops.Some? ==> op in a.ops.value)
    && (a.timeLe.Some? ==> now <= a.timeLe.value)
    && (name.Some? ==>
        && !MatchesAny(a.refNot, name.value) && AllMatch(a.refSets, name.value) && AllMatch(OpSets(a, op), name.value))
  }

  lemma MatchesAppend(xs: seq<Bytes>, ys: seq<Bytes>, name: Bytes)
    ensures MatchesAny(xs + ys, name) <==> MatchesAny(xs, name) || MatchesAny(ys, name)
  {
    var all := xs + ys;
    if i :| 0 <= i < |xs| && RefMatches(xs[i], name) { assert RefMatches(all[i], name); }
    if i :| 0 <= i < |ys| && RefMatches(ys[i], name) { assert RefMatches(all[|xs| + i], name); }
  }

  lemma AllMatchAppend(xs: seq<seq<Bytes>>, refs: seq<Bytes>, name: Bytes)
    ensures AllMatch(xs + [refs], name) <==> AllMatch(xs, name) && MatchesAny(refs, name)
  {
    var all := xs + [refs];
    assert all[|xs|] == refs && forall i :: 0 <= i < |xs| ==> all[i] == xs[i];
  }

  /** One more caveat lets pass what both let pass. */
  lemma RestrictPasses(a: Auth, c: Caveat, op: Op, name: Option<Bytes>, now: nat)
    ensures Passes(Restrict(a, c), op, name, now) <==> Passes(a, op, name, now) && Admits(c, op, name, now)
  {
    if name.Some? {
      match c
      case AllowCaveat(scoped, refs) =>
        AllMatchAppend(OpSets(a, scoped), refs, name.value);
        CoversMatchesAny(refs, name.value);
      case RefCaveat(refs) =>
        AllMatchAppend(a.refSets, refs, name.value);
        CoversMatchesAny(refs, name.value);
      case NotCaveat(refs) =>
        MatchesAppend(a.refNot, refs, name.value);
        CoversMatchesAny(refs, name.value);
      case _ =>
    }
  }

  /** The agent is the first one named; a conflict is a second name. */
  predicate AgentsOk(a: Auth, cs: seq<Caveat>) {
    && (a.agent.None? ==> forall i :: 0 <= i < |cs| ==> !cs[i].AgentCaveat?)
    && (a.agent.Some? ==> exists i :: 0 <= i < |cs| && cs[i] == AgentCaveat(a.agent.value))
    && (a.conflict <==> !OneAgent(cs))
  }

  lemma AgentStep(a: Auth, cs: seq<Caveat>, c: Caveat, more: seq<Caveat>)
    requires AgentsOk(a, cs) && more == cs + [c]
    ensures AgentsOk(Restrict(a, c), more)
  {
    var b := Restrict(a, c);
    assert more[|cs|] == c && forall i :: 0 <= i < |cs| ==> more[i] == cs[i];
    if a.agent.Some? {
      var k :| 0 <= k < |cs| && cs[k] == AgentCaveat(a.agent.value);
      assert more[k] == AgentCaveat(b.agent.value);
      if c.AgentCaveat? && c.name != a.agent.value { assert !OneAgent(more); }
      if !OneAgent(cs) {
        var i, j :| 0 <= i < j < |cs| && cs[i].AgentCaveat? && cs[j].AgentCaveat? && cs[i].name != cs[j].name;
        assert more[i].name != more[j].name;
      } else if !(c.AgentCaveat? && c.name != a.agent.value) {
        SameAgents(cs, a.agent.value, k);
        assert OneAgent(more);
      }
    } else {
      assert OneAgent(more);
    }
  }

  lemma SameAgents(cs: seq<Caveat>, name: Bytes, k: nat)
    requires OneAgent(cs) && k < |cs| && cs[k] == AgentCaveat(name)
    ensures forall i :: 0 <= i < |cs| && cs[i].AgentCaveat? ==> cs[i].name == name
  {
  }

  /** An authority is what these caveats leave. */
  predicate Leaves(a: Auth, cs: seq<Caveat>) { (a.ops.Some? <==> NamesOps(cs)) && AgentsOk(a, cs) }

  ghost predicate PassesAsAll(a: Auth, cs: seq<Caveat>, op: Op, name: Option<Bytes>, now: nat) {
    Passes(a, op, name, now) <==> AllAdmit(cs, op, name, now)
  }

  lemma AdmitStep(cs: seq<Caveat>, c: Caveat, more: seq<Caveat>, op: Op, name: Option<Bytes>, now: nat)
    requires more == cs + [c]
    ensures AllAdmit(more, op, name, now) <==> AllAdmit(cs, op, name, now) && Admits(c, op, name, now)
    ensures NamesOps(more) <==> NamesOps(cs) || c.OpsCaveat?
  {
    assert more[|cs|] == c && forall i :: 0 <= i < |cs| ==> more[i] == cs[i];
  }

  lemma LeavesStep(a: Auth, cs: seq<Caveat>, c: Caveat, more: seq<Caveat>, op: Op, name: Option<Bytes>, now: nat)
    requires more == cs + [c] && Leaves(a, cs) && PassesAsAll(a, cs, op, name, now)
    ensures Leaves(Restrict(a, c), more) && PassesAsAll(Restrict(a, c), more, op, name, now)
  {
    AdmitStep(cs, c, more, op, name, now);
    RestrictPasses(a, c, op, name, now);
    AgentStep(a, cs, c, more);
  }

  lemma {:induction false} RestrictAllMeans(cs: seq<Bytes>, parsed: seq<Caveat>, op: Op, name: Option<Bytes>, now: nat)
    requires RestrictAll(Unrestricted, cs).Some? && Parsed(cs, parsed)
    ensures var a := RestrictAll(Unrestricted, cs).value; Leaves(a, parsed) && PassesAsAll(a, parsed, op, name, now)
    decreases |cs|
  {
    if cs != [] {
      var k := |cs| - 1;
      var init, a := parsed[..k], RestrictAll(Unrestricted, cs[..k]).value;
      RestrictAllMeans(cs[..k], init, op, name, now);
      assert parsed == init + [parsed[k]];
      LeavesStep(a, init, parsed[k], parsed, op, name, now);
    }
  }

  lemma {:induction false} ParsesEach(cs: seq<Bytes>) returns (parsed: seq<Caveat>)
    requires RestrictAll(Unrestricted, cs).Some?
    ensures Parsed(cs, parsed)
    decreases |cs|
  {
    if cs == [] {
      parsed := [];
    } else {
      parsed := ParsesEach(cs[..|cs| - 1]);
      parsed := parsed + [ParseCaveat(cs[|cs| - 1]).value];
    }
  }

  /** A capability allows a request exactly when some caveat names operations, no two
      caveats name different agents, and every single caveat admits the request. */
  lemma AllowsIffEachAdmits(cs: seq<Bytes>, parsed: seq<Caveat>, op: Op, name: Option<Bytes>, now: nat)
    requires ParseCaveats(cs).Some? && Parsed(cs, parsed)
    ensures Allows(ParseCaveats(cs).value, op, name, now) <==>
      NamesOps(parsed) && OneAgent(parsed) && AllAdmit(parsed, op, name, now)
  {
    RestrictAllMeans(cs, parsed, op, name, now);
  }

  /** A list parses exactly when it is short enough and each caveat does. */
  lemma {:induction false} ParsesIffEachDoes(cs: seq<Bytes>)
    ensures ParseCaveats(cs).Some? <==> |cs| <= 256 && forall i :: 0 <= i < |cs| ==> ParseCaveat(cs[i]).Some?
  {
    ChainParses(cs);
  }

  lemma {:induction false} ChainParses(cs: seq<Bytes>)
    ensures RestrictAll(Unrestricted, cs).Some? <==> forall i :: 0 <= i < |cs| ==> ParseCaveat(cs[i]).Some?
    decreases |cs|
  {
    if cs != [] {
      var init := cs[..|cs| - 1];
      ChainParses(init);
      assert forall i :: 0 <= i < |init| ==> init[i] == cs[i];
    }
  }

  // ---- spelling ------------------------------------------------------------

  function OpName(op: Op): Bytes {
    match op
    case Read => "read"
    case Write => "write"
    case Branch => "branch"
    case MergeOp => "merge"
    case Grant => "grant"
    case Seal => "seal"
  }

  /** An item of a list, without commas and without white space around it. */
  predicate Plain(s: Bytes) { s != [] && ',' !in s && !Space(s[0]) && !Space(s[|s| - 1]) }

  predicate AllPlain(items: seq<Bytes>) { forall i :: 0 <= i < |items| ==> Plain(items[i]) }

  function Listed(items: seq<Bytes>): Bytes {
    if items == [] then [] else if |items| == 1 then items[0] else items[0] + [','] + Listed(items[1..])
  }

  lemma {:induction false} SplitFirst(s: Bytes, more: Bytes, at: Byte)
    requires at !in s
    ensures Split(s + [at] + more, at) == [s] + Split(more, at)
  {
    var all := s + [at] + more;
    if s == [] {
      assert all[1..] == more && all[0] == at;
    } else {
      SplitFirst(s[1..], more, at);
      assert all[1..] == s[1..] + [at] + more && all[0] == s[0];
      assert [s[0]] + s[1..] == s;
    }
  }

  lemma {:induction false} SplitListed(items: seq<Bytes>)
    requires items != [] && AllPlain(items)
    ensures Split(Listed(items), ',') == items
  {
    if |items| == 1 {
      SplitPlain(items[0], ',');
    } else {
      SplitFirst(items[0], Listed(items[1..]), ',');
      SplitListed(items[1..]);
    }
  }

  lemma {:induction false} ItemsPlain(items: seq<Bytes>)
    requires AllPlain(items)
    ensures Items(items) == items
  {
    if items != [] { ItemsPlain(items[1..]); }
  }

  lemma ListReads(items: seq<Bytes>)
    requires AllPlain(items)
    ensures Items(Split(Listed(items), ',')) == items
  {
    if items == [] {
      var none: seq<Bytes> := [[]];
      assert Split([], ',') == none && none[1..] == [];
    } else {
      SplitListed(items);
      ItemsPlain(items);
    }
  }

  function OpNames(ops: seq<Op>): seq<Bytes> { seq(|ops|, i requires 0 <= i < |ops| => OpName(ops[i])) }

  lemma OpNameReads(op: Op)
    ensures ParseOp(OpName(op)) == Some(op) && Plain(OpName(op)) && ':' !in OpName(op)
  {
  }

  lemma {:induction false} OpsRead(ops: seq<Op>)
    ensures ParseOps(OpNames(ops)) == Some(set op | op in ops)
  {
    if ops == [] {
      assert (set op | op in ops) == {};
    } else {
      assert OpNames(ops)[0] == OpName(ops[0]) && OpNames(ops)[1..] == OpNames(ops[1..]);
      OpNameReads(ops[0]);
      OpsRead(ops[1..]);
      assert ops == [ops[0]] + ops[1..];
      assert (set op | op in ops) == {ops[0]} + set op | op in ops[1..];
    }
  }

  lemma OpNamesPlain(ops: seq<Op>)
    ensures AllPlain(OpNames(ops))
  {
    forall i | 0 <= i < |ops| ensures Plain(OpNames(ops)[i]) { OpNameReads(ops[i]); }
  }

  /** `ops=read,write` says exactly those operations. */
  lemma OpsSpelling(ops: seq<Op>)
    requires |"ops=" + Listed(OpNames(ops))| <= MAX_FIELD_BYTES
    ensures ParseCaveat("ops=" + Listed(OpNames(ops))) == Some(OpsCaveat(set op | op in ops))
  {
    var c, rest: Bytes := "ops=" + Listed(OpNames(ops)), Listed(OpNames(ops));
    assert c[4..] == rest && "ops=" <= c;
    OpNamesPlain(ops);
    ListReads(OpNames(ops));
    OpsRead(ops);
  }

  /** `ref=a,b*` and `ref!=a,b*` say exactly those globs. */
  lemma RefSpelling(refs: seq<Bytes>)
    requires refs != [] && AllPlain(refs) && |Listed(refs)| + 5 <= MAX_FIELD_BYTES
    ensures ParseCaveat("ref=" + Listed(refs)) == Some(RefCaveat(refs))
    ensures ParseCaveat("ref!=" + Listed(refs)) == Some(NotCaveat(refs))
  {
    var c, d: Bytes := "ref=" + Listed(refs), "ref!=" + Listed(refs);
    ListReads(refs);
    assert c[0] == 'r' && c[3] == '=' && c[4..] == Listed(refs);
    assert d[0] == 'r' && d[3] == '!' && d[5..] == Listed(refs);
  }

  lemma {:induction false} IndexFirst(s: Bytes, b: Byte, more: Bytes)
    requires b !in s
    ensures IndexOf(s + [b] + more, b) == Some(|s|)
  {
    var all := s + [b] + more;
    if s == [] {
      assert all[0] == b;
    } else {
      IndexFirst(s[1..], b, more);
      assert all[1..] == s[1..] + [b] + more && all[0] == s[0];
    }
  }

  lemma AllowRest(op: Op, name: Bytes, refs: seq<Bytes>)
    requires refs != [] && AllPlain(refs) && ParseOp(name) == Some(op) && Plain(name) && ':' !in name
    ensures ParseAllow(name + [':'] + Listed(refs)) == Some(AllowCaveat(op, refs))
  {
    var rest := name + [':'] + Listed(refs);
    IndexFirst(name, ':', Listed(refs));
    assert rest[..|name|] == name && rest[|name| + 1..] == Listed(refs);
    ListReads(refs);
  }

  lemma AllowPrefix(rest: Bytes)
    requires |rest| + 6 <= MAX_FIELD_BYTES
    ensures ParseCaveat("allow=" + rest) == ParseAllow(rest)
  {
    var c: Bytes := "allow=" + rest;
    assert c[0] == 'a' && "allow=" <= c && c[6..] == rest;
  }

  /** `allow=merge:a,b*` scopes one operation to exactly those globs. */
  lemma AllowSpelling(op: Op, refs: seq<Bytes>)
    requires refs != [] && AllPlain(refs) && |OpName(op) + [':'] + Listed(refs)| + 6 <= MAX_FIELD_BYTES
    ensures ParseCaveat("allow=" + (OpName(op) + [':'] + Listed(refs))) == Some(AllowCaveat(op, refs))
  {
    OpNameReads(op);
    AllowRest(op, OpName(op), refs);
    AllowPrefix(OpName(op) + [':'] + Listed(refs));
  }

  function Decimal(n: nat): Bytes {
    if n < 10 then [ToByte(48 + n)] else Decimal(n / 10) + [ToByte(48 + n % 10)]
  }

  lemma {:induction false} DecimalReads(n: nat)
    ensures Digits(Decimal(n)) == Some(n) && Decimal(n) != [] && Decimal(n)[0] != '+'
  {
    var s := Decimal(n);
    if n < 10 {
      assert s[..0] == [];
    } else {
      DecimalReads(n / 10);
      assert s[..|s| - 1] == Decimal(n / 10);
    }
  }

  /** `time<=N` in decimal says N. */
  lemma TimeSpelling(n: nat)
    requires n < U64 && |Decimal(n)| + 6 <= MAX_FIELD_BYTES
    ensures ParseCaveat("time<=" + Decimal(n)) == Some(TimeCaveat(n))
  {
    var c: Bytes := "time<=" + Decimal(n);
    DecimalReads(n);
    assert c[0] == 't' && c[6..] == Decimal(n);
  }

  lemma AgentSpelling(name: Bytes)
    requires name != [] && |name| + 6 <= MAX_FIELD_BYTES
    ensures ParseCaveat("agent=" + name) == Some(AgentCaveat(name))
  {
    var c: Bytes := "agent=" + name;
    assert c[0] == 'a' && c[1] == 'g' && c[6..] == name;
  }

  predicate StartsBy(c: Bytes, prefix: Bytes) { prefix <= c }

  /** Nothing but these six forms is a caveat, a list of globs is never empty, and no
      caveat is longer than a length field can say. */
  lemma OnlySixForms(c: Bytes)
    requires ParseCaveat(c).Some?
    ensures |c| <= 65_535
    ensures match ParseCaveat(c).value
      case OpsCaveat(_) => StartsBy(c, "ops=")
      case AllowCaveat(_, refs) => StartsBy(c, "allow=") && refs != []
      case NotCaveat(refs) => StartsBy(c, "ref!=") && refs != []
      case RefCaveat(refs) => StartsBy(c, "ref=") && refs != []
      case TimeCaveat(until) => StartsBy(c, "time<=") && until < U64
      case AgentCaveat(name) => StartsBy(c, "agent=") && name != []
  {
  }

  predicate Blank(s: Bytes) { forall i :: 0 <= i < |s| ==> Space(s[i]) }

  /** White space around an item is dropped, and nothing else. */
  lemma {:induction false} TrimDropsBlanks(l: Bytes, s: Bytes, r: Bytes)
    requires Blank(l) && Blank(r) && (s == [] || (!Space(s[0]) && !Space(s[|s| - 1])))
    ensures Trim(l + s + r) == s
    decreases |l| + |r|
  {
    var all := l + s + r;
    if l != [] {
      assert all[0] == l[0] && all[1..] == l[1..] + s + r;
      TrimDropsBlanks(l[1..], s, r);
    } else if s == [] && r != [] {
      assert all == r && all[1..] == l + s + r[1..];
      TrimDropsBlanks(l, s, r[1..]);
    } else if r != [] {
      var init := r[..|r| - 1];
      assert all[0] == s[0] && all[|all| - 1] == r[|r| - 1] && all[..|all| - 1] == l + s + init;
      TrimDropsBlanks(l, s, init);
    } else {
      assert all == s;
    }
  }

  /** No list holds a blank item. */
  lemma {:induction false} NoBlankItems(parts: seq<Bytes>)
    ensures forall p :: p in Items(parts) ==> p != []
  {
    if parts != [] { NoBlankItems(parts[1..]); }
  }
}
