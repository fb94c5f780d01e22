/** Text, object ids and names as bytes: what well-formed means, by what it spells. */
module Spelling {
  import opened Names
  import opened Cbor

  // ---- UTF-8 (section 3 of RFC 3629) ---------------------------------------

  /** A Unicode scalar value: no surrogates, nothing above U+10FFFF. */
  predicate Scalar(c: nat) { c < 0xD800 || 0xE000 <= c <= 0x10FFFF }

  function Trail(c: nat): Byte { ToByte(0x80 + c % 64) }

  function Utf8Of(c: nat): (s: Bytes)
    requires Scalar(c)
    ensures |s| > 0
  {
    if c < 0x80 then [ToByte(c)]
    else if c < 0x800 then [ToByte(0xC0 + c / 64), Trail(c)]
    else if c < 0x1_0000 then [ToByte(0xE0 + c / 0x1000), Trail(c / 64), Trail(c)]
    else [ToByte(0xF0 + c / 0x4_0000), Trail(c / 0x1000), Trail(c / 64), Trail(c)]
  }

  predicate Scalars(cs: seq<nat>) { forall i :: 0 <= i < |cs| ==> Scalar(cs[i]) }

  function Utf8Text(cs: seq<nat>): Bytes
    requires Scalars(cs)
  {
    if cs == [] then [] else Utf8Of(cs[0]) + Utf8Text(cs[1..])
  }

  lemma FirstIsUtf8(c: nat, rest: Bytes)
    requires Scalar(c)
    ensures Utf8(Utf8Of(c) + rest) <==> Utf8(rest)
  {
    if c < 0x80 {
      assert (Utf8Of(c) + rest)[1..] == rest;
    } else if c < 0x800 {
      Starts2(Utf8Of(c) + rest, c / 64, c % 64, rest);
    } else if c < 0x1_0000 {
      Digits3(c);
      Starts3(Utf8Of(c) + rest, c / 0x1000, c / 64 % 64, c % 64, rest);
    } else {
      Digits4(c);
      Starts4(Utf8Of(c) + rest, c / 0x4_0000, c / 0x1000 % 64, c / 64 % 64, c % 64, rest);
    }
  }

  lemma Digits3(c: nat)
    requires 0x800 <= c < 0x1_0000 && Scalar(c)
    ensures c / 0x1000 <= 15
    ensures (c / 0x1000 == 0 ==> c / 64 % 64 >= 32) && (c / 0x1000 == 13 ==> c / 64 % 64 <= 31)
  {
    assert c / 64 == 64 * (c / 0x1000) + c / 64 % 64;
  }

  lemma Digits4(c: nat)
    requires 0x1_0000 <= c <= 0x10FFFF
    ensures c / 0x4_0000 <= 4
    ensures (c / 0x4_0000 == 0 ==> c / 0x1000 % 64 >= 16) && (c / 0x4_0000 == 4 ==> c / 0x1000 % 64 <= 15)
  {
    assert c / 0x1000 == 64 * (c / 0x4_0000) + c / 0x1000 % 64;
  }

  lemma Starts2(s: Bytes, a: nat, b: nat, rest: Bytes)
    requires 2 <= a <= 31 && b < 64 && s == [ToByte(0xC0 + a), ToByte(0x80 + b)] + rest
    ensures Utf8(s) <==> Utf8(rest)
  {
    assert s[2..] == rest;
  }

  lemma Starts3(s: Bytes, a: nat, b: nat, d: nat, rest: Bytes)
    requires a <= 15 && b < 64 && d < 64 && (a == 0 ==> b >= 32) && (a == 13 ==> b <= 31)
    requires s == [ToByte(0xE0 + a), ToByte(0x80 + b), ToByte(0x80 + d)] + rest
    ensures Utf8(s) <==> Utf8(rest)
  {
    assert s[3..] == rest;
  }

  lemma Starts4(s: Bytes, a: nat, b: nat, d: nat, e: nat, rest: Bytes)
    requires a <= 4 && b < 64 && d < 64 && e < 64 && (a == 0 ==> b >= 16) && (a == 4 ==> b <= 15)
    requires s == [ToByte(0xF0 + a), ToByte(0x80 + b), ToByte(0x80 + d), ToByte(0x80 + e)] + rest
    ensures Utf8(s) <==> Utf8(rest)
  {
    assert s[4..] == rest;
  }

  lemma Two(a: nat, b: nat)
    requires 0xC2 <= a <= 0xDF && 0x80 <= b <= 0xBF
    ensures var c := (a - 0xC0) * 64 + (b - 0x80); 0x80 <= c < 0x800 && Utf8Of(c) == [ToByte(a), ToByte(b)]
  {
  }

  lemma Three(a: nat, b: nat, d: nat)
    requires 0xE0 <= a <= 0xEF && 0x80 <= b <= 0xBF && 0x80 <= d <= 0xBF
    requires (a == 0xE0 ==> b >= 0xA0) && (a == 0xED ==> b <= 0x9F)
    ensures var c := (a - 0xE0) * 0x1000 + (b - 0x80) * 64 + (d - 0x80);
      0x800 <= c < 0x1_0000 && Scalar(c) && Utf8Of(c) == [ToByte(a), ToByte(b), ToByte(d)]
  {
    var c := (a - 0xE0) * 0x1000 + (b - 0x80) * 64 + (d - 0x80);
    assert c / 64 == (a - 0xE0) * 64 + (b - 0x80);
  }

  lemma Four(a: nat, b: nat, d: nat, e: nat)
    requires 0xF0 <= a <= 0xF4 && 0x80 <= b <= 0xBF && 0x80 <= d <= 0xBF && 0x80 <= e <= 0xBF
    requires (a == 0xF0 ==> b >= 0x90) && (a == 0xF4 ==> b <= 0x8F)
    ensures var c := (a - 0xF0) * 0x4_0000 + (b - 0x80) * 0x1000 + (d - 0x80) * 64 + (e - 0x80);
      0x1_0000 <= c <= 0x10FFFF && Utf8Of(c) == [ToByte(a), ToByte(b), ToByte(d), ToByte(e)]
  {
    var c := (a - 0xF0) * 0x4_0000 + (b - 0x80) * 0x1000 + (d - 0x80) * 64 + (e - 0x80);
    assert c / 64 == (a - 0xF0) * 0x1000 + (b - 0x80) * 64 + (d - 0x80);
    assert c / 0x1000 == (a - 0xF0) * 64 + (b - 0x80);
  }

  /** Well-formed text that is not empty starts with the encoding of a scalar value. */
  lemma FirstScalar(s: Bytes) returns (c: nat, rest: Bytes)
    requires Utf8(s) && s != []
    ensures Scalar(c) && s == Utf8Of(c) + rest
  {
    var b := Code(s[0]);
    if b < 0x80 {
      c, rest := b, s[1..];
    } else if b <= 0xDF {
      Two(b, Code(s[1]));
      c, rest := (b - 0xC0) * 64 + (Code(s[1]) - 0x80), s[2..];
      assert s == [s[0], s[1]] + rest;
    } else if b <= 0xEF {
      Three(b, Code(s[1]), Code(s[2]));
      c, rest := (b - 0xE0) * 0x1000 + (Code(s[1]) - 0x80) * 64 + (Code(s[2]) - 0x80), s[3..];
      assert s == [s[0], s[1], s[2]] + rest;
    } else {
      Four(b, Code(s[1]), Code(s[2]), Code(s[3]));
      c := (b - 0xF0) * 0x4_0000 + (Code(s[1]) - 0x80) * 0x1000 + (Code(s[2]) - 0x80) * 64 + (Code(s[3]) - 0x80);
      rest := s[4..];
      assert s == [s[0], s[1], s[2], s[3]] + rest;
    }
  }

  lemma {:induction false} TextIsUtf8(cs: seq<nat>)
    requires Scalars(cs)
    ensures Utf8(Utf8Text(cs))
  {
    if cs != [] {
      TextIsUtf8(cs[1..]);
      FirstIsUtf8(cs[0], Utf8Text(cs[1..]));
    }
  }

  lemma {:induction false} Utf8Spells(s: Bytes) returns (cs: seq<nat>)
    requires Utf8(s)
    ensures Scalars(cs) && s == Utf8Text(cs)
    decreases |s|
  {
    if s == [] {
      cs := [];
    } else {
      var c, rest := FirstScalar(s);
      FirstIsUtf8(c, rest);
      var more := Utf8Spells(rest);
      cs := [c] + more;
      assert cs[1..] == more;
    }
  }

  ghost predicate Spells(cs: seq<nat>, s: Bytes) { Scalars(cs) && s == Utf8Text(cs) }

  /** Bytes are taken for text exactly when they spell some scalar values. */
  lemma Utf8IffSpelled(s: Bytes)
    ensures Utf8(s) <==> exists cs :: Spells(cs, s)
  {
    if Utf8(s) {
      var cs := Utf8Spells(s);
      assert Spells(cs, s);
    }
    if cs :| Spells(cs, s) { TextIsUtf8(cs); }
  }

  // ---- object ids in hex ---------------------------------------------------

  function HexDigit(n: nat): Byte
    requires n < 16
  {
    if n < 10 then ToByte(48 + n) else ToByte(87 + n)
  }

  function Hex(id: Bytes): Bytes {
    if id == [] then [] else [HexDigit(Code(id[0]) / 16), HexDigit(Code(id[0]) % 16)] + Hex(id[1..])
  }

  predicate AllHex(key: Bytes) { forall i :: 0 <= i < |key| ==> LowerHex(key[i]) }

  lemma DigitOf(b: Byte) returns (n: nat)
    requires LowerHex(b)
    ensures n < 16 && HexDigit(n) == b
  {
    n := if Code(b) <= 57 then Code(b) - 48 else Code(b) - 87;
  }

  lemma {:induction false} HexIsHex(id: Bytes)
    ensures |Hex(id)| == 2 * |id| && AllHex(Hex(id))
  {
    if id != [] { HexIsHex(id[1..]); }
  }

  lemma {:induction false} HexReads(key: Bytes) returns (id: Bytes)
    requires AllHex(key) && |key| % 2 == 0
    ensures Hex(id) == key && 2 * |id| == |key|
    decreases |key|
  {
    if key == [] {
      id := [];
    } else {
      var m := DigitOf(key[0]);
      var n := DigitOf(key[1]);
      var more := HexReads(key[2..]);
      id := [ToByte(16 * m + n)] + more;
      assert id[1..] == more && key == [key[0], key[1]] + key[2..];
    }
  }

  /** An id key is the lower-case hex of thirty-two bytes. */
  lemma IdKeyIsHex(key: Bytes)
    ensures IdKey(key) <==> exists id :: |id| == 32 && Hex(id) == key
  {
    if IdKey(key) {
      var id := HexReads(key);
      assert |id| == 32 && Hex(id) == key;
    }
    if id :| |id| == 32 && Hex(id) == key { HexIsHex(id); }
  }

  // ---- names and paths -----------------------------------------------------

  /** A spelling cut at its slashes. */
  function Pieces(s: string): (r: seq<string>)
    ensures |r| > 0
    ensures forall i :: 0 <= i < |r| ==> '/' !in r[i]
  {
    if s == [] then [[]] else
    var more := Pieces(s[1..]);
    if s[0] == '/' then [[]] + more else [[s[0]] + more[0]] + more[1..]
  }

  /** Where walking the pieces leads: a dot stays, two dots go up, any other name goes down. */
  function WalkTo(at: Path, pieces: seq<string>): Path
    decreases |pieces|
  {
    if pieces == [] then at else
    var x := pieces[0];
    var next := if x == "" || x == "." then at
                else if x == ".." then (if at == [] then [] else at[..|at| - 1])
                else at + [x];
    WalkTo(next, pieces[1..])
  }

  predicate Slashless(p: Path) { forall i :: 0 <= i < |p| ==> '/' !in p[i] }

  lemma {:induction false} WalkIsSlashless(at: Path, pieces: seq<string>)
    requires Slashless(at) && Slashless(pieces)
    ensures Slashless(WalkTo(at, pieces))
    decreases |pieces|
  {
    if pieces != [] {
      var x := pieces[0];
      WalkIsSlashless(if x == "" || x == "." then at
                      else if x == ".." then (if at == [] then [] else at[..|at| - 1])
                      else at + [x], pieces[1..]);
    }
  }

  lemma {:induction false} OnePiece(s: string)
    requires '/' !in s
    ensures Pieces(s) == [s]
  {
    if s != [] {
      OnePiece(s[1..]);
      assert s == [s[0]] + s[1..];
    }
  }

  lemma {:induction false} FirstPiece(s: string, more: string)
    requires '/' !in s
    ensures Pieces(s + "/" + more) == [s] + Pieces(more)
  {
    var all := s + "/" + more;
    if s == [] {
      assert all[1..] == more && all[0] == '/';
    } else {
      FirstPiece(s[1..], more);
      assert all[1..] == s[1..] + "/" + more && all[0] == s[0];
      assert s == [s[0]] + s[1..];
    }
  }

  /** A name is valid exactly when it is short, free of NUL, and walking its spelling goes
      down to that one name: it is not empty, holds no slash, and is neither dot nor two dots. */
  lemma ValidNameIsOneStep(n: Name)
    ensures ValidName(n) <==> |n| <= 255 && '\0' !in n && WalkTo([], Pieces(n)) == [n]
  {
    if '/' in n {
      var none: Path := [];
      WalkIsSlashless(none, Pieces(n));
      SlashIsNoStep(n, WalkTo(none, Pieces(n)));
    } else {
      OnePiece(n);
      OneStep(n);
    }
  }

  lemma SlashIsNoStep(n: Name, p: Path)
    requires '/' in n && Slashless(p)
    ensures p != [n]
  {
    if |p| == 1 { assert '/' !in p[0]; }
  }

  lemma OneStep(n: Name)
    ensures WalkTo([], [n]) == [n] <==> n != "" && n != "." && n != ".."
  {
    var rest := [n][1..];
    assert rest == [];
    assert WalkTo([n], rest) == [n] && WalkTo([], rest) == [];
    assert [] + [n] == [n];
  }

  /** Walking the spelling of a valid path leads to that path. */
  lemma {:induction false} SpellingWalks(at: Path, p: Path)
    requires ValidPath(p)
    ensures WalkTo(at, Pieces(Join(p))) == at + p
    decreases |p|
  {
    if |p| == 1 {
      OnePiece(p[0]);
      assert [p[0]][1..] == [] && at + [p[0]] == at + p;
    } else {
      var pieces := Pieces(Join(p[1..]));
      FirstPiece(p[0], Join(p[1..]));
      assert ([p[0]] + pieces)[1..] == pieces;
      SpellingWalks(at + [p[0]], p[1..]);
      assert at + [p[0]] + p[1..] == at + p;
    }
  }
}
