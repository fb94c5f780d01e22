/** Entry names, their byte order, and slash-joined paths. */
module Names {

  datatype Option<+T> = None | Some(value: T)

  datatype Result<+T> = Ok(value: T) | Err(error: Error)

  /** Error kinds; their texts are not modelled. */
  datatype Error = Invalid | Corrupt | NotFound | Io

  /** A name is a byte string; each `char` stands for one byte. */
  type Name = string

  /** A path below a tree root, one name per component. */
  type Path = seq<Name>

  /** The order of `as_bytes().cmp`: bytewise, a proper prefix first. */
  predicate Less(a: string, b: string) {
    if b == [] then false
    else if a == [] then true
    else if a[0] != b[0] then a[0] < b[0]
    else Less(a[1..], b[1..])
  }

  lemma {:induction false} LessTrichotomy(a: string, b: string)
    ensures Less(a, b) || a == b || Less(b, a)
    ensures !(Less(a, b) && Less(b, a))
    ensures !(Less(a, b) && a == b)
  {
    if a == [] || b == [] {
    } else if a[0] == b[0] {
      LessTrichotomy(a[1..], b[1..]);
      assert a == [a[0]] + a[1..] && b == [b[0]] + b[1..];
    }
  }

  lemma {:induction false} LessTransitive(a: string, b: string, c: string)
    requires Less(a, b) && Less(b, c)
    ensures Less(a, c)
  {
    if a != [] && a[0] == b[0] == c[0] {
      LessTransitive(a[1..], b[1..], c[1..]);
    }
  }

  lemma LessIsStrictTotal()
    ensures forall a, b :: Less(a, b) || a == b || Less(b, a)
    ensures forall a, b :: !(Less(a, b) && Less(b, a))
    ensures forall a :: !Less(a, a)
    ensures forall a, b, c :: Less(a, b) && Less(b, c) ==> Less(a, c)
  {
    forall a, b ensures (Less(a, b) || a == b || Less(b, a)) && !(Less(a, b) && Less(b, a)) {
      LessTrichotomy(a, b);
    }
    forall a ensures !Less(a, a) { LessTrichotomy(a, a); }
    forall a, b, c | Less(a, b) && Less(b, c) ensures Less(a, c) { LessTransitive(a, b, c); }
  }

  predicate StrictlySorted(s: seq<string>) {
    forall i, j :: 0 <= i < j < |s| ==> Less(s[i], s[j])
  }

  lemma HeadBelowKeys(m: Name, keys: seq<Name>)
    requires keys != [] && StrictlySorted(keys) && Less(m, keys[0])
    ensures forall i :: 0 <= i < |keys| ==> Less(m, keys[i])
  {
    forall i | 0 <= i < |keys| ensures Less(m, keys[i]) {
      if i > 0 { LessTransitive(m, keys[0], keys[i]); }
    }
  }

  /** A strictly sorted sequence is determined by its set of elements. */
  lemma {:induction false} SortedUnique(s: seq<string>, t: seq<string>)
    requires StrictlySorted(s) && StrictlySorted(t)
    requires forall x :: x in s <==> x in t
    ensures s == t
  {
    LessIsStrictTotal();
    assert t != [] ==> t[0] in s;
    if s != [] {
      assert s[0] in t;
      assert s[0] == t[0];
      forall x ensures x in s[1..] <==> x in t[1..] {
        assert x in s <==> x == s[0] || x in s[1..];
        assert x in t <==> x == t[0] || x in t[1..];
        assert s[0] !in s[1..];
        assert t[0] !in t[1..];
      }
      SortedUnique(s[1..], t[1..]);
      assert s == [s[0]] + s[1..] && t == [t[0]] + t[1..];
    }
  }

  ghost predicate IsLeast(m: string, s: set<string>) {
    m in s && forall x :: x in s ==> x == m || Less(m, x)
  }

  lemma {:induction false} LeastExists(s: set<string>)
    requires s != {}
    ensures exists m :: IsLeast(m, s)
    decreases s
  {
    LessIsStrictTotal();
    var x :| x in s;
    if s == {x} {
      assert IsLeast(x, s);
    } else {
      assert s == {x} + (s - {x});
      LeastExists(s - {x});
      var y :| IsLeast(y, s - {x});
      assert IsLeast(if Less(x, y) then x else y, s);
    }
  }

  /** The elements of `s` in byte order. */
  ghost function SortedSeq(s: set<string>): (r: seq<string>)
    ensures StrictlySorted(r)
    ensures forall x :: x in r <==> x in s
    decreases s
  {
    if s == {} then []
    else
      LeastExists(s);
      var m :| IsLeast(m, s);
      [m] + SortedSeq(s - {m})
  }

  /** `names.into_iter().collect(); names.sort()`: insertion into a sorted vector. */
  method SortNames(s: set<string>) returns (r: seq<string>)
    ensures r == SortedSeq(s)
  {
    r := [];
    var rest := s;
    ghost var done: set<string> := {};
    while rest != {}
      invariant rest + done == s && rest !! done
      invariant StrictlySorted(r)
      invariant forall x :: x in r <==> x in done
      decreases rest
    {
      var x :| x in rest;
      r := InsertName(r, x);
      rest := rest - {x};
      done := done + {x};
    }
    SortedUnique(r, SortedSeq(s));
  }

  method InsertName(s: seq<string>, x: string) returns (r: seq<string>)
    requires StrictlySorted(s) && x !in s
    ensures StrictlySorted(r)
    ensures forall y :: y in r <==> y == x || y in s
  {
    var i := 0;
    while i < |s| && Less(s[i], x)
      invariant 0 <= i <= |s|
      invariant forall k :: 0 <= k < i ==> Less(s[k], x)
    {
      i := i + 1;
    }
    r := s[..i] + [x] + s[i..];
    forall k | i <= k < |s| ensures Less(x, s[k]) {
      assert s[i] in s;
      LessTrichotomy(x, s[i]);
      if i < k { LessTransitive(x, s[i], s[k]); }
    }
    InsertedAt(s, x, i, r);
  }

  /** What inserting one element into a sequence gives. */
  lemma InsertedAt<T>(s: seq<T>, x: T, i: nat, r: seq<T>)
    requires i <= |s| && r == s[..i] + [x] + s[i..]
    ensures |r| == |s| + 1
    ensures forall k :: 0 <= k < |r| ==> r[k] == if k < i then s[k] else if k == i then x else s[k - 1]
    ensures forall y :: y in r <==> y == x || y in s
  {
    assert s == s[..i] + s[i..];
  }

  /** `validate_name`. */
  predicate ValidName(n: Name) {
    && 0 < |n| <= 255
    && n != "." && n != ".."
    && '/' !in n && '\0' !in n
  }

  predicate ValidPath(p: Path) {
    |p| > 0 && forall i :: 0 <= i < |p| ==> ValidName(p[i])
  }

  /** The stored spelling of a path: components joined by `/`. */
  function Join(p: Path): string {
    if |p| == 0 then ""
    else if |p| == 1 then p[0]
    else p[0] + "/" + Join(p[1..])
  }

  /** Cutting at the first slash is unambiguous because no name contains one. */
  lemma FirstSlash(a: string, b: string, x: string, y: string)
    requires '/' !in a && '/' !in b
    requires a + "/" + x == b + "/" + y
    ensures a == b && x == y
  {
    var s := a + "/" + x;
    assert s[|a|] == '/' && s[|b|] == '/';
    assert forall i :: 0 <= i < |a| ==> s[i] == a[i];
    assert forall i :: 0 <= i < |b| ==> s[i] == b[i];
    assert |a| == |b|;
    assert a == s[..|a|] && b == s[..|b|];
    assert x == s[|a| + 1..] && y == s[|b| + 1..];
  }

  /** A spelling holds a slash exactly when the path has several components. */
  lemma OneComponent(p: Path)
    requires ValidPath(p)
    ensures |p| == 1 <==> '/' !in Join(p)
  {
    if |p| > 1 {
      assert Join(p)[|p[0]|] == '/';
    }
  }

  /** Two valid paths with one spelling are one path. */
  lemma {:induction false} JoinInjective(p: Path, q: Path)
    requires ValidPath(p) && ValidPath(q)
    requires Join(p) == Join(q)
    ensures p == q
  {
    OneComponent(p);
    OneComponent(q);
    if |p| == 1 {
      assert p == [p[0]] && q == [q[0]];
    } else {
      FirstSlash(p[0], q[0], Join(p[1..]), Join(q[1..]));
      JoinInjective(p[1..], q[1..]);
      assert p == [p[0]] + p[1..] && q == [q[0]] + q[1..];
    }
  }

  lemma {:induction false} JoinConcat(p: Path, q: Path)
    requires |p| > 0 && |q| > 0
    ensures Join(p + q) == Join(p) + "/" + Join(q)
  {
    if |p| == 1 {
      assert (p + q)[1..] == q;
    } else {
      assert (p + q)[1..] == p[1..] + q;
      JoinConcat(p[1..], q);
    }
  }

  predicate HasPrefix(s: string, t: string) { |t| <= |s| && s[..|t|] == t }

  /** `path == c || path.starts_with(c + "/")` on spellings is "at or below" on
      components: `dir` is not a prefix of `dir2`. */
  lemma {:induction false} AtOrBelowSpelling(c: Path, p: Path)
    requires ValidPath(c) && ValidPath(p)
    ensures (Join(p) == Join(c) || HasPrefix(Join(p), Join(c) + "/")) <==> c <= p
  {
    if c <= p {
      if c != p {
        var rest := p[|c|..];
        assert p == c + rest;
        JoinConcat(c, rest);
        assert Join(p)[..|Join(c)| + 1] == Join(c) + "/";
      }
    }
    if Join(p) == Join(c) {
      JoinInjective(p, c);
    } else if HasPrefix(Join(p), Join(c) + "/") {
      BelowSpelling(c, p);
    }
  }

  lemma {:induction false} BelowSpelling(c: Path, p: Path)
    requires ValidPath(c) && ValidPath(p)
    requires HasPrefix(Join(p), Join(c) + "/")
    ensures c <= p && c != p
  {
    var tail := Join(p)[|Join(c)| + 1..];
    assert Join(p) == Join(c) + "/" + tail;
    assert Join(p)[|Join(c)|] == '/';
    OneComponent(p);
    if |c| == 1 {
      FirstSlash(c[0], p[0], tail, Join(p[1..]));
      assert c == p[..1];
    } else {
      assert Join(p) == c[0] + "/" + (Join(c[1..]) + "/" + tail);
      FirstSlash(c[0], p[0], Join(c[1..]) + "/" + tail, Join(p[1..]));
      assert Join(p[1..])[..|Join(c[1..])| + 1] == Join(c[1..]) + "/";
      BelowSpelling(c[1..], p[1..]);
      assert c == [c[0]] + c[1..] && p == [p[0]] + p[1..];
    }
  }

  /** `strip_path_prefix`: cut a directory prefix only on a `/` boundary. */
  function StripPathPrefix(path: string, prefix: string): Option<string> {
    if prefix == "" then Some(path)
    else if path == prefix then Some("")
    else if |path| > |prefix| && path[|prefix|] == '/' && HasPrefix(path, prefix) then Some(path[|prefix| + 1..])
    else None
  }

  /** On spellings of valid paths it drops leading components and nothing else. */
  lemma StripSpelling(p: Path, c: Path)
    requires ValidPath(p) && (c == [] || ValidPath(c))
    ensures StripPathPrefix(Join(p), Join(c)) == if c <= p then Some(Join(p[|c|..])) else None
  {
    if c == [] {
      assert p[0..] == p;
    } else {
      AtOrBelowSpelling(c, p);
      JoinNonempty(c);
      if c == p {
        assert p[|c|..] == [];
      } else if c <= p {
        assert p == c + p[|c|..];
        JoinConcat(c, p[|c|..]);
        CutJoined(Join(c), Join(p[|c|..]));
      } else {
        NotCut(Join(p), Join(c));
      }
    }
  }

  lemma JoinNonempty(c: Path)
    requires ValidPath(c)
    ensures Join(c) != ""
  {
    if |c| > 1 { assert |Join(c)| > |c[0]|; }
  }

  lemma CutJoined(c: string, rest: string)
    requires c != ""
    ensures StripPathPrefix(c + "/" + rest, c) == Some(rest)
  {
    var s := c + "/" + rest;
    assert s[|c|] == '/' && s[..|c|] == c && s[|c| + 1..] == rest;
  }

  lemma NotCut(s: string, c: string)
    requires c != "" && s != c && !HasPrefix(s, c + "/")
    ensures StripPathPrefix(s, c) == None
  {
    if |s| > |c| {
      assert s[..|c| + 1] == s[..|c|] + [s[|c|]];
      assert (c + "/")[..|c|] == c;
    }
  }
}
