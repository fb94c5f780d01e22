/** The typed graph of immutable objects: what each kind of object names, by its fields. */
module ObjectGraph {
  import opened Names
  import opened Reach

  type Id = string

  datatype ObjectType = Blob | Tree | Commit | Conflict | Snapshot | Contribution

  datatype Expectation = Any | Exact(expected: ObjectType) | TreeEntry

  datatype GraphEdge = GraphEdge(id: Id, expected: Expectation)

  /** The entries a conflicting path had on either side and in the base. */
  datatype Sides = Sides(a: Option<Id>, b: Option<Id>, base: Option<Id>)

  /** A decoded object, reduced to the ids it names. */
  datatype Decoded =
    | BlobObject
    | TreeObject(entries: seq<(ObjectType, Id)>)
    | CommitObject(tree: Id, parents: seq<Id>, contribution: Option<Id>)
    | ConflictObject(bases: seq<Id>, ours: Id, theirs: Id, causal: seq<Id>, paths: seq<Sides>)
    | SnapshotObject(tree: Id, commit: Id, provenance: Id)
    | ContributionObject(base: Id, tree: Id, parents: seq<Id>, readIds: seq<Id>)

  /** The objects that rehash to their id and decode. */
  type Objects = map<Id, Decoded>

  function TypeOf(d: Decoded): ObjectType {
    match d
    case BlobObject => Blob
    case TreeObject(_) => Tree
    case CommitObject(_, _, _) => Commit
    case ConflictObject(_, _, _, _, _) => Conflict
    case SnapshotObject(_, _, _) => Snapshot
    case ContributionObject(_, _, _, _) => Contribution
  }

  function AllOf(ids: seq<Id>, e: Expectation): seq<GraphEdge> {
    seq(|ids|, i requires 0 <= i < |ids| => GraphEdge(ids[i], e))
  }

  function Maybe(id: Option<Id>): seq<GraphEdge> { if id.Some? then [GraphEdge(id.value, Any)] else [] }

  function SideEdges(paths: seq<Sides>): seq<GraphEdge> {
    if paths == [] then [] else Maybe(paths[0].a) + Maybe(paths[0].b) + Maybe(paths[0].base) + SideEdges(paths[1..])
  }

  /** `decode_graph_object`: every outbound edge with the type it demands. */
  function EdgesOf(d: Decoded): seq<GraphEdge> {
    match d
    case BlobObject => []
    case TreeObject(entries) =>
      seq(|entries|, i requires 0 <= i < |entries| => GraphEdge(entries[i].1, Exact(entries[i].0)))
    case CommitObject(tree, parents, contribution) =>
      [GraphEdge(tree, Exact(Tree))] + AllOf(parents, Exact(Commit))
      + (if contribution.Some? then [GraphEdge(contribution.value, Exact(Contribution))] else [])
    case ConflictObject(bases, ours, theirs, causal, paths) =>
      AllOf(bases, Exact(Tree)) + [GraphEdge(ours, Exact(Tree)), GraphEdge(theirs, Exact(Tree))]
      + AllOf(causal, Exact(Commit)) + SideEdges(paths)
    case SnapshotObject(tree, commit, provenance) =>
      [GraphEdge(tree, Exact(Tree)), GraphEdge(commit, Exact(Commit)), GraphEdge(provenance, Exact(Blob))]
    case ContributionObject(base, tree, parents, readIds) =>
      [GraphEdge(base, Exact(Commit)), GraphEdge(tree, Exact(Tree))]
      + AllOf(parents, Exact(Commit)) + AllOf(readIds, Exact(Blob))
  }

  predicate Accepts(e: Expectation, t: ObjectType) {
    match e
    case Any => true
    case Exact(expected) => t == expected
    case TreeEntry => t == Blob || t == Tree
  }

  // ---- the edges as adjacency ----------------------------------------------

  function Targets(es: seq<GraphEdge>): seq<Id> { seq(|es|, i requires 0 <= i < |es| => es[i].id) }

  function Links(objs: Objects): Graph { map id | id in objs :: Targets(EdgesOf(objs[id])) }

  // ---- the same, by the fields of each kind --------------------------------

  predicate HasType(d: Decoded, t: ObjectType) {
    match t
    case Blob => d.BlobObject?
    case Tree => d.TreeObject?
    case Commit => d.CommitObject?
    case Conflict => d.ConflictObject?
    case Snapshot => d.SnapshotObject?
    case Contribution => d.ContributionObject?
  }

  /** An object that may stand where this is expected. */
  predicate Suits(e: Expectation, d: Decoded) {
    && (e.Exact? ==> HasType(d, e.expected))
    && (e.TreeEntry? ==> d.BlobObject? || d.TreeObject?)
  }

  predicate SideOf(s: Sides, id: Id) { s.a == Some(id) || s.b == Some(id) || s.base == Some(id) }

  predicate OnPath(paths: seq<Sides>, id: Id) { exists i :: 0 <= i < |paths| && SideOf(paths[i], id) }

  /** One of the object's own fields holds the id and asks for this type there. */
  predicate Asks(d: Decoded, id: Id, e: Expectation) {
    match e
    case TreeEntry => false
    case Any => d.ConflictObject? && OnPath(d.paths, id)
    case Exact(t) =>
      || (d.TreeObject? && (t, id) in d.entries)
      || (t == Blob && ((d.SnapshotObject? && id == d.provenance) || (d.ContributionObject? && id in d.readIds)))
      || (t == Tree && (
           || (d.CommitObject? && id == d.tree) || (d.SnapshotObject? && id == d.tree)
           || (d.ContributionObject? && id == d.tree)
           || (d.ConflictObject? && (id in d.bases || id == d.ours || id == d.theirs))))
      || (t == Commit && (
           || (d.CommitObject? && id in d.parents) || (d.SnapshotObject? && id == d.commit)
           || (d.ContributionObject? && (id == d.base || id in d.parents))
           || (d.ConflictObject? && id in d.causal)))
      || (t == Contribution && d.CommitObject? && d.contribution == Some(id))
  }

  ghost predicate NamesId(d: Decoded, id: Id) { exists e :: Asks(d, id, e) }

  lemma AllOfHolds(ids: seq<Id>, e: Expectation, c: GraphEdge)
    ensures c in AllOf(ids, e) <==> c.id in ids && c.expected == e
  {
    if c.id in ids && c.expected == e {
      var i :| 0 <= i < |ids| && ids[i] == c.id;
      assert AllOf(ids, e)[i] == c;
    }
  }

  lemma OnPathStep(paths: seq<Sides>, id: Id)
    requires paths != []
    ensures OnPath(paths, id) <==> SideOf(paths[0], id) || OnPath(paths[1..], id)
  {
    assert forall i :: 0 <= i < |paths[1..]| ==> paths[1..][i] == paths[i + 1];
    if i :| 0 <= i < |paths| && SideOf(paths[i], id) {
      if i > 0 { assert SideOf(paths[1..][i - 1], id); }
    }
  }

  lemma MaybeHolds(id: Option<Id>, c: GraphEdge)
    ensures c in Maybe(id) <==> c.expected == Any && id == Some(c.id)
  {
  }

  lemma {:induction false} SideEdgesHold(paths: seq<Sides>, c: GraphEdge)
    ensures c in SideEdges(paths) <==> c.expected == Any && OnPath(paths, c.id)
  {
    if paths != [] {
      OnPathStep(paths, c.id);
      SideEdgesHold(paths[1..], c);
      MaybeHolds(paths[0].a, c);
      MaybeHolds(paths[0].b, c);
      MaybeHolds(paths[0].base, c);
    }
  }

  lemma EntryEdges(entries: seq<(ObjectType, Id)>, c: GraphEdge)
    ensures c in EdgesOf(TreeObject(entries)) <==> c.expected.Exact? && (c.expected.expected, c.id) in entries
  {
    var es := EdgesOf(TreeObject(entries));
    if c.expected.Exact? && (c.expected.expected, c.id) in entries {
      var i :| 0 <= i < |entries| && entries[i] == (c.expected.expected, c.id);
      assert es[i] == c;
    }
    if c in es {
      var i :| 0 <= i < |es| && es[i] == c;
      assert entries[i] == (c.expected.expected, c.id);
    }
  }

  /** The edges are what the fields ask for: no field is skipped, none is invented. */
  lemma EdgesAreFields(d: Decoded, c: GraphEdge)
    ensures c in EdgesOf(d) <==> Asks(d, c.id, c.expected)
  {
    match d
    case BlobObject =>
    case TreeObject(entries) => EntryEdges(entries, c);
    case CommitObject(_, parents, _) => AllOfHolds(parents, Exact(Commit), c);
    case ConflictObject(bases, _, _, causal, paths) =>
      AllOfHolds(bases, Exact(Tree), c);
      AllOfHolds(causal, Exact(Commit), c);
      SideEdgesHold(paths, c);
    case SnapshotObject(_, _, _) =>
    case ContributionObject(_, _, parents, readIds) =>
      AllOfHolds(parents, Exact(Commit), c);
      AllOfHolds(readIds, Exact(Blob), c);
  }

  lemma AcceptsSuits(e: Expectation, d: Decoded)
    ensures Accepts(e, TypeOf(d)) <==> Suits(e, d)
  {
  }

  // ---- reachability by fields ----------------------------------------------

  ghost predicate FieldChain(objs: Objects, p: seq<Id>) {
    |p| > 0 && forall i :: 0 <= i < |p| - 1 ==> p[i] in objs && NamesId(objs[p[i]], p[i + 1])
  }

  ghost predicate FieldChainTo(objs: Objects, a: Id, x: Id, p: seq<Id>) {
    FieldChain(objs, p) && p[0] == a && p[|p| - 1] == x
  }

  /** `x` is `a`, or named by an object `a` leads to. */
  ghost predicate LeadsTo(objs: Objects, a: Id, x: Id) { exists p :: FieldChainTo(objs, a, x, p) }

  /** Some root leads to `x`. */
  ghost predicate Held(objs: Objects, roots: seq<GraphEdge>, x: Id) {
    exists c :: c in roots && LeadsTo(objs, c.id, x)
  }

  lemma LinkIsField(objs: Objects, x: Id, y: Id)
    ensures Edge(Links(objs), x, y) <==> x in objs && NamesId(objs[x], y)
  {
    if x in objs {
      var es := EdgesOf(objs[x]);
      if Edge(Links(objs), x, y) {
        var i :| 0 <= i < |es| && Targets(es)[i] == y;
        assert es[i] in es;
        EdgesAreFields(objs[x], es[i]);
        assert Asks(objs[x], y, es[i].expected);
      }
      if NamesId(objs[x], y) {
        var e :| Asks(objs[x], y, e);
        EdgesAreFields(objs[x], GraphEdge(y, e));
        var i :| 0 <= i < |es| && es[i] == GraphEdge(y, e);
        assert Targets(es)[i] == y;
      }
    }
  }

  lemma LeadsIsReach(objs: Objects, a: Id, x: Id)
    ensures LeadsTo(objs, a, x) <==> Reaches(Links(objs), a, x)
  {
    var g := Links(objs);
    forall y, z ensures Edge(g, y, z) <==> y in objs && NamesId(objs[y], z) { LinkIsField(objs, y, z); }
    if LeadsTo(objs, a, x) {
      var p :| FieldChainTo(objs, a, x, p);
      forall i | 0 <= i < |p| - 1 ensures Edge(g, p[i], p[i + 1]) { assert NamesId(objs[p[i]], p[i + 1]); }
      assert ChainTo(g, a, x, p);
    }
    if Reaches(g, a, x) {
      var p :| ChainTo(g, a, x, p);
      forall i | 0 <= i < |p| - 1 ensures p[i] in objs && NamesId(objs[p[i]], p[i + 1]) { assert Edge(g, p[i], p[i + 1]); }
      assert FieldChainTo(objs, a, x, p);
    }
  }
}
