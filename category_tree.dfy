/** `buildCategoryTree` of the category hook: a flat list of category
    records becomes a forest in which every record hangs under the record
    whose id its `parent` names.

    The builder filters the whole list once per node and recurses into
    each selected record. With unique ids the records met along any
    root-to-node path have pairwise distinct ids, so the recursion is at
    most as deep as the list is long and a parent cycle among non-root
    records is simply never reached. */
module CategoryTree {

  import opened Wrappers
  import opened Catalog
  import Arrays

  /** `Category & { children }`: a record and the nodes built under it. */
  datatype Node = Node(record: Category, children: seq<Node>)

  /** The id a record names as its parent, `None` when `parent` is falsy
      (absent, `null` or `''`). */
  function ParentKey(c: Category): Option<string> {
    match c.parent
    case Absent => None
    case ById(id) => if id == "" then None else Some(id)
    case ByObject(id) => Some(id)
  }

  /** The builder's filter callback: a falsy parent matches only the root
      call, any other parent matches the call for its id. */
  predicate IsChildOf(c: Category, parentId: Option<string>) {
    if c.parent.Absent? || c.parent == ById("") then parentId == None
    else parentId == Some(c.parent.id)
  }

  lemma IsChildOfIffParentKey(c: Category, parentId: Option<string>)
    ensures IsChildOf(c, parentId) <==> ParentKey(c) == parentId
  {
  }

  function ChildTest(parentId: Option<string>): Category -> bool {
    c => IsChildOf(c, parentId)
  }

  /** `categories.filter(...)` for one `parentId`. */
  function Select(cats: seq<Category>, parentId: Option<string>): seq<Category> {
    Arrays.Filter(cats, ChildTest(parentId))
  }

  function Records(forest: seq<Node>): (r: seq<Category>)
    ensures |r| == |forest|
    ensures forall k :: 0 <= k < |forest| ==> r[k] == forest[k].record
  {
    seq(|forest|, k requires 0 <= k < |forest| => forest[k].record)
  }

  /** `_id`s are unique, as the database guarantees. */
  predicate UniqueIds(cats: seq<Category>) {
    forall i, j :: 0 <= i < j < |cats| ==> cats[i].id != cats[j].id
  }

  ghost function IdSet(cats: seq<Category>): set<string> {
    set c | c in cats :: c.id
  }

  /** `q` is a chain of records of `cats`, each the child of the one
      before, whose first record is a child of `parentId`. */
  ghost predicate ChainFrom(cats: seq<Category>, parentId: Option<string>, q: seq<Category>) {
    (forall k :: 0 <= k < |q| ==> q[k] in cats) &&
    (q != [] ==> ParentKey(q[0]) == parentId) &&
    (forall k :: 0 < k < |q| ==> ParentKey(q[k]) == Some(q[k - 1].id))
  }

  /** The call's `parentId` at the end of the ancestor chain `anc`. */
  function ParentOf(anc: seq<Category>): Option<string> {
    if anc == [] then None else Some(anc[|anc| - 1].id)
  }

  /** Every node's children are exactly the records whose parent is the
      node's id, in input order, each built the same way. */
  ghost predicate Built(cats: seq<Category>, n: Node)
    decreases n
  {
    Records(n.children) == Select(cats, Some(n.record.id)) &&
    forall k :: 0 <= k < |n.children| ==> Built(cats, n.children[k])
  }

  /** A forest assembled for `parentId`: its roots are the selected
      records and every node is built. */
  ghost predicate Assembled(cats: seq<Category>, forest: seq<Node>, parentId: Option<string>) {
    Records(forest) == Select(cats, parentId) &&
    forall k :: 0 <= k < |forest| ==> Built(cats, forest[k])
  }

  // ----- Termination: ids along a chain from a root are distinct

  /** Different records of a list with unique ids have different ids. */
  lemma DistinctRecordsDistinctIds(cats: seq<Category>, a: Category, b: Category)
    requires UniqueIds(cats) && a in cats && b in cats && a != b
    ensures a.id != b.id
  {
    var i :| 0 <= i < |cats| && cats[i] == a;
    var j :| 0 <= j < |cats| && cats[j] == b;
    assert i != j;
  }

  /** In a chain from a root, position `p` and a later position `q` hold
      different ids. Going back from `p` and `q` together, parents stay
      different until the front, where a root (no parent) faces a record
      that has one. */
  lemma {:induction false} ChainNoRepeat(cats: seq<Category>, anc: seq<Category>, p: nat, q: nat)
    requires UniqueIds(cats) && ChainFrom(cats, None, anc)
    requires p < q < |anc|
    ensures anc[p].id != anc[q].id
    decreases p
  {
    assert ParentKey(anc[q]) == Some(anc[q - 1].id);
    if p > 0 {
      ChainNoRepeat(cats, anc, p - 1, q - 1);
      assert ParentKey(anc[p]) == Some(anc[p - 1].id);
    }
    assert ParentKey(anc[p]) != ParentKey(anc[q]);
    DistinctRecordsDistinctIds(cats, anc[p], anc[q]);
  }

  lemma ChainIdsDistinct(cats: seq<Category>, anc: seq<Category>)
    requires UniqueIds(cats) && ChainFrom(cats, None, anc)
    ensures forall p, q :: 0 <= p < q < |anc| ==> anc[p].id != anc[q].id
  {
    forall p, q | 0 <= p < q < |anc| ensures anc[p].id != anc[q].id {
      ChainNoRepeat(cats, anc, p, q);
    }
  }

  /** Extending a chain by a record the current call selects keeps it a
      chain, and the new record's id is not yet on it. */
  lemma ChainExtends(cats: seq<Category>, anc: seq<Category>, c: Category)
    requires UniqueIds(cats) && ChainFrom(cats, None, anc)
    requires c in cats && IsChildOf(c, ParentOf(anc))
    ensures ChainFrom(cats, None, anc + [c])
    ensures c.id in IdSet(cats) - IdSet(anc)
    ensures IdSet(anc + [c]) == IdSet(anc) + {c.id}
  {
    var ext := anc + [c];
    assert forall k :: 0 <= k < |anc| ==> ext[k] == anc[k];
    ChainIdsDistinct(cats, ext);
    forall x | x in anc ensures x.id != c.id {
      var k :| 0 <= k < |anc| && anc[k] == x;
      assert ext[k] == x && ext[|anc|] == c;
    }
  }

  /** One step of the filter: the record at `from`, then the rest. */
  lemma SelectStep(cats: seq<Category>, parentId: Option<string>, from: nat)
    requires from < |cats|
    ensures Select(cats[from..], parentId) ==
            (if IsChildOf(cats[from], parentId) then [cats[from]] else []) + Select(cats[from + 1..], parentId)
  {
    assert cats[from..][1..] == cats[from + 1..];
  }

  lemma NodeBuilt(cats: seq<Category>, n: Node)
    requires Records(n.children) == Select(cats[0..], Some(n.record.id))
    requires forall k :: 0 <= k < |n.children| ==> Built(cats, n.children[k])
    ensures Built(cats, n)
  {
    assert cats[0..] == cats;
  }

  lemma Prepend(n: Node, rest: seq<Node>)
    ensures Records([n] + rest) == [n.record] + Records(rest)
  {
  }

  /** The builder for the records from index `from` on, for the call
      whose `parentId` ends the ancestor chain `anc`. Selecting a record
      and building its children is the source's `filter` then `map`. */
  function Children(cats: seq<Category>, parentId: Option<string>, ghost anc: seq<Category>, from: nat)
    : (forest: seq<Node>)
    requires UniqueIds(cats) && ChainFrom(cats, None, anc) && parentId == ParentOf(anc)
    requires from <= |cats|
    ensures Records(forest) == Select(cats[from..], parentId)
    ensures forall k :: 0 <= k < |forest| ==> Built(cats, forest[k])
    decreases IdSet(cats) - IdSet(anc), |cats| - from
  {
    if from == |cats| then
      []
    else
      var c := cats[from];
      SelectStep(cats, parentId, from);
      var rest := Children(cats, parentId, anc, from + 1);
      if IsChildOf(c, parentId) then
        ChainExtends(cats, anc, c);
        var n := Node(c, Children(cats, Some(c.id), anc + [c], 0));
        NodeBuilt(cats, n);
        Prepend(n, rest);
        [n] + rest
      else
        rest
  }

  /** `buildCategoryTree(categories)`: the forest of root records. */
  function BuildCategoryTree(cats: seq<Category>): (forest: seq<Node>)
    requires UniqueIds(cats)
    ensures Assembled(cats, forest, None)
  {
    assert cats[0..] == cats;
    Children(cats, None, [], 0)
  }

  // ----- What the built forest holds

  /** The records of a forest in preorder: a node, its subtree, then the
      following siblings. */
  function Flatten(forest: seq<Node>): seq<Category>
    decreases forest
  {
    if forest == [] then []
    else [forest[0].record] + Flatten(forest[0].children) + Flatten(forest[1..])
  }

  /** `p` walks down from a root of `forest`, each node a child of the one
      before. */
  predicate IsForestPath(forest: seq<Node>, p: seq<Node>) {
    p != [] && p[0] in forest && forall k :: 0 < k < |p| ==> p[k] in p[k - 1].children
  }

  /** `q` is a chain of parents from a root record down to `e`. */
  ghost predicate RootChain(cats: seq<Category>, q: seq<Category>, e: Category) {
    q != [] && ChainFrom(cats, None, q) && q[|q| - 1] == e
  }

  lemma UniqueIdsNoDuplicates(cats: seq<Category>)
    requires UniqueIds(cats)
    ensures Arrays.NoDuplicates(cats)
  {
  }

  lemma SameIdSameRecord(cats: seq<Category>, a: Category, b: Category)
    requires UniqueIds(cats) && a in cats && b in cats && a.id == b.id
    ensures a == b
  {
    var i :| 0 <= i < |cats| && cats[i] == a;
    var j :| 0 <= j < |cats| && cats[j] == b;
    assert cats[i].id == cats[j].id;
    assert i == j;
  }

  /** What `Select` keeps: records of the list whose parent key matches. */
  lemma SelectMembers(cats: seq<Category>, parentId: Option<string>)
    ensures forall k :: 0 <= k < |Select(cats, parentId)| ==>
      Select(cats, parentId)[k] in cats && ParentKey(Select(cats, parentId)[k]) == parentId
    ensures forall k :: 0 <= k < |cats| && ParentKey(cats[k]) == parentId ==> cats[k] in Select(cats, parentId)
    ensures Arrays.IsSubsequence(Select(cats, parentId), cats)
  {
    var r := Select(cats, parentId);
    forall k | 0 <= k < |r| ensures r[k] in cats && ParentKey(r[k]) == parentId {
      assert ChildTest(parentId)(r[k]);
      IsChildOfIffParentKey(r[k], parentId);
    }
    forall k | 0 <= k < |cats| && ParentKey(cats[k]) == parentId ensures cats[k] in r {
      IsChildOfIffParentKey(cats[k], parentId);
      assert ChildTest(parentId)(cats[k]);
    }
    Arrays.FilterIsSubsequence(cats, ChildTest(parentId));
  }

  /** The roots of the built forest are exactly the records with a falsy
      parent, each once, in input order. */
  lemma RootsAreParentless(cats: seq<Category>)
    requires UniqueIds(cats)
    ensures var roots := Records(BuildCategoryTree(cats));
      (forall k :: 0 <= k < |roots| ==> roots[k] in cats && ParentKey(roots[k]) == None) &&
      (forall k :: 0 <= k < |cats| && ParentKey(cats[k]) == None ==> cats[k] in roots) &&
      Arrays.IsSubsequence(roots, cats) && Arrays.NoDuplicates(roots)
  {
    SelectMembers(cats, None);
    UniqueIdsNoDuplicates(cats);
    Arrays.FilterNoDuplicates(cats, ChildTest(None));
  }

  lemma ChainCons(cats: seq<Category>, parentId: Option<string>, c: Category, q: seq<Category>)
    requires c in cats && ParentKey(c) == parentId && ChainFrom(cats, Some(c.id), q)
    ensures ChainFrom(cats, parentId, [c] + q)
  {
    var r := [c] + q;
    assert forall k :: 0 < k < |r| ==> r[k] == q[k - 1];
  }

  /** A root of an assembled forest is a built node selected for its
      `parentId`. */
  lemma AssembledRoot(cats: seq<Category>, forest: seq<Node>, parentId: Option<string>, n: Node)
    requires Assembled(cats, forest, parentId) && n in forest
    ensures Built(cats, n) && n.record in cats && ParentKey(n.record) == parentId
  {
    var i :| 0 <= i < |forest| && forest[i] == n;
    assert Records(forest)[i] == n.record;
    SelectMembers(cats, parentId);
  }

  /** Walking down a path of an assembled forest meets built nodes whose
      records form a chain of parents. */
  lemma {:induction false} PathIsChain(cats: seq<Category>, forest: seq<Node>, parentId: Option<string>, p: seq<Node>)
    requires Assembled(cats, forest, parentId) && IsForestPath(forest, p)
    ensures ChainFrom(cats, parentId, Records(p))
    ensures forall k :: 0 <= k < |p| ==> Built(cats, p[k])
    decreases |p|
  {
    AssembledRoot(cats, forest, parentId, p[0]);
    var rest := p[1..];
    assert Records(p) == [p[0].record] + Records(rest);
    if rest != [] {
      assert IsForestPath(p[0].children, rest) by {
        forall k | 0 < k < |rest| ensures rest[k] in rest[k - 1].children {
          assert rest[k] == p[k + 1] && rest[k - 1] == p[k];
        }
      }
      PathIsChain(cats, p[0].children, Some(p[0].record.id), rest);
      ChainCons(cats, parentId, p[0].record, Records(rest));
      forall k | 0 < k < |p| ensures Built(cats, p[k]) {
        assert p[k] == rest[k - 1];
      }
    }
  }

  /** Along any root-to-node path of the built forest each record is a
      child of the one before, ids never repeat, and so no path is longer
      than the list: the recursion always ends. */
  lemma PathsAreChains(cats: seq<Category>, p: seq<Node>)
    requires UniqueIds(cats) && IsForestPath(BuildCategoryTree(cats), p)
    ensures ChainFrom(cats, None, Records(p))
    ensures forall i, j :: 0 <= i < j < |p| ==> p[i].record.id != p[j].record.id
    ensures |p| <= |cats|
  {
    var q := Records(p);
    PathIsChain(cats, BuildCategoryTree(cats), None, p);
    ChainIdsDistinct(cats, q);
    var ids := seq(|q|, k requires 0 <= k < |q| => q[k].id);
    var all := seq(|cats|, k requires 0 <= k < |cats| => cats[k].id);
    Arrays.NoDuplicatesCard(ids);
    Arrays.SetCardBound(all);
    forall x | x in ids ensures x in all {
      var k :| 0 <= k < |ids| && ids[k] == x;
      var j :| 0 <= j < |cats| && cats[j] == q[k];
      assert all[j] == x;
    }
    Arrays.SubsetCard(set x | x in ids, set x | x in all);
  }

  /** Under any node of the built forest hang exactly the records whose
      parent is that node's id, in input order. */
  lemma ChildrenAreItsChildren(cats: seq<Category>, p: seq<Node>)
    requires UniqueIds(cats) && IsForestPath(BuildCategoryTree(cats), p)
    ensures var n := p[|p| - 1]; var kids := Records(n.children);
      (forall k :: 0 <= k < |kids| ==> kids[k] in cats && ParentKey(kids[k]) == Some(n.record.id)) &&
      (forall k :: 0 <= k < |cats| && ParentKey(cats[k]) == Some(n.record.id) ==> cats[k] in kids) &&
      Arrays.IsSubsequence(kids, cats)
  {
    PathIsChain(cats, BuildCategoryTree(cats), None, p);
    SelectMembers(cats, Some(p[|p| - 1].record.id));
  }

  /** A forest's contract fixes it completely: two forests assembled for
      the same list and parent are equal. */
  lemma {:induction false} AssembledUnique(cats: seq<Category>, f1: seq<Node>, f2: seq<Node>, parentId: Option<string>)
    requires Assembled(cats, f1, parentId) && Assembled(cats, f2, parentId)
    ensures f1 == f2
    decreases f1
  {
    assert |f1| == |Records(f1)| == |Records(f2)| == |f2|;
    forall k | 0 <= k < |f1| ensures f1[k] == f2[k] {
      assert f1[k].record == Records(f1)[k] == Records(f2)[k] == f2[k].record;
      assert Built(cats, f1[k]) && Built(cats, f2[k]);
      AssembledUnique(cats, f1[k].children, f2[k].children, Some(f1[k].record.id));
    }
  }

  // ----- Each record appears at most once, and exactly when rooted

  /** A forest hanging under `parentId`: distinct records of the list
      whose parent is `parentId`, each node built. */
  ghost predicate Hangs(cats: seq<Category>, g: seq<Node>, parentId: Option<string>) {
    (forall k :: 0 <= k < |g| ==> g[k].record in cats && ParentKey(g[k].record) == parentId && Built(cats, g[k])) &&
    Arrays.NoDuplicates(Records(g))
  }

  lemma AssembledHangs(cats: seq<Category>, g: seq<Node>, parentId: Option<string>)
    requires UniqueIds(cats) && Assembled(cats, g, parentId)
    ensures Hangs(cats, g, parentId)
  {
    SelectMembers(cats, parentId);
    UniqueIdsNoDuplicates(cats);
    Arrays.FilterNoDuplicates(cats, ChildTest(parentId));
    forall k | 0 <= k < |g| ensures g[k].record in cats && ParentKey(g[k].record) == parentId {
      assert g[k].record == Records(g)[k];
    }
  }

  lemma RootChainEnd(cats: seq<Category>, q: seq<Category>)
    requires q != [] && ChainFrom(cats, None, q)
    ensures ParentKey(q[|q| - 1]) == None <==> |q| == 1
  {
    if |q| > 1 {
      assert ParentKey(q[|q| - 1]) == Some(q[|q| - 2].id);
    }
  }

  lemma ChainPrefix(cats: seq<Category>, parentId: Option<string>, q: seq<Category>, n: nat)
    requires ChainFrom(cats, parentId, q) && n <= |q|
    ensures ChainFrom(cats, parentId, q[..n])
  {
    assert forall k :: 0 <= k < n ==> q[..n][k] == q[k];
  }

  /** Two chains of parents from a root that end at the same record are the
      same chain: a record's ancestry is determined by the record. */
  lemma {:induction false} ChainUnique(cats: seq<Category>, q1: seq<Category>, q2: seq<Category>)
    requires UniqueIds(cats) && ChainFrom(cats, None, q1) && ChainFrom(cats, None, q2)
    requires q1 != [] && q2 != [] && q1[|q1| - 1] == q2[|q2| - 1]
    ensures q1 == q2
    decreases |q1|
  {
    var e := q1[|q1| - 1];
    RootChainEnd(cats, q1);
    RootChainEnd(cats, q2);
    if ParentKey(e) != None {
      var a, b := q1[..|q1| - 1], q2[..|q2| - 1];
      assert ParentKey(e) == Some(a[|a| - 1].id) == Some(b[|b| - 1].id);
      SameIdSameRecord(cats, a[|a| - 1], b[|b| - 1]);
      ChainPrefix(cats, None, q1, |a|);
      ChainPrefix(cats, None, q2, |b|);
      ChainUnique(cats, a, b);
      assert q1 == a + [e] && q2 == b + [e];
    }
  }

  /** Different chains of parents from a root end at different records. */
  lemma {:induction false} ChainsEndApart(cats: seq<Category>, q1: seq<Category>, q2: seq<Category>)
    requires UniqueIds(cats) && ChainFrom(cats, None, q1) && ChainFrom(cats, None, q2)
    requires q1 != [] && q2 != [] && q1 != q2
    ensures q1[|q1| - 1] != q2[|q2| - 1]
  {
    if q1[|q1| - 1] == q2[|q2| - 1] {
      ChainUnique(cats, q1, q2);
    }
  }

  lemma {:induction false} HangsTail(cats: seq<Category>, g: seq<Node>, parentId: Option<string>)
    requires g != [] && Hangs(cats, g, parentId)
    ensures Hangs(cats, g[1..], parentId)
  {
    assert Records(g[1..]) == Records(g)[1..];
    forall k | 0 <= k < |g[1..]| ensures Built(cats, g[1..][k]) {
      assert g[1..][k] == g[k + 1];
    }
  }

  /** For each entry of `Flatten(g)`, the records from a root of `g` down
      to that entry. */
  ghost function Paths(g: seq<Node>): seq<seq<Category>>
    decreases g
  {
    if g == [] then []
    else [[g[0].record]] + Under(g[0].record, Paths(g[0].children)) + Paths(g[1..])
  }

  ghost function Under(c: Category, ps: seq<seq<Category>>): seq<seq<Category>> {
    seq(|ps|, i requires 0 <= i < |ps| => [c] + ps[i])
  }

  /** Each path is non-empty, starts at a root of `g` and ends at the
      entry of `Flatten(g)` with the same index. */
  ghost predicate PathsFit(g: seq<Node>) {
    |Paths(g)| == |Flatten(g)| &&
    forall k :: 0 <= k < |Paths(g)| ==>
      Paths(g)[k] != [] && Paths(g)[k][0] in Records(g) && Paths(g)[k][|Paths(g)[k]| - 1] == Flatten(g)[k]
  }

  lemma {:induction false} PathsShape(g: seq<Node>)
    ensures |Paths(g)| == |Flatten(g)|
    ensures forall k :: 0 <= k < |Paths(g)| ==>
      Paths(g)[k] != [] && Paths(g)[k][0] in Records(g) && Paths(g)[k][|Paths(g)[k]| - 1] == Flatten(g)[k]
    decreases g
  {
    if g != [] {
      PathsShape(g[0].children);
      PathsShape(g[1..]);
      PathsFitCons(g);
    } else {
      assert Paths(g) == [] && Flatten(g) == [];
    }
  }

  /** The paths of a non-empty forest fit when those of the first
      subtree and of the remaining trees do. */
  lemma PathsFitCons(g: seq<Node>)
    requires g != [] && PathsFit(g[0].children) && PathsFit(g[1..])
    ensures PathsFit(g)
  {
    var u := Under(g[0].record, Paths(g[0].children));
    assert Paths(g) == [[g[0].record]] + u + Paths(g[1..]);
    assert Flatten(g) == [g[0].record] + Flatten(g[0].children) + Flatten(g[1..]);
    forall k | 0 <= k < |Paths(g)|
      ensures Paths(g)[k] != [] && Paths(g)[k][0] in Records(g) && Paths(g)[k][|Paths(g)[k]| - 1] == Flatten(g)[k]
    {
      if k == 0 {
      } else if k <= |u| {
        PathsFitChild(g, k - 1);
      } else {
        PathsFitTail(g, k - 1 - |u|);
      }
    }
  }

  /** A path through the first subtree gets the first root in front. */
  lemma PathsFitChild(g: seq<Node>, k: nat)
    requires g != [] && PathsFit(g[0].children) && k < |Paths(g[0].children)|
    ensures var p := [g[0].record] + Paths(g[0].children)[k];
      p[0] in Records(g) && p[|p| - 1] == Flatten(g[0].children)[k]
  {
    var pc := Paths(g[0].children);
    assert pc[k] != [] && pc[k][|pc[k]| - 1] == Flatten(g[0].children)[k];
    assert Records(g)[0] == g[0].record;
  }

  /** A path of the remaining trees starts at a root of the whole forest. */
  lemma PathsFitTail(g: seq<Node>, k: nat)
    requires g != [] && PathsFit(g[1..]) && k < |Paths(g[1..])|
    ensures Paths(g[1..])[k] != [] && Paths(g[1..])[k][0] in Records(g)
    ensures Paths(g[1..])[k][|Paths(g[1..])[k]| - 1] == Flatten(g[1..])[k]
  {
    assert Records(g[1..]) == Records(g)[1..];
  }

  /** Every path of a forest hanging under `parentId` is a chain of
      parents starting under `parentId`. */
  lemma {:induction false} EntryPathsAreChains(cats: seq<Category>, g: seq<Node>, parentId: Option<string>)
    requires UniqueIds(cats) && Hangs(cats, g, parentId)
    ensures forall k :: 0 <= k < |Paths(g)| ==> ChainFrom(cats, parentId, Paths(g)[k])
    decreases g
  {
    if g != [] {
      var n := g[0];
      AssembledHangs(cats, n.children, Some(n.record.id));
      EntryPathsAreChains(cats, n.children, Some(n.record.id));
      HangsTail(cats, g, parentId);
      EntryPathsAreChains(cats, g[1..], parentId);
      HeadRootIsChild(cats, g, parentId);
      ChainPathsCons(cats, g, parentId);
    }
  }

  /** Every path of `g` is a chain under `parentId`. */
  ghost predicate ChainPaths(cats: seq<Category>, parentId: Option<string>, g: seq<Node>) {
    forall k :: 0 <= k < |Paths(g)| ==> ChainFrom(cats, parentId, Paths(g)[k])
  }

  /** The paths of a non-empty forest are chains when its first root is
      selected for `parentId` and the paths below it and of the remaining
      trees are chains. */
  lemma ChainPathsCons(cats: seq<Category>, g: seq<Node>, parentId: Option<string>)
    requires g != [] && g[0].record in cats && ParentKey(g[0].record) == parentId
    requires ChainPaths(cats, Some(g[0].record.id), g[0].children)
    requires ChainPaths(cats, parentId, g[1..])
    ensures ChainPaths(cats, parentId, g)
  {
    var n := g[0];
    var u := Under(n.record, Paths(n.children));
    assert Paths(g) == [[n.record]] + u + Paths(g[1..]);
    forall k | 0 <= k < |Paths(g)| ensures ChainFrom(cats, parentId, Paths(g)[k]) {
      if k == 0 {
        assert Paths(g)[k] == [n.record];
      } else if k <= |u| {
        ChainPathsChild(cats, g, parentId, k - 1);
      }
    }
  }

  /** A path through the first subtree, with the first root in front, is
      a chain. */
  lemma ChainPathsChild(cats: seq<Category>, g: seq<Node>, parentId: Option<string>, j: nat)
    requires g != [] && g[0].record in cats && ParentKey(g[0].record) == parentId
    requires ChainPaths(cats, Some(g[0].record.id), g[0].children)
    requires j < |Paths(g[0].children)|
    ensures ChainFrom(cats, parentId, Under(g[0].record, Paths(g[0].children))[j])
  {
    ChainCons(cats, parentId, g[0].record, Paths(g[0].children)[j]);
  }

  /** The first root of a hanging forest is a record selected for
      `parentId`. */
  lemma HeadRootIsChild(cats: seq<Category>, g: seq<Node>, parentId: Option<string>)
    requires g != [] && Hangs(cats, g, parentId)
    ensures g[0].record in cats && ParentKey(g[0].record) == parentId
  {
    SelectMembers(cats, parentId);
    assert Records(g)[0] == g[0].record;
  }

  /** The one-record path to the first root is a chain. */
  lemma HeadPathIsChain(cats: seq<Category>, g: seq<Node>, parentId: Option<string>)
    requires g != [] && Hangs(cats, g, parentId)
    ensures ChainFrom(cats, parentId, [g[0].record])
  {
    HeadRootIsChild(cats, g, parentId);
  }

  predicate SiblingsDistinct(g: seq<Node>)
    decreases g
  {
    Arrays.NoDuplicates(Records(g)) && forall k :: 0 <= k < |g| ==> SiblingsDistinct(g[k].children)
  }

  lemma {:induction false} HangsSiblingsDistinct(cats: seq<Category>, g: seq<Node>, parentId: Option<string>)
    requires UniqueIds(cats) && Hangs(cats, g, parentId)
    ensures SiblingsDistinct(g)
    decreases g
  {
    forall k | 0 <= k < |g| ensures SiblingsDistinct(g[k].children) {
      AssembledHangs(cats, g[k].children, Some(g[k].record.id));
      HangsSiblingsDistinct(cats, g[k].children, Some(g[k].record.id));
    }
  }

  lemma UnderDistinct(c: Category, ps: seq<seq<Category>>)
    requires Arrays.NoDuplicates(ps) && forall k :: 0 <= k < |ps| ==> ps[k] != []
    ensures Arrays.NoDuplicates([[c]] + Under(c, ps))
    ensures forall k :: 0 <= k < |ps| + 1 ==> ([[c]] + Under(c, ps))[k][0] == c
  {
    var u := Under(c, ps);
    forall i, j | 0 <= i < j < |u| ensures u[i] != u[j] {
      assert u[i][1..] == ps[i] && u[j][1..] == ps[j];
    }
    forall j | 0 <= j < |u| ensures [c] != u[j] {
      assert |u[j]| == 1 + |ps[j]|;
    }
    Arrays.NoDuplicatesConcat([[c]], u);
  }

  /** No two entries of a forest's preorder have the same path. */
  lemma {:induction false} PathsNoDuplicates(g: seq<Node>)
    requires SiblingsDistinct(g)
    ensures Arrays.NoDuplicates(Paths(g))
    decreases g
  {
    if g != [] {
      var n := g[0];
      assert SiblingsDistinct(n.children) && SiblingsDistinct(g[1..]) by {
        assert Records(g[1..]) == Records(g)[1..];
        assert forall k :: 0 <= k < |g[1..]| ==> g[1..][k] == g[k + 1];
      }
      PathsNoDuplicates(n.children);
      PathsNoDuplicates(g[1..]);
      PathsShape(n.children);
      PathsShape(g[1..]);
      var pc, pb := Paths(n.children), Paths(g[1..]);
      var head := [[n.record]] + Under(n.record, pc);
      UnderDistinct(n.record, pc);
      assert Paths(g) == head + pb;
      assert Records(g[1..]) == Records(g)[1..];
      forall i, j | 0 <= i < |head| && 0 <= j < |pb| ensures head[i] != pb[j] {
        var m :| 0 <= m < |Records(g[1..])| && Records(g[1..])[m] == pb[j][0];
        assert Records(g)[m + 1] != Records(g)[0];
      }
      Arrays.NoDuplicatesConcat(head, pb);
    }
  }

  /** No record occurs twice in the preorder of a forest of root records:
      two entries have different paths, hence different root chains, hence
      different last records. */
  lemma FlattenNoDuplicates(cats: seq<Category>, g: seq<Node>)
    requires UniqueIds(cats) && Hangs(cats, g, None)
    ensures Arrays.NoDuplicates(Flatten(g))
  {
    PathsShape(g);
    EntryPathsAreChains(cats, g, None);
    HangsSiblingsDistinct(cats, g, None);
    PathsNoDuplicates(g);
    var ps, fl := Paths(g), Flatten(g);
    forall i, j | 0 <= i < j < |fl| ensures fl[i] != fl[j] {
      ChainsEndApart(cats, ps[i], ps[j]);
    }
  }

  /** The record of a node and every record of its subtree occur in the
      preorder of any forest holding the node. */
  lemma {:induction false} FlattenSubtree(g: seq<Node>, i: nat, x: Category)
    requires i < |g|
    requires x == g[i].record || x in Flatten(g[i].children)
    ensures x in Flatten(g)
    decreases i
  {
    assert Flatten(g) == [g[0].record] + Flatten(g[0].children) + Flatten(g[1..]);
    if i > 0 {
      assert g[1..][i - 1] == g[i];
      FlattenSubtree(g[1..], i - 1, x);
    }
  }

  /** The end of every chain of parents from a record selected for
      `parentId` is placed in the forest assembled for `parentId`. */
  lemma {:induction false} ChainReached(cats: seq<Category>, g: seq<Node>, parentId: Option<string>, q: seq<Category>)
    requires Assembled(cats, g, parentId) && q != [] && ChainFrom(cats, parentId, q)
    ensures q[|q| - 1] in Flatten(g)
    decreases |q|
  {
    var i := ChainHeadPlaced(cats, g, parentId, q);
    if |q| > 1 {
      var rest := q[1..];
      ChainTail(cats, parentId, q);
      ChainReached(cats, g[i].children, Some(q[0].id), rest);
      assert rest[|rest| - 1] == q[|q| - 1];
    }
    FlattenSubtree(g, i, q[|q| - 1]);
  }

  /** The first record of a chain is a root of the forest assembled for
      its `parentId`. */
  lemma ChainHeadPlaced(cats: seq<Category>, g: seq<Node>, parentId: Option<string>, q: seq<Category>)
    returns (i: nat)
    requires Assembled(cats, g, parentId) && q != [] && ChainFrom(cats, parentId, q)
    ensures i < |g| && g[i].record == q[0]
    ensures Assembled(cats, g[i].children, Some(q[0].id))
  {
    SelectMembers(cats, parentId);
    var j :| 0 <= j < |cats| && cats[j] == q[0];
    assert q[0] in Records(g);
    i :| 0 <= i < |g| && Records(g)[i] == q[0];
    assert Built(cats, g[i]);
  }

  /** A chain without its first record is a chain under that record. */
  lemma ChainTail(cats: seq<Category>, parentId: Option<string>, q: seq<Category>)
    requires |q| > 1 && ChainFrom(cats, parentId, q)
    ensures ChainFrom(cats, Some(q[0].id), q[1..])
  {
    var rest := q[1..];
    assert forall k :: 0 <= k < |rest| ==> rest[k] == q[k + 1];
  }

  /** A record appears in the built forest exactly when a chain of parents
      leads to it from a root, and never twice. Records whose ancestry
      reaches a missing id, or runs into a cycle, are left out. */
  lemma InForestIffRooted(cats: seq<Category>, c: Category)
    requires UniqueIds(cats)
    ensures c in Flatten(BuildCategoryTree(cats)) <==> exists q :: RootChain(cats, q, c)
    ensures Arrays.NoDuplicates(Flatten(BuildCategoryTree(cats)))
  {
    var forest := BuildCategoryTree(cats);
    AssembledHangs(cats, forest, None);
    FlattenNoDuplicates(cats, forest);
    PathsShape(forest);
    EntryPathsAreChains(cats, forest, None);
    if c in Flatten(forest) {
      var k :| 0 <= k < |Flatten(forest)| && Flatten(forest)[k] == c;
      assert RootChain(cats, Paths(forest)[k], c);
    }
    if exists q :: RootChain(cats, q, c) {
      var q :| RootChain(cats, q, c);
      ChainReached(cats, forest, None, q);
    }
  }

  /** A record whose parent id names no record of the list never appears
      in the built forest. */
  lemma OrphanLeftOut(cats: seq<Category>, c: Category)
    requires UniqueIds(cats)
    requires ParentKey(c).Some? && forall k :: 0 <= k < |cats| ==> cats[k].id != ParentKey(c).value
    ensures c !in Flatten(BuildCategoryTree(cats))
  {
    forall q | q != [] && ChainFrom(cats, None, q) ensures q[|q| - 1] != c {
      if |q| == 1 {
        assert ParentKey(q[0]) == None;
      } else {
        var j :| 0 <= j < |cats| && cats[j] == q[|q| - 2];
        assert ParentKey(q[|q| - 1]) == Some(cats[j].id);
      }
    }
    InForestIffRooted(cats, c);
  }

  /** When every record is reached from a root, the forest holds the whole
      list, each record exactly once. */
  lemma AllRootedAllPlaced(cats: seq<Category>)
    requires UniqueIds(cats)
    requires forall k :: 0 <= k < |cats| ==> exists q :: RootChain(cats, q, cats[k])
    ensures forall k :: 0 <= k < |cats| ==> cats[k] in Flatten(BuildCategoryTree(cats))
    ensures |Flatten(BuildCategoryTree(cats))| == |cats|
  {
    var flat := Flatten(BuildCategoryTree(cats));
    forall k | 0 <= k < |cats| ensures cats[k] in flat {
      InForestIffRooted(cats, cats[k]);
    }
    forall x | x in flat ensures x in cats {
      InForestIffRooted(cats, x);
      var q :| RootChain(cats, q, x);
    }
    InForestIffRooted(cats, if cats == [] then Category("", "", None, None, Absent) else cats[0]);
    assert (set x | x in flat) == (set x | x in cats);
    UniqueIdsNoDuplicates(cats);
    Arrays.NoDuplicatesCard(flat);
    Arrays.NoDuplicatesCard(cats);
  }
}
