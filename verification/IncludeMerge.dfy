// load_includes of bt2img.py: merging the <BehaviorTree> elements of included files, over
// any finite graph of includes, with one shared set of processed paths.
module IncludeMerge {
  import opened Wrappers

  type Path = string

  // A child of an XML root. An include carries the absolute path it resolves to, if any.
  datatype Node = Include(target: Option<Path>) | BehaviorTree(id: string) | Other(tag: string)

  datatype File = Unparsable | Parsed(children: seq<Node>)

  // Paths that exist.
  type FileSystem = map<Path, File>

  predicate Loadable(files: FileSystem, p: Path) {
    p in files && files[p].Parsed?
  }

  // ---------- Children ----------

  function Includes(s: seq<Node>): seq<Node> {
    if s == [] then [] else if s[0].Include? then [s[0]] + Includes(s[1..]) else Includes(s[1..])
  }

  function Rest(s: seq<Node>): seq<Node> {
    if s == [] then [] else if s[0].Include? then Rest(s[1..]) else [s[0]] + Rest(s[1..])
  }

  function Trees(s: seq<Node>): seq<Node> {
    if s == [] then [] else if s[0].BehaviorTree? then [s[0]] + Trees(s[1..]) else Trees(s[1..])
  }

  // Element.remove: the first equal child.
  function Remove(s: seq<Node>, n: Node): seq<Node> {
    if s == [] then [] else if s[0] == n then s[1..] else [s[0]] + Remove(s[1..], n)
  }

  ghost predicate AllTrees(s: seq<Node>) {
    forall k :: 0 <= k < |s| ==> s[k].BehaviorTree?
  }

  lemma {:induction false} IncludesAppend(s: seq<Node>, t: seq<Node>)
    ensures Includes(s + t) == Includes(s) + Includes(t)
  {
    if s == [] {
      assert s + t == t;
    } else {
      assert (s + t)[1..] == s[1..] + t;
      IncludesAppend(s[1..], t);
    }
  }

  lemma {:induction false} RestAppend(s: seq<Node>, t: seq<Node>)
    ensures Rest(s + t) == Rest(s) + Rest(t)
  {
    if s == [] {
      assert s + t == t;
    } else {
      assert (s + t)[1..] == s[1..] + t;
      RestAppend(s[1..], t);
    }
  }

  lemma {:induction false} TreesAppend(s: seq<Node>, t: seq<Node>)
    ensures Trees(s + t) == Trees(s) + Trees(t)
  {
    if s == [] {
      assert s + t == t;
    } else {
      assert (s + t)[1..] == s[1..] + t;
      TreesAppend(s[1..], t);
    }
  }

  lemma PartsAppend(s: seq<Node>, t: seq<Node>)
    ensures Includes(s + t) == Includes(s) + Includes(t)
    ensures Rest(s + t) == Rest(s) + Rest(t)
    ensures Trees(s + t) == Trees(s) + Trees(t)
  {
    IncludesAppend(s, t);
    RestAppend(s, t);
    TreesAppend(s, t);
  }

  lemma {:induction false} PartsOfTrees(s: seq<Node>)
    requires AllTrees(s)
    ensures Includes(s) == [] && Rest(s) == s && Trees(s) == s
  {
    if s != [] {
      PartsOfTrees(s[1..]);
    }
  }

  lemma {:induction false} TreesOfRest(s: seq<Node>)
    ensures Trees(Rest(s)) == Trees(s)
    ensures AllTrees(Trees(s))
    ensures Includes(s) == [] ==> Rest(s) == s
  {
    if s != [] {
      TreesOfRest(s[1..]);
      if !s[0].Include? {
        assert Rest(s)[1..] == Rest(s[1..]);
      }
    }
  }

  // Removing the first include takes it off the list of includes and nothing else.
  lemma {:induction false} RemoveFirstInclude(s: seq<Node>)
    requires Includes(s) != []
    ensures Includes(Remove(s, Includes(s)[0])) == Includes(s)[1..]
    ensures Rest(Remove(s, Includes(s)[0])) == Rest(s)
  {
    if !s[0].Include? {
      RemoveFirstInclude(s[1..]);
      IncludesAre(s);
      var t := Remove(s, Includes(s)[0]);
      assert Includes(s) == Includes(s[1..]);
      assert t[0] == s[0] && t[1..] == Remove(s[1..], Includes(s[1..])[0]);
    }
  }

  ghost predicate AllIncludes(s: seq<Node>) {
    forall k :: 0 <= k < |s| ==> s[k].Include?
  }

  lemma {:induction false} IncludesAre(s: seq<Node>)
    ensures AllIncludes(Includes(s))
    ensures forall n :: n in Includes(s) <==> n in s && n.Include?
  {
    if s != [] {
      IncludesAre(s[1..]);
      assert s == [s[0]] + s[1..];
    }
  }

  // Includes, trees and the rest, by multiplicity.
  lemma {:induction false} PartsCount(s: seq<Node>, n: Node)
    ensures multiset(Includes(s))[n] == if n.Include? then multiset(s)[n] else 0
    ensures multiset(Rest(s))[n] == if n.Include? then 0 else multiset(s)[n]
    ensures multiset(Trees(s))[n] == if n.BehaviorTree? then multiset(s)[n] else 0
  {
    if s != [] {
      assert s == [s[0]] + s[1..];
      PartsCount(s[1..], n);
    }
  }

  // ---------- Paths ----------

  ghost function Targets(s: seq<Node>): set<Path> {
    set k | 0 <= k < |s| && s[k].Include? && s[k].target.Some? :: s[k].target.value
  }

  ghost function LinksOf(files: FileSystem, p: Path): set<Path> {
    if Loadable(files, p) then Targets(files[p].children) else {}
  }

  // A chain of includes that starts from one of the roots.
  ghost predicate IsChain(files: FileSystem, roots: set<Path>, c: seq<Path>) {
    && |c| > 0 && c[0] in roots
    && forall k :: 0 <= k < |c| - 1 ==> c[k + 1] in LinksOf(files, c[k])
  }

  ghost predicate Reachable(files: FileSystem, roots: set<Path>, p: Path) {
    exists c :: IsChain(files, roots, c) && c[|c| - 1] == p
  }

  lemma ReachRoot(files: FileSystem, roots: set<Path>, p: Path)
    requires p in roots
    ensures Reachable(files, roots, p)
  {
    assert IsChain(files, roots, [p]);
  }

  lemma ReachThrough(files: FileSystem, roots: set<Path>, q: Path, p: Path)
    requires q in roots && Reachable(files, LinksOf(files, q), p)
    ensures Reachable(files, roots, p)
  {
    var c :| IsChain(files, LinksOf(files, q), c) && c[|c| - 1] == p;
    var d := [q] + c;
    assert IsChain(files, roots, d);
    assert d[|d| - 1] == p;
  }

  // Files marked while loading are complete: their links are marked as well.
  ghost predicate Closed(files: FileSystem, done: set<Path>, marked: set<Path>) {
    forall p :: p in done ==> LinksOf(files, p) <= marked
  }

  lemma {:induction false} ChainIsMarked(files: FileSystem, roots: set<Path>, marked: set<Path>, c: seq<Path>)
    requires IsChain(files, roots, c) && roots <= marked && Closed(files, marked, marked)
    ensures c[|c| - 1] in marked
    decreases |c|
  {
    if |c| > 1 {
      var init := c[..|c| - 1];
      ChainIsMarked(files, roots, marked, init);
      assert c[|c| - 2 + 1] in LinksOf(files, c[|c| - 2]);
    }
  }

  // ---------- Sums of trees ----------

  ghost function Own(files: FileSystem, p: Path): multiset<Node> {
    if Loadable(files, p) then multiset(Trees(files[p].children)) else multiset{}
  }

  // The trees of every file of s, each file once.
  ghost function Sum(files: FileSystem, s: set<Path>): multiset<Node> {
    if s == {} then multiset{}
    else
      var p :| p in s;
      Own(files, p) + Sum(files, s - {p})
  }

  lemma {:induction false} SumSplit(files: FileSystem, s: set<Path>, p: Path)
    requires p in s
    ensures Sum(files, s) == Own(files, p) + Sum(files, s - {p})
    decreases |s|
  {
    hide Own;
    var q :| q in s && Sum(files, s) == Own(files, q) + Sum(files, s - {q});
    if q != p {
      SumSplit(files, s - {q}, p);
      SumSplit(files, s - {p}, q);
      assert s - {q} - {p} == s - {p} - {q};
    }
  }

  lemma SumEmpty(files: FileSystem)
    ensures Sum(files, {}) == multiset{}
  {
  }

  lemma {:induction false} SumUnion(files: FileSystem, s: set<Path>, t: set<Path>)
    requires s !! t
    ensures Sum(files, s + t) == Sum(files, s) + Sum(files, t)
    decreases |s|
  {
    hide Own, Sum;
    if s == {} {
      SumEmpty(files);
      assert s + t == t;
    } else {
      var p :| p in s;
      SumSplit(files, s, p);
      SumSplit(files, s + t, p);
      assert s + t - {p} == (s - {p}) + t;
      SumUnion(files, s - {p}, t);
    }
  }

  // ---------- The traversal ----------

  // An ElementTree root.
  class XmlElement {
    var children: seq<Node>

    constructor (c: seq<Node>)
      ensures children == c
    {
      children := c;
    }
  }

  // What loading the includes in roots does: marks grow by `added` reachable paths, all of
  // them complete, and their trees, each file once, make up `trees`.
  ghost predicate Loaded(files: FileSystem, roots: set<Path>, before: set<Path>, after: set<Path>, trees: seq<Node>) {
    && before <= after && roots <= after
    && Closed(files, after - before, after)
    && (forall p :: p in after - before ==> Reachable(files, roots, p))
    && AllTrees(trees) && multiset(trees) == Sum(files, after - before)
  }

  // One more include, already marked.
  lemma SkipTarget(files: FileSystem, roots: set<Path>, before: set<Path>, now: set<Path>, trees: seq<Node>, p: Path)
    requires Loaded(files, roots, before, now, trees) && p in now
    ensures Loaded(files, roots + {p}, before, now, trees)
  {
    hide Sum, LinksOf;
    WiderRoots(files, roots, roots + {p}, now - before);
  }

  lemma WiderRoots(files: FileSystem, roots: set<Path>, wider: set<Path>, s: set<Path>)
    requires roots <= wider && forall p :: p in s ==> Reachable(files, roots, p)
    ensures forall p :: p in s ==> Reachable(files, wider, p)
  {
    hide LinksOf;
    forall p | p in s
      ensures Reachable(files, wider, p)
    {
      var c :| IsChain(files, roots, c) && c[|c| - 1] == p;
      assert IsChain(files, wider, c);
    }
  }

  // One more include that cannot be loaded.
  lemma MarkTarget(files: FileSystem, roots: set<Path>, before: set<Path>, now: set<Path>, trees: seq<Node>, p: Path)
    requires Loaded(files, roots, before, now, trees) && p !in now && !Loadable(files, p)
    ensures Loaded(files, roots + {p}, before, now + {p}, trees)
  {
    hide Sum, Reachable;
    WiderRoots(files, roots, roots + {p}, now - before);
    ReachRoot(files, roots + {p}, p);
    assert now + {p} - before == (now - before) + {p};
    SumUnion(files, now - before, {p});
    SumSingle(files, p);
  }

  lemma SumSingle(files: FileSystem, p: Path)
    ensures Sum(files, {p}) == Own(files, p)
  {
    SumSplit(files, {p}, p);
    assert {p} - {p} == {};
  }

  // One more include, loaded with everything below it.
  lemma LoadTarget(files: FileSystem, roots: set<Path>, before: set<Path>, now: set<Path>, trees: seq<Node>, p: Path,
                   after: set<Path>, inner: seq<Node>)
    requires Loaded(files, roots, before, now, trees) && p !in now && Loadable(files, p)
    requires Loaded(files, LinksOf(files, p), now + {p}, after, inner)
    ensures Loaded(files, roots + {p}, before, after, trees + (Trees(files[p].children) + inner))
  {
    LoadMarks(files, roots, before, now, trees, p, after, inner);
    LoadTrees(files, roots, before, now, trees, p, after, inner);
    hide Reachable, Closed, Sum;
    TreesOfRest(files[p].children);
  }

  lemma LoadMarks(files: FileSystem, roots: set<Path>, before: set<Path>, now: set<Path>, trees: seq<Node>, p: Path,
                  after: set<Path>, inner: seq<Node>)
    requires Loaded(files, roots, before, now, trees) && p !in now
    requires Loaded(files, LinksOf(files, p), now + {p}, after, inner)
    ensures Closed(files, after - before, after)
    ensures forall q :: q in after - before ==> Reachable(files, roots + {p}, q)
  {
    hide Sum, LinksOf, Reachable;
    WiderRoots(files, roots, roots + {p}, now - before);
    forall q | q in after - before
      ensures LinksOf(files, q) <= after && Reachable(files, roots + {p}, q)
    {
      if q == p {
        ReachRoot(files, roots + {p}, p);
      } else if q in now {
        assert q in now - before;
      } else {
        assert q in after - (now + {p});
        ReachThrough(files, roots + {p}, p, q);
      }
    }
  }

  lemma LoadTrees(files: FileSystem, roots: set<Path>, before: set<Path>, now: set<Path>, trees: seq<Node>, p: Path,
                  after: set<Path>, inner: seq<Node>)
    requires Loaded(files, roots, before, now, trees) && p !in now && Loadable(files, p)
    requires Loaded(files, LinksOf(files, p), now + {p}, after, inner)
    ensures multiset(trees + (Trees(files[p].children) + inner)) == Sum(files, after - before)
  {
    hide Sum, LinksOf, Reachable, Closed, Trees;
    var old_, new_ := now - before, after - (now + {p});
    assert after - before == old_ + ({p} + new_);
    SumUnion(files, old_, {p} + new_);
    SumUnion(files, {p}, new_);
    SumSingle(files, p);
  }

  lemma NothingLoaded(files: FileSystem, marked: set<Path>)
    ensures Loaded(files, {}, marked, marked, [])
  {
    assert marked - marked == {};
  }

  // Targets of the first k includes.
  lemma TargetsStep(incs: seq<Node>, k: nat)
    requires k < |incs| && incs[k].Include?
    ensures Targets(incs[..k + 1]) == Targets(incs[..k]) + (if incs[k].target.Some? then {incs[k].target.value} else {})
  {
    var s, t := incs[..k], incs[..k + 1];
    forall p
      ensures p in Targets(t) <==> p in Targets(s) || (incs[k].target == Some(p))
    {
      if p in Targets(t) {
        var j :| 0 <= j < |t| && t[j].Include? && t[j].target.Some? && t[j].target.value == p;
        assert j < k ==> s[j] == t[j];
      }
      if p in Targets(s) {
        var j :| 0 <= j < |s| && s[j].Include? && s[j].target.Some? && s[j].target.value == p;
        assert t[j] == s[j];
      }
      if incs[k].target == Some(p) {
        assert t[k] == incs[k];
      }
    }
  }

  lemma TargetsOfIncludes(s: seq<Node>)
    ensures Targets(Includes(s)) == Targets(s)
  {
    IncludesAre(s);
    var incs := Includes(s);
    forall p
      ensures p in Targets(incs) <==> p in Targets(s)
    {
      if p in Targets(s) {
        var j :| 0 <= j < |s| && s[j].Include? && s[j].target.Some? && s[j].target.value == p;
        assert s[j] in incs;
        var k :| 0 <= k < |incs| && incs[k] == s[j];
      }
      if p in Targets(incs) {
        var k :| 0 <= k < |incs| && incs[k].Include? && incs[k].target.Some? && incs[k].target.value == p;
        assert incs[k] in s;
        var j :| 0 <= j < |s| && s[j] == incs[k];
      }
    }
  }

  class IncludeLoader {
    const files: FileSystem
    var processed: set<Path>

    constructor (fs: FileSystem)
      ensures files == fs && processed == {}
    {
      files, processed := fs, {};
    }

    // load_includes. On return the element has no include left; behind its other children
    // stand the trees of every file newly marked, each file once.
    method LoadIncludes(elem: XmlElement) returns (ghost trees: seq<Node>)
      modifies this`processed, elem
      ensures Loaded(files, Targets(old(elem.children)), old(processed), processed, trees)
      ensures elem.children == Rest(old(elem.children)) + trees
      decreases files.Keys - processed
    {
      hide Loaded, Includes, Rest, Remove, Targets;
      ghost var start, before := elem.children, processed;
      var includes := Includes(elem.children);
      trees := [];
      LoadStart(files, start, processed);
      for k := 0 to |includes|
        invariant before <= processed
        invariant Loaded(files, Targets(includes[..k]), before, processed, trees)
        invariant Includes(elem.children) == includes[k..] && Rest(elem.children) == Rest(start) + trees
      {
        TargetsStep(includes, k);
        var inc := includes[k];
        if inc.target.Some? && inc.target.value in processed {
          SkipTarget(files, Targets(includes[..k]), before, processed, trees, inc.target.value);
          RemoveStep(elem.children, includes, k);
          elem.children := Remove(elem.children, inc);
          continue;
        }
        if inc.target.Some? {
          var p := inc.target.value;
          ghost var now := processed;
          processed := processed + {p};
          if p in files && files[p].Parsed? {
            var included := new XmlElement(files[p].children);
            ghost var inner := LoadIncludes(included);
            LoadTarget(files, Targets(includes[..k]), before, now, trees, p, processed, inner);
            MergedTrees(files[p].children, inner, files, now + {p}, processed);
            var found := Trees(included.children);
            trees := trees + found;
            AppendTrees(elem.children, found);
            elem.children := elem.children + found;
          } else {
            MarkTarget(files, Targets(includes[..k]), before, now, trees, p);
          }
        } else {
          assert Targets(includes[..k + 1]) == Targets(includes[..k]);
        }
        LoadedGrows(files, Targets(includes[..k + 1]), before, processed, trees);
        RemoveStep(elem.children, includes, k);
        elem.children := Remove(elem.children, inc);
      }
      assert includes[..|includes|] == includes;
      TargetsOfIncludes(start);
      TreesOfRest(elem.children);
    }
  }

  lemma LoadStart(files: FileSystem, start: seq<Node>, marked: set<Path>)
    ensures Targets(Includes(start)[..0]) == {} && Loaded(files, {}, marked, marked, [])
    ensures Includes(start) == Includes(start)[0..] && Rest(start) == Rest(start) + []
    ensures AllIncludes(Includes(start))
  {
    NothingLoaded(files, marked);
    IncludesAre(start);
  }

  lemma LoadedGrows(files: FileSystem, roots: set<Path>, before: set<Path>, after: set<Path>, trees: seq<Node>)
    requires Loaded(files, roots, before, after, trees)
    ensures before <= after
  {
    hide Sum, Closed, Reachable;
  }

  // The children of a loaded file end with its own trees and those from below.
  lemma MergedTrees(children: seq<Node>, inner: seq<Node>, files: FileSystem, before: set<Path>, after: set<Path>)
    requires Loaded(files, Targets(children), before, after, inner)
    ensures Trees(Rest(children) + inner) == Trees(children) + inner
  {
    hide Sum, Closed, Reachable;
    PartsAppend(Rest(children), inner);
    TreesOfRest(children);
    PartsOfTrees(inner);
  }

  lemma AppendTrees(children: seq<Node>, found: seq<Node>)
    requires exists s: seq<Node> :: found == Trees(s)
    ensures Includes(children + found) == Includes(children) && Rest(children + found) == Rest(children) + found
  {
    var s: seq<Node> :| found == Trees(s);
    TreesOfRest(s);
    PartsAppend(children, found);
    PartsOfTrees(found);
  }

  lemma RemoveStep(children: seq<Node>, includes: seq<Node>, k: nat)
    requires k < |includes| && Includes(children) == includes[k..]
    ensures Includes(Remove(children, includes[k])) == includes[k + 1..]
    ensures Rest(Remove(children, includes[k])) == Rest(children)
  {
    hide Includes, Rest, Remove;
    assert includes[k..][0] == includes[k] && includes[k..][1..] == includes[k + 1..];
    RemoveFirstInclude(children);
  }

  // From an empty set of processed files: exactly the paths reachable from the root are
  // marked, and the trees gained are those of the loadable ones, each once.
  method MergeAll(files: FileSystem, root: XmlElement) returns (marked: set<Path>)
    modifies root
    ensures forall p :: p in marked <==> Reachable(files, Targets(old(root.children)), p)
    ensures multiset(Trees(root.children)) == multiset(Trees(old(root.children))) + Sum(files, marked)
    ensures Includes(root.children) == []
  {
    hide Includes, Rest, Trees, Targets, Sum, Reachable;
    ghost var start := root.children;
    var loader := new IncludeLoader(files);
    ghost var trees := loader.LoadIncludes(root);
    marked := loader.processed;
    assert marked - {} == marked;
    forall p
      ensures p in marked <==> Reachable(files, Targets(start), p)
    {
      if Reachable(files, Targets(start), p) {
        ReachableIsMarked(files, Targets(start), marked, p);
      }
    }
    MergedTrees(start, trees, files, {}, marked);
    RestHasNoIncludes(start);
    PartsAppend(Rest(start), trees);
    PartsOfTrees(trees);
  }

  lemma ReachableIsMarked(files: FileSystem, roots: set<Path>, marked: set<Path>, p: Path)
    requires Reachable(files, roots, p) && roots <= marked && Closed(files, marked, marked)
    ensures p in marked
  {
    var c :| IsChain(files, roots, c) && c[|c| - 1] == p;
    ChainIsMarked(files, roots, marked, c);
  }

  lemma {:induction false} RestHasNoIncludes(s: seq<Node>)
    ensures Includes(Rest(s)) == []
  {
    if s != [] {
      RestHasNoIncludes(s[1..]);
      if !s[0].Include? {
        assert Rest(s)[1..] == Rest(s[1..]);
      }
    }
  }

  // ---------- The root file ----------

  // The root file is not marked at the start. Its own trees and those of the marked files
  // make up every file once exactly if the root was not marked on the way, or has no trees.
  lemma RootMergedOnce(files: FileSystem, root: Path, marked: set<Path>)
    ensures Own(files, root) + Sum(files, marked) == Sum(files, marked + {root}) <==>
      root !in marked || Own(files, root) == multiset{}
  {
    hide Own, Sum;
    if root in marked {
      assert marked + {root} == marked;
      OnceMore(Own(files, root), Sum(files, marked));
    } else {
      SumUnion(files, marked, {root});
      SumSingle(files, root);
    }
  }

  lemma OnceMore(a: multiset<Node>, b: multiset<Node>)
    ensures a + b == b <==> a == multiset{}
  {
    if a != multiset{} {
      var n :| n in a;
      assert (a + b)[n] == a[n] + b[n];
    }
  }

  // main: parse the file, merge everything it includes. null stands for the exception of a
  // root file that cannot be parsed. The result holds every file of the include graph once
  // iff the file does not reach itself or holds no trees.
  method MergeFile(files: FileSystem, path: Path) returns (root: XmlElement?, marked: set<Path>)
    ensures root == null <==> !Loadable(files, path)
    ensures root != null ==>
      && (forall p :: p in marked <==> Reachable(files, LinksOf(files, path), p))
      && multiset(Trees(root.children)) == Own(files, path) + Sum(files, marked)
      && (multiset(Trees(root.children)) == Sum(files, marked + {path}) <==>
            !Reachable(files, LinksOf(files, path), path) || Trees(files[path].children) == [])
  {
    hide Sum, Reachable, Trees, Targets;
    root, marked := null, {};
    if path in files && files[path].Parsed? {
      var elem := new XmlElement(files[path].children);
      marked := MergeAll(files, elem);
      RootMergedOnce(files, path, marked);
      EmptyTrees(Trees(files[path].children));
      root := elem;
    }
  }

  lemma EmptyTrees(s: seq<Node>)
    ensures multiset(s) == multiset{} <==> s == []
  {
    if s != [] {
      assert s[0] in multiset(s);
    }
  }

  // A file that includes itself: it is the only file reached, and its tree is there twice.
  lemma SelfIncludeDoubles(path: Path, id: string)
    ensures
      var files: FileSystem := map[path := Parsed([BehaviorTree(id), Include(Some(path))])];
      && (forall p :: Reachable(files, LinksOf(files, path), p) <==> p == path)
      && Own(files, path) + Sum(files, {path}) == multiset{BehaviorTree(id), BehaviorTree(id)}
  {
    var children := [BehaviorTree(id), Include(Some(path))];
    var files: FileSystem := map[path := Parsed(children)];
    SelfLinks(path, id);
    SumSingle(files, path);
    assert Trees(children[2..]) == [] && Trees(children[1..]) == [];
    assert Trees(children) == [BehaviorTree(id)];
    forall p
      ensures Reachable(files, {path}, p) <==> p == path
    {
      if p == path {
        ReachRoot(files, {path}, p);
      } else if Reachable(files, {path}, p) {
        ReachableIsMarked(files, {path}, {path}, p);
      }
    }
  }

  lemma SelfLinks(path: Path, id: string)
    ensures var files: FileSystem := map[path := Parsed([BehaviorTree(id), Include(Some(path))])];
      LinksOf(files, path) == {path}
  {
    var children := [BehaviorTree(id), Include(Some(path))];
    assert children[1].Include? && children[1].target.value == path;
  }
}
