/** Agent configuration files that extend one another: a recursive loader with cycle detection and a
    recursive merge of configuration trees. */
module AgentConfig {
  import opened Sequences

  /** Parsed JSON; only objects are merged, every other value replaces. */
  datatype Value = Null | Text(text: string) | Scalar(literal: string) | Object(fields: Tree)

  type Tree = map<string, Value>

  /** The override's value, or the merge of two objects. */
  function Merge(base: Value, over: Value): Value
    decreases over
  {
    if base.Object? && over.Object? then
      Object(map k | k in base.fields.Keys + over.fields.Keys ::
        if k !in over.fields then base.fields[k]
        else if k in base.fields then Merge(base.fields[k], over.fields[k])
        else over.fields[k])
    else over
  }

  function MergeTrees(base: Tree, over: Tree): Tree {
    Merge(Object(base), Object(over)).fields
  }

  /** Key by key: what only one side holds stays, two objects merge, and the override wins elsewhere. */
  lemma {:induction false} MergeTreesAt(base: Tree, over: Tree, k: string)
    requires k in base || k in over
    ensures k in MergeTrees(base, over)
    ensures MergeTrees(base, over)[k] ==
            if k !in over then base[k]
            else if k in base && base[k].Object? && over[k].Object?
                then Object(MergeTrees(base[k].fields, over[k].fields))
            else over[k]
  {
    assert k in Merge(Object(base), Object(over)).fields;
  }

  /** Copies the base and overwrites key by key, descending where both sides hold objects. */
  method DeepMerge(base: Tree, over: Tree) returns (merged: Tree)
    ensures merged == MergeTrees(base, over)
    decreases Object(over)
  {
    merged := base;
    var todo := over.Keys;
    while todo != {}
      invariant todo <= over.Keys && merged.Keys == base.Keys + (over.Keys - todo)
      invariant forall k | k in merged ::
           merged[k] == if k in over.Keys - todo then MergeTrees(base, over)[k] else base[k]
      decreases todo
    {
      var k :| k in todo;
      todo := todo - {k};
      MergeTreesAt(base, over, k);
      if over[k].Object? && k in merged && merged[k].Object? {
        assert over[k] < Object(over);
        var inner := DeepMerge(merged[k].fields, over[k].fields);
        merged := merged[k := Object(inner)];
      } else {
        merged := merged[k := over[k]];
      }
    }
  }

  // ----- Algebra of the merge

  lemma {:induction false} MergeIdempotent(a: Value)
    ensures Merge(a, a) == a
    decreases a
  {
    if a.Object? {
      forall k | k in a.fields ensures Merge(a.fields[k], a.fields[k]) == a.fields[k] {
        MergeIdempotent(a.fields[k]);
      }
      assert Merge(a, a).fields == a.fields;
    }
  }

  /** Applying the same override again changes nothing. */
  lemma {:induction false} OverrideOnce(a: Value, b: Value)
    ensures Merge(Merge(a, b), b) == Merge(a, b)
    decreases b
  {
    if a.Object? && b.Object? {
      var m := Merge(a, b);
      forall k | k in b.fields ensures Merge(m.fields[k], b.fields[k]) == m.fields[k] {
        if k in a.fields {
          OverrideOnce(a.fields[k], b.fields[k]);
        } else {
          MergeIdempotent(b.fields[k]);
        }
      }
      assert Merge(m, b).fields == m.fields;
    } else {
      MergeIdempotent(b);
    }
  }

  /** Everything a defines is overridden by c. */
  predicate Covers(a: Value, c: Value)
    decreases a
  {
    a.Object? && c.Object? ==>
      forall k | k in a.fields :: k in c.fields && Covers(a.fields[k], c.fields[k])
  }

  lemma {:induction false} CoveredVanishes(a: Value, c: Value)
    ensures Merge(a, c) == c <==> Covers(a, c)
    decreases a
  {
    if a.Object? && c.Object? {
      var m := Merge(a, c);
      forall k | k in a.fields && k in c.fields
        ensures m.fields[k] == c.fields[k] <==> Covers(a.fields[k], c.fields[k])
      {
        CoveredVanishes(a.fields[k], c.fields[k]);
      }
      if Covers(a, c) {
        assert m.fields == c.fields;
      } else {
        var k :| k in a.fields && !(k in c.fields && Covers(a.fields[k], c.fields[k]));
        assert k in m.fields;
      }
    }
  }

  /** Where the middle tree puts a leaf between two objects, the last object covers the first. */
  predicate Associates(a: Value, b: Value, c: Value)
    decreases b
  {
    if a.Object? && b.Object? && c.Object? then
      forall k | k in b.fields && k in a.fields && k in c.fields :: Associates(a.fields[k], b.fields[k], c.fields[k])
    else if a.Object? && c.Object? then Covers(a, c)
    else true
  }

  /** The merge is associative on exactly these triples. */
  lemma {:induction false} MergeAssociative(a: Value, b: Value, c: Value)
    ensures Merge(Merge(a, b), c) == Merge(a, Merge(b, c)) <==> Associates(a, b, c)
    decreases b
  {
    if a.Object? && b.Object? && c.Object? {
      var left, right := Merge(Merge(a, b), c), Merge(a, Merge(b, c));
      forall k | k in b.fields && k in a.fields && k in c.fields
        ensures left.fields[k] == right.fields[k] <==> Associates(a.fields[k], b.fields[k], c.fields[k])
      {
        MergeAssociative(a.fields[k], b.fields[k], c.fields[k]);
      }
      if Associates(a, b, c) {
        assert left.fields == right.fields;
      } else {
        var k :| k in b.fields && k in a.fields && k in c.fields && !Associates(a.fields[k], b.fields[k], c.fields[k]);
        assert left.fields[k] != right.fields[k];
      }
    } else if a.Object? && c.Object? {
      CoveredVanishes(a, c);
    }
  }

  /** No key is a leaf in one tree and an object in another, at any depth. */
  predicate SameShape(a: Value, b: Value)
    decreases a
  {
    && (a.Object? <==> b.Object?)
    && (a.Object? && b.Object? ==> forall k | k in a.fields && k in b.fields :: SameShape(a.fields[k], b.fields[k]))
  }

  /** In particular trees that agree on what is a leaf associate. */
  lemma {:induction false} SameShapeAssociates(a: Value, b: Value, c: Value)
    requires SameShape(a, b) && SameShape(b, c)
    ensures Associates(a, b, c)
    decreases b
  {
    if a.Object? {
      forall k | k in b.fields && k in a.fields && k in c.fields
        ensures Associates(a.fields[k], b.fields[k], c.fields[k])
      {
        SameShapeAssociates(a.fields[k], b.fields[k], c.fields[k]);
      }
    }
  }

  /** A leaf between two objects breaks associativity when the last does not cover the first. */
  lemma {:induction false} LeafBetweenObjects()
    ensures var a, c := Object(map["x" := Text("1")]), Object(map["y" := Text("2")]);
            Merge(Merge(a, Null), c) != Merge(a, Merge(Null, c))
  {
    var a, c := Object(map["x" := Text("1")]), Object(map["y" := Text("2")]);
    assert "x" in Merge(a, c).fields && "x" !in c.fields;
  }

  // ----- Loading

  datatype File = Unreadable | NotAnObject | Payload(tree: Tree)

  type Files = map<string, File>

  datatype Error = CannotRead(path: string) | MustContainObject(path: string) | InvalidExtends(path: string)
      | Circular(path: string)

  datatype Result<+T> = Success(value: T) | Failure(error: Error)

  /** The path an extends value names, seen from the extending file. */
  type Resolver = (string, string) -> string

  function FileAt(files: Files, path: string): File {
    if path in files then files[path] else Unreadable
  }

  function ExtendsOf(tree: Tree): Value {
    if "extends" in tree then tree["extends"] else Null
  }

  /** The file's own settings, without the extends entry. */
  function Settings(tree: Tree): Tree {
    tree - {"extends"}
  }

  function Loaded(files: Files, resolve: Resolver, path: string, seen: set<string>): Result<Tree>
    decreases files.Keys - seen, if path in files then 1 else 0
  {
    match FileAt(files, path)
    case Unreadable => Failure(CannotRead(path))
    case NotAnObject => Failure(MustContainObject(path))
    case Payload(tree) =>
      var link := ExtendsOf(tree);
      if link.Null? then Success(Settings(tree))
      else if !link.Text? || link.text == "" then Failure(InvalidExtends(path))
      else
        var parent := resolve(path, link.text);
        if parent in seen then Failure(Circular(parent))
        else
          assert parent !in files ==> files.Keys - (seen + {parent}) == files.Keys - seen;
          var base := Loaded(files, resolve, parent, seen + {parent});
          if base.Failure? then base else Success(MergeTrees(base.value, Settings(tree)))
  }

  method LoadConfigData(files: Files, resolve: Resolver, path: string, seen: set<string>) returns (r: Result<Tree>)
    ensures r == Loaded(files, resolve, path, seen)
    decreases files.Keys - seen, if path in files then 1 else 0
  {
    var file := FileAt(files, path);
    if file.Unreadable? {
      return Failure(CannotRead(path));
    }
    if file.NotAnObject? {
      return Failure(MustContainObject(path));
    }
    var payload := file.tree;
    var link := ExtendsOf(payload);
    payload := payload - {"extends"};
    if link.Null? {
      return Success(payload);
    }
    if !link.Text? || link.text == "" {
      return Failure(InvalidExtends(path));
    }
    var parent := resolve(path, link.text);
    if parent in seen {
      return Failure(Circular(parent));
    }
    assert parent !in files ==> files.Keys - (seen + {parent}) == files.Keys - seen;
    var base := LoadConfigData(files, resolve, parent, seen + {parent});
    if base.Failure? {
      return base;
    }
    var merged := DeepMerge(base.value, payload);
    return Success(merged);
  }

  method LoadAgentConfig(files: Files, resolve: Resolver, path: string) returns (r: Result<Tree>)
    ensures r == Loaded(files, resolve, path, {path})
  {
    r := LoadConfigData(files, resolve, path, {path});
  }

  // ----- What loading computes

  /** The file this one extends. */
  function Parent(files: Files, resolve: Resolver, path: string): Option<string> {
    var file := FileAt(files, path);
    if file.Payload? && ExtendsOf(file.tree).Text? && ExtendsOf(file.tree).text != "" then
      Some(resolve(path, ExtendsOf(file.tree).text))
    else None
  }

  /** What is wrong with a file that neither extends another nor is a root. */
  function Defect(files: Files, path: string): Option<Error> {
    match FileAt(files, path)
    case Unreadable => Some(CannotRead(path))
    case NotAnObject => Some(MustContainObject(path))
    case Payload(tree) =>
      var link := ExtendsOf(tree);
      if !link.Null? && (!link.Text? || link.text == "") then Some(InvalidExtends(path)) else None
  }

  predicate RootFile(files: Files, path: string) {
    FileAt(files, path).Payload? && ExtendsOf(FileAt(files, path).tree).Null?
  }

  function SettingsAt(files: Files, path: string): Tree {
    if FileAt(files, path).Payload? then Settings(FileAt(files, path).tree) else map[]
  }

  /** The k-th file up the extends chain. */
  function Ancestor(files: Files, resolve: Resolver, path: string, k: nat): Option<string> {
    if k == 0 then Some(path)
    else
      var below := Ancestor(files, resolve, path, k - 1);
      if below.None? then None else Parent(files, resolve, below.value)
  }

  ghost predicate Revisits(files: Files, resolve: Resolver, path: string) {
    exists i: nat, j: nat :: i < j && Meets(files, resolve, path, i, j)
  }

  predicate Meets(files: Files, resolve: Resolver, path: string, i: nat, j: nat) {
    Ancestor(files, resolve, path, i).Some? && Ancestor(files, resolve, path, i) == Ancestor(files, resolve, path, j)
  }

  /** The n-th ancestor is the root of the chain. */
  predicate IsRoot(files: Files, resolve: Resolver, path: string, n: nat) {
    Ancestor(files, resolve, path, n).Some? && RootFile(files, Ancestor(files, resolve, path, n).value)
  }

  /** The n-th ancestor is unreadable or malformed, as the error says. */
  predicate BreaksAt(files: Files, resolve: Resolver, path: string, n: nat, error: Error) {
    Ancestor(files, resolve, path, n).Some? && Defect(files, Ancestor(files, resolve, path, n).value) == Some(error)
  }

  lemma {:induction false} AncestorsBelow(files: Files, resolve: Resolver, path: string, k: nat, n: nat)
    requires k <= n && Ancestor(files, resolve, path, n).Some?
    ensures Ancestor(files, resolve, path, k).Some?
    decreases n
  {
    if k < n {
      AncestorsBelow(files, resolve, path, k, n - 1);
    }
  }

  /** The settings of the ancestors from the n-th down to the k-th. */
  function SettingsDown(files: Files, resolve: Resolver, path: string, k: nat, n: nat): (ts: seq<Tree>)
    requires k <= n && Ancestor(files, resolve, path, n).Some?
    ensures |ts| == n - k + 1
    decreases n - k
  {
    AncestorsBelow(files, resolve, path, k, n);
    var own := SettingsAt(files, Ancestor(files, resolve, path, k).value);
    if k == n then [own] else SettingsDown(files, resolve, path, k + 1, n) + [own]
  }

  /** The first tree, overridden by each following one in turn. */
  function FoldMerge(ts: seq<Tree>): Tree
    requires ts != []
  {
    if |ts| == 1 then ts[0] else MergeTrees(FoldMerge(ts[..|ts| - 1]), ts[|ts| - 1])
  }

  /** The fold of the merge from the root ancestor down to the k-th. */
  ghost predicate FoldsFromRoot(files: Files, resolve: Resolver, path: string, k: nat, value: Tree) {
    exists n: nat ::
      k <= n && IsRoot(files, resolve, path, n) && value == FoldMerge(SettingsDown(files, resolve, path, k, n))
  }

  lemma FoldOneMore(files: Files, resolve: Resolver, path: string, k: nat, base: Tree, own: Tree)
    requires Ancestor(files, resolve, path, k).Some?
    requires own == SettingsAt(files, Ancestor(files, resolve, path, k).value)
    requires FoldsFromRoot(files, resolve, path, k + 1, base)
    ensures FoldsFromRoot(files, resolve, path, k, MergeTrees(base, own))
  {
    var n: nat :| k + 1 <= n && IsRoot(files, resolve, path, n)
                  && base == FoldMerge(SettingsDown(files, resolve, path, k + 1, n));
    var upper := SettingsDown(files, resolve, path, k + 1, n);
    var all := SettingsDown(files, resolve, path, k, n);
    assert all == upper + [own] && all[..|all| - 1] == upper;
    assert MergeTrees(base, own) == FoldMerge(all);
  }

  /** The first k + 1 files of the chain. */
  function ChainTo(files: Files, resolve: Resolver, path: string, k: nat): set<string> {
    if k == 0 then {path}
    else
      var last := Ancestor(files, resolve, path, k);
      ChainTo(files, resolve, path, k - 1) + if last.Some? then {last.value} else {}
  }

  lemma {:induction false} ChainHolds(files: Files, resolve: Resolver, path: string, k: nat, p: string) returns (i: nat)
    requires p in ChainTo(files, resolve, path, k)
    ensures i <= k && Ancestor(files, resolve, path, i) == Some(p)
  {
    if Ancestor(files, resolve, path, k) == Some(p) {
      i := k;
    } else {
      i := ChainHolds(files, resolve, path, k - 1, p);
    }
  }

  /** What a result says about the chain above the k-th ancestor. */
  ghost predicate Explains(files: Files, resolve: Resolver, start: string, k: nat, r: Result<Tree>) {
    match r
    case Success(value) => FoldsFromRoot(files, resolve, start, k, value)
    case Failure(error) =>
      if error.Circular? then Revisits(files, resolve, start)
      else exists n: nat :: BreaksAt(files, resolve, start, n, error)
  }

  /** Loading from the k-th ancestor, when exactly the first k + 1 were seen. */
  lemma {:induction false} LoadFrom(files: Files, resolve: Resolver, start: string, k: nat, path: string,
      seen: set<string>)
    requires Ancestor(files, resolve, start, k) == Some(path) && seen == ChainTo(files, resolve, start, k)
    ensures Explains(files, resolve, start, k, Loaded(files, resolve, path, seen))
    decreases files.Keys - seen, if path in files then 1 else 0
  {
    var defect, parent := Defect(files, path), Parent(files, resolve, path);
    if defect.Some? {
      assert BreaksAt(files, resolve, start, k, defect.value);
    } else if parent.None? {
      assert IsRoot(files, resolve, start, k);
      assert FoldMerge(SettingsDown(files, resolve, start, k, k)) == SettingsAt(files, path);
    } else if parent.value in seen {
      var i := ChainHolds(files, resolve, start, k, parent.value);
      assert Meets(files, resolve, start, i, k + 1);
    } else {
      assert Ancestor(files, resolve, start, k + 1) == parent;
      assert parent.value !in files ==> files.Keys - (seen + {parent.value}) == files.Keys - seen;
      LoadFrom(files, resolve, start, k + 1, parent.value, seen + {parent.value});
      var base := Loaded(files, resolve, parent.value, seen + {parent.value});
      if base.Success? {
        FoldOneMore(files, resolve, start, k, base.value, SettingsAt(files, path));
      }
    }
  }

  /** Ancestors that coincide keep coinciding. */
  lemma {:induction false} MeetingGoesOn(files: Files, resolve: Resolver, path: string, i: nat, j: nat, m: nat)
    requires Ancestor(files, resolve, path, i) == Ancestor(files, resolve, path, j)
    ensures Ancestor(files, resolve, path, i + m) == Ancestor(files, resolve, path, j + m)
  {
    if m > 0 {
      MeetingGoesOn(files, resolve, path, i, j, m - 1);
    }
  }

  /** The chain ends at the n-th ancestor. */
  predicate EndsAt(files: Files, resolve: Resolver, path: string, n: nat) {
    Ancestor(files, resolve, path, n).Some? && Ancestor(files, resolve, path, n + 1).None?
  }

  /** A chain that ends never revisits a file. */
  lemma EndedChain(files: Files, resolve: Resolver, path: string, n: nat)
    requires EndsAt(files, resolve, path, n)
    ensures !Revisits(files, resolve, path)
  {
    forall i: nat, j: nat | i < j
      ensures !Meets(files, resolve, path, i, j)
    {
      if Meets(files, resolve, path, i, j) {
        if j > n {
          AncestorsBelow(files, resolve, path, n + 1, j);
        } else {
          MeetingGoesOn(files, resolve, path, i, j, n - j + 1);
          AncestorsBelow(files, resolve, path, i + (n - j + 1), n);
        }
      }
    }
  }

  /** The chain ends at one height only, so the root and the fold from it are unique. */
  lemma {:induction false} EndUnique(files: Files, resolve: Resolver, path: string, m: nat, n: nat)
    requires EndsAt(files, resolve, path, m) && EndsAt(files, resolve, path, n)
    ensures m == n
  {
    if m < n {
      AncestorsBelow(files, resolve, path, m + 1, n);
    } else if n < m {
      AncestorsBelow(files, resolve, path, n + 1, m);
    }
  }

  lemma RootEnds(files: Files, resolve: Resolver, path: string, n: nat)
    requires IsRoot(files, resolve, path, n)
    ensures EndsAt(files, resolve, path, n) && !Revisits(files, resolve, path)
    ensures forall m: nat, e :: !BreaksAt(files, resolve, path, m, e)
  {
    EndedChain(files, resolve, path, n);
    forall m: nat, e ensures !BreaksAt(files, resolve, path, m, e) {
      if BreaksAt(files, resolve, path, m, e) {
        EndUnique(files, resolve, path, m, n);
      }
    }
  }

  lemma BreakEnds(files: Files, resolve: Resolver, path: string, n: nat, error: Error)
    requires BreaksAt(files, resolve, path, n, error)
    ensures EndsAt(files, resolve, path, n) && !Revisits(files, resolve, path)
    ensures forall m: nat, e :: BreaksAt(files, resolve, path, m, e) ==> m == n && e == error
  {
    EndedChain(files, resolve, path, n);
    forall m: nat, e | BreaksAt(files, resolve, path, m, e) ensures m == n && e == error {
      EndUnique(files, resolve, path, m, n);
    }
  }

  /** For every set of files, loading succeeds exactly when the extends chain reaches a root, with the fold
      of the merge from that root down; it reports a circle exactly when the chain revisits a file; and it
      reports another error exactly when the chain comes to a file with that defect. What lies outside the
      chain does not matter. */
  lemma {:induction false} LoadingCharacterized(files: Files, resolve: Resolver, path: string)
    ensures var r := Loaded(files, resolve, path, {path});
            && (r.Success? <==> exists n: nat :: IsRoot(files, resolve, path, n))
            && (r.Success? ==> FoldsFromRoot(files, resolve, path, 0, r.value))
            && (r.Failure? && r.error.Circular? <==> Revisits(files, resolve, path))
            && (forall e: Error | !e.Circular? ::
                  r == Failure(e) <==> exists n: nat :: BreaksAt(files, resolve, path, n, e))
  {
    var r := Loaded(files, resolve, path, {path});
    LoadFrom(files, resolve, path, 0, path, {path});
    forall n: nat | IsRoot(files, resolve, path, n) ensures r.Success? {
      RootEnds(files, resolve, path, n);
    }
    forall n: nat, e | BreaksAt(files, resolve, path, n, e) ensures r == Failure(e) {
      BreakEnds(files, resolve, path, n, e);
      if r.Success? {
        var m: nat :| IsRoot(files, resolve, path, m);
        RootEnds(files, resolve, path, m);
      }
    }
    if r.Success? {
      var n: nat :| IsRoot(files, resolve, path, n);
      RootEnds(files, resolve, path, n);
    } else if !r.error.Circular? {
      var n: nat :| BreaksAt(files, resolve, path, n, r.error);
      BreakEnds(files, resolve, path, n, r.error);
    }
  }

  /** What loading a file gives holds no extends entry, but every other setting of the file itself: leaves as
      they are, objects at least as objects. */
  lemma {:induction false} OwnSettingsHold(files: Files, resolve: Resolver, path: string, seen: set<string>)
    requires Loaded(files, resolve, path, seen).Success?
    ensures path in files && files[path].Payload?
    ensures var tree, value := files[path].tree, Loaded(files, resolve, path, seen).value;
            && "extends" !in value
            && forall k | k in tree && k != "extends" ::
                 k in value && if tree[k].Object? then value[k].Object? else value[k] == tree[k]
    decreases files.Keys - seen, if path in files then 1 else 0
  {
    var tree, value := files[path].tree, Loaded(files, resolve, path, seen).value;
    var link := ExtendsOf(tree);
    if !link.Null? {
      var parent := resolve(path, link.text);
      assert parent !in files ==> files.Keys - (seen + {parent}) == files.Keys - seen;
      OwnSettingsHold(files, resolve, parent, seen + {parent});
      var base := Loaded(files, resolve, parent, seen + {parent}).value;
      forall k | k in tree && k != "extends"
        ensures k in value && if tree[k].Object? then value[k].Object? else value[k] == tree[k]
      {
        MergeTreesAt(base, Settings(tree), k);
      }
    }
  }
}
