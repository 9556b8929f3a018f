/** Building nested configuration from environment variables (config/env.go): each variable is
    mounted at the path its name spells, and `mountMap` nests maps inside maps in place. */
module Environment {
  import opened Wrappers
  import opened Strings

  type Path = seq<string>

  datatype Trie = Leaf(value: string) | Node(children: Children)

  type Children = map<string, Trie>

  datatype Variable = Variable(path: Path, value: string)

  // ---- what mountMap does, on values ----------------------------------------------------

  /** A leaf on the way blocks the variable; a leaf at the end replaces whatever was there. */
  function Mount(m: Children, path: Path, v: string): Children
    requires path != []
    decreases |path|
  {
    if |path| == 1 then m[path[0] := Leaf(v)]
    else
      var sub := if path[0] in m then m[path[0]] else Node(map[]);
      match sub
      case Leaf(_) => m
      case Node(children) => m[path[0] := Node(Mount(children, path[1..], v))]
  }

  predicate ValidVars(vars: seq<Variable>) {
    forall x | x in vars :: x.path != []
  }

  function Build(vars: seq<Variable>): Children
    requires ValidVars(vars)
  {
    if vars == [] then map[]
    else
      var last := vars[|vars| - 1];
      assert last in vars;
      Mount(Build(vars[..|vars| - 1]), last.path, last.value)
  }

  function Lookup(m: Children, path: Path): Option<string>
    decreases |path|
  {
    if path == [] || path[0] !in m then None
    else match m[path[0]]
      case Leaf(v) => if |path| == 1 then Some(v) else None
      case Node(children) => Lookup(children, path[1..])
  }

  // ---- a variable is kept iff no other variable is a prefix of it -----------------------

  /** Some leaf of the tree lies strictly above the path. */
  ghost predicate Blocked(m: Children, path: Path) {
    exists k: nat | k < |path| :: Lookup(m, path[..k]).Some?
  }

  lemma BlockedBelow(m: Children, path: Path)
    requires |path| > 1 && path[0] in m && m[path[0]].Node?
    ensures Blocked(m, path) <==> Blocked(m[path[0]].children, path[1..])
  {
    var children := m[path[0]].children;
    if Blocked(m, path) {
      var k: nat :| k < |path| && Lookup(m, path[..k]).Some?;
      assert path[..k][1..] == path[1..][..k - 1];
    }
    if Blocked(children, path[1..]) {
      var k: nat :| k < |path[1..]| && Lookup(children, path[1..][..k]).Some?;
      assert path[..k + 1][1..] == path[1..][..k];
      assert Lookup(m, path[..k + 1]).Some?;
    }
  }

  lemma {:induction false} LookupMount(m: Children, path: Path, v: string, q: Path)
    requires path != []
    ensures Blocked(m, path) ==> Mount(m, path, v) == m
    ensures !Blocked(m, path) ==>
              Lookup(Mount(m, path, v), q) == if q == path then Some(v) else if path <= q then None else Lookup(m, q)
    decreases |path|
  {
    if |path| == 1 {
      assert path == [path[0]];
      BlockedNever(m, path);
      if q != [] && q[0] == path[0] && |q| == 1 {
        assert q == path;
      }
    } else if path[0] in m && m[path[0]].Leaf? {
      assert path[..1] == [path[0]];
      assert Lookup(m, path[..1]).Some?;
    } else {
      var children := if path[0] in m then m[path[0]].children else map[];
      if path[0] in m {
        BlockedBelow(m, path);
      } else {
        NotBlockedFresh(m, path);
      }
      LookupMount(children, path[1..], v, if q == [] then [] else q[1..]);
      if q != [] && q[0] == path[0] {
        assert q == [q[0]] + q[1..] && path == [path[0]] + path[1..];
        assert q == path <==> q[1..] == path[1..];
        assert path <= q <==> path[1..] <= q[1..];
      }
    }
  }

  lemma BlockedNever(m: Children, path: Path)
    requires |path| == 1
    ensures !Blocked(m, path)
  {}

  lemma NotBlockedFresh(m: Children, path: Path)
    requires path != [] && path[0] !in m
    ensures !Blocked(m, path)
  {}

  ghost predicate IsVariable(vars: seq<Variable>, path: Path) {
    exists x :: x in vars && x.path == path
  }

  /** Some variable's path is a proper prefix of the given one. */
  ghost predicate Shadowed(vars: seq<Variable>, path: Path) {
    exists k: nat | k < |path| :: IsVariable(vars, path[..k])
  }

  ghost predicate DistinctPaths(vars: seq<Variable>) {
    forall i, j | 0 <= i < j < |vars| :: vars[i].path != vars[j].path
  }

  /** The shortest variable above a path is itself unshadowed. */
  lemma {:induction false} Topmost(vars: seq<Variable>, path: Path, k: nat) returns (j: nat)
    requires k < |path| && IsVariable(vars, path[..k])
    ensures j < |path| && IsVariable(vars, path[..j]) && !Shadowed(vars, path[..j])
  {
    if !Shadowed(vars, path[..k]) {
      return k;
    }
    var i: nat :| i < |path[..k]| && IsVariable(vars, path[..k][..i]);
    assert path[..k][..i] == path[..i];
    j := Topmost(vars, path, i);
  }

  /** The value of the last variable with the path. */
  function LastValue(vars: seq<Variable>, path: Path): Option<string> {
    if vars == [] then None
    else
      var last := vars[|vars| - 1];
      if last.path == path then Some(last.value) else LastValue(vars[..|vars| - 1], path)
  }

  lemma {:induction false} LastValueIn(vars: seq<Variable>, path: Path)
    ensures LastValue(vars, path).Some? <==> IsVariable(vars, path)
    ensures LastValue(vars, path).Some? ==> Variable(path, LastValue(vars, path).value) in vars
  {
    if vars != [] {
      var init, last := vars[..|vars| - 1], vars[|vars| - 1];
      LastValueIn(init, path);
      assert vars == init + [last];
      assert last in vars;
      if x :| x in vars && x.path == path {
        assert x != last ==> x in init;
      }
    }
  }

  /** For any variables, names repeated or not: the tree holds at each path the last value given to
      it, unless some proper prefix of the path is also a variable. */
  lemma {:induction false} BuildLookup(vars: seq<Variable>, q: Path)
    requires ValidVars(vars)
    ensures Lookup(Build(vars), q) == if Shadowed(vars, q) then None else LastValue(vars, q)
    decreases |vars|, 0
  {
    if vars != [] {
      var init, x := vars[..|vars| - 1], vars[|vars| - 1];
      assert vars == init + [x];
      assert x in vars;
      BuildLookup(init, q);
      LookupMount(Build(init), x.path, x.value, q);
      BlockedIsShadowed(init, x.path);
      ShadowedSnoc(init, x, q);
      if Shadowed(init, x.path) && x.path <= q && x.path != q {
        ShadowedLonger(init, x.path, q);
      }
    }
  }

  lemma BlockedIsShadowed(vars: seq<Variable>, path: Path)
    requires ValidVars(vars)
    ensures Blocked(Build(vars), path) <==> Shadowed(vars, path)
    decreases |vars|, 1
  {
    if Blocked(Build(vars), path) {
      var k: nat :| k < |path| && Lookup(Build(vars), path[..k]).Some?;
      BuildLookup(vars, path[..k]);
      LastValueIn(vars, path[..k]);
    }
    if Shadowed(vars, path) {
      var k: nat :| k < |path| && IsVariable(vars, path[..k]);
      var j := Topmost(vars, path, k);
      BuildLookup(vars, path[..j]);
      LastValueIn(vars, path[..j]);
      assert Lookup(Build(vars), path[..j]).Some?;
    }
  }

  /** The tree of variables with distinct names holds, each at its own path, exactly those none
      of whose proper prefixes is also a variable. */
  lemma BuildHoldsUnshadowed(vars: seq<Variable>, q: Path)
    requires ValidVars(vars) && DistinctPaths(vars)
    ensures forall v :: Lookup(Build(vars), q) == Some(v) <==> Variable(q, v) in vars && !Shadowed(vars, q)
  {
    BuildLookup(vars, q);
    LastValueIn(vars, q);
  }

  lemma ShadowedSnoc(init: seq<Variable>, x: Variable, q: Path)
    ensures Shadowed(init + [x], q) <==> Shadowed(init, q) || (x.path <= q && x.path != q)
  {
    var vars := init + [x];
    if Shadowed(vars, q) {
      var k: nat :| k < |q| && IsVariable(vars, q[..k]);
      var y :| y in vars && y.path == q[..k];
      assert y in init ==> IsVariable(init, q[..k]);
    }
    if Shadowed(init, q) {
      var k: nat :| k < |q| && IsVariable(init, q[..k]);
      var y :| y in init && y.path == q[..k];
      assert y in vars && IsVariable(vars, q[..k]);
    }
    if x.path <= q && x.path != q {
      assert x in vars && q[..|x.path|] == x.path;
      assert IsVariable(vars, q[..|x.path|]);
    }
  }

  lemma ShadowedLonger(vars: seq<Variable>, p: Path, q: Path)
    requires Shadowed(vars, p) && p <= q
    ensures Shadowed(vars, q)
  {
    var k: nat :| k < |p| && IsVariable(vars, p[..k]);
    assert q[..k] == p[..k];
  }

  // ---- the order of the variables does not matter ---------------------------------------

  /** No map inside the tree is empty. */
  predicate Dense(t: Trie) {
    t.Node? ==> t.children != map[] && forall k | k in t.children :: Dense(t.children[k])
  }

  predicate DenseInside(m: Children) { forall k | k in m :: Dense(m[k]) }

  lemma {:induction false} MountDense(m: Children, path: Path, v: string)
    requires path != [] && DenseInside(m)
    ensures DenseInside(Mount(m, path, v))
    decreases |path|
  {
    if |path| > 1 && !(path[0] in m && m[path[0]].Leaf?) {
      var children := if path[0] in m then m[path[0]].children else map[];
      MountDense(children, path[1..], v);
      MountNonempty(children, path[1..], v);
      assert Dense(Node(Mount(children, path[1..], v)));
    }
  }

  lemma MountNonempty(m: Children, path: Path, v: string)
    requires path != []
    ensures path[0] in Mount(m, path, v)
  {}

  lemma {:induction false} BuildDense(vars: seq<Variable>)
    requires ValidVars(vars)
    ensures DenseInside(Build(vars))
  {
    if vars != [] {
      var last := vars[|vars| - 1];
      assert last in vars;
      BuildDense(vars[..|vars| - 1]);
      MountDense(Build(vars[..|vars| - 1]), last.path, last.value);
    }
  }

  lemma {:induction false} SomeLeaf(t: Trie) returns (q: Path)
    requires t.Node? && Dense(t)
    ensures Lookup(t.children, q).Some?
  {
    var k :| k in t.children;
    match t.children[k]
    case Leaf(_) =>
      q := [k];
    case Node(children) =>
      var rest := SomeLeaf(t.children[k]);
      q := [k] + rest;
  }

  /** Trees without empty maps are determined by what can be looked up in them. */
  lemma {:induction false} LookupDetermines(a: Trie, b: Trie)
    requires a.Node? && b.Node? && DenseInside(a.children) && DenseInside(b.children)
    requires forall q :: Lookup(a.children, q) == Lookup(b.children, q)
    ensures a == b
    decreases a
  {
    forall k ensures k in a.children <==> k in b.children {
      SameKeys(a.children, b.children, k);
      SameKeys(b.children, a.children, k);
    }
    forall k | k in a.children ensures a.children[k] == b.children[k] {
      var x, y := a.children[k], b.children[k];
      assert Lookup(a.children, [k]) == Lookup(b.children, [k]);
      if x.Node? {
        if y.Node? {
          forall q ensures Lookup(x.children, q) == Lookup(y.children, q) {
            assert ([k] + q)[1..] == q;
            assert Lookup(a.children, [k] + q) == Lookup(b.children, [k] + q);
          }
          LookupDetermines(x, y);
        }
      }
    }
  }

  lemma SameKeys(a: Children, b: Children, k: string)
    requires DenseInside(a) && forall q :: Lookup(a, q) == Lookup(b, q)
    ensures k in a ==> k in b
  {
    if k in a {
      if a[k].Leaf? {
        assert Lookup(a, [k]).Some?;
      } else {
        var q := SomeLeaf(a[k]);
        assert ([k] + q)[1..] == q;
        assert Lookup(a, [k] + q).Some?;
      }
    }
  }

  /** Some path that no proper prefix shadows is given two values. */
  ghost predicate Ambiguous(vars: seq<Variable>) {
    exists x, y | x in vars && y in vars && x.path == y.path && x.value != y.value :: !Shadowed(vars, x.path)
  }

  lemma DistinctUnambiguous(vars: seq<Variable>)
    requires DistinctPaths(vars)
    ensures !Ambiguous(vars)
  {}

  lemma SameShadows(vars: seq<Variable>, vars': seq<Variable>, q: Path)
    requires forall x :: x in vars <==> x in vars'
    ensures Shadowed(vars, q) <==> Shadowed(vars', q)
  {
    forall p ensures IsVariable(vars, p) <==> IsVariable(vars', p) {}
  }

  /** Loading is confluent: the same variables, none of them ambiguous, give the same tree in
      whatever order they are mounted. */
  lemma Confluent(vars: seq<Variable>, vars': seq<Variable>)
    requires ValidVars(vars) && ValidVars(vars') && !Ambiguous(vars)
    requires forall x :: x in vars <==> x in vars'
    ensures Build(vars) == Build(vars')
  {
    forall q ensures Lookup(Build(vars), q) == Lookup(Build(vars'), q) {
      SameShadows(vars, vars', q);
      BuildLookup(vars, q);
      BuildLookup(vars', q);
      LastValueIn(vars, q);
      LastValueIn(vars', q);
    }
    BuildDense(vars);
    BuildDense(vars');
    LookupDetermines(Node(Build(vars)), Node(Build(vars')));
  }

  /** The variables with one of them put last. */
  lemma PutLast(vars: seq<Variable>, x: Variable) returns (vars': seq<Variable>)
    requires ValidVars(vars) && x in vars
    ensures ValidVars(vars') && multiset(vars') == multiset(vars)
    ensures LastValue(vars', x.path) == Some(x.value)
  {
    var k :| 0 <= k < |vars| && vars[k] == x;
    vars' := vars[..k] + vars[k + 1..] + [x];
    assert vars == vars[..k] + [x] + vars[k + 1..];
  }

  lemma PutLastTree(vars: seq<Variable>, x: Variable) returns (vars': seq<Variable>)
    requires ValidVars(vars) && x in vars && !Shadowed(vars, x.path)
    ensures ValidVars(vars') && multiset(vars') == multiset(vars)
    ensures Lookup(Build(vars'), x.path) == Some(x.value)
  {
    vars' := PutLast(vars, x);
    forall y ensures y in vars <==> y in vars' {
      assert y in multiset(vars) <==> y in multiset(vars');
    }
    SameShadows(vars, vars', x.path);
    BuildLookup(vars', x.path);
  }

  /** All orders of the variables give the same tree exactly when no unshadowed path is given two
      values; of two such values the one mounted later stays. */
  lemma OrderIndependentExactly(vars: seq<Variable>)
    requires ValidVars(vars)
    ensures (forall vars' | ValidVars(vars') && multiset(vars') == multiset(vars) :: Build(vars') == Build(vars))
            <==> !Ambiguous(vars)
  {
    if Ambiguous(vars) {
      var x, y :| x in vars && y in vars && x.path == y.path && x.value != y.value && !Shadowed(vars, x.path);
      var first := PutLastTree(vars, x);
      var second := PutLastTree(vars, y);
      assert Build(first) != Build(second);
    } else {
      forall vars' | ValidVars(vars') && multiset(vars') == multiset(vars) ensures Build(vars') == Build(vars) {
        forall y ensures y in vars <==> y in vars' {
          assert y in multiset(vars) <==> y in multiset(vars');
        }
        Confluent(vars, vars');
      }
    }
  }

  // ---- the maps themselves --------------------------------------------------------------

  datatype Entry = Text(value: string) | Sub(map_: EnvMap)

  /** A map of the loaded structure; its entries may be further maps, which it owns. */
  class EnvMap {
    var entries: map<string, Entry>
    ghost var repr: set<EnvMap>
    ghost var view: Children

    ghost predicate Valid()
      reads this, repr
      ensures Valid() ==> this in repr
      decreases repr
    {
      && this in repr
      && (forall k | k in entries && entries[k].Sub? ::
            && entries[k].map_ in repr && entries[k].map_.repr <= repr && this !in entries[k].map_.repr
            && entries[k].map_.Valid())
      && (forall k, l | k in entries && l in entries && k != l && entries[k].Sub? && entries[l].Sub? ::
            entries[k].map_.repr !! entries[l].map_.repr)
      && view.Keys == entries.Keys
      && forall k | k in entries :: view[k] ==
           match entries[k] case Text(v) => Leaf(v) case Sub(m) => Node(m.view)
    }

    constructor ()
      ensures Valid() && fresh(repr) && entries == map[] && view == map[]
    {
      entries, repr, view := map[], {this}, map[];
    }

    method MountMap(path: Path, v: string)
      requires Valid() && path != []
      modifies repr
      ensures Valid() && fresh(repr - old(repr))
      ensures view == Mount(old(view), path, v)
      decreases |path|, 0
    {
      if |path| == 1 {
        SetText(path[0], v);
        return;
      }
      if path[0] !in entries {
        AddEmptyMap(path[0]);
      }
      match entries[path[0]]
      case Text(_) =>
        return;
      case Sub(m) =>
        MountBelow(path[0], m, path[1..], v);
    }

    method MountBelow(key: string, m: EnvMap, rest: Path, v: string)
      requires Valid() && key in entries && entries[key] == Sub(m) && rest != []
      modifies repr
      ensures Valid() && fresh(repr - old(repr))
      ensures view == old(view)[key := Node(Mount(old(m.view), rest, v))]
      decreases |rest|, 1
    {
      m.MountMap(rest, v);
      assert OthersValid(key, m);
      Adopt(key, m);
      SetSub(key, m);
    }

    method SetText(key: string, v: string)
      requires Valid()
      modifies this
      ensures Valid() && repr == old(repr) && view == old(view)[key := Leaf(v)]
    {
      entries := entries[key := Text(v)];
      view := view[key := Leaf(v)];
    }

    method AddEmptyMap(key: string)
      requires Valid() && key !in entries
      modifies this
      ensures Valid() && fresh(repr - old(repr))
      ensures key in entries && entries[key].Sub? && view == old(view)[key := Node(map[])]
    {
      var created := new EnvMap();
      Adopt(key, created);
      SetSub(key, created);
    }

    /** Everything but the entry under `key` is in order, and apart from the nodes of `m`. */
    ghost predicate OthersValid(key: string, m: EnvMap)
      reads this, repr, m, m.repr
    {
      && this in repr && this !in m.repr && m.Valid()
      && (forall k | k in entries && k != key && entries[k].Sub? ::
            && entries[k].map_ in repr && entries[k].map_.repr <= repr && this !in entries[k].map_.repr
            && entries[k].map_.Valid() && entries[k].map_.repr !! m.repr)
      && (forall k, l | k in entries && l in entries && k != l && k != key && l != key
            && entries[k].Sub? && entries[l].Sub? :: entries[k].map_.repr !! entries[l].map_.repr)
      && view.Keys + {key} == entries.Keys + {key}
      && forall k | k in entries && k != key :: k in view && view[k] ==
           match entries[k] case Text(v) => Leaf(v) case Sub(n) => Node(n.view)
    }

    /** Stores a map whose nodes this map owns already. */
    method SetSub(key: string, m: EnvMap)
      requires OthersValid(key, m) && m.repr <= repr
      modifies this`entries, this`view
      ensures Valid() && entries == old(entries)[key := Sub(m)] && view == old(view)[key := Node(m.view)]
    {
      entries := entries[key := Sub(m)];
      view := view[key := Node(m.view)];
      Unaffected(m);
      forall k | k in entries && k != key && entries[k].Sub? ensures entries[k].map_.Valid() {
        Unaffected(entries[k].map_);
      }
      Complete(key, m);
    }

    lemma Complete(key: string, m: EnvMap)
      requires OthersValid(key, m) && m.repr <= repr && key in entries && entries[key] == Sub(m)
      requires key in view && view[key] == Node(m.view)
      ensures Valid()
    {}

    ghost method Adopt(key: string, m: EnvMap)
      requires OthersValid(key, m)
      modifies this`repr
      ensures OthersValid(key, m) && repr == old(repr) + m.repr
    {
      repr := repr + m.repr;
    }
  }

  twostate lemma Unaffected(m: EnvMap)
    requires old(m.Valid()) && unchanged(old(m.repr))
    ensures m.Valid() && m.repr == old(m.repr)
  {
    assert m in old(m.repr);
  }

  // ---- loading the environment ----------------------------------------------------------

  const ENV_PREFIX := "SYG"

  /** `strings.Contains(e, ENV_PREFIX)`: anywhere in the entry, not only at the start of the name. */
  predicate Selected(e: string) {
    exists k | 0 <= k <= |e| :: ENV_PREFIX <= e[k..]
  }

  /** The entry up to its first equals sign, and after it. */
  function NameOf(e: string): string { if e == "" || e[0] == '=' then "" else [e[0]] + NameOf(e[1..]) }

  function ValueOf(e: string): string
    requires '=' in e
  {
    if e[0] == '=' then e[1..] else ValueOf(e[1..])
  }

  function AsVariable(e: string): Variable
    requires '=' in e
  {
    Variable(Split(NameOf(e), '_'), ValueOf(e))
  }

  // ---- what an entry says, in terms of its text -------------------------------------------

  lemma {:induction false} EntryParts(e: string)
    requires '=' in e
    ensures e == NameOf(e) + "=" + ValueOf(e) && '=' !in NameOf(e)
  {
    if e[0] != '=' {
      assert e == [e[0]] + e[1..];
      EntryParts(e[1..]);
    }
  }

  lemma {:induction false} EntryOf(name: string, v: string)
    requires '=' !in name
    ensures NameOf(name + "=" + v) == name && ValueOf(name + "=" + v) == v
  {
    if name != "" {
      EntryOf(name[1..], v);
      assert (name + "=" + v)[1..] == name[1..] + "=" + v;
    }
  }

  /** The name is the pieces of the path with underscores in between. */
  predicate Spells(path: Path, name: string) {
    path != [] && Join(path, '_') == name && forall piece | piece in path :: '_' !in piece
  }

  lemma SpelledPath(path: Path, name: string)
    ensures Spells(path, name) <==> path == Split(name, '_')
  {
    JoinSplit(name, '_');
    PiecesFree(name, '_');
    if Spells(path, name) {
      SplitJoin(path, '_');
    }
  }

  /** The entry mentions the prefix somewhere, and reads `name=value`, cut at the first equals sign,
      with a name that spells the path. */
  ghost predicate Assigns(e: string, path: Path, v: string) {
    && (exists before, after :: e == before + "SYG" + after)
    && exists name :: e == name + "=" + v && '=' !in name && Spells(path, name)
  }

  /** Some entry assigns the value to the path, and none assigns any to a proper prefix. */
  ghost predicate Assigned(environ: seq<string>, q: Path, v: string) {
    && (exists e :: e in environ && Assigns(e, q, v))
    && forall e, k, w | e in environ && 0 <= k < |q| :: !Assigns(e, q[..k], w)
  }

  lemma SelectedMeans(e: string)
    ensures Selected(e) <==> exists before, after :: e == before + "SYG" + after
  {
    if Selected(e) {
      var k :| 0 <= k <= |e| && ENV_PREFIX <= e[k..];
      assert e == e[..k] + "SYG" + e[k + 3..];
    }
    if before, after :| e == before + "SYG" + after {
      assert e[|before|..] == "SYG" + after;
    }
  }

  lemma AssignsMeans(e: string, path: Path, v: string)
    requires '=' in e
    ensures Assigns(e, path, v) <==> Selected(e) && AsVariable(e) == Variable(path, v)
  {
    SelectedMeans(e);
    EntryParts(e);
    SpelledPath(path, NameOf(e));
    if name :| e == name + "=" + v && '=' !in name && Spells(path, name) {
      EntryOf(name, v);
    }
  }

  /** Entries of the environment have the form `name=value`. */
  predicate Entries(environ: seq<string>) { forall e | e in environ :: '=' in e }

  function Variables(environ: seq<string>): (vars: seq<Variable>)
    requires Entries(environ)
    ensures ValidVars(vars)
    ensures forall x :: x in vars <==> exists e :: e in environ && Selected(e) && x == AsVariable(e)
  {
    if environ == [] then []
    else
      var init, last := environ[..|environ| - 1], environ[|environ| - 1];
      assert environ == init + [last];
      assert last in environ;
      if Selected(last) then Variables(init) + [AsVariable(last)] else Variables(init)
  }

  method LoadENV(environ: seq<string>) returns (structure: EnvMap)
    requires Entries(environ)
    ensures structure.Valid() && structure.view == Build(Variables(environ))
    ensures DistinctNames(environ) ==> forall q, v :: Lookup(structure.view, q) == Some(v) <==> Assigned(environ, q, v)
  {
    structure := new EnvMap();
    for i := 0 to |environ|
      invariant structure.Valid() && fresh(structure.repr)
      invariant structure.view == Build(Variables(environ[..i]))
    {
      assert environ[..i + 1][..i] == environ[..i];
      assert environ[i] in environ;
      if Selected(environ[i]) {
        var x := AsVariable(environ[i]);
        structure.MountMap(x.path, x.value);
        VariablesSnoc(environ[..i], environ[i]);
      }
    }
    assert environ[..|environ|] == environ;
    LoadedEverywhere(environ);
  }

  lemma LoadedEverywhere(environ: seq<string>)
    requires Entries(environ)
    ensures DistinctNames(environ) ==>
              forall q, v :: Lookup(Build(Variables(environ)), q) == Some(v) <==> Assigned(environ, q, v)
  {
    if DistinctNames(environ) {
      forall q, v ensures Lookup(Build(Variables(environ)), q) == Some(v) <==> Assigned(environ, q, v) {
        LoadedStructure(environ, environ, q, v);
      }
    }
  }

  lemma VariablesSnoc(init: seq<string>, e: string)
    requires Entries(init) && '=' in e && Selected(e)
    ensures Build(Variables(init + [e])) == Mount(Build(Variables(init)), AsVariable(e).path, AsVariable(e).value)
  {
    assert (init + [e])[..|init|] == init;
    var vars := Variables(init) + [AsVariable(e)];
    assert vars[..|vars| - 1] == Variables(init);
  }

  ghost predicate DistinctNames(environ: seq<string>) {
    forall i, j | 0 <= i < j < |environ| :: NameOf(environ[i]) != NameOf(environ[j])
  }

  lemma SamePathSameName(e: string, e': string)
    requires '=' in e && '=' in e'
    ensures AsVariable(e).path == AsVariable(e').path ==> NameOf(e) == NameOf(e')
  {
    if AsVariable(e).path == AsVariable(e').path {
      SplitInjective(NameOf(e), NameOf(e'), '_');
    }
  }

  /** Different names spell different paths. */
  lemma {:induction false} DistinctNamesDistinctPaths(environ: seq<string>)
    requires Entries(environ) && DistinctNames(environ)
    ensures DistinctPaths(Variables(environ))
  {
    if environ != [] {
      var init, last := environ[..|environ| - 1], environ[|environ| - 1];
      assert environ == init + [last] && last in environ;
      DistinctNamesDistinctPaths(init);
      FreshPath(init, last);
    }
  }

  lemma FreshPath(init: seq<string>, last: string)
    requires Entries(init) && '=' in last && DistinctNames(init + [last])
    ensures forall x | x in Variables(init) :: x.path != AsVariable(last).path
  {
    forall x | x in Variables(init) ensures x.path != AsVariable(last).path {
      var e :| e in init && Selected(e) && x == AsVariable(e);
      var i :| 0 <= i < |init| && init[i] == e;
      assert NameOf((init + [last])[i]) != NameOf((init + [last])[|init|]);
      SamePathSameName(e, last);
    }
  }

  /** Loading an environment with distinct names does not depend on its order, and the result
      holds a value at a path exactly if some entry assigns it there and no entry assigns
      anything to a proper prefix of the path. */
  lemma LoadedStructure(environ: seq<string>, environ': seq<string>, q: Path, v: string)
    requires Entries(environ) && DistinctNames(environ) && DistinctNames(environ')
    requires forall e :: e in environ <==> e in environ'
    ensures Build(Variables(environ)) == Build(Variables(environ'))
    ensures Lookup(Build(Variables(environ)), q) == Some(v) <==> Assigned(environ, q, v)
  {
    DistinctNamesDistinctPaths(environ);
    DistinctNamesDistinctPaths(environ');
    DistinctUnambiguous(Variables(environ));
    Confluent(Variables(environ), Variables(environ'));
    BuildHoldsUnshadowed(Variables(environ), q);
    AssignedVariable(environ, q, v);
    ShadowedEntries(environ, q);
  }

  lemma AssignedVariable(environ: seq<string>, q: Path, v: string)
    requires Entries(environ)
    ensures Variable(q, v) in Variables(environ) <==> exists e :: e in environ && Assigns(e, q, v)
  {
    if Variable(q, v) in Variables(environ) {
      var e :| e in environ && Selected(e) && Variable(q, v) == AsVariable(e);
      AssignsMeans(e, q, v);
    }
    if e :| e in environ && Assigns(e, q, v) {
      AssignsMeans(e, q, v);
    }
  }

  lemma ShadowedEntries(environ: seq<string>, q: Path)
    requires Entries(environ)
    ensures Shadowed(Variables(environ), q) <==>
            exists e, k, w | e in environ && 0 <= k < |q| :: Assigns(e, q[..k], w)
  {
    if Shadowed(Variables(environ), q) {
      var k: nat :| k < |q| && IsVariable(Variables(environ), q[..k]);
      var x :| x in Variables(environ) && x.path == q[..k];
      AssignedVariable(environ, q[..k], x.value);
      var e :| e in environ && Assigns(e, q[..k], x.value);
      assert e in environ && 0 <= k < |q|;
    }
    if e, k, w :| e in environ && 0 <= k < |q| && Assigns(e, q[..k], w) {
      AssignedVariable(environ, q[..k], w);
      assert IsVariable(Variables(environ), q[..k]);
    }
  }
}
