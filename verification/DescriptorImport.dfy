/** Importing a Protobuf descriptor set: files in dependency order, import cycles refused. */
module DescriptorImport {
  import opened Wrappers
  import opened Canonical

  datatype File = File(name: Option<string>, dependencies: seq<string>)

  datatype ImportError = MissingName | Duplicate(name: string) | ImportCycle(name: string)

  type Files = map<string, seq<string>>

  /** `a` imports `b`, and both are in the set. */
  ghost predicate Imports(files: Files, a: string, b: string) {
    a in files && b in files && b in files[a]
  }

  ghost predicate IsChain(files: Files, path: seq<string>) {
    forall i, j :: 0 <= i < |path| && j == i + 1 && j < |path| ==> Imports(files, path[i], path[j])
  }

  ghost predicate IsCycle(files: Files, path: seq<string>) {
    |path| > 1 && path[0] == path[|path| - 1] && IsChain(files, path)
  }

  ghost predicate Acyclic(files: Files) { forall path :: !IsCycle(files, path) }

  ghost predicate Earlier(order: seq<string>, name: string, i: int) {
    exists j :: 0 <= j < i && j < |order| && order[j] == name
  }

  /** The list holds exactly these files, each once, after everything it imports from the set. */
  ghost predicate InOrder(files: Files, listed: set<string>, order: seq<string>) {
    && (forall i, j :: 0 <= i < j < |order| ==> order[i] != order[j])
    && (forall name :: name in listed <==> Earlier(order, name, |order|))
    && forall i, b :: 0 <= i < |order| && Imports(files, order[i], b) ==> Earlier(order, b, i)
  }

  lemma EarlierOn(order: seq<string>, longer: seq<string>, name: string, i: int, k: int)
    requires order <= longer && Earlier(order, name, i) && i <= k
    ensures Earlier(longer, name, k)
  {
    var j :| 0 <= j < i && j < |order| && order[j] == name;
    assert longer[j] == name;
  }

  lemma ListOne(files: Files, listed: set<string>, order: seq<string>, name: string)
    requires InOrder(files, listed, order) && name !in listed
    requires forall b :: Imports(files, name, b) ==> b in listed
    ensures InOrder(files, listed + {name}, order + [name])
  {
    var longer := order + [name];
    forall i | 0 <= i < |order| ensures order[i] != name {
      if order[i] == name { assert Earlier(order, name, |order|); }
    }
    forall x ensures x in listed + {name} <==> Earlier(longer, x, |longer|) {
      if x in listed { EarlierOn(order, longer, x, |order|, |longer|); }
      if x == name { assert longer[|order|] == name; }
      if Earlier(longer, x, |longer|) {
        var j :| 0 <= j < |longer| && longer[j] == x;
        if j < |order| { assert order[j] == x; }
      }
    }
    forall i, b | 0 <= i < |longer| && Imports(files, longer[i], b) ensures Earlier(longer, b, i) {
      if i < |order| { EarlierOn(order, longer, b, i, i); } else { EarlierOn(order, longer, b, |order|, i); }
    }
  }

  /** What is listed in order has no cycle: positions fall along imports. */
  lemma {:induction false} PositionsFall(files: Files, order: seq<string>, path: seq<string>, i: nat, at: nat)
          returns (end: nat)
    requires InOrder(files, files.Keys, order) && IsChain(files, path) && i < |path| && at < |order|
    requires order[at] == path[i]
    ensures end < |order| && order[end] == path[|path| - 1] && end <= at && (i + 1 < |path| ==> end < at)
    decreases |path| - i
  {
    end := at;
    if i + 1 < |path| {
      assert Imports(files, path[i], path[i + 1]);
      assert Earlier(order, path[i + 1], at);
      var j :| 0 <= j < at && order[j] == path[i + 1];
      end := PositionsFall(files, order, path, i + 1, j);
    }
  }

  lemma OrderedIsAcyclic(files: Files, order: seq<string>)
    requires InOrder(files, files.Keys, order)
    ensures Acyclic(files)
  {
    forall path | IsCycle(files, path) ensures false {
      assert Imports(files, path[0], path[1]);
      assert Earlier(order, path[0], |order|);
      var at :| 0 <= at < |order| && order[at] == path[0];
      var end := PositionsFall(files, order, path, 0, at);
      assert false;
    }
  }

  lemma StackCycle(files: Files, stack: seq<string>, name: string)
    requires IsChain(files, stack + [name]) && name in stack
    ensures !Acyclic(files)
  {
    var i :| 0 <= i < |stack| && stack[i] == name;
    ChainSuffix(files, stack + [name], i);
    assert IsCycle(files, (stack + [name])[i..]);
  }

  lemma ChainSuffix(files: Files, path: seq<string>, i: nat)
    requires IsChain(files, path) && i < |path|
    ensures IsChain(files, path[i..]) && path[i..][|path| - i - 1] == path[|path| - 1] && path[i..][0] == path[i]
  {
    hide Acyclic;
    assert forall k :: 0 <= k < |path| - i ==> path[i..][k] == path[i + k];
  }

  class DescriptorSetImport {
    var files: Files
    var order: seq<string>
    var visiting: set<string>
    var visited: set<string>

    constructor ()
      ensures files == map[] && order == [] && visiting == {} && visited == {}
    {
      files, order, visiting, visited := map[], [], {}, {};
    }

    // `stack` is the chain of files being visited.
    ghost predicate Walking(stack: seq<string>)
      reads this
    {
      && visiting == (set x <- stack) && visiting !! visited && visited <= files.Keys
      && (forall i, j :: 0 <= i < j < |stack| ==> stack[i] != stack[j])
      && InOrder(files, visited, order)
    }

    method Visit(name: string, ghost stack: seq<string>) returns (error: Option<ImportError>)
      requires name in files && Walking(stack) && IsChain(files, stack + [name]) && visiting <= files.Keys
      modifies this`order, this`visiting, this`visited
      ensures error.None? ==> Walking(stack) && old(visited) + {name} <= visited
      ensures error.Some? ==> error.value.ImportCycle? && !Acyclic(files)
      decreases files.Keys - visiting
    {
      if name in visited {
        return None;
      }
      if name in visiting {
        StackCycle(files, stack, name);
        return Some(ImportCycle(name));
      }
      visiting := visiting + {name};
      ghost var deeper := stack + [name];
      for i := 0 to |files[name]|
        invariant Walking(deeper) && visiting <= files.Keys && old(visited) <= visited && name !in visited
        invariant visiting == old(visiting) + {name}
        invariant forall k :: 0 <= k < i && files[name][k] in files ==> files[name][k] in visited
      {
        var dependency := files[name][i];
        if dependency in files {
          ChainOn(files, deeper, dependency);
          var failed := Visit(dependency, deeper);
          if failed.Some? {
            return failed;
          }
        }
      }
      visiting := visiting - {name};
      ListOne(files, visited, order, name);
      visited := visited + {name};
      order := order + [name];
      return None;
    }

    method Load(given: seq<File>) returns (error: Option<ImportError>)
      requires files == map[]
      modifies this`files
      ensures error.None? <==> Distinct(given)
      ensures error.None? ==> files == Table(given)
      ensures error.Some? ==> !error.value.ImportCycle?
    {
      hide Distinct, Table;
      NothingGiven(given);
      for i := 0 to |given|
        invariant Distinct(given[..i]) && files == Table(given[..i])
      {
        var file := given[i];
        if file.name.None? || file.name.value == "" {
          NotDistinct(given, i);
          return Some(MissingName);
        }
        if file.name.value in files {
          NotDistinct(given, i);
          return Some(Duplicate(file.name.value));
        }
        OneMore(given, i);
        files := files[file.name.value := file.dependencies];
      }
      assert given[..|given|] == given;
      return None;
    }

    /** Succeeds exactly when the names are distinct and not empty and no imports within the set form
        a cycle; then every file is listed once, after all it imports. */
    method Import(given: seq<File>) returns (error: Option<ImportError>)
      requires files == map[] && order == [] && visiting == {} && visited == {}
      modifies this
      ensures error.None? <==> Distinct(given) && Acyclic(Table(given))
      ensures error.None? ==> InOrder(Table(given), Table(given).Keys, order)
      ensures Distinct(given) && !Acyclic(Table(given)) ==> error.value.ImportCycle?
    {
      hide Distinct, Table, Acyclic, InOrder;
      error := Load(given);
      if error.Some? {
        return;
      }
      var names := SortedKeys(files.Keys);
      NothingListed(files);
      for i := 0 to |names|
        invariant files == Table(given) && error == None && Walking([])
        invariant forall k :: 0 <= k < i ==> names[k] in visited
      {
        assert names[i] in names && visiting == {};
        assert [] + [names[i]] == [names[i]];
        error := Visit(names[i], []);
        if error.Some? {
          return;
        }
      }
      assert visited == files.Keys by {
        forall x <- files.Keys ensures x in visited { assert x in names; }
      }
      OrderedIsAcyclic(files, order);
    }
  }

  lemma NothingListed(files: Files)
    ensures InOrder(files, {}, [])
  {}

  lemma ChainOn(files: Files, stack: seq<string>, dependency: string)
    requires stack != [] && IsChain(files, stack) && Imports(files, stack[|stack| - 1], dependency)
    ensures IsChain(files, stack + [dependency])
  {}

  /** Every file has a name, and no two the same. */
  ghost predicate Distinct(files: seq<File>) {
    && (forall f <- files :: f.name.Some? && f.name.value != "")
    && forall i, j :: 0 <= i < j < |files| ==> files[i].name != files[j].name
  }

  function Table(files: seq<File>): (t: Files)
    ensures forall name :: name in t <==> exists i :: 0 <= i < |files| && files[i].name == Some(name)
  {
    if files == [] then map[]
    else
      var last := files[|files| - 1];
      assert forall i :: 0 <= i < |files| - 1 ==> files[..|files| - 1][i] == files[i];
      if last.name.Some? then Table(files[..|files| - 1])[last.name.value := last.dependencies]
      else Table(files[..|files| - 1])
  }

  lemma NothingGiven(files: seq<File>)
    ensures Distinct(files[..0]) && Table(files[..0]) == map[]
  {}

  lemma OneMore(files: seq<File>, i: nat)
    requires i < |files| && Distinct(files[..i])
    requires files[i].name.Some? && files[i].name.value != "" && files[i].name.value !in Table(files[..i])
    ensures Distinct(files[..i + 1])
    ensures Table(files[..i + 1]) == Table(files[..i])[files[i].name.value := files[i].dependencies]
  {
    hide Distinct;
    assert files[..i + 1] == files[..i] + [files[i]] && files[..i + 1][..i] == files[..i];
    DistinctPlus(files[..i], files[i]);
  }

  lemma DistinctPlus(files: seq<File>, file: File)
    requires Distinct(files) && file.name.Some? && file.name.value != "" && file.name.value !in Table(files)
    ensures Distinct(files + [file])
  {
    var after := files + [file];
    forall a, b | 0 <= a < b < |after| ensures after[a].name != after[b].name {
      assert files[a] == after[a];
      assert b == |files| ==> after[b] == file;
    }
  }

  lemma NotDistinct(files: seq<File>, i: nat)
    requires i < |files|
    requires files[i].name.None? || files[i].name.value == "" || files[i].name.value in Table(files[..i])
    ensures !Distinct(files)
  {
    assert files[i] in files;
    if files[i].name.Some? && files[i].name.value in Table(files[..i]) {
      var j :| 0 <= j < i && files[..i][j].name == files[i].name;
      assert files[j].name == files[i].name;
    }
  }
}
