/**
  The name tables of the documentation builder: the signature text of a
  callable, and the two partitioned tables (one for the names of a module,
  one for the attributes of a class) that put the names a module or class
  lists in its `_DOC_ORDER` first and answer "which names of this kind?".

  What `inspect` and `dir()` report is given as data: each name comes with
  an `Attribute` whose kind, home module and argument specification the
  introspection layer has already read.
 */
module DocNames {
  import opened Wrappers
  import opened Text
  import opened Seqs

  // ---------------------------------------------------------------------------
  // data

  /**
    `inspect.getargspec`: the argument names in declaration order, and, when
    there are any, the default values of the trailing arguments, already
    rendered as text.
   */
  datatype ArgSpec = ArgSpec(args: seq<string>, defaults: Option<seq<string>>)

  /**
    `inspect.Attribute` as the tables read it: the name, the kind the
    classifier gave it (`None` where the module classifier could not tell),
    the `__module__` of the object when it has one, and the argument
    specification of a callable.
   */
  datatype Attribute = Attribute(name: string, kind: Option<string>, homeModule: Option<string>, argSpec: ArgSpec)

  datatype DocError =
    | SignatureUnbound(kind: Option<string>)          // no branch of getSignature binds its message
    | ModuleLacksName(moduleName: string, name: string)   // an ordered name the module does not have
    | OrderedNameMissing(name: string)                // `list.index` fails on an ordered class name
    | NameNotFound(name: string)                      // getElement on a name not in the table

  /** The names of `entries`, in order. */
  function NamesOf(entries: seq<Attribute>): (r: seq<string>)
    ensures |r| == |entries|
    ensures forall i :: 0 <= i < |entries| ==> r[i] == entries[i].name
  {
    if entries == [] then [] else [entries[0].name] + NamesOf(entries[1..])
  }

  // ---------------------------------------------------------------------------
  // getSignature

  /** The text for argument `p`: `arg=default` once the defaults have started. */
  function ArgEntry(spec: ArgSpec, p: nat): string
    requires p < |spec.args|
  {
    match spec.defaults
    case Some(ds) =>
      var offset := |spec.args| - |ds|;
      if p >= offset then spec.args[p] + "=" + ds[p - offset] else spec.args[p]
    case None => spec.args[p]
  }

  /** The entries for the first `n` arguments, `self` left out. */
  function ArgEntries(spec: ArgSpec, n: nat): seq<string>
    requires n <= |spec.args|
  {
    if n == 0 then []
    else ArgEntries(spec, n - 1) + (if spec.args[n - 1] == "self" then [] else [ArgEntry(spec, n - 1)])
  }

  /**
    What `getSignature` returns for an element: the parenthesised argument
    list of a method or function, nothing for a property or data, and no
    value at all for any other kind (its message is never bound).
   */
  function SignatureOf(element: Attribute): (r: Result<string, DocError>)
    ensures r.Err? <==> element.kind !in {Some("method"), Some("function"), Some("property"), Some("data")}
    ensures element.kind in {Some("property"), Some("data")} ==> r == Ok("")
    ensures r.Ok? && r.value != "" ==> r.value[0] == '(' && r.value[|r.value| - 1] == ')'
  {
    if element.kind == Some("method") || element.kind == Some("function") then
      Ok("(" + Join(ArgEntries(element.argSpec, |element.argSpec.args|), ", ") + ")")
    else if element.kind == Some("property") || element.kind == Some("data") then
      Ok("")
    else
      Err(SignatureUnbound(element.kind))
  }

  /** `PartitionedName.getSignature`, once `getElement` has found the element. */
  method GetSignature(element: Attribute) returns (r: Result<string, DocError>)
    ensures r == SignatureOf(element)
  {
    if element.kind == Some("method") || element.kind == Some("function") {
      var args := element.argSpec.args;
      var defaults := element.argSpec.defaults;
      var offset := if defaults.Some? then |args| - |defaults.value| else 0;
      var argStr: seq<string> := [];
      for p := 0 to |args|
        invariant argStr == ArgEntries(element.argSpec, p)
      {
        var arg := args[p];
        if arg == "self" {
          continue;
        }
        if defaults.Some? && p >= offset {
          argStr := argStr + [arg + "=" + defaults.value[p - offset]];
        } else {
          argStr := argStr + [arg];
        }
      }
      r := Ok("(" + Join(argStr, ", ") + ")");
    } else if element.kind == Some("property") {
      r := Ok("");
    } else if element.kind == Some("data") {
      r := Ok("");
    } else {
      r := Err(SignatureUnbound(element.kind));
    }
  }

  /** Without defaults the entries are the argument names, `self` dropped, in order. */
  lemma {:induction false} SignatureWithoutDefaults(spec: ArgSpec, n: nat)
    requires spec.defaults.None? && n <= |spec.args|
    ensures ArgEntries(spec, n) == Without(spec.args[..n], ["self"])
  {
    if n > 0 {
      SignatureWithoutDefaults(spec, n - 1);
      assert spec.args[..n] == spec.args[..n - 1] + [spec.args[n - 1]];
      WithoutAppend(spec.args[..n - 1], spec.args[n - 1], ["self"]);
    }
  }

  /** With no `self` among them, argument `i` gives entry `i`. */
  lemma {:induction false} ArgEntriesWithoutSelf(spec: ArgSpec, n: nat)
    requires n <= |spec.args|
    requires forall i :: 0 <= i < n ==> spec.args[i] != "self"
    ensures |ArgEntries(spec, n)| == n
    ensures forall i :: 0 <= i < n ==> ArgEntries(spec, n)[i] == ArgEntry(spec, i)
  {
    if n > 0 {
      ArgEntriesWithoutSelf(spec, n - 1);
    }
  }

  /**
    With `self` absent and `k` defaults for `n >= k` arguments, the first
    `n - k` arguments appear bare and the last `k` as `arg=default`, each with
    its own default, in order.
   */
  lemma SignatureDefaults(spec: ArgSpec)
    requires spec.defaults.Some? && |spec.defaults.value| <= |spec.args|
    requires forall i :: 0 <= i < |spec.args| ==> spec.args[i] != "self"
    ensures var entries := ArgEntries(spec, |spec.args|);
            var firstDefault := |spec.args| - |spec.defaults.value|;
            |entries| == |spec.args| &&
            (forall i :: 0 <= i < firstDefault ==> entries[i] == spec.args[i]) &&
            (forall i :: firstDefault <= i < |spec.args| ==>
               entries[i] == spec.args[i] + "=" + spec.defaults.value[i - firstDefault])
  {
    ArgEntriesWithoutSelf(spec, |spec.args|);
  }

  /** After a leading `self`, argument `i` gives entry `i - 1`. */
  lemma {:induction false} ArgEntriesAfterSelf(spec: ArgSpec, n: nat)
    requires 1 <= n <= |spec.args| && spec.args[0] == "self"
    requires forall i :: 1 <= i < n ==> spec.args[i] != "self"
    ensures |ArgEntries(spec, n)| == n - 1
    ensures forall i :: 1 <= i < n ==> ArgEntries(spec, n)[i - 1] == ArgEntry(spec, i)
  {
    if n > 1 {
      ArgEntriesAfterSelf(spec, n - 1);
    }
  }

  /**
    The signature of a method, whose first argument is `self`: `self` is left
    out, the arguments before the defaults appear bare, and exactly the last
    `k` arguments appear as `arg=default`, each with its own default, in order.
   */
  lemma MethodSignatureDefaults(spec: ArgSpec)
    requires |spec.args| >= 1 && spec.args[0] == "self"
    requires forall i :: 1 <= i < |spec.args| ==> spec.args[i] != "self"
    requires spec.defaults.Some? && |spec.defaults.value| <= |spec.args|
    ensures |ArgEntries(spec, |spec.args|)| == |spec.args| - 1
    ensures forall i :: 1 <= i < |spec.args| - |spec.defaults.value| ==>
              ArgEntries(spec, |spec.args|)[i - 1] == spec.args[i]
    ensures forall i :: 1 <= i < |spec.args| && |spec.args| - |spec.defaults.value| <= i ==>
              ArgEntries(spec, |spec.args|)[i - 1] ==
                spec.args[i] + "=" + spec.defaults.value[i - (|spec.args| - |spec.defaults.value|)]
  {
    ArgEntriesAfterSelf(spec, |spec.args|);
    var entries := ArgEntries(spec, |spec.args|);
    var ds := spec.defaults.value;
    forall i | 1 <= i < |spec.args|
      ensures i < |spec.args| - |ds| ==> entries[i - 1] == spec.args[i]
      ensures |spec.args| - |ds| <= i ==> entries[i - 1] == spec.args[i] + "=" + ds[i - (|spec.args| - |ds|)]
    {
      assert entries[i - 1] == ArgEntry(spec, i);
    }
  }

  /** The argument specification of `MeterSequence.load`. */
  const LoadArgSpec := ArgSpec(["self", "value", "partitionRequest", "autoWeight", "targetWeight"],
                               Some(["None", "False", "None"]))

  /** The entries of `MeterSequence.load`: `self` dropped, the last three with their defaults. */
  lemma LoadEntries()
    ensures ArgEntries(LoadArgSpec, 5) == ["value", "partitionRequest=None", "autoWeight=False", "targetWeight=None"]
  {
    var spec := LoadArgSpec;
    assert ArgEntry(spec, 1) == "value";
    assert ArgEntry(spec, 2) == "partitionRequest" + "=" + "None" == "partitionRequest=None";
    assert ArgEntry(spec, 3) == "autoWeight" + "=" + "False" == "autoWeight=False";
    assert ArgEntry(spec, 4) == "targetWeight" + "=" + "None" == "targetWeight=None";
    assert ArgEntries(spec, 1) == [];
    assert ArgEntries(spec, 2) == ["value"];
    assert ArgEntries(spec, 3) == ["value", "partitionRequest=None"];
    assert ArgEntries(spec, 4) == ["value", "partitionRequest=None", "autoWeight=False"];
  }

  // ---------------------------------------------------------------------------
  // the module table

  /**
    The rule `_fillData` uses for a module-level name: it belongs to the module
    unless its object has a `__module__` that does not contain the module's
    name.
   */
  predicate DefinedInModule(srcName: string, homeModule: Option<string>)
  {
    homeModule.None? || Contains(homeModule.value, srcName)
  }

  /** A name starting with `__` starts with `_`. */
  lemma DoubleUnderscore(name: string)
    ensures StartsWith(name, "__") ==> StartsWith(name, "_")
  {
    if StartsWith(name, "__") {
      assert name[..1] == name[..2][..1];
    }
  }

  /** The aliases `getNames` accepts for a module-level kind. */
  function ModuleKind(nameKind: string): (r: string)
    ensures r in {"class", "module", "function", "data"} || r == nameKind
    ensures LowerString(nameKind) in ["classes", "class"] ==> r == "class"
    ensures LowerString(nameKind) in ["modules", "imports", "module"] ==> r == "module"
    ensures LowerString(nameKind) in ["functions", "function"] ==> r == "function"
    ensures LowerString(nameKind) in ["data", "attributes", "attribute"] ==> r == "data"
    ensures (LowerString(nameKind) !in ["classes", "class", "modules", "imports", "module",
                                        "functions", "function", "data", "attributes", "attribute"])
            ==> r == nameKind
  {
    var lowered := LowerString(nameKind);
    if lowered in ["classes", "class"] then "class"
    else if lowered in ["modules", "imports", "module"] then "module"
    else if lowered in ["functions", "function"] then "function"
    else if lowered in ["data", "attributes", "attribute"] then "data"
    else nameKind
  }

  /**
    Whether a module lists `a` under `kind`: it is local when locality is
    asked for; when only public names are asked for, it does not start with
    `_` and mentions neither `Test` nor `Exception`; and it is of that kind.
   */
  predicate ModuleNameShown(srcName: string, a: Attribute, kind: string, public: bool, local: bool)
  {
    && (local ==> DefinedInModule(srcName, a.homeModule))
    && (public ==> !StartsWith(a.name, "_") && !Contains(a.name, "Test") && !Contains(a.name, "Exception"))
    && a.kind == Some(kind)
  }

  /** The names of `entries` a module lists under `kind`, in table order. */
  function ModuleNamesShown(srcName: string, entries: seq<Attribute>, kind: string, public: bool, local: bool): (r: seq<string>)
    ensures |r| <= |entries|
  {
    if entries == [] then []
    else
      var n := |entries| - 1;
      ModuleNamesShown(srcName, entries[..n], kind, public, local)
        + (if ModuleNameShown(srcName, entries[n], kind, public, local) then [entries[n].name] else [])
  }

  lemma ModuleNamesShownSnoc(srcName: string, entries: seq<Attribute>, kind: string, public: bool, local: bool, i: nat)
    requires i < |entries|
    ensures ModuleNamesShown(srcName, entries[..i + 1], kind, public, local)
         == ModuleNamesShown(srcName, entries[..i], kind, public, local)
            + (if ModuleNameShown(srcName, entries[i], kind, public, local) then [entries[i].name] else [])
  {
    assert entries[..i + 1][..i] == entries[..i];
  }

  /** A name is listed exactly when some entry of that name passes every filter. */
  lemma {:induction false} ModuleNamesShownMembership(srcName: string, entries: seq<Attribute>, kind: string, public: bool, local: bool, x: string)
    ensures x in ModuleNamesShown(srcName, entries, kind, public, local)
        <==> exists i :: 0 <= i < |entries| && entries[i].name == x && ModuleNameShown(srcName, entries[i], kind, public, local)
  {
    if entries != [] {
      var n := |entries| - 1;
      ModuleNamesShownMembership(srcName, entries[..n], kind, public, local, x);
      if x in ModuleNamesShown(srcName, entries[..n], kind, public, local) {
        var i :| 0 <= i < n && entries[..n][i].name == x && ModuleNameShown(srcName, entries[..n][i], kind, public, local);
        assert entries[i] == entries[..n][i];
      }
      if exists i :: 0 <= i < |entries| && entries[i].name == x && ModuleNameShown(srcName, entries[i], kind, public, local) {
        var i :| 0 <= i < |entries| && entries[i].name == x && ModuleNameShown(srcName, entries[i], kind, public, local);
        if i < n {
          assert entries[..n][i] == entries[i];
        }
      }
    }
  }

  /** If a prefix of the order repeats or misses a name, so does the whole order. */
  lemma OrderedPrefixFails(names: seq<string>, order: seq<string>, n: nat)
    requires n <= |order| && !AllPresentOnce(names, order[..n])
    ensures !AllPresentOnce(names, order)
  {
    SplitAt(order, n);
    AllPresentOnceAppend(names, order[..n], order[n..]);
  }

  /** Realigned data still describes the names it stands beside. */
  lemma RealignedNames(names: seq<string>, data: seq<Attribute>, picked: seq<string>)
    requires |data| == |names| && forall i :: 0 <= i < |names| ==> data[i].name == names[i]
    requires forall x :: x in picked ==> x in names
    ensures forall j :: 0 <= j < |picked| ==> Realign(names, data, picked)[j].name == picked[j]
  {
    RealignAt(names, data, picked);
  }

  /** The rearranged module table is a permutation of the old one and keeps its alignment. */
  lemma SortedTableValid(names: seq<string>, data: seq<Attribute>, taken: seq<string>)
    requires Distinct(names) && AllPresentOnce(names, taken)
    requires |data| == |names| && forall i :: 0 <= i < |names| ==> data[i].name == names[i]
    ensures Distinct(taken + Without(names, taken))
    ensures multiset(taken + Without(names, taken)) == multiset(names)
    ensures forall x :: x in taken + Without(names, taken) ==> x in names
    ensures forall j :: 0 <= j < |taken + Without(names, taken)| ==>
              Realign(names, data, taken + Without(names, taken))[j].name == (taken + Without(names, taken))[j]
  {
    TakenFirstDistinct(names, taken);
    TakenFirstIsPermutation(names, taken);
    var all := taken + Without(names, taken);
    assert forall x :: x in all ==> x in multiset(names);
    RealignedNames(names, data, all);
  }

  /**
    The first loop of the module `_sort`: take each ordered name out of the
    supply and append it with its data. An ordered name the supply no longer
    holds raises.
   */
  method TakeOrdered(srcName: string, allNames: seq<string>, allData: seq<Attribute>, ordered: seq<string>)
    returns (r: Result<(seq<string>, seq<string>, seq<Attribute>), DocError>)
    requires Distinct(allNames) && |allData| == |allNames|
    ensures r.Ok? <==> AllPresentOnce(allNames, ordered)
    ensures r.Ok? ==> r.value.0 == Without(allNames, ordered) && r.value.1 == ordered
    ensures r.Ok? ==> r.value.2 == Realign(allNames, allData, ordered)
    ensures r.Err? ==> r.error.ModuleLacksName? && r.error.moduleName == srcName && r.error.name in ordered
  {
    var namesSupply := allNames;
    var sortedNames: seq<string> := [];
    var sortedData: seq<Attribute> := [];
    assert namesSupply == Without(allNames, ordered[..0]) by {
      WithoutNothing(allNames);
    }
    for k := 0 to |ordered|
      invariant AllPresentOnce(allNames, ordered[..k])
      invariant namesSupply == Without(allNames, ordered[..k])
      invariant sortedNames == ordered[..k]
      invariant sortedData == Realign(allNames, allData, sortedNames)
    {
      var name := ordered[k];
      assert name in namesSupply <==> AllPresentOnce(allNames, ordered[..k + 1]) by {
        TakeOne(allNames, ordered[..k], name);
        PrefixSnoc(ordered, k);
      }
      if name !in namesSupply {
        assert !AllPresentOnce(allNames, ordered) by {
          OrderedPrefixFails(allNames, ordered, k + 1);
        }
        return Err(ModuleLacksName(srcName, name));
      }
      namesSupply := RemoveAt(namesSupply, IndexOf(namesSupply, name));
      var i := IndexOf(allNames, name);
      assert sortedData + [allData[i]] == Realign(allNames, allData, sortedNames + [allNames[i]]) by {
        RealignSnoc(allNames, allData, sortedNames, name);
      }
      sortedNames := sortedNames + [allNames[i]];
      sortedData := sortedData + [allData[i]];
      assert namesSupply == Without(allNames, ordered[..k + 1]) && sortedNames == ordered[..k + 1] by {
        TakeOne(allNames, ordered[..k], name);
        PrefixSnoc(ordered, k);
      }
    }
    assert sortedNames == ordered by {
      PrefixAll(ordered);
    }
    r := Ok((namesSupply, sortedNames, sortedData));
  }

  /** The second loop of the module `_sort`: append every name left in the supply with its data. */
  method AppendRest(allNames: seq<string>, allData: seq<Attribute>, rest: seq<string>, sortedNames: seq<string>, sortedData: seq<Attribute>)
    returns (names: seq<string>, data: seq<Attribute>)
    requires |allData| == |allNames|
    requires forall x :: x in rest ==> x in allNames
    requires forall x :: x in sortedNames ==> x in allNames
    requires sortedData == Realign(allNames, allData, sortedNames)
    ensures names == sortedNames + rest
    ensures data == Realign(allNames, allData, names)
  {
    names, data := sortedNames, sortedData;
    for j := 0 to |rest|
      invariant names == sortedNames + rest[..j]
      invariant data == Realign(allNames, allData, names)
    {
      var name := rest[j];
      var i := IndexOf(allNames, name);
      assert data + [allData[i]] == Realign(allNames, allData, names + [allNames[i]]) by {
        RealignSnoc(allNames, allData, names, name);
      }
      names := names + [allNames[i]];
      data := data + [allData[i]];
      assert names == sortedNames + rest[..j + 1] by {
        PrefixSnoc(rest, j);
      }
    }
    assert names == sortedNames + rest by {
      PrefixAll(rest);
    }
  }

  /**
    The body of `_sort` on the lists it reads and builds: the ordered names
    first, in their order, then every other name in its old order, each with
    its own data. An ordered name the supply no longer holds raises.
   */
  method ArrangeModuleNames(srcName: string, allNames: seq<string>, allData: seq<Attribute>, ordered: seq<string>)
    returns (r: Result<(seq<string>, seq<Attribute>), DocError>)
    requires Distinct(allNames) && |allData| == |allNames|
    requires forall i :: 0 <= i < |allNames| ==> allData[i].name == allNames[i]
    ensures r.Ok? <==> AllPresentOnce(allNames, ordered)
    ensures r.Ok? ==> r.value.0 == ordered + Without(allNames, ordered)
    ensures r.Ok? ==> multiset(r.value.0) == multiset(allNames) && Distinct(r.value.0)
    ensures r.Ok? ==> (forall x :: x in r.value.0 ==> x in allNames) && r.value.1 == Realign(allNames, allData, r.value.0)
    ensures r.Ok? ==> forall j :: 0 <= j < |r.value.0| ==> r.value.1[j].name == r.value.0[j]
    ensures r.Err? ==> r.error.ModuleLacksName? && r.error.moduleName == srcName && r.error.name in ordered
  {
    var taken := TakeOrdered(srcName, allNames, allData, ordered);
    if taken.Err? {
      return Err(taken.error);
    }
    var (namesSupply, sortedNames, sortedData) := taken.value;
    assert forall x :: x in namesSupply ==> x in allNames by {
      forall x | x in namesSupply ensures x in allNames {
        WithoutMembership(allNames, ordered, x);
      }
    }
    var names, data := AppendRest(allNames, allData, namesSupply, sortedNames, sortedData);
    SortedTableValid(allNames, allData, ordered);
    r := Ok((names, data));
  }

  /** `PartitioinedModule`: the names of one module and their data, kept aligned. */
  class PartitionedModule {
    var srcName: string
    var names: seq<string>
    var data: seq<Attribute>
    var namesOrdered: seq<string>

    /** Entry `i` of `data` describes `names[i]`, and `dir()` names each member once. */
    ghost predicate Valid()
      reads this
    {
      |names| == |data| && Distinct(names) && forall i :: 0 <= i < |names| ==> data[i].name == names[i]
    }

    /** The table `__init__` builds from `dir()` and `_fillData`, before it sorts. */
    constructor(srcName: string, entries: seq<Attribute>, namesOrdered: seq<string>)
      requires Distinct(NamesOf(entries))
      ensures Valid()
      ensures this.srcName == srcName && this.namesOrdered == namesOrdered
      ensures names == NamesOf(entries) && data == entries
    {
      this.srcName := srcName;
      this.namesOrdered := namesOrdered;
      names := NamesOf(entries);
      data := entries;
    }

    /**
      `_sort`: the ordered names first, in their order, then every other name
      in its old order, each carrying its own data. An ordered name the module
      does not have, or one listed twice, raises, and then the table is left
      as it was.
     */
    method Sort() returns (r: Result<(), DocError>)
      requires Valid()
      modifies this
      ensures Valid()
      ensures srcName == old(srcName) && namesOrdered == old(namesOrdered)
      ensures r.Ok? <==> AllPresentOnce(old(names), namesOrdered)
      ensures r.Ok? ==> names == namesOrdered + Without(old(names), namesOrdered)
      ensures r.Ok? ==> multiset(names) == multiset(old(names)) && forall x :: x in names ==> x in old(names)
      ensures r.Ok? ==> data == Realign(old(names), old(data), names)
      ensures r.Err? ==> r.error.ModuleLacksName? && r.error.name in namesOrdered
      ensures r.Err? ==> names == old(names) && data == old(data)
    {
      var arranged := ArrangeModuleNames(srcName, names, data, namesOrdered);
      match arranged
      case Err(e) =>
        r := Err(e);
      case Ok((sortedNames, sortedData)) =>
        names := sortedNames;
        data := sortedData;
        r := Ok(());
    }

    /** `getElement`: the data of a name the table holds; anything else raises. */
    function GetElement(partName: string): (r: Result<Attribute, DocError>)
      reads this
      requires Valid()
      ensures r.Ok? <==> partName in names
      ensures r.Ok? ==> r.value.name == partName && r.value in data
      ensures r.Err? ==> r.error == NameNotFound(partName)
      ensures r.Ok? ==> r.value == data[IndexOf(names, partName)]
    {
      if partName !in names then Err(NameNotFound(partName)) else Ok(data[IndexOf(names, partName)])
    }

    /** `getNames`: the names of one kind, filtered for locality and privacy, in table order. */
    method GetNames(nameKind: string, public: bool, local: bool) returns (post: seq<string>)
      requires Valid()
      ensures post == ModuleNamesShown(srcName, data, ModuleKind(nameKind), public, local)
    {
      post := NamesOfKind(ModuleKind(nameKind), public, local);
    }

    /** The loop of `getNames`, once the kind has been normalised. */
    method NamesOfKind(kind: string, public: bool, local: bool) returns (post: seq<string>)
      requires Valid()
      ensures post == ModuleNamesShown(srcName, data, kind, public, local)
    {
      post := [];
      for i := 0 to |names|
        invariant post == ModuleNamesShown(srcName, data[..i], kind, public, local)
      {
        var name := names[i];
        IndexOfDistinct(names, i);
        var element := GetElement(name).value;
        ModuleNamesShownSnoc(srcName, data, kind, public, local, i);
        DoubleUnderscore(name);
        if local && !DefinedInModule(srcName, element.homeModule) {
          continue;
        }
        if public {
          if StartsWith(name, "__") {
            continue;
          }
          if StartsWith(name, "_") {
            continue;
          } else if Contains(name, "Test") {
            continue;
          } else if Contains(name, "Exception") {
            continue;
          }
        }
        if element.kind != Some(kind) {
          continue;
        }
        post := post + [name];
      }
      assert data[..|names|] == data;
    }
  }

  // ---------------------------------------------------------------------------
  // the class table

  /** The aliases `getNames` accepts for a class attribute kind. */
  function ClassKind(nameKind: string): (r: string)
    ensures r in {"property", "method", "data"} || r == nameKind
    ensures LowerString(nameKind) in ["properties", "property"] ==> r == "property"
    ensures LowerString(nameKind) in ["methods", "method"] ==> r == "method"
    ensures LowerString(nameKind) in ["data", "attributes", "attribute"] ==> r == "data"
    ensures (LowerString(nameKind) !in ["properties", "property", "methods", "method",
                                        "data", "attributes", "attribute"])
            ==> r == nameKind
  {
    var lowered := LowerString(nameKind);
    if lowered in ["properties", "property"] then "property"
    else if lowered in ["methods", "method"] then "method"
    else if lowered in ["data", "attributes", "attribute"] then "data"
    else nameKind
  }

  /** `_sort` never places an ordered name that is a substring of `__init__`. */
  predicate SkippedInOrder(name: string)
  {
    Contains("__init__", name)
  }

  /** The ordered names `_sort` places itself, in order. */
  function Placed(order: seq<string>): (r: seq<string>)
    ensures |r| <= |order|
    ensures forall x :: x in r ==> x in order && !SkippedInOrder(x)
  {
    if order == [] then []
    else
      var n := |order| - 1;
      Placed(order[..n]) + (if SkippedInOrder(order[n]) then [] else [order[n]])
  }

  lemma PlacedSnoc(order: seq<string>, k: nat)
    requires k < |order|
    ensures SkippedInOrder(order[k]) ==> Placed(order[..k + 1]) == Placed(order[..k])
    ensures !SkippedInOrder(order[k]) ==> Placed(order[..k + 1]) == Placed(order[..k]) + [order[k]]
  {
    assert order[..k + 1][..k] == order[..k];
  }

  /** `__init__`, when the class has one: it always goes first. */
  function Forced(names: seq<string>): (r: seq<string>)
    ensures r == [] || r == ["__init__"]
  {
    if "__init__" in names then ["__init__"] else []
  }

  lemma InitSkipped()
    ensures SkippedInOrder("__init__")
  {
    assert StartsWith("__init__", "__init__");
  }

  /**
    Whether a class lists `a`, whose definition sits at `mro` in the method
    resolution order, under `kind`: when only public names are asked for,
    `__init__` passes exactly when `getInit` is set and any other name must
    not start with `_`; the kind must match; and when an order index is
    asked for, the attribute must be defined there.
   */
  predicate ClassNameShown(a: Attribute, mro: nat, kind: string, mroIndex: Option<nat>, public: bool, getInit: bool)
  {
    && (public ==> if a.name == "__init__" then getInit else !StartsWith(a.name, "_"))
    && a.kind == Some(kind)
    && (mroIndex.Some? ==> mroIndex.value == mro)
  }

  /** The names of `entries` a class lists, in table order. */
  function ClassNamesShown(entries: seq<Attribute>, mros: seq<(string, nat)>, kind: string, mroIndex: Option<nat>, public: bool, getInit: bool): (r: seq<string>)
    requires |mros| == |entries|
    ensures |r| <= |entries|
  {
    if entries == [] then []
    else
      var n := |entries| - 1;
      ClassNamesShown(entries[..n], mros[..n], kind, mroIndex, public, getInit)
        + (if ClassNameShown(entries[n], mros[n].1, kind, mroIndex, public, getInit) then [entries[n].name] else [])
  }

  lemma ClassNamesShownSnoc(entries: seq<Attribute>, mros: seq<(string, nat)>, kind: string, mroIndex: Option<nat>, public: bool, getInit: bool, i: nat)
    requires |mros| == |entries| && i < |entries|
    ensures ClassNamesShown(entries[..i + 1], mros[..i + 1], kind, mroIndex, public, getInit)
         == ClassNamesShown(entries[..i], mros[..i], kind, mroIndex, public, getInit)
            + (if ClassNameShown(entries[i], mros[i].1, kind, mroIndex, public, getInit) then [entries[i].name] else [])
  {
    assert entries[..i + 1][..i] == entries[..i];
    assert mros[..i + 1][..i] == mros[..i];
  }

  /** A name is listed exactly when some entry of that name passes every filter. */
  lemma {:induction false} ClassNamesShownMembership(entries: seq<Attribute>, mros: seq<(string, nat)>, kind: string, mroIndex: Option<nat>, public: bool, getInit: bool, x: string)
    requires |mros| == |entries|
    ensures x in ClassNamesShown(entries, mros, kind, mroIndex, public, getInit)
        <==> exists i :: 0 <= i < |entries| && entries[i].name == x && ClassNameShown(entries[i], mros[i].1, kind, mroIndex, public, getInit)
  {
    if entries != [] {
      var n := |entries| - 1;
      ClassNamesShownMembership(entries[..n], mros[..n], kind, mroIndex, public, getInit, x);
      if x in ClassNamesShown(entries[..n], mros[..n], kind, mroIndex, public, getInit) {
        var i :| 0 <= i < n && entries[..n][i].name == x && ClassNameShown(entries[..n][i], mros[..n][i].1, kind, mroIndex, public, getInit);
        assert entries[i] == entries[..n][i] && mros[i] == mros[..n][i];
      }
      if exists i :: 0 <= i < |entries| && entries[i].name == x && ClassNameShown(entries[i], mros[i].1, kind, mroIndex, public, getInit) {
        var i :| 0 <= i < |entries| && entries[i].name == x && ClassNameShown(entries[i], mros[i].1, kind, mroIndex, public, getInit);
        if i < n {
          assert entries[..n][i] == entries[i] && mros[..n][i] == mros[i];
        }
      }
    }
  }

  /**
    The first loop of the class `_sort`: `__init__`, when the class has it,
    taken out of the supply and appended with its order index and data.
   */
  method TakeForced(allNames: seq<string>, allMro: seq<(string, nat)>, allData: seq<Attribute>)
    returns (namesSupply: seq<string>, names: seq<string>, mros: seq<(string, nat)>, data: seq<Attribute>)
    requires Distinct(allNames) && |allMro| == |allData| == |allNames|
    ensures names == Forced(allNames) && AllPresentOnce(allNames, names)
    ensures namesSupply == Without(allNames, names)
    ensures mros == Realign(allNames, allMro, names) && data == Realign(allNames, allData, names)
  {
    namesSupply := allNames;
    names, mros, data := [], [], [];
    WithoutNothing(allNames);
    if "__init__" in namesSupply {
      TakeOne(allNames, [], "__init__");
      namesSupply := RemoveAt(namesSupply, IndexOf(namesSupply, "__init__"));
      var i := IndexOf(allNames, "__init__");
      RealignSnoc(allNames, allMro, [], "__init__");
      RealignSnoc(allNames, allData, [], "__init__");
      names := names + [allNames[i]];
      mros := mros + [allMro[i]];
      data := data + [allData[i]];
    }
  }

  /**
    The first two loops of the class `_sort`: after `__init__`, each ordered
    name that is not a substring of `__init__` is popped from the supply and
    appended with its order index and data. Popping a name the supply no
    longer holds raises.
   */
  method TakeClassOrdered(allNames: seq<string>, allMro: seq<(string, nat)>, allData: seq<Attribute>, ordered: seq<string>)
    returns (r: Result<(seq<string>, seq<string>, seq<(string, nat)>, seq<Attribute>), DocError>)
    requires Distinct(allNames) && |allMro| == |allData| == |allNames|
    ensures r.Ok? <==> AllPresentOnce(allNames, Placed(ordered))
    ensures r.Ok? ==> r.value.1 == Forced(allNames) + Placed(ordered) && AllPresentOnce(allNames, r.value.1)
    ensures r.Ok? ==> r.value.0 == Without(allNames, r.value.1)
    ensures r.Ok? ==> r.value.2 == Realign(allNames, allMro, r.value.1) && r.value.3 == Realign(allNames, allData, r.value.1)
    ensures r.Err? ==> r.error.OrderedNameMissing? && r.error.name in ordered
  {
    var namesSupply, sortedNames, sortedMro, sortedData := TakeForced(allNames, allMro, allData);
    ghost var forced := sortedNames;
    assert sortedNames == forced + Placed(ordered[..0]);
    for k := 0 to |ordered|
      invariant AllPresentOnce(allNames, sortedNames)
      invariant namesSupply == Without(allNames, sortedNames)
      invariant sortedNames == forced + Placed(ordered[..k])
      invariant sortedMro == Realign(allNames, allMro, sortedNames)
      invariant sortedData == Realign(allNames, allData, sortedNames)
    {
      var name := ordered[k];
      PlacedSnoc(ordered, k);
      if SkippedInOrder(name) {
        continue;
      }
      assert sortedNames + [name] == forced + Placed(ordered[..k + 1]) by {
        ConcatAssoc(forced, Placed(ordered[..k]), [name]);
      }
      assert name in namesSupply <==> AllPresentOnce(allNames, sortedNames + [name]) by {
        TakeOne(allNames, sortedNames, name);
      }
      if name !in namesSupply {
        assert !AllPresentOnce(allNames, Placed(ordered)) by {
          PlacedPrefixFails(allNames, ordered, k + 1);
        }
        return Err(OrderedNameMissing(name));
      }
      assert RemoveAt(namesSupply, IndexOf(namesSupply, name)) == Without(allNames, sortedNames + [name]) by {
        TakeOne(allNames, sortedNames, name);
      }
      namesSupply := RemoveAt(namesSupply, IndexOf(namesSupply, name));
      var i := IndexOf(allNames, name);
      assert sortedMro + [allMro[i]] == Realign(allNames, allMro, sortedNames + [allNames[i]]) by {
        RealignSnoc(allNames, allMro, sortedNames, name);
      }
      assert sortedData + [allData[i]] == Realign(allNames, allData, sortedNames + [allNames[i]]) by {
        RealignSnoc(allNames, allData, sortedNames, name);
      }
      sortedNames := sortedNames + [allNames[i]];
      sortedMro := sortedMro + [allMro[i]];
      sortedData := sortedData + [allData[i]];
    }
    assert sortedNames == forced + Placed(ordered) by {
      PrefixAll(ordered);
    }
    assert AllPresentOnce(allNames, Placed(ordered)) by {
      ForcedThenPlaced(allNames, ordered);
    }
    r := Ok((namesSupply, sortedNames, sortedMro, sortedData));
  }

  /** The last loop of the class `_sort`: append every name left in the supply with its order index and data. */
  method AppendClassRest(allNames: seq<string>, allMro: seq<(string, nat)>, allData: seq<Attribute>, rest: seq<string>,
                         sortedNames: seq<string>, sortedMro: seq<(string, nat)>, sortedData: seq<Attribute>)
    returns (names: seq<string>, mros: seq<(string, nat)>, data: seq<Attribute>)
    requires |allMro| == |allData| == |allNames|
    requires forall x :: x in rest ==> x in allNames
    requires forall x :: x in sortedNames ==> x in allNames
    requires sortedMro == Realign(allNames, allMro, sortedNames) && sortedData == Realign(allNames, allData, sortedNames)
    ensures names == sortedNames + rest
    ensures mros == Realign(allNames, allMro, names) && data == Realign(allNames, allData, names)
  {
    names, mros, data := sortedNames, sortedMro, sortedData;
    for j := 0 to |rest|
      invariant names == sortedNames + rest[..j]
      invariant mros == Realign(allNames, allMro, names)
      invariant data == Realign(allNames, allData, names)
    {
      var name := rest[j];
      var i := IndexOf(allNames, name);
      assert mros + [allMro[i]] == Realign(allNames, allMro, names + [allNames[i]]) by {
        RealignSnoc(allNames, allMro, names, name);
      }
      assert data + [allData[i]] == Realign(allNames, allData, names + [allNames[i]]) by {
        RealignSnoc(allNames, allData, names, name);
      }
      names := names + [allNames[i]];
      mros := mros + [allMro[i]];
      data := data + [allData[i]];
      assert names == sortedNames + rest[..j + 1] by {
        PrefixSnoc(rest, j);
      }
    }
    assert names == sortedNames + rest by {
      PrefixAll(rest);
    }
  }

  /** The three lists of a class table describe the same names in the same order, each name once. */
  ghost predicate ClassTableValid(names: seq<string>, mros: seq<(string, nat)>, data: seq<Attribute>)
  {
    && |names| == |mros| == |data|
    && Distinct(names)
    && forall i :: 0 <= i < |names| ==> mros[i].0 == names[i] && data[i].name == names[i]
  }

  /**
    The class table `_sort` leaves behind: `__init__` first when the class
    has it, then the placed ordered names, then every other name in its old
    order; a rearrangement of the old names, each still carrying its own
    order index and data.
   */
  ghost predicate ClassTableSorted(allNames: seq<string>, allMro: seq<(string, nat)>, allData: seq<Attribute>, ordered: seq<string>,
                                   names: seq<string>, mros: seq<(string, nat)>, data: seq<Attribute>)
    requires |allMro| == |allData| == |allNames|
  {
    && names == Forced(allNames) + Placed(ordered) + Without(allNames, Forced(allNames) + Placed(ordered))
    && multiset(names) == multiset(allNames)
    && (forall x :: x in names ==> x in allNames)
    && mros == Realign(allNames, allMro, names)
    && data == Realign(allNames, allData, names)
  }

  /**
    The body of the class `_sort` on the lists it reads and builds:
    `__init__` first when the class has it, then the ordered names that are
    not substrings of `__init__`, then every other name in its old order,
    each with its own order index and data.
   */
  method ArrangeClassNames(allNames: seq<string>, allMro: seq<(string, nat)>, allData: seq<Attribute>, ordered: seq<string>)
    returns (r: Result<(seq<string>, seq<(string, nat)>, seq<Attribute>), DocError>)
    requires ClassTableValid(allNames, allMro, allData)
    ensures r.Ok? <==> AllPresentOnce(allNames, Placed(ordered))
    ensures r.Ok? ==> ClassTableSorted(allNames, allMro, allData, ordered, r.value.0, r.value.1, r.value.2)
    ensures r.Ok? ==> ClassTableValid(r.value.0, r.value.1, r.value.2)
    ensures r.Err? ==> r.error.OrderedNameMissing? && r.error.name in ordered
  {
    var taken := TakeClassOrdered(allNames, allMro, allData, ordered);
    if taken.Err? {
      return Err(taken.error);
    }
    var (namesSupply, sortedNames, sortedMro, sortedData) := taken.value;
    assert forall x :: x in namesSupply ==> x in allNames by {
      forall x | x in namesSupply ensures x in allNames {
        WithoutMembership(allNames, sortedNames, x);
      }
    }
    var names, mros, data := AppendClassRest(allNames, allMro, allData, namesSupply, sortedNames, sortedMro, sortedData);
    SortedClassTableValid(allNames, allMro, allData, sortedNames);
    r := Ok((names, mros, data));
  }

  /**
    `PartitionedClass`: the attribute names of one class, the index in the
    method resolution order where each is defined, and their data, kept
    aligned.
   */
  class PartitionedClass {
    var names: seq<string>
    var namesMroIndex: seq<(string, nat)>
    var data: seq<Attribute>
    var namesOrdered: seq<string>

    /** The three lists describe the same names in the same order, each name once. */
    ghost predicate Valid()
      reads this
    {
      ClassTableValid(names, namesMroIndex, data)
    }

    /**
      The table `__init__` builds from the classified attributes followed by
      the live ones, each with the order index of its defining class, before
      it sorts.
     */
    constructor(entries: seq<Attribute>, mroIndices: seq<nat>, namesOrdered: seq<string>)
      requires |mroIndices| == |entries| && Distinct(NamesOf(entries))
      ensures Valid()
      ensures this.namesOrdered == namesOrdered && names == NamesOf(entries) && data == entries
      ensures forall i :: 0 <= i < |entries| ==> namesMroIndex[i] == (entries[i].name, mroIndices[i])
    {
      var ns: seq<string> := [];
      var ms: seq<(string, nat)> := [];
      for i := 0 to |entries|
        invariant |ns| == |ms| == i
        invariant forall j :: 0 <= j < i ==> ns[j] == entries[j].name && ms[j] == (entries[j].name, mroIndices[j])
      {
        ns := ns + [entries[i].name];
        ms := ms + [(entries[i].name, mroIndices[i])];
      }
      this.namesOrdered := namesOrdered;
      names := ns;
      namesMroIndex := ms;
      data := entries;
    }

    /**
      `_sort`: `__init__` first when the class has it, then the ordered names
      that are not substrings of `__init__`, in their order, then every other
      name in its old order; each name keeps its order index and data. An
      ordered name the supply no longer holds raises, and then the table is
      left as it was.
     */
    method Sort() returns (r: Result<(), DocError>)
      requires Valid()
      modifies this
      ensures Valid()
      ensures namesOrdered == old(namesOrdered)
      ensures r.Ok? <==> AllPresentOnce(old(names), Placed(namesOrdered))
      ensures r.Ok? ==> ClassTableSorted(old(names), old(namesMroIndex), old(data), namesOrdered, names, namesMroIndex, data)
      ensures r.Err? ==> r.error.OrderedNameMissing? && r.error.name in namesOrdered
      ensures r.Err? ==> names == old(names) && namesMroIndex == old(namesMroIndex) && data == old(data)
    {
      var oldNames, oldMro, oldData := names, namesMroIndex, data;
      var arranged := ArrangeClassNames(oldNames, oldMro, oldData, namesOrdered);
      if arranged.Err? {
        return Err(arranged.error);
      }
      names, namesMroIndex, data := arranged.value.0, arranged.value.1, arranged.value.2;
      r := Ok(());
    }

    /** `getElement`: the data of a name the table holds; anything else raises. */
    function GetElement(partName: string): (r: Result<Attribute, DocError>)
      reads this
      requires Valid()
      ensures r.Ok? <==> partName in names
      ensures r.Ok? ==> r.value.name == partName && r.value in data
      ensures r.Err? ==> r.error == NameNotFound(partName)
      ensures r.Ok? ==> r.value == data[IndexOf(names, partName)]
    {
      if partName !in names then Err(NameNotFound(partName)) else Ok(data[IndexOf(names, partName)])
    }

    /** `findMroIndex`: where in the method resolution order a held name is defined. */
    function FindMroIndex(partName: string): (r: nat)
      reads this
      requires Valid() && partName in names
      ensures exists i :: 0 <= i < |names| && names[i] == partName && namesMroIndex[i] == (partName, r)
    {
      namesMroIndex[IndexOf(names, partName)].1
    }

    /** `getNames`: the names of one kind, filtered for privacy and defining class, in table order. */
    method GetNames(nameKind: string, mroIndex: Option<nat>, public: bool, getInit: bool) returns (post: seq<string>)
      requires Valid()
      ensures post == ClassNamesShown(data, namesMroIndex, ClassKind(nameKind), mroIndex, public, getInit)
    {
      post := NamesOfKind(ClassKind(nameKind), mroIndex, public, getInit);
    }

    /** The loop of `getNames`, once the kind has been normalised. */
    method NamesOfKind(kind: string, mroIndex: Option<nat>, public: bool, getInit: bool) returns (post: seq<string>)
      requires Valid()
      ensures post == ClassNamesShown(data, namesMroIndex, kind, mroIndex, public, getInit)
    {
      post := [];
      for i := 0 to |names|
        invariant post == ClassNamesShown(data[..i], namesMroIndex[..i], kind, mroIndex, public, getInit)
      {
        var name := names[i];
        IndexOfDistinct(names, i);
        var element := GetElement(name).value;
        ClassNamesShownSnoc(data, namesMroIndex, kind, mroIndex, public, getInit, i);
        DoubleUnderscore(name);
        if public {
          if name == "__init__" {
            if !getInit {
              continue;
            }
          } else if StartsWith(name, "__") || StartsWith(name, "_") {
            continue;
          }
        }
        if element.kind != Some(kind) {
          continue;
        }
        if mroIndex.Some? {
          if mroIndex.value == FindMroIndex(name) {
            post := post + [name];
          }
        } else {
          post := post + [name];
        }
      }
      assert data[..|names|] == data && namesMroIndex[..|names|] == namesMroIndex;
    }
  }

  /** If the placed names of a prefix repeat or miss a name, so do those of the whole order. */
  lemma PlacedPrefixFails(names: seq<string>, order: seq<string>, n: nat)
    requires n <= |order|
    requires !AllPresentOnce(names, Forced(names) + Placed(order[..n]))
    ensures !AllPresentOnce(names, Placed(order))
  {
    SplitAt(order, n);
    ForcedThenPlaced(names, order[..n]);
    PlacedAppend(order[..n], order[n..]);
    AllPresentOnceAppend(names, Placed(order[..n]), Placed(order[n..]));
  }

  /** `__init__` is never among the placed names, so putting it first repeats nothing. */
  lemma ForcedThenPlaced(names: seq<string>, order: seq<string>)
    ensures AllPresentOnce(names, Forced(names) + Placed(order)) <==> AllPresentOnce(names, Placed(order))
  {
    InitSkipped();
    AllPresentOnceAppend(names, Forced(names), Placed(order));
  }

  lemma {:induction false} PlacedAppend(a: seq<string>, b: seq<string>)
    ensures Placed(a + b) == Placed(a) + Placed(b)
  {
    if b != [] {
      var n := |b| - 1;
      assert (a + b)[..|a + b| - 1] == a + b[..n];
      PlacedAppend(a, b[..n]);
    } else {
      assert a + b == a;
    }
  }

  /** The rearranged class table is a permutation of the old one and keeps its three lists aligned. */
  lemma SortedClassTableValid(names: seq<string>, mros: seq<(string, nat)>, data: seq<Attribute>, taken: seq<string>)
    requires Distinct(names) && AllPresentOnce(names, taken)
    requires |mros| == |data| == |names|
    requires forall i :: 0 <= i < |names| ==> mros[i].0 == names[i] && data[i].name == names[i]
    ensures Distinct(taken + Without(names, taken))
    ensures multiset(taken + Without(names, taken)) == multiset(names)
    ensures forall x :: x in taken + Without(names, taken) ==> x in names
    ensures forall j :: 0 <= j < |taken + Without(names, taken)| ==>
              Realign(names, mros, taken + Without(names, taken))[j].0 == (taken + Without(names, taken))[j]
              && Realign(names, data, taken + Without(names, taken))[j].name == (taken + Without(names, taken))[j]
  {
    SortedTableValid(names, data, taken);
  }

  /**
    Selecting by order index splits the listing: a name is listed under the
    index where it is defined exactly when it is listed with no index at all.
   */
  lemma ClassNamesByMroIndex(entries: seq<Attribute>, mros: seq<(string, nat)>, kind: string, public: bool, getInit: bool, i: nat)
    requires |mros| == |entries| && i < |entries|
    requires Distinct(NamesOf(entries))
    ensures entries[i].name in ClassNamesShown(entries, mros, kind, Some(mros[i].1), public, getInit)
        <==> entries[i].name in ClassNamesShown(entries, mros, kind, None, public, getInit)
  {
    var x := entries[i].name;
    ClassNamesShownMembership(entries, mros, kind, Some(mros[i].1), public, getInit, x);
    ClassNamesShownMembership(entries, mros, kind, None, public, getInit, x);
    forall j | 0 <= j < |entries| && entries[j].name == x
      ensures j == i
    {
      assert NamesOf(entries)[j] == NamesOf(entries)[i];
    }
  }
}
