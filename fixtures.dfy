/** The file-based preset database: a `Fixture` holds the presets of one
    model type, keyed by lower-cased name and by id; `Fixtures` holds one
    `Fixture` per model type. Presets are parameter dictionaries. */
module FixtureStore {
  import opened Wrappers
  import opened Text
  import opened Numerics

  /** A parameter value as far as the store inspects it. */
  datatype Value = Str(s: string) | Int(i: int) | Nil | Other(repr: string)

  type Params = map<string, Value>

  /** A preset as read from a fixture file: its model type and parameters. */
  datatype Wrapper = Wrapper(dataType: string, parameters: Params)

  datatype FixtureError =
    | NotFound(key: string)     // ValueError of a failed lookup
    | UnknownId(id: Value)      // ValueError of query_id
    | UnknownName(name: Value)  // ValueError of query_name
    | InheritanceCircle         // ValueError of a preset inheriting from itself
    | NotAString                // AttributeError: `.lower()` on a non-string
    | MissingKey(key: string)   // KeyError
    | RecursionLimit            // the interpreter's recursion limit

  /** `str(v)` of a parameter value. */
  function ToStr(v: Value): string {
    match v
    case Str(s) => s
    case Int(i) => IntToString(i)
    case Nil => "None"
    case Other(r) => r
  }

  /** The name key a preset is stored under. */
  function NameKey(p: Params): string
    requires "name" in p
  {
    Lower(ToStr(p["name"]))
  }

  predicate NoDuplicates(xs: seq<string>) {
    forall i, j :: 0 <= i < j < |xs| ==> xs[i] != xs[j]
  }

  /** The values of `m` in the order of `keys`. */
  function ValuesOf(keys: seq<string>, m: map<string, Params>): (vs: seq<Params>)
    requires forall k :: k in keys ==> k in m
    ensures |vs| == |keys|
    ensures forall i :: 0 <= i < |keys| ==> vs[i] == m[keys[i]]
  {
    seq(|keys|, i requires 0 <= i < |keys| => m[keys[i]])
  }

  /** `base` overwritten by `model`: the key union, `model` winning. */
  function Merge(model: Params, base: Params): (m: Params)
    ensures m.Keys == model.Keys + base.Keys
    ensures forall k :: k in model ==> m[k] == model[k]
    ensures forall k :: k in base && k !in model ==> m[k] == base[k]
  {
    map k | k in model.Keys + base.Keys :: if k in model then model[k] else base[k]
  }

  /** A resolved base overwritten by the caller's own keys; a failure
      passes through. */
  function Overwrite(vals: Params, sub: Result<(Params, seq<Value>), FixtureError>): Result<(Params, seq<Value>), FixtureError> {
    if sub.Failure? then Failure(sub.error) else Success((Merge(vals, sub.value.0), sub.value.1))
  }

  /** The last step of `inheritance`'s `inherit_from` branch: the resolved
      base is filled with the caller's keys by `fill_model`. */
  method OverwriteBase(vals: Params, sub: Result<(Params, seq<Value>), FixtureError>)
    returns (r: Result<(Params, seq<Value>), FixtureError>)
    ensures r == Overwrite(vals, sub)
  {
    if sub.Failure? {
      return Failure(sub.error);
    }
    var merged := FillModel(vals, sub.value.0);
    r := Success((merged, sub.value.1));
  }

  /** `fill_model`: a copy of `base` with every entry of `model` written
      over it; the arguments are values, so neither is modified. */
  method FillModel(model: Params, base: Params) returns (r: Params)
    ensures r == Merge(model, base)
  {
    r := base;
    var todo := model.Keys;
    while todo != {}
      invariant todo <= model.Keys
      invariant r.Keys == base.Keys + (model.Keys - todo)
      invariant forall k :: k in model && k !in todo ==> r[k] == model[k]
      invariant forall k :: k in base && (k !in model || k in todo) ==> r[k] == base[k]
      decreases todo
    {
      var k :| k in todo;
      r := r[k := model[k]];
      todo := todo - {k};
    }
  }

  /** The invariant of a fixture, over its field values. */
  ghost predicate ValidState(names: seq<string>, byName: map<string, Params>, byId: map<Value, Params>,
                             iterList: seq<Params>, iterIndex: nat)
  {
    && (forall n :: n in names ==> n in byName)
    && (forall n :: n in byName ==> n in names)
    && NoDuplicates(names)
    && (forall n :: n in byName ==> "name" in byName[n] && NameKey(byName[n]) == n)
    && (forall k :: k in byId ==> "id" in byId[k] && "name" in byId[k] && byId[k]["id"] == k)
    && iterList == ValuesOf(names, byName)
    && iterIndex <= |iterList|
  }

  /** Filing a named preset with an id under both keys keeps the invariant. */
  lemma InsertKeepsValid(names: seq<string>, byName: map<string, Params>, byId: map<Value, Params>,
                         iterList: seq<Params>, iterIndex: nat, p: Params)
    requires ValidState(names, byName, byId, iterList, iterIndex)
    requires "name" in p && "id" in p
    ensures var n := NameKey(p);
      var names' := if n in byName then names else names + [n];
      var byName' := byName[n := p];
      ValidState(names', byName', byId[p["id"] := p], ValuesOf(names', byName'), iterIndex)
  {
    var n := NameKey(p);
    var names' := if n in byName then names else names + [n];
  }

  class Fixture {
    var modelType: string
    /** Keys of the name map in insertion order (dictionary order). */
    var names: seq<string>
    var byName: map<string, Params>
    var byId: map<Value, Params>
    var iterIndex: nat
    var iterList: seq<Params>

    /** Every stored preset carries a name and an id and is filed under
        them; the iteration list is the name map's values in order. */
    ghost predicate Valid()
      reads this
    {
      ValidState(names, byName, byId, iterList, iterIndex)
    }

    constructor(modelType: string)
      ensures Valid()
      ensures this.modelType == Lower(modelType)
      ensures names == [] && byName == map[] && byId == map[] && iterIndex == 0
    {
      this.modelType := Lower(modelType);
      names := [];
      byName := map[];
      byId := map[];
      iterIndex := 0;
      iterList := [];
    }

    /** Files a preset of this model type under its lower-cased name and
        its id; a preset of another type or without a name is ignored. */
    method Insert(data: Wrapper) returns (r: Outcome<FixtureError>)
      requires Valid()
      modifies this
      ensures Valid()
      ensures modelType == old(modelType) && iterIndex == old(iterIndex)
      ensures Lower(data.dataType) != Lower(modelType) || "name" !in data.parameters ==>
        r.Pass? && names == old(names) && byName == old(byName) && byId == old(byId)
      ensures Lower(data.dataType) == Lower(modelType) && "name" in data.parameters
              && "id" !in data.parameters ==>
        r == Fail(MissingKey("id")) && names == old(names) && byName == old(byName) && byId == old(byId)
      ensures Lower(data.dataType) == Lower(modelType) && "name" in data.parameters
              && "id" in data.parameters ==>
        var p := data.parameters;
        var n := NameKey(p);
        && r.Pass?
        && byName == old(byName)[n := p]
        && byId == old(byId)[p["id"] := p]
        && names == (if n in old(byName) then old(names) else old(names) + [n])
    {
      if Lower(data.dataType) != Lower(modelType) {
        return Pass;
      }
      if "name" !in data.parameters {
        return Pass;
      }
      if "id" !in data.parameters {
        return Fail(MissingKey("id"));
      }
      File(data.parameters);
      return Pass;
    }

    /** Files a named preset with an id under both keys and refreshes the
        iteration list. */
    method File(p: Params)
      requires Valid()
      requires "name" in p && "id" in p
      modifies this
      ensures Valid()
      ensures modelType == old(modelType) && iterIndex == old(iterIndex)
      ensures byName == old(byName)[NameKey(p) := p]
      ensures byId == old(byId)[p["id"] := p]
      ensures names == (if NameKey(p) in old(byName) then old(names) else old(names) + [NameKey(p)])
    {
      var name := NameKey(p);
      var names' := if name in byName then names else names + [name];
      var byName' := byName[name := p];
      var byId' := byId[p["id"] := p];
      var iterList' := ValuesOf(names', byName');
      assert ValidState(names', byName', byId', iterList', iterIndex) by {
        InsertKeepsValid(names, byName, byId, iterList, iterIndex, p);
      }
      names, byName, byId, iterList := names', byName', byId', iterList';
    }

    /** `__getitem__`: the name map is searched before the id map, both
        with the lower-cased key. */
    function Get(key: string): (r: Result<Params, FixtureError>)
      reads this
      ensures Lower(key) in byName ==> r == Success(byName[Lower(key)])
      ensures Lower(key) !in byName && Str(Lower(key)) in byId ==> r == Success(byId[Str(Lower(key))])
      ensures r.Failure? <==> Lower(key) !in byName && Str(Lower(key)) !in byId
      ensures r.Failure? ==> r.error == NotFound(Lower(key))
    {
      var k := Lower(key);
      if k in byName then Success(byName[k])
      else if Str(k) in byId then Success(byId[Str(k)])
      else Failure(NotFound(k))
    }

    /** Looking a stored preset up by its own name finds it again. */
    lemma GetFindsStored(n: string)
      requires Valid()
      requires n in byName
      ensures Get(ToStr(byName[n]["name"])) == Success(byName[n])
    {
      LowerIdempotent(ToStr(byName[n]["name"]));
    }

    /** `__iter__`: restarts the iteration over the name map's values. */
    method Iter()
      requires Valid()
      modifies this
      ensures Valid()
      ensures iterIndex == 0 && iterList == ValuesOf(names, byName)
      ensures modelType == old(modelType) && names == old(names)
      ensures byName == old(byName) && byId == old(byId)
    {
      iterIndex := 0;
      iterList := ValuesOf(names, byName);
    }

    /** `__next__`: the next value, or `None` for StopIteration. */
    method Next() returns (r: Option<Params>)
      requires Valid()
      modifies this
      ensures Valid()
      ensures old(iterIndex) < |iterList| ==> r == Some(iterList[old(iterIndex)]) && iterIndex == old(iterIndex) + 1
      ensures old(iterIndex) >= |iterList| ==> r == None && iterIndex == old(iterIndex)
      ensures modelType == old(modelType) && names == old(names) && iterList == old(iterList)
      ensures byName == old(byName) && byId == old(byId)
    {
      if iterIndex < |iterList| {
        var member := iterList[iterIndex];
        iterIndex := iterIndex + 1;
        return Some(member);
      }
      return None;
    }

    /** `list(fixture)`: iterating from the start yields every value of the
        name map exactly once, in insertion order, and then stops. */
    method ListAll() returns (out: seq<Params>)
      requires Valid()
      modifies this
      ensures Valid()
      ensures out == ValuesOf(names, byName)
      ensures modelType == old(modelType) && names == old(names)
      ensures byName == old(byName) && byId == old(byId)
    {
      Iter();
      ghost var values := iterList;
      out := [];
      var done := false;
      while !done
        invariant Valid()
        invariant modelType == old(modelType) && names == old(names)
        invariant byName == old(byName) && byId == old(byId)
        invariant iterList == values
        invariant out == values[..iterIndex]
        invariant done ==> iterIndex == |values|
        decreases |values| - iterIndex, if done then 0 else 1
      {
        ghost var i := iterIndex;
        var m := Next();
        if m.Some? {
          out := out + [m.value];
          assert values[..i + 1] == values[..i] + [values[i]];
        } else {
          done := true;
        }
      }
      assert values[..iterIndex] == values;
    }

    /** `keys()`: the names, each once, as many as presets stored. */
    function Keys(): (ks: seq<string>)
      reads this
      requires Valid()
      ensures forall n :: n in ks <==> n in byName
      ensures |ks| == |byName|
    {
      assert ToSet(names) == byName.Keys by {
        forall n ensures n in ToSet(names) <==> n in byName {
          InToSet(names, n);
        }
      }
      DistinctCount(names);
      names
    }

    /** `refs()`: every stored id mapped to the name of its preset. */
    function Refs(): (r: map<Value, Value>)
      reads this
      requires Valid()
      ensures r.Keys == byId.Keys
      ensures forall k :: k in r ==> byId[k]["id"] == k && r[k] == byId[k]["name"]
    {
      map k | k in byId :: byId[k]["name"]
    }

    /** `query_id`: only an int that is a stored id is accepted. */
    function QueryId(id: Value): (r: Result<Params, FixtureError>)
      reads this
      requires Valid()
      ensures r.Success? <==> id.Int? && id in byId
      ensures r.Success? ==> r.value == byId[id] && r.value["id"] == id
      ensures r.Failure? ==> r.error == UnknownId(id)
    {
      if id.Int? && id in byId then Success(byId[id]) else Failure(UnknownId(id))
    }

    /** `query_name`: only a string naming a stored preset (in any case) is
        accepted, and the preset found carries that name. */
    function QueryName(name: Value): (r: Result<Params, FixtureError>)
      reads this
      requires Valid()
      ensures r.Success? <==> name.Str? && Lower(name.s) in byName
      ensures r.Success? ==> "name" in r.value && NameKey(r.value) == Lower(name.s)
      ensures r.Failure? ==> r.error == UnknownName(name)
    {
      if name.Str? && Lower(name.s) in byName then Success(byName[Lower(name.s)])
      else Failure(UnknownName(name))
    }

    /** A preset that names itself as its own base. */
    predicate SelfInheritance(values: Params) {
      "inherit_from" in values && "name" in values && values["name"] == values["inherit_from"]
    }

    /** The stored preset a preset without `inherit_from` is completed
        from: the one under its (string) name, else the one under its id. */
    function StoredMatch(values: Params): (m: Option<Params>)
      reads this
      ensures m.Some? ==> "name" !in values || values["name"].Str?
      ensures "name" in values && values["name"].Str? && Lower(values["name"].s) in byName ==>
        m == Some(byName[Lower(values["name"].s)])
      ensures ("name" !in values || (values["name"].Str? && Lower(values["name"].s) !in byName)) ==>
        m == (if "id" in values && values["id"] in byId then Some(byId[values["id"]]) else None)
    {
      if "name" in values && !values["name"].Str? then None
      else if "name" in values && Lower(values["name"].s) in byName then Some(byName[Lower(values["name"].s)])
      else if "id" in values && values["id"] in byId then Some(byId[values["id"]])
      else None
    }

    /** What every resolution keeps: no `inherit_from` is left, the chain
        only grows, and the caller's own keys keep their values. */
    predicate Resolves(values: Params, chain: seq<Value>, out: (Params, seq<Value>)) {
      && "inherit_from" !in out.0
      && chain <= out.1
      && forall k :: k in values && k != "inherit_from" ==> k in out.0 && out.0[k] == values[k]
    }

    /** The chain after the `inherit_from` branch records the names: the
        caller's own name when the chain is still empty, then the base's. */
    function InheritChain(values: Params, chain: seq<Value>): seq<Value>
      requires "inherit_from" in values
    {
      (if "name" in values && chain == [] then chain + [values["name"]] else chain) + [values["inherit_from"]]
    }

    /** Reference resolution of a preset, by recursion on the fuel: the
        base named by `inherit_from` is resolved and overwritten by the
        caller's keys; a preset without it is completed from its stored
        match, and resolved again when the match inherits. */
    function Resolve(values: Params, chain: seq<Value>, fuel: nat): (r: Result<(Params, seq<Value>), FixtureError>)
      reads this
      decreases fuel, 1
    {
      if "inherit_from" in values then ResolveInherit(values, chain, fuel) else ResolveComplete(values, chain, fuel)
    }

    /** Resolution of a preset with `inherit_from`. */
    function ResolveInherit(values: Params, chain: seq<Value>, fuel: nat): (r: Result<(Params, seq<Value>), FixtureError>)
      reads this
      requires "inherit_from" in values
      decreases fuel, 0
    {
      var fixtureName := values["inherit_from"];
      if SelfInheritance(values) && chain == [] then Failure(InheritanceCircle)
      else if !fixtureName.Str? then Failure(NotAString)
      else if Get(fixtureName.s).Failure? then Failure(Get(fixtureName.s).error)
      else if fuel == 0 then Failure(RecursionLimit)
      else
        Overwrite(values - {"inherit_from"},
                  Resolve(Get(fixtureName.s).value["name" := fixtureName], InheritChain(values, chain), fuel - 1))
    }

    /** Resolution of a preset without `inherit_from`. */
    function ResolveComplete(values: Params, chain: seq<Value>, fuel: nat): (r: Result<(Params, seq<Value>), FixtureError>)
      reads this
      requires "inherit_from" !in values
      decreases fuel, 0
    {
      if "name" in values && !values["name"].Str? then Failure(NotAString)
      else if "id" !in values && Nil in byId && ("name" !in values || Lower(values["name"].s) !in byName) then
        Failure(MissingKey("id"))
      else if StoredMatch(values).None? then Success((values, chain))
      else
        var merged := Merge(values, StoredMatch(values).value);
        if "inherit_from" !in merged then Success((merged, chain))
        else if fuel == 0 then Failure(RecursionLimit)
        else ResolveInherit(merged, chain + [if "name" in merged then merged["name"] else Nil], fuel - 1)
    }

    /** Any successful resolution keeps the caller's keys, drops
        `inherit_from` and only extends the chain. */
    lemma {:induction false} ResolveKeeps(values: Params, chain: seq<Value>, fuel: nat)
      decreases fuel
      ensures Resolve(values, chain, fuel).Success? ==> Resolves(values, chain, Resolve(values, chain, fuel).value)
    {
      if "inherit_from" in values {
        var key := values["inherit_from"];
        if !(SelfInheritance(values) && chain == []) && key.Str? && Get(key.s).Success? && fuel > 0 {
          ResolveKeeps(Get(key.s).value["name" := key], InheritChain(values, chain), fuel - 1);
        }
      } else if StoredMatch(values).Some? && fuel > 0 {
        var merged := Merge(values, StoredMatch(values).value);
        ResolveKeeps(merged, chain + [if "name" in merged then merged["name"] else Nil], fuel - 1);
      }
    }

    /** A stored preset found by `Get` is also the stored match of itself
        renamed to the key it was found under. */
    lemma FoundIsStoredMatch(key: Value)
      requires Valid()
      requires key.Str? && Get(key.s).Success?
      ensures var base := Get(key.s).value["name" := key];
        && ("id" in base || Nil !in byId || Lower(key.s) in byName)
        && StoredMatch(base) == Some(Get(key.s).value)
    {
      var found := Get(key.s).value;
      if Lower(key.s) !in byName {
        assert byId[Str(Lower(key.s))]["id"] == Str(Lower(key.s));
      }
    }

    /** One level: a base stored under the `inherit_from` name that does not
        inherit itself resolves, with fuel left, to that base renamed and
        overwritten by the caller's keys. */
    lemma ResolveSingleBase(values: Params, chain: seq<Value>, fuel: nat)
      requires Valid()
      requires "inherit_from" in values && values["inherit_from"].Str? && !(SelfInheritance(values) && chain == [])
      requires Get(values["inherit_from"].s).Success? && "inherit_from" !in Get(values["inherit_from"].s).value
      requires fuel >= 1
      ensures var base := Get(values["inherit_from"].s).value["name" := values["inherit_from"]];
        Resolve(values, chain, fuel) == Success((Merge(values - {"inherit_from"}, base), InheritChain(values, chain)))
    {
      var key := values["inherit_from"];
      var found := Get(key.s).value;
      var base := found["name" := key];
      FoundIsStoredMatch(key);
      assert Merge(base, found) == base;
      assert Resolve(base, InheritChain(values, chain), fuel - 1) == Success((base, InheritChain(values, chain)));
    }

    /** On success the base named by `inherit_from` is stored, its keys the
        caller lacks are kept, and its name is followed in the chain. */
    lemma ResolveInheritsBase(values: Params, chain: seq<Value>, fuel: nat)
      requires "inherit_from" in values && Resolve(values, chain, fuel).Success?
      ensures var r := Resolve(values, chain, fuel).value;
        && values["inherit_from"].Str? && Get(values["inherit_from"].s).Success?
        && values["inherit_from"] in r.1
        && var base := Get(values["inherit_from"].s).value;
           && (forall k :: k in base && k !in values && k != "inherit_from" && k != "name" ==> k in r.0 && r.0[k] == base[k])
           && ("name" !in values ==> "name" in r.0 && r.0["name"] == values["inherit_from"])
    {
      var key := values["inherit_from"];
      var ch := InheritChain(values, chain);
      var sub := Resolve(Get(key.s).value["name" := key], ch, fuel - 1);
      ResolveKeeps(Get(key.s).value["name" := key], ch, fuel - 1);
      assert ch[|ch| - 1] == key;
      assert sub.Success? && ch <= sub.value.1;
      assert sub.value.1[|ch| - 1] == key;
    }

    /** Two levels: when the base inherits in turn from a stored preset, a
        resolution that succeeds carries that preset's keys missing from
        both, and both followed names are in the chain. */
    lemma ResolveInheritsGrandparent(values: Params, chain: seq<Value>, fuel: nat)
      requires "inherit_from" in values && Resolve(values, chain, fuel).Success?
      requires values["inherit_from"].Str? && Get(values["inherit_from"].s).Success?
      requires "inherit_from" in Get(values["inherit_from"].s).value
      ensures var r := Resolve(values, chain, fuel).value;
        var base := Get(values["inherit_from"].s).value;
        && base["inherit_from"].Str? && Get(base["inherit_from"].s).Success?
        && values["inherit_from"] in r.1 && base["inherit_from"] in r.1
        && var grand := Get(base["inherit_from"].s).value;
           forall k :: k in grand && k !in values && k !in base && k != "inherit_from" && k != "name" ==>
             k in r.0 && r.0[k] == grand[k]
    {
      var key := values["inherit_from"];
      var base := Get(key.s).value["name" := key];
      var ch := InheritChain(values, chain);
      ResolveInheritsBase(values, chain, fuel);
      var sub := Resolve(base, ch, fuel - 1);
      ResolveInheritsBase(base, ch, fuel - 1);
    }

    /** Two levels with enough fuel: a base inheriting from a stored preset
        that does not inherit resolves in full. */
    lemma ResolveTwoLevels(values: Params, chain: seq<Value>, fuel: nat)
      requires Valid()
      requires "inherit_from" in values && values["inherit_from"].Str? && !(SelfInheritance(values) && chain == [])
      requires Get(values["inherit_from"].s).Success?
      requires var base := Get(values["inherit_from"].s).value;
        && "inherit_from" in base && base["inherit_from"].Str?
        && Get(base["inherit_from"].s).Success? && "inherit_from" !in Get(base["inherit_from"].s).value
      requires fuel >= 2
      ensures var base := Get(values["inherit_from"].s).value["name" := values["inherit_from"]];
        var grand := Get(base["inherit_from"].s).value["name" := base["inherit_from"]];
        Resolve(values, chain, fuel) ==
          Success((Merge(values - {"inherit_from"}, Merge(base - {"inherit_from"}, grand)),
                   InheritChain(base, InheritChain(values, chain))))
    {
      var base := Get(values["inherit_from"].s).value["name" := values["inherit_from"]];
      var ch := InheritChain(values, chain);
      ResolveSingleBase(base, ch, fuel - 1);
      var sub := Resolve(base, ch, fuel - 1);
      assert Resolve(values, chain, fuel) == Success((Merge(values - {"inherit_from"}, sub.value.0), sub.value.1));
    }

    /** A preset completed from a stored match that inherits from a stored
        preset that does not inherit resolves in full, given the fuel. */
    lemma ResolveCompletesInheritingMatch(values: Params, chain: seq<Value>, fuel: nat)
      requires Valid()
      requires "inherit_from" !in values && StoredMatch(values).Some?
      requires var m := StoredMatch(values).value;
        && "inherit_from" in m && m["inherit_from"].Str?
        && Get(m["inherit_from"].s).Success? && "inherit_from" !in Get(m["inherit_from"].s).value
      requires fuel >= 2
      ensures var merged := Merge(values, StoredMatch(values).value);
        var ch := chain + [if "name" in merged then merged["name"] else Nil];
        var grand := Get(merged["inherit_from"].s).value["name" := merged["inherit_from"]];
        Resolve(values, chain, fuel) == Success((Merge(merged - {"inherit_from"}, grand), InheritChain(merged, ch)))
    {
      var merged := Merge(values, StoredMatch(values).value);
      var ch := chain + [if "name" in merged then merged["name"] else Nil];
      assert !("id" !in values && Nil in byId && ("name" !in values || Lower(values["name"].s) !in byName));
      assert "inherit_from" in merged;
      assert Resolve(values, chain, fuel) == Resolve(merged, ch, fuel - 1);
      ResolveSingleBase(merged, ch, fuel - 1);
    }

    /** With `inherit_from`: a preset naming itself with an empty chain is a
        circle, a non-string name is an error, a base not stored raises the
        lookup's error, and a success keeps the base's other keys. */
    lemma ResolveInherits(values: Params, chain: seq<Value>, fuel: nat)
      requires "inherit_from" in values
      ensures var r := Resolve(values, chain, fuel);
        && (SelfInheritance(values) && chain == [] ==> r == Failure(InheritanceCircle))
        && (!values["inherit_from"].Str? && !(SelfInheritance(values) && chain == []) ==> r == Failure(NotAString))
        && (values["inherit_from"].Str? && !(SelfInheritance(values) && chain == [])
            && Get(values["inherit_from"].s).Failure? ==>
              r == Failure(Get(values["inherit_from"].s).error))
        && (r.Success? ==>
              && values["inherit_from"] in r.value.1
              && values["inherit_from"].Str? && Get(values["inherit_from"].s).Success?
              && var base := Get(values["inherit_from"].s).value;
                 && (forall k :: k in base && k !in values && k != "inherit_from" && k != "name" ==>
                       k in r.value.0 && r.value.0[k] == base[k])
                 && ("name" !in values ==> "name" in r.value.0 && r.value.0["name"] == values["inherit_from"]))
    {
      if Resolve(values, chain, fuel).Success? {
        ResolveInheritsBase(values, chain, fuel);
      }
    }

    /** Without `inherit_from` the preset is completed from its stored
        match: the match's keys the caller lacks are added, exactly the merge
        when the match does not inherit; a non-string name and a missing id
        that the id map holds as null are errors, and an unmatched preset
        is returned as it is. */
    lemma ResolveCompletes(values: Params, chain: seq<Value>, fuel: nat)
      requires "inherit_from" !in values
      ensures var r := Resolve(values, chain, fuel);
        && (StoredMatch(values).Some? && r.Success? ==>
              var base := StoredMatch(values).value;
              forall k :: k in base && k !in values && k != "inherit_from" ==> k in r.value.0 && r.value.0[k] == base[k])
        && (StoredMatch(values).Some? && "inherit_from" !in StoredMatch(values).value ==>
              r == Success((Merge(values, StoredMatch(values).value), chain)))
        && ("name" in values && !values["name"].Str? ==> r == Failure(NotAString))
        && ("id" !in values && Nil in byId
            && ("name" !in values || (values["name"].Str? && Lower(values["name"].s) !in byName)) ==>
              r == Failure(MissingKey("id")))
        && (StoredMatch(values).None? && ("name" !in values || values["name"].Str?)
            && ("id" in values || Nil !in byId) ==>
              r == Success((values, chain)))
    {
      if StoredMatch(values).Some? && fuel > 0 {
        var merged := Merge(values, StoredMatch(values).value);
        ResolveKeeps(merged, chain + [if "name" in merged then merged["name"] else Nil], fuel - 1);
      }
    }

    /** `inheritance`: resolves `inherit_from` recursively, or completes a
        preset without it from the stored preset of the same name or id.
        `fuel` bounds the recursion depth. */
    method Inheritance(values: Params, chain: seq<Value>, fuel: nat)
      returns (r: Result<(Params, seq<Value>), FixtureError>)
      requires Valid()
      ensures r == Resolve(values, chain, fuel)
      ensures r.Success? ==> Resolves(values, chain, r.value)
      // inheriting: the named base is stored, and its keys the caller lacks
      // are inherited, its name under the name it was looked up by
      ensures r.Success? && "inherit_from" in values ==>
        && values["inherit_from"] in r.value.1
        && values["inherit_from"].Str? && Get(values["inherit_from"].s).Success?
        && var base := Get(values["inherit_from"].s).value;
           && (forall k :: k in base && k !in values && k != "inherit_from" && k != "name" ==>
                 k in r.value.0 && r.value.0[k] == base[k])
           && ("name" !in values ==> "name" in r.value.0 && r.value.0["name"] == values["inherit_from"])
      ensures SelfInheritance(values) && chain == [] ==> r == Failure(InheritanceCircle)
      ensures "inherit_from" in values && !values["inherit_from"].Str? && !(SelfInheritance(values) && chain == []) ==>
        r == Failure(NotAString)
      ensures "inherit_from" in values && values["inherit_from"].Str? && !(SelfInheritance(values) && chain == [])
              && Get(values["inherit_from"].s).Failure? ==>
        r == Failure(Get(values["inherit_from"].s).error)
      // completing: the keys of the matching stored preset the caller lacks
      // are added; without a further `inherit_from` the result is the merge
      ensures "inherit_from" !in values && StoredMatch(values).Some? && r.Success? ==>
        var base := StoredMatch(values).value;
        forall k :: k in base && k !in values && k != "inherit_from" ==> k in r.value.0 && r.value.0[k] == base[k]
      ensures "inherit_from" !in values && StoredMatch(values).Some? && "inherit_from" !in StoredMatch(values).value ==>
        r == Success((Merge(values, StoredMatch(values).value), chain))
      ensures "inherit_from" !in values && "name" in values && !values["name"].Str? ==> r == Failure(NotAString)
      ensures "inherit_from" !in values && "id" !in values && Nil in byId
              && ("name" !in values || (values["name"].Str? && Lower(values["name"].s) !in byName)) ==>
        r == Failure(MissingKey("id"))
      ensures "inherit_from" !in values && StoredMatch(values).None?
              && ("name" !in values || values["name"].Str?)
              && ("id" in values || Nil !in byId) ==>
        r == Success((values, chain))
    {
      if "inherit_from" in values {
        r := InheritFrom(values, chain, fuel);
        ResolveInherits(values, chain, fuel);
      } else {
        r := Complete(values, chain, fuel);
        ResolveCompletes(values, chain, fuel);
      }
      ResolveKeeps(values, chain, fuel);
    }

    /** The `inherit_from` branch: the base preset is looked up under the
        given name, resolved in turn and then overwritten by the caller's
        own keys. */
    method InheritFrom(values: Params, chain: seq<Value>, fuel: nat)
      returns (r: Result<(Params, seq<Value>), FixtureError>)
      requires Valid()
      requires "inherit_from" in values
      decreases fuel
      ensures r == ResolveInherit(values, chain, fuel)
    {
      var fixtureName := values["inherit_from"];
      var vals := values - {"inherit_from"};
      var ch := chain;
      // The chain is still empty here, so only a preset inheriting from its
      // own name is a detectable circle.
      if "name" in vals && |ch| < 1 {
        var baseName := vals["name"];
        if baseName == fixtureName {
          return Failure(InheritanceCircle);
        }
        ch := ch + [baseName];
      }
      if !fixtureName.Str? {
        return Failure(NotAString);
      }
      var found := Get(fixtureName.s);
      if found.Failure? {
        return Failure(found.error);
      }
      var fixtureBase := found.value["name" := fixtureName];
      ch := ch + [fixtureName];
      if fuel == 0 {
        return Failure(RecursionLimit);
      }
      // the recursive `inheritance` call, in the branch the base takes
      var sub;
      if "inherit_from" in fixtureBase {
        sub := InheritFrom(fixtureBase, ch, fuel - 1);
      } else {
        sub := Complete(fixtureBase, ch, fuel - 1);
      }
      r := OverwriteBase(vals, sub);
      assert found == Get(fixtureName.s);
      assert ch == InheritChain(values, chain);
      assert ResolveInherit(values, chain, fuel) == Overwrite(vals, Resolve(fixtureBase, ch, fuel - 1));
    }

    /** The post-processing branch: a preset without `inherit_from` that
        matches a stored one by name or id is completed from it, and
        resolved again when the stored one inherits. */
    method Complete(values: Params, chain: seq<Value>, fuel: nat)
      returns (r: Result<(Params, seq<Value>), FixtureError>)
      requires Valid()
      requires "inherit_from" !in values
      decreases fuel
      ensures r == ResolveComplete(values, chain, fuel)
    {
      var ch := chain;
      var postProcess := false;
      var fixtureBase: Params := map[];
      if "name" in values && !values["name"].Str? {
        return Failure(NotAString);
      }
      if "name" in values && Lower(values["name"].s) in byName {
        fixtureBase := byName[Lower(values["name"].s)];
        postProcess := true;
      } else {
        var id := if "id" in values then values["id"] else Nil;
        if id in byId {
          if "id" !in values {
            return Failure(MissingKey("id"));
          }
          fixtureBase := byId[id];
          postProcess := true;
        }
      }
      if postProcess {
        var merged := FillModel(values, fixtureBase);
        if "inherit_from" in merged {
          ch := ch + [if "name" in merged then merged["name"] else Nil];
          if fuel == 0 {
            return Failure(RecursionLimit);
          }
          r := InheritFrom(merged, ch, fuel - 1);
          return;
        }
        return Success((merged, ch));
      }
      return Success((values, ch));
    }
  }

  /** All fixtures, one per lower-cased model type. */
  class Fixtures {
    var components: map<string, Fixture>

    ghost predicate Valid()
      reads this, components.Values
    {
      forall t :: t in components ==> components[t].modelType == t && components[t].Valid()
    }

    constructor()
      ensures Valid() && components == map[]
    {
      components := map[];
    }

    /** Files a preset into the fixture of its (lower-cased) type, creating
        that fixture first when it is new; other fixtures stay as they are. */
    method InsertModel(data: Wrapper) returns (r: Outcome<FixtureError>)
      requires Valid()
      modifies this, components.Values
      ensures Valid()
      ensures components.Keys == old(components.Keys) + {Lower(data.dataType)}
      ensures forall t :: t in old(components) ==> components[t] == old(components[t])
      ensures forall t :: t in old(components) && t != Lower(data.dataType) ==> unchanged(components[t])
      ensures r.Fail? <==> "name" in data.parameters && "id" !in data.parameters
      ensures r.Fail? ==> r.error == MissingKey("id")
      // the fixture of the type, starting from nothing when the type is new,
      // gains the preset exactly as `Fixture.Insert` files it
      ensures var t := Lower(data.dataType);
        var known := t in old(components);
        var names0 := if known then old(components[t].names) else [];
        var byName0 := if known then old(components[t].byName) else map[];
        var byId0 := if known then old(components[t].byId) else map[];
        var p := data.parameters;
        var f := components[t];
        if "name" in p && "id" in p then
          && f.byName == byName0[NameKey(p) := p]
          && f.byId == byId0[p["id"] := p]
          && f.names == (if NameKey(p) in byName0 then names0 else names0 + [NameKey(p)])
        else
          f.names == names0 && f.byName == byName0 && f.byId == byId0
    {
      var fixType := Lower(data.dataType);
      LowerIdempotent(data.dataType);
      var f := Component(fixType);
      ghost var known := fixType in old(components);
      assert f.names == (if known then old(components[fixType].names) else []);
      assert f.byName == (if known then old(components[fixType].byName) else map[]);
      assert f.byId == (if known then old(components[fixType].byId) else map[]);
      label filed:
      r := f.Insert(data);
      forall t | t in old(components) && t != fixType
        ensures unchanged(components[t])
      {
        assert components[t] != f;
        assert unchanged@filed(components[t]);
      }
    }

    /** The fixture of a lower-cased model type, created empty when the
        type is new (`components.get(fix_type) is None`). */
    method Component(fixType: string) returns (f: Fixture)
      requires Valid()
      requires Lower(fixType) == fixType
      modifies this
      ensures Valid()
      ensures components.Keys == old(components.Keys) + {fixType} && components[fixType] == f
      ensures forall t :: t in old(components) ==> components[t] == old(components[t])
      ensures fixType !in old(components) ==> fresh(f) && f.names == [] && f.byName == map[] && f.byId == map[]
      ensures f.modelType == fixType && f.Valid()
      ensures forall t :: t in components && t != fixType ==> components[t] != f
    {
      if fixType !in components {
        f := new Fixture(fixType);
        components := components[fixType := f];
      } else {
        f := components[fixType];
      }
    }

    /** `__getitem__`: the fixture of a model type, in any case. */
    function Get(key: string): (r: Result<Fixture, FixtureError>)
      reads this
      ensures r.Success? <==> Lower(key) in components
      ensures r.Success? ==> r.value == components[Lower(key)]
      ensures r.Failure? ==> r.error == NotFound(Lower(key))
    {
      if Lower(key) in components then Success(components[Lower(key)])
      else Failure(NotFound(Lower(key)))
    }
  }
}
