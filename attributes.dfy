/** The attribute helpers of the core: Core/AttributeArgsCollection.cs (the argument table of one applied
  * attribute), Core/SymbolAttributeData.cs (first-match search over a symbol's attributes) and
  * Core/Extensions/AttributeExtensions.cs (`FindByFQN`, `GetFullTypeName`). The host compiler's
  * `AttributeData` becomes a plain record. */
module Attributes {
  import opened Wrappers
  import Strings
  import TextHelper
  import Comparison

  /** What `TypedConstant.GetObjectValue()` returns for an attribute argument. */
  datatype Value =
    | Null
    | Bool(b: bool)
    | Int(i: int)
    | Text(s: string)
    | TypeOf(fqn: string)
    | Values(items: seq<Value>)

  /** The runtime type an `is TValue` test asks for; `object` holds every non-null value. */
  datatype Kind = BoolKind | IntKind | StringKind | TypeKind | ArrayKind | ObjectKind

  /** `value is TValue`: never true of null. */
  predicate IsInstance(v: Value, k: Kind)
  {
    match v
    case Null => false
    case Bool(_) => k == BoolKind || k == ObjectKind
    case Int(_) => k == IntKind || k == ObjectKind
    case Text(_) => k == StringKind || k == ObjectKind
    case TypeOf(_) => k == TypeKind || k == ObjectKind
    case Values(_) => k == ArrayKind || k == ObjectKind
  }

  /** One applied attribute: the FQN of its class (null when the class is unknown), the parameter
    * names of its constructor (null when there is no constructor symbol), its constructor arguments
    * and its named arguments. */
  datatype AttributeData = AttributeData(
    attributeClass: Option<string>,
    constructorParameters: Option<seq<string>>,
    constructorArguments: seq<Value>,
    namedArguments: seq<(string, Value)>)

  /** `GetFullTypeName()`: the FQN of the attribute class, null when the class is null. */
  function GetFullTypeName(a: AttributeData): (r: Option<string>)
    ensures r.None? <==> a.attributeClass.None?
    ensures r.Some? ==> r == a.attributeClass
  {
    a.attributeClass
  }

  // ---------------------------------------------------------------- AttributeArgsCollection

  /** One key of the `Dictionary<string, object?>` with the value stored under it. */
  datatype Entry = Entry(key: string, value: Value)

  /** The collection: its dictionary's entries in insertion order. Keys are compared with
    * `StringComparer.OrdinalIgnoreCase`. */
  datatype Args = Args(entries: seq<Entry>)

  /** `AttributeArgsCollection.Empty`. */
  const Empty := Args([])

  /** `Count`. */
  function Count(args: Args): nat
  {
    |args.entries|
  }

  /** The index of the entry whose key matches `name` without regard to case, if there is one. */
  function IndexOfKey(entries: seq<Entry>, name: string): (r: Option<nat>)
    ensures r.Some? ==> r.value < |entries| && Strings.EqualsIgnoreCase(entries[r.value].key, name)
    ensures r.Some? ==> forall j :: 0 <= j < r.value ==> !Strings.EqualsIgnoreCase(entries[j].key, name)
    ensures r.None? ==> forall j :: 0 <= j < |entries| ==> !Strings.EqualsIgnoreCase(entries[j].key, name)
  {
    if |entries| == 0 then None
    else if Strings.EqualsIgnoreCase(entries[0].key, name) then Some(0)
    else
      match IndexOfKey(entries[1..], name)
      case None => None
      case Some(i) => Some(i + 1)
  }

  /** `args[name] = value`: an existing key keeps its spelling and takes the new value; a new key is
    * added at the end. */
  function Store(entries: seq<Entry>, name: string, value: Value): seq<Entry>
  {
    match IndexOfKey(entries, name)
    case Some(i) => entries[i := Entry(entries[i].key, value)]
    case None => entries + [Entry(name, value)]
  }

  /** The dictionary's `TryGetValue(name, out value)`: the value stored under a matching key. */
  function Lookup(entries: seq<Entry>, name: string): Option<Value>
  {
    match IndexOfKey(entries, name)
    case Some(i) => Some(entries[i].value)
    case None => None
  }

  /** No two keys match each other, which every dictionary maintains. */
  predicate DistinctKeys(entries: seq<Entry>)
  {
    forall i, j :: 0 <= i < j < |entries| ==> !Strings.EqualsIgnoreCase(entries[i].key, entries[j].key)
  }

  /** Each name stored in turn, as the two loops of the constructor do. */
  function StoreAll(entries: seq<Entry>, pairs: seq<(string, Value)>): seq<Entry>
    decreases |pairs|
  {
    if |pairs| == 0 then entries else StoreAll(Store(entries, pairs[0].0, pairs[0].1), pairs[1..])
  }

  /** The constructor arguments under the names of the constructor's parameters, `count` of them. */
  function Positional(names: seq<string>, values: seq<Value>): (r: seq<(string, Value)>)
    requires |values| <= |names|
    ensures |r| == |values|
    ensures forall i :: 0 <= i < |r| ==> r[i] == (names[i], values[i])
  {
    seq(|values|, i requires 0 <= i < |values| => (names[i], values[i]))
  }

  /** `new AttributeArgsCollection(attributeData)`: the constructor arguments keyed by their
    * parameters' names, then the named arguments, a later entry overwriting an earlier one with a
    * matching key. Indexing a parameter that does not exist throws. */
  function BuildSpec(data: AttributeData): (r: Result<Args, Exception>)
  {
    var names := data.constructorParameters.GetOr([]);
    if |data.constructorArguments| > |names| then Err(IndexOutOfRangeException)
    else Ok(Args(StoreAll(StoreAll([], Positional(names, data.constructorArguments)), data.namedArguments)))
  }

  /** The constructor's two loops. */
  method Build(data: AttributeData) returns (r: Result<Args, Exception>)
    ensures r == BuildSpec(data)
  {
    var entries: seq<Entry> := [];
    var ctorArgs := data.constructorArguments;
    var names := data.constructorParameters.GetOr([]);
    if |ctorArgs| > 0 {
      var count := |ctorArgs|;
      for i := 0 to count
        invariant i <= |names|
        invariant entries == StoreAll([], Positional(names[..i], ctorArgs[..i]))
      {
        if i >= |names| {
          return Err(IndexOutOfRangeException);
        }
        StoreAllSnoc([], Positional(names[..i], ctorArgs[..i]), names[i], ctorArgs[i]);
        assert Positional(names[..i + 1], ctorArgs[..i + 1]) == Positional(names[..i], ctorArgs[..i]) + [(names[i], ctorArgs[i])];
        entries := Store(entries, names[i], ctorArgs[i]);
      }
      assert ctorArgs[..count] == ctorArgs;
      assert Positional(names[..count], ctorArgs) == Positional(names, ctorArgs);
    }
    var positional := entries;
    var named := data.namedArguments;
    for i := 0 to |named|
      invariant entries == StoreAll(positional, named[..i])
    {
      StoreAllSnoc(positional, named[..i], named[i].0, named[i].1);
      assert named[..i + 1] == named[..i] + [named[i]];
      entries := Store(entries, named[i].0, named[i].1);
    }
    assert named[..|named|] == named;
    return Ok(Args(entries));
  }

  /** `TryGetValue(name, out object? value)`: a null or empty name finds nothing; otherwise the value
    * stored under a matching key, which may itself be null. `None` is a false return. */
  function TryGetValue(args: Args, name: Option<string>): Option<Value>
  {
    if TextHelper.AsSpan(name) == "" then None else Lookup(args.entries, name.value)
  }

  /** `TryGetValue<TValue>(name, out TValue? value)`: found, and the value is a `TValue`. */
  function TryGetValueAs(args: Args, name: Option<string>, kind: Kind): Option<Value>
  {
    match TryGetValue(args, name)
    case Some(v) => if IsInstance(v, kind) then Some(v) else None
    case None => None
  }

  // ---------------------------------------------------------------- dictionary properties

  /** After a store, a matching name finds the new value and every other name finds what it found
    * before. */
  lemma LookupStore(entries: seq<Entry>, name: string, value: Value, query: string)
    ensures Lookup(Store(entries, name, value), query) ==
      if Strings.EqualsIgnoreCase(name, query) then Some(value) else Lookup(entries, query)
  {
    var stored := Store(entries, name, value);
    assert forall k :: 0 <= k < |entries| ==> stored[k].key == entries[k].key;
    match IndexOfKey(entries, name)
    case Some(i) =>
      if Strings.EqualsIgnoreCase(name, query) {
        KeyTransfer(entries, name, query, i);
        assert IndexOfKey(stored, query) == Some(i) by {
          SameKeysSameIndex(entries, stored, query);
        }
      } else {
        KeyDiffers(entries[i].key, name, query);
        SameKeysSameIndex(entries, stored, query);
      }
    case None =>
      assert stored == entries + [Entry(name, value)];
      if Strings.EqualsIgnoreCase(name, query) {
        NoneTransfer(entries, name, query);
        IndexAfterAppend(entries, Entry(name, value), query);
      } else {
        IndexAfterAppend(entries, Entry(name, value), query);
      }
  }

  /** A key that matches `name` matches every name that `name` matches. */
  lemma KeyTransfer(entries: seq<Entry>, name: string, query: string, i: nat)
    requires i < |entries| && Strings.EqualsIgnoreCase(entries[i].key, name) && Strings.EqualsIgnoreCase(name, query)
    requires forall j :: 0 <= j < i ==> !Strings.EqualsIgnoreCase(entries[j].key, name)
    ensures IndexOfKey(entries, query) == Some(i)
  {
    Strings.IgnoreCaseIsEquivalence(entries[i].key, name, query);
    forall j | 0 <= j < i
      ensures !Strings.EqualsIgnoreCase(entries[j].key, query)
    {
      Strings.IgnoreCaseIsEquivalence(entries[j].key, query, name);
      Strings.IgnoreCaseIsEquivalence(query, name, name);
      Strings.IgnoreCaseIsEquivalence(name, query, query);
    }
    IndexIsFirst(entries, query, i);
  }

  /** No key matches `query` if none matches a name that `query` matches. */
  lemma NoneTransfer(entries: seq<Entry>, name: string, query: string)
    requires Strings.EqualsIgnoreCase(name, query)
    requires forall j :: 0 <= j < |entries| ==> !Strings.EqualsIgnoreCase(entries[j].key, name)
    ensures IndexOfKey(entries, query).None?
  {
    forall j | 0 <= j < |entries|
      ensures !Strings.EqualsIgnoreCase(entries[j].key, query)
    {
      Strings.IgnoreCaseIsEquivalence(entries[j].key, query, name);
      Strings.IgnoreCaseIsEquivalence(name, query, query);
    }
  }

  /** A key that matches `name` does not match a name that `name` does not match. */
  lemma KeyDiffers(key: string, name: string, query: string)
    requires Strings.EqualsIgnoreCase(key, name) && !Strings.EqualsIgnoreCase(name, query)
    ensures !Strings.EqualsIgnoreCase(key, query)
  {
    Strings.IgnoreCaseIsEquivalence(name, key, query);
    Strings.IgnoreCaseIsEquivalence(key, name, name);
  }

  /** The first match is at `i` when `i` matches and nothing before it does. */
  lemma {:induction false} IndexIsFirst(entries: seq<Entry>, query: string, i: nat)
    requires i < |entries| && Strings.EqualsIgnoreCase(entries[i].key, query)
    requires forall j :: 0 <= j < i ==> !Strings.EqualsIgnoreCase(entries[j].key, query)
    ensures IndexOfKey(entries, query) == Some(i)
  {
    if i > 0 {
      assert !Strings.EqualsIgnoreCase(entries[0].key, query);
      IndexIsFirst(entries[1..], query, i - 1);
    }
  }

  /** Two tables with the same keys in the same order find the same index. */
  lemma SameKeysSameIndex(a: seq<Entry>, b: seq<Entry>, query: string)
    requires |a| == |b| && forall k :: 0 <= k < |a| ==> a[k].key == b[k].key
    ensures IndexOfKey(a, query) == IndexOfKey(b, query)
  {
    var r := IndexOfKey(a, query);
    if r.Some? {
      IndexIsFirst(b, query, r.value);
    } else {
      assert forall k :: 0 <= k < |b| ==> !Strings.EqualsIgnoreCase(b[k].key, query);
    }
  }

  /** Appending an entry changes the first match only when there was none before. */
  lemma IndexAfterAppend(entries: seq<Entry>, e: Entry, query: string)
    ensures IndexOfKey(entries + [e], query) ==
      match IndexOfKey(entries, query)
      case Some(i) => Some(i)
      case None => if Strings.EqualsIgnoreCase(e.key, query) then Some(|entries|) else None
  {
    var all := entries + [e];
    assert forall k :: 0 <= k < |entries| ==> all[k] == entries[k];
    match IndexOfKey(entries, query)
    case Some(i) => IndexIsFirst(all, query, i);
    case None =>
      if Strings.EqualsIgnoreCase(e.key, query) {
        IndexIsFirst(all, query, |entries|);
      } else {
        assert forall k :: 0 <= k < |all| ==> !Strings.EqualsIgnoreCase(all[k].key, query);
      }
  }

  /** A store keeps the keys distinct, and adds one entry exactly when no key matched. */
  lemma StoreKeepsKeysDistinct(entries: seq<Entry>, name: string, value: Value)
    requires DistinctKeys(entries)
    ensures DistinctKeys(Store(entries, name, value))
    ensures |Store(entries, name, value)| == |entries| + (if IndexOfKey(entries, name).None? then 1 else 0)
  {
    var stored := Store(entries, name, value);
    if IndexOfKey(entries, name).None? {
      forall i, j | 0 <= i < j < |stored|
        ensures !Strings.EqualsIgnoreCase(stored[i].key, stored[j].key)
      {
        if j == |entries| {
          assert stored[j].key == name && stored[i] == entries[i];
        }
      }
    }
  }

  /** The last pair whose name matches `query`, if there is one. */
  function LastMatch(pairs: seq<(string, Value)>, query: string): Option<Value>
    decreases |pairs|
  {
    if |pairs| == 0 then None
    else if Strings.EqualsIgnoreCase(pairs[|pairs| - 1].0, query) then Some(pairs[|pairs| - 1].1)
    else LastMatch(pairs[..|pairs| - 1], query)
  }

  /** Storing a run of pairs: a name finds the last matching pair's value, or else what it found. */
  lemma {:induction false} LookupStoreAll(entries: seq<Entry>, pairs: seq<(string, Value)>, query: string)
    decreases |pairs|
    ensures Lookup(StoreAll(entries, pairs), query) ==
      match LastMatch(pairs, query)
      case Some(v) => Some(v)
      case None => Lookup(entries, query)
  {
    if |pairs| > 0 {
      var n := |pairs| - 1;
      StoreAllSnocAll(entries, pairs);
      LookupStore(StoreAll(entries, pairs[..n]), pairs[n].0, pairs[n].1, query);
      LookupStoreAll(entries, pairs[..n], query);
    }
  }

  /** Storing a run then one more pair. */
  lemma {:induction false} StoreAllSnoc(entries: seq<Entry>, pairs: seq<(string, Value)>, name: string, value: Value)
    decreases |pairs|
    ensures StoreAll(entries, pairs + [(name, value)]) == Store(StoreAll(entries, pairs), name, value)
  {
    if |pairs| == 0 {
      assert pairs + [(name, value)] == [(name, value)];
      assert [(name, value)][1..] == [];
    } else {
      assert (pairs + [(name, value)])[0] == pairs[0];
      assert (pairs + [(name, value)])[1..] == pairs[1..] + [(name, value)];
      StoreAllSnoc(Store(entries, pairs[0].0, pairs[0].1), pairs[1..], name, value);
    }
  }

  /** A non-empty run is its front followed by its last pair. */
  lemma StoreAllSnocAll(entries: seq<Entry>, pairs: seq<(string, Value)>)
    requires |pairs| > 0
    ensures var n := |pairs| - 1;
      StoreAll(entries, pairs) == Store(StoreAll(entries, pairs[..n]), pairs[n].0, pairs[n].1)
  {
    var n := |pairs| - 1;
    assert pairs == pairs[..n] + [(pairs[n].0, pairs[n].1)];
    StoreAllSnoc(entries, pairs[..n], pairs[n].0, pairs[n].1);
  }

  /** Stores keep the keys distinct, so `Count` is the number of different keys. */
  lemma {:induction false} StoreAllKeepsKeysDistinct(entries: seq<Entry>, pairs: seq<(string, Value)>)
    requires DistinctKeys(entries)
    decreases |pairs|
    ensures DistinctKeys(StoreAll(entries, pairs))
  {
    if |pairs| > 0 {
      StoreKeepsKeysDistinct(entries, pairs[0].0, pairs[0].1);
      StoreAllKeepsKeysDistinct(Store(entries, pairs[0].0, pairs[0].1), pairs[1..]);
    }
  }

  /** A built collection answers each name with the last argument of that name, named arguments
    * coming after the constructor arguments, and its keys are distinct. */
  lemma BuiltLookup(data: AttributeData, query: string)
    requires BuildSpec(data).Ok?
    ensures var args := BuildSpec(data).value;
      var names := data.constructorParameters.GetOr([]);
      DistinctKeys(args.entries) &&
      Lookup(args.entries, query) ==
        LastMatch(Positional(names, data.constructorArguments) + data.namedArguments, query)
  {
    var names := data.constructorParameters.GetOr([]);
    var ctor := Positional(names, data.constructorArguments);
    var named := data.namedArguments;
    StoreAllKeepsKeysDistinct([], ctor);
    StoreAllKeepsKeysDistinct(StoreAll([], ctor), named);
    LookupStoreAll(StoreAll([], ctor), named, query);
    LookupStoreAll([], ctor, query);
    LastMatchAppend(ctor, named, query);
  }

  /** The last match in two runs is in the second run if there is one there. */
  lemma {:induction false} LastMatchAppend(a: seq<(string, Value)>, b: seq<(string, Value)>, query: string)
    decreases |b|
    ensures LastMatch(a + b, query) == match LastMatch(b, query) case Some(v) => Some(v) case None => LastMatch(a, query)
  {
    if |b| == 0 {
      assert a + b == a;
    } else {
      var n := |b| - 1;
      assert (a + b)[|a + b| - 1] == b[n];
      assert (a + b)[..|a + b| - 1] == a + b[..n];
      LastMatchAppend(a, b[..n], query);
    }
  }

  /** `Empty` holds nothing and finds nothing. */
  lemma EmptyHasNothing(name: Option<string>)
    ensures Count(Empty) == 0 && TryGetValue(Empty, name).None?
  {
  }

  /** A null or empty name is never found, whatever the table holds. */
  lemma BlankNameNotFound(args: Args, kind: Kind)
    ensures TryGetValue(args, None).None? && TryGetValue(args, Some("")).None?
    ensures TryGetValueAs(args, None, kind).None? && TryGetValueAs(args, Some(""), kind).None?
  {
  }

  /** The typed lookup succeeds iff the name is found with a value of that type, never for a stored
    * null, and then gives that value. */
  lemma TypedLookup(args: Args, name: Option<string>, kind: Kind)
    ensures TryGetValueAs(args, name, kind).Some? <==>
      TryGetValue(args, name).Some? && IsInstance(TryGetValue(args, name).value, kind)
    ensures TryGetValueAs(args, name, kind).Some? ==>
      TryGetValueAs(args, name, kind) == TryGetValue(args, name) && TryGetValue(args, name).value != Null
  {
  }

  // ---------------------------------------------------------------- SymbolAttributeData

  /** `SymbolAttributeData`: the attributes of one symbol. `Empty` wraps the default immutable array. */
  datatype SymbolAttributeData = SymbolAttributeData(attributeData: Comparison.ImmutableArray<AttributeData>)

  const EmptyData := SymbolAttributeData(Comparison.DefaultArray)

  /** `string.Equals(attr.AttributeClass?.GetFQN(), fqn)` for a non-null query. */
  predicate ClassIs(a: AttributeData, fqn: string)
  {
    a.attributeClass == Some(fqn)
  }

  /** The first attribute of `attributes` whose class has FQN `fqn`. */
  function FirstWithClass(attributes: seq<AttributeData>, fqn: string): (r: Option<AttributeData>)
    ensures r.Some? ==> exists i :: (0 <= i < |attributes| && attributes[i] == r.value && ClassIs(r.value, fqn) &&
      forall j :: 0 <= j < i ==> !ClassIs(attributes[j], fqn))
    ensures r.None? <==> forall j :: 0 <= j < |attributes| ==> !ClassIs(attributes[j], fqn)
  {
    if |attributes| == 0 then None
    else if ClassIs(attributes[0], fqn) then Some(attributes[0])
    else
      var r := FirstWithClass(attributes[1..], fqn);
      assert forall j :: 1 <= j < |attributes| ==> attributes[j] == attributes[1..][j - 1];
      if r.Some? then
        var i :| 0 <= i < |attributes[1..]| && attributes[1..][i] == r.value && ClassIs(r.value, fqn) &&
          forall j :: 0 <= j < i ==> !ClassIs(attributes[1..][j], fqn);
        assert attributes[i + 1] == r.value;
        r
      else r
  }

  /** `HasAttribute(fqn)`: some attribute's class has that FQN. Enumerating the default array throws. */
  function HasAttribute(data: SymbolAttributeData, fqn: string): Result<bool, Exception>
  {
    match data.attributeData
    case DefaultArray => Err(NullReferenceException)
    case ArrayOf(items) => Ok(exists i :: 0 <= i < |items| && ClassIs(items[i], fqn))
  }

  /** `TryGetAttributeData(fqn, out data)`: the first attribute with that class, or false. */
  function TryGetAttributeData(data: SymbolAttributeData, fqn: string): Result<Option<AttributeData>, Exception>
  {
    match data.attributeData
    case DefaultArray => Err(NullReferenceException)
    case ArrayOf(items) => Ok(FirstWithClass(items, fqn))
  }

  /** `TryGetAttributeArg(fqn, out args)`: the argument table of that first match, or false. */
  function TryGetAttributeArg(data: SymbolAttributeData, fqn: string): Result<Option<Args>, Exception>
  {
    match TryGetAttributeData(data, fqn)
    case Err(e) => Err(e)
    case Ok(None) => Ok(None)
    case Ok(Some(a)) =>
      match BuildSpec(a)
      case Err(e) => Err(e)
      case Ok(args) => Ok(Some(args))
  }

  /** `HasAttribute` holds iff `TryGetAttributeData` finds something, and `TryGetAttributeArg` finds an
    * attribute under the same condition, built from the same first match. */
  lemma SearchesAgree(data: SymbolAttributeData, fqn: string)
    ensures HasAttribute(data, fqn).Ok? <==> TryGetAttributeData(data, fqn).Ok?
    ensures HasAttribute(data, fqn).Ok? ==>
      (HasAttribute(data, fqn).value <==> TryGetAttributeData(data, fqn).value.Some?)
    ensures TryGetAttributeData(data, fqn) == Ok(None) ==> TryGetAttributeArg(data, fqn) == Ok(None)
    ensures match TryGetAttributeData(data, fqn)
      case Ok(Some(a)) => TryGetAttributeArg(data, fqn) ==
        (if BuildSpec(a).Ok? then Ok(Some(BuildSpec(a).value)) else Err(BuildSpec(a).error))
      case _ => true
  {
    if data.attributeData.ArrayOf? {
      var items := data.attributeData.items;
      var r := FirstWithClass(items, fqn);
      if (exists i :: 0 <= i < |items| && ClassIs(items[i], fqn)) {
        var i :| 0 <= i < |items| && ClassIs(items[i], fqn);
        assert r.Some?;
      }
    }
  }

  /** `SymbolAttributeData.Empty` wraps the default array, so every search on it throws. */
  lemma EmptyDataThrows(fqn: string)
    ensures HasAttribute(EmptyData, fqn) == Err(NullReferenceException)
    ensures TryGetAttributeData(EmptyData, fqn) == Err(NullReferenceException)
    ensures TryGetAttributeArg(EmptyData, fqn) == Err(NullReferenceException)
  {
  }

  // ---------------------------------------------------------------- FindByFQN

  /** The first attribute whose class FQN is ordinally equal to the (possibly null) query. */
  function FirstByFqn(attributes: seq<AttributeData>, fqn: Option<string>): (r: Option<AttributeData>)
    decreases |attributes|
  {
    if |attributes| == 0 then None
    else if GetFullTypeName(attributes[0]) == fqn then Some(attributes[0])
    else FirstByFqn(attributes[1..], fqn)
  }

  /** `attributes.FindByFQN(fqn)`: the index loop, on `Length` of the array, which the default array
    * does not have. */
  function FindByFqn(attributes: Comparison.ImmutableArray<AttributeData>, fqn: Option<string>): Result<Option<AttributeData>, Exception>
  {
    match attributes
    case DefaultArray => Err(NullReferenceException)
    case ArrayOf(items) => Ok(FirstByFqn(items, fqn))
  }

  /** `FindByFQN` returns `attributes[i]` for the least `i` whose class FQN equals the query, and null
    * when there is none; a null query matches an attribute with a null class. */
  lemma {:induction false} FirstByFqnIsLeast(attributes: seq<AttributeData>, fqn: Option<string>)
    decreases |attributes|
    ensures FirstByFqn(attributes, fqn).None? <==> forall j :: 0 <= j < |attributes| ==> attributes[j].attributeClass != fqn
    ensures FirstByFqn(attributes, fqn).Some? ==> exists i :: (0 <= i < |attributes| &&
      FirstByFqn(attributes, fqn) == Some(attributes[i]) && attributes[i].attributeClass == fqn &&
      forall j :: 0 <= j < i ==> attributes[j].attributeClass != fqn)
  {
    if |attributes| > 0 && attributes[0].attributeClass != fqn {
      var rest := attributes[1..];
      FirstByFqnIsLeast(rest, fqn);
      assert forall j :: 1 <= j < |attributes| ==> attributes[j] == rest[j - 1];
      if FirstByFqn(rest, fqn).Some? {
        var i :| 0 <= i < |rest| && FirstByFqn(rest, fqn) == Some(rest[i]) && rest[i].attributeClass == fqn &&
          forall j :: 0 <= j < i ==> rest[j].attributeClass != fqn;
        assert attributes[i + 1] == rest[i];
      }
    }
  }

  /** With a non-null query, `FindByFQN` agrees with `TryGetAttributeData`. */
  lemma FindAgreesWithTryGet(attributes: Comparison.ImmutableArray<AttributeData>, fqn: string)
    ensures FindByFqn(attributes, Some(fqn)) == TryGetAttributeData(SymbolAttributeData(attributes), fqn)
  {
    if attributes.ArrayOf? {
      FirstByFqnAgrees(attributes.items, fqn);
    }
  }

  lemma {:induction false} FirstByFqnAgrees(attributes: seq<AttributeData>, fqn: string)
    decreases |attributes|
    ensures FirstByFqn(attributes, Some(fqn)) == FirstWithClass(attributes, fqn)
  {
    if |attributes| > 0 {
      FirstByFqnAgrees(attributes[1..], fqn);
    }
  }
}
