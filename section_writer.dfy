/** InterfaceGen/CodeWriters/SectionWriter.cs and InterfaceImplementationWriters.cs: each writer keeps
  * a table from an (instic, visibility, member type) section to the action that writes it, and the
  * generator picks, for each interface, the first writer that can implement it. */
module Sections {
  import opened Wrappers
  import opened Flags
  import opened InterfaceFlags
  import opened Coding
  import Numbers
  import Strings
  import Emit
  import Naming
  import Generate
  import CodingBuilder
  import PropertyWriters
  import EquatableWriters
  import ComparableWriters
  import ToStringWriters
  import FormattableWriters

  /** The dictionary key `(Instic, Visibility, MemberType)`, compared as a tuple. */
  datatype Key = Key(instic: Bits, visibility: Bits, memberType: Bits)

  /** The registered section actions, one per method the writers pass to `AddSectionWrite`. */
  datatype Action =
    | WriteProperties | WriteConstructors
    | EquatableOperators | EquatableMethods
    | ComparableOperators | ComparableMethods
    | ToStringMethods
    | FormattableSection

  /** The writers the generator uses. */
  datatype WriterKind = PropertyKind | FormattableKind | EquatableKind | ComparableKind | ToStringKind

  // ---------------------------------------------------------------- the registrations

  /** The `AddSectionWrite` calls each writer's constructor makes, in order. */
  function Registrations(kind: WriterKind): seq<(Key, Action)>
  {
    match kind
    case PropertyKind =>
      [(Key(Instance, Public, Property), WriteProperties), (Key(Instance, Public, Constructor), WriteConstructors)]
    case EquatableKind =>
      [(Key(Static, Public, Operator), EquatableOperators), (Key(Instance, Public, Method), EquatableMethods)]
    case ComparableKind =>
      [(Key(Static, Public, Operator), ComparableOperators), (Key(Instance, Public, Method), ComparableMethods)]
    case ToStringKind => [(Key(Instance, Public, Method), ToStringMethods)]
    case FormattableKind => [(Key(Instance, Public, Method), FormattableSection)]
  }

  /** The dictionary after a run of `AddSectionWrite` calls on an empty one: each call stores its action
    * under its key, replacing what was there. */
  function Registry(adds: seq<(Key, Action)>): map<Key, Action>
    decreases |adds|
  {
    if |adds| == 0 then map[] else Registry(adds[..|adds| - 1])[adds[|adds| - 1].0 := adds[|adds| - 1].1]
  }

  /** A registration overrides any earlier one for the same key and leaves the other keys alone. */
  lemma LaterRegistrationWins(adds: seq<(Key, Action)>, k: Key, a: Action, other: Key)
    requires other != k
    ensures Registry(adds + [(k, a)])[k] == a
    ensures other in Registry(adds + [(k, a)]) <==> other in Registry(adds)
    ensures other in Registry(adds) ==> Registry(adds + [(k, a)])[other] == Registry(adds)[other]
  {
    assert (adds + [(k, a)])[..|adds|] == adds;
  }

  /** What each writer registers: its sections are exactly the listed keys. Lookup is by the exact
    * tuple, so for instance a constructor section is not found under the `Method` key although the
    * `Constructor` flags contain the `Method` bit. */
  lemma RegistryOf(kind: WriterKind)
    ensures kind == PropertyKind ==>
      Registry(Registrations(kind)) ==
      map[Key(Instance, Public, Property) := WriteProperties, Key(Instance, Public, Constructor) := WriteConstructors]
    ensures kind == EquatableKind ==>
      Registry(Registrations(kind)) ==
      map[Key(Static, Public, Operator) := EquatableOperators, Key(Instance, Public, Method) := EquatableMethods]
    ensures kind == ComparableKind ==>
      Registry(Registrations(kind)) ==
      map[Key(Static, Public, Operator) := ComparableOperators, Key(Instance, Public, Method) := ComparableMethods]
    ensures kind == ToStringKind ==> Registry(Registrations(kind)) == map[Key(Instance, Public, Method) := ToStringMethods]
    ensures kind == FormattableKind ==> Registry(Registrations(kind)) == map[Key(Instance, Public, Method) := FormattableSection]
    ensures Key(Instance, Public, Method) in Registry(Registrations(kind)) <==> kind != PropertyKind
  {
    var adds := Registrations(kind);
    assert Key(Instance, Public, Method) != Key(Instance, Public, Constructor) by {
      assert 4 in Constructor && 4 !in Method;
    }
    assert Key(Instance, Public, Method) != Key(Instance, Public, Property) by {
      assert 1 in Property && 1 !in Method;
    }
    if |adds| == 2 {
      TwoRegistrations(adds[0], adds[1]);
      assert adds == [adds[0], adds[1]];
    } else {
      OneRegistration(adds[0]);
      assert adds == [adds[0]];
    }
  }

  lemma OneRegistration(x: (Key, Action))
    ensures Registry([x]) == map[x.0 := x.1]
  {
    assert [x][..0] == [];
  }

  lemma TwoRegistrations(x: (Key, Action), y: (Key, Action))
    ensures Registry([x, y]) == map[x.0 := x.1][y.0 := y.1]
  {
    assert [x, y][..1] == [x];
    OneRegistration(x);
  }

  // ---------------------------------------------------------------- what an action does

  /** What one section action does, given the generate info, the host's texts and the shared naming
    * counter: the emission it performs and the counter it leaves. Only the `Equals`/`CompareTo`
    * methods ask for a variable name. No registered action changes the generate info. */
  datatype Step = Step(emission: Emit.Emission, counter: Numbers.Int32)

  function ActionStep(a: Action, info: Generate.Info, env: Generate.Env, counter: Numbers.Int32): (r: Step)
    ensures a != EquatableMethods && a != ComparableMethods ==> r.counter == counter
  {
    match a
    case WriteProperties => Step(PropertyWriters.PropertiesEmission(info, env), counter)
    case WriteConstructors => Step(PropertyWriters.ConstructorsEmission(info, env), counter)
    case EquatableOperators => Step(EquatableWriters.OperatorsEmission(info), counter)
    case EquatableMethods =>
      var v := Generate.VariableName(env.syntax, counter, info.interfaceType.name);
      Step(EquatableWriters.MethodsEmission(info, env, v.0), v.1)
    case ComparableOperators => Step(ComparableWriters.OperatorsEmission(info), counter)
    case ComparableMethods =>
      var v := Generate.VariableName(env.syntax, counter, info.interfaceType.name);
      Step(ComparableWriters.MethodsEmission(info, env, v.0), v.1)
    case ToStringMethods => Step(ToStringWriters.ToStringEmission(info), counter)
    case FormattableSection => Step(FormattableWriters.SectionEmission(info), counter)
  }

  // ---------------------------------------------------------------- the writer objects

  /** `SectionWriter`: a writer of one kind and its `_sectionActions` dictionary. */
  class SectionWriter {
    const kind: WriterKind
    var actions: map<Key, Action>

    /** The writer's constructor: its `AddSectionWrite` calls on an empty dictionary. */
    constructor(kind: WriterKind)
      ensures this.kind == kind && actions == Registry(Registrations(kind))
    {
      this.kind := kind;
      actions := map[];
      new;
      var adds := Registrations(kind);
      var i := 0;
      while i < |adds|
        invariant 0 <= i <= |adds|
        invariant actions == Registry(adds[..i])
      {
        AddSectionWrite(adds[i].0, adds[i].1);
        assert adds[..i + 1][..i] == adds[..i];
        i := i + 1;
      }
      assert adds[..|adds|] == adds;
    }

    /** `AddSectionWrite(instic, visibility, memberType, sectionWrite)`: stores the action under the
      * key, replacing any earlier one. */
    method AddSectionWrite(k: Key, a: Action)
      modifies this
      ensures actions == old(actions)[k := a]
    {
      actions := actions[k := a];
    }

    /** `GetNeededUsings()`: none of these writers needs a `using`. */
    method GetNeededUsings() returns (r: seq<string>)
      ensures r == []
    {
      r := [];
    }

    /** `WriteImplementationSection(instic, visibility, memberType, codeBuilder, generateInfo)`: true
      * exactly when an action is registered under that key, after running it; otherwise false with
      * nothing written. */
    method WriteImplementationSection(instic: Bits, visibility: Bits, memberType: Bits,
      builder: CodingBuilder.CodeBuilder, generate: Generate.GenerateInfo, env: Generate.Env,
      naming: Naming.VariableNaming) returns (written: bool, thrown: Option<Exception>)
      requires builder.Valid() && naming.syntax == env.syntax
      modifies builder, builder.chars, naming
      ensures builder.Valid() && (builder.chars == old(builder.chars) || fresh(builder.chars))
      ensures written <==> Key(instic, visibility, memberType) in actions
      ensures !written ==> thrown.None? && builder.State() == old(builder.State()) && naming.counter == old(naming.counter)
      ensures written ==>
        var s := ActionStep(actions[Key(instic, visibility, memberType)], generate.Snapshot(), env, old(naming.counter));
        builder.Ending(thrown) == Emit.RunEmission(s.emission, old(builder.State())) && naming.counter == s.counter
    {
      var k := Key(instic, visibility, memberType);
      if k !in actions {
        return false, None;
      }
      thrown := RunAction(actions[k], builder, generate, env, naming);
      written := true;
    }
  }

  /** Invokes one registered action. */
  method RunAction(a: Action, builder: CodingBuilder.CodeBuilder, generate: Generate.GenerateInfo, env: Generate.Env,
    naming: Naming.VariableNaming) returns (thrown: Option<Exception>)
    requires builder.Valid() && naming.syntax == env.syntax
    modifies builder, builder.chars, naming
    ensures builder.Valid() && (builder.chars == old(builder.chars) || fresh(builder.chars))
    ensures var s := ActionStep(a, generate.Snapshot(), env, old(naming.counter));
      builder.Ending(thrown) == Emit.RunEmission(s.emission, old(builder.State())) && naming.counter == s.counter
  {
    match a
    case WriteProperties => thrown := PropertyWriters.WriteProperties(builder, generate, env);
    case WriteConstructors => thrown := PropertyWriters.WriteConstructors(builder, generate, env);
    case EquatableOperators => thrown := EquatableWriters.WriteOperators(builder, generate);
    case EquatableMethods => thrown := EquatableWriters.WriteMethods(builder, generate, env, naming);
    case ComparableOperators => thrown := ComparableWriters.WriteOperators(builder, generate);
    case ComparableMethods => thrown := ComparableWriters.WriteMethods(builder, generate, env, naming);
    case ToStringMethods => thrown := ToStringWriters.WriteInstanceMethods(builder, generate);
    case FormattableSection => thrown := FormattableWriters.WriteSection(builder, generate);
  }

  // ---------------------------------------------------------------- GetWriter

  /** `CanImplement(interfaceSymbol)` of each writer; the property and `ToString` writers are only ever
    * added by hand. */
  predicate CanImplement(kind: WriterKind, i: Generate.NamedType)
  {
    match kind
    case PropertyKind => false
    case ToStringKind => false
    case FormattableKind => FormattableWriters.CanImplement(i)
    case EquatableKind => EquatableWriters.CanImplement(i)
    case ComparableKind => ComparableWriters.CanImplement(i)
  }

  /** The static `_writers` list, in order. */
  const Writers: seq<WriterKind> := [FormattableKind, EquatableKind, ComparableKind]

  /** The first writer of `ws` that can implement `i`. */
  function FirstWriter(ws: seq<WriterKind>, i: Generate.NamedType): Option<WriterKind>
    decreases |ws|
  {
    if |ws| == 0 then None
    else if CanImplement(ws[0], i) then Some(ws[0])
    else FirstWriter(ws[1..], i)
  }

  /** The first-match search finds a writer that can implement the interface and that no earlier
    * writer precedes with the same ability; it finds none exactly when no writer can. */
  lemma {:induction false} FirstWriterIsFirst(ws: seq<WriterKind>, i: Generate.NamedType)
    decreases |ws|
    ensures FirstWriter(ws, i).None? <==> forall k :: 0 <= k < |ws| ==> !CanImplement(ws[k], i)
    ensures FirstWriter(ws, i).Some? ==>
      exists k :: 0 <= k < |ws| && ws[k] == FirstWriter(ws, i).value && CanImplement(ws[k], i) &&
        forall j :: 0 <= j < k ==> !CanImplement(ws[j], i)
  {
    if |ws| > 0 && !CanImplement(ws[0], i) {
      FirstWriterIsFirst(ws[1..], i);
      assert forall k :: 1 <= k < |ws| ==> ws[k] == ws[1..][k - 1];
      if FirstWriter(ws, i).Some? {
        var k :| 0 <= k < |ws[1..]| && ws[1..][k] == FirstWriter(ws, i).value &&
          CanImplement(ws[1..][k], i) && forall j :: 0 <= j < k ==> !CanImplement(ws[1..][j], i);
        assert forall j :: 1 <= j < k + 1 ==> ws[j] == ws[1..][j - 1];
        assert ws[k + 1] == FirstWriter(ws, i).value;
      }
    }
  }

  /** `GetWriter(interfaceSymbol)`: the `foreach` over the list, returning the first writer that can
    * implement the interface, or null. */
  method GetWriter(i: Generate.NamedType) returns (r: Option<WriterKind>)
    ensures r == FirstWriter(Writers, i)
  {
    var ws := Writers;
    var k := 0;
    while k < |ws|
      invariant 0 <= k <= |ws|
      invariant FirstWriter(ws, i) == FirstWriter(ws[k..], i)
    {
      assert ws[k..][1..] == ws[k + 1..];
      if CanImplement(ws[k], i) {
        return Some(ws[k]);
      }
      k := k + 1;
    }
    return None;
  }

  /** The writer chosen for an interface: the `IFormattable` writer for that FQN; else the
    * `IEquatable<…>` writer or the `IComparable<…>` writer, whichever display form the interface has
    * (it cannot have both); else none. */
  lemma WriterChoice(i: Generate.NamedType)
    ensures FirstWriter(Writers, i) ==
      if FormattableWriters.CanImplement(i) then Some(FormattableKind)
      else if EquatableWriters.CanImplement(i) then Some(EquatableKind)
      else if ComparableWriters.CanImplement(i) then Some(ComparableKind)
      else None
    ensures !(EquatableWriters.CanImplement(i) && ComparableWriters.CanImplement(i))
  {
    assert Writers[1..] == [EquatableKind, ComparableKind] && Writers[1..][1..] == [ComparableKind];
    assert [ComparableKind][1..] == [];
    assert EquatableWriters.EquatableNameStart[8] == 'E' && ComparableWriters.ComparableNameStart[8] == 'C';
  }
}
