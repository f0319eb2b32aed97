/**
 * Core/Extensions/VariableNamingExtensions.cs: local-variable names derived from
 * type names and member names, escaped with `@` when the compiler would not accept
 * them as identifiers.
 */
module Naming {
  import opened Numbers
  import CharClass
  import Strings
  import TextHelper

  /**
   * The compiler's identifier rule and keyword table (`SyntaxFacts.IsValidIdentifier`
   * and the text of every keyword kind), supplied by the host.
   */
  datatype CSharpSyntax = CSharpSyntax(isValidIdentifier: string -> bool, keywords: set<string>)

  /** A name must be escaped when it is not a valid identifier or is a keyword. */
  predicate NeedsEscape(syntax: CSharpSyntax, name: string)
  {
    !syntax.isValidIdentifier(name) || name in syntax.keywords
  }

  /** `$"@{name}"` when the name needs escaping, the name itself otherwise. */
  function Escaped(syntax: CSharpSyntax, name: string): (r: string)
    ensures |r| == |name| + (if NeedsEscape(syntax, name) then 1 else 0)
    ensures r[|r| - |name|..] == name
    ensures NeedsEscape(syntax, name) ==> r[0] == '@'
  {
    if NeedsEscape(syntax, name) then "@" + name else name
  }

  /** Every character lowered. */
  function LowerAll(s: string): (r: string)
    ensures |r| == |s|
    ensures forall i :: 0 <= i < |s| ==> r[i] == CharClass.ToLower(s[i])
  {
    seq(|s|, i requires 0 <= i < |s| => CharClass.ToLower(s[i]))
  }

  predicate NotLower(ch: char)
  {
    !CharClass.IsLower(ch)
  }

  /** The camel-case name of a non-empty name: its first character lowered, the rest kept. */
  function CamelCase(name: string): (r: string)
    requires |name| > 0
  {
    [CharClass.ToLower(name[0])] + name[1..]
  }

  /** The variable name of a type name, before escaping. */
  function TypeVariableName(typeName: string): (r: string)
    requires |typeName| > 0
  {
    if !CharClass.IsUpper(typeName[0]) then typeName
    else if typeName[0] == 'I' then
      var k := 1 + Strings.LeadingCount(typeName[1..], NotLower);
      "i" + LowerAll(typeName[1..k]) + typeName[k..]
    else CamelCase(typeName)
  }

  /**
   * A name that does not start with an upper-case letter is kept; `I` followed by
   * a run of non-lower-case characters has the whole run lowered (`IXyz` becomes
   * `ixyz`, `IList` becomes `ilist`); any other upper-case start has only its first
   * character lowered.  The length never changes.
   */
  lemma TypeVariableNameCases(typeName: string)
    requires |typeName| > 0
    ensures var r := TypeVariableName(typeName);
      |r| == |typeName| &&
      (!CharClass.IsUpper(typeName[0]) ==> r == typeName) &&
      (CharClass.IsUpper(typeName[0]) && typeName[0] != 'I' ==>
        r[0] == CharClass.ToLower(typeName[0]) && r[1..] == typeName[1..]) &&
      (typeName[0] == 'I' ==>
        var k := 1 + Strings.LeadingCount(typeName[1..], NotLower);
        r[0] == 'i' &&
        (forall j :: 1 <= j < k ==> !CharClass.IsLower(typeName[j]) && r[j] == CharClass.ToLower(typeName[j])) &&
        (k < |typeName| ==> CharClass.IsLower(typeName[k])) &&
        r[k..] == typeName[k..])
  {
    if typeName[0] == 'I' {
      var k := 1 + Strings.LeadingCount(typeName[1..], NotLower);
      var r := TypeVariableName(typeName);
      assert r == "i" + LowerAll(typeName[1..k]) + typeName[k..];
      forall j | 1 <= j < k
        ensures !CharClass.IsLower(typeName[j]) && r[j] == CharClass.ToLower(typeName[j])
      {
        assert typeName[1..][j - 1] == typeName[j];
      }
      if k < |typeName| {
        assert typeName[1..][k - 1] == typeName[k];
      }
    }
  }

  // ---------------------------------------------------------------------------
  // Decimal text of the counter.
  // ---------------------------------------------------------------------------

  function DigitChar(d: nat): (r: char)
    requires d < 10
    ensures CharClass.IsAsciiDigit(r)
  {
    CharClass.AsciiDigitRange((d + '0' as int) as char);
    (d + '0' as int) as char
  }

  /** The decimal digits of `n`, without leading zeros. */
  function NatToString(n: nat): (r: string)
    ensures |r| > 0 && CharClass.IsAsciiDigit(r[0])
    ensures |r| == 1 <==> n < 10
  {
    if n < 10 then [DigitChar(n)] else NatToString(n / 10) + [DigitChar(n % 10)]
  }

  /** `int.ToString()` (invariant culture): a minus sign before a negative value. */
  function IntToString(n: int): string
  {
    if n < 0 then "-" + NatToString(-n) else NatToString(n)
  }

  lemma {:induction false} NatToStringInjective(a: nat, b: nat)
    requires NatToString(a) == NatToString(b)
    ensures a == b
  {
    var s := NatToString(a);
    if a >= 10 && b >= 10 {
      assert NatToString(a / 10) == s[..|s| - 1] == NatToString(b / 10);
      NatToStringInjective(a / 10, b / 10);
      assert DigitChar(a % 10) == s[|s| - 1] == DigitChar(b % 10);
    }
  }

  /** Different counter values give different names. */
  lemma IntToStringInjective(a: int, b: int)
    requires IntToString(a) == IntToString(b)
    ensures a == b
  {
    var s := IntToString(a);
    if a < 0 && b < 0 {
      assert NatToString(-a) == s[1..] == NatToString(-b);
      NatToStringInjective(-a, -b);
    } else if a >= 0 && b >= 0 {
      NatToStringInjective(a, b);
    } else if a < 0 {
      assert s[0] == '-';
      assert CharClass.IsAsciiDigit(NatToString(b)[0]);
      CharClass.AsciiDigitRange(s[0]);
    } else {
      assert s[0] == '-';
      assert CharClass.IsAsciiDigit(NatToString(a)[0]);
      CharClass.AsciiDigitRange(s[0]);
    }
  }

  // ---------------------------------------------------------------------------
  // The extension methods.
  // ---------------------------------------------------------------------------

  /** The static `_counter` behind the names given to nameless types. */
  class VariableNaming {
    const syntax: CSharpSyntax
    var counter: Int32

    constructor(syntax: CSharpSyntax)
      ensures this.syntax == syntax && counter == 0
    {
      this.syntax := syntax;
      counter := 0;
    }

    /**
     * `GetVariableName(ITypeSymbol)` of a type with the given name.  A nameless
     * type gets `__` and the incremented (wrapping) counter, so successive calls
     * never repeat a name until the counter wraps; any other name is
     * `TypeVariableName`, escaped.
     */
    method GetVariableName(typeName: string) returns (r: string)
      modifies this
      ensures |typeName| == 0 ==> counter == Wrap32(old(counter) + 1) && r == "__" + IntToString(counter)
      ensures |typeName| > 0 ==> counter == old(counter) && r == Escaped(syntax, TypeVariableName(typeName))
    {
      var typeNameLen := |typeName|;
      if typeNameLen == 0 {
        counter := Wrap32(counter + 1);
        return "__" + IntToString(counter);
      }
      var varName := FillVariableName(typeName);
      r := if NeedsEscape(syntax, varName) then "@" + varName else varName;
      assert r == Escaped(syntax, varName);
    }
  }

  /** The `stackalloc` buffer of `GetVariableName`, filled from a non-empty type name. */
  method FillVariableName(typeName: string) returns (varName: string)
    requires |typeName| > 0
    ensures varName == TypeVariableName(typeName)
  {
    var typeNameLen := |typeName|;
    var ch := typeName[0];
    if CharClass.IsUpper(ch) {
      var buffer := new char[typeNameLen];
      if ch == 'I' {
        FillInterfaceName(typeName, buffer);
      } else {
        buffer[0] := CharClass.ToLower(ch);
        TextHelper.CopyBlock(typeName[1..], buffer, 1, typeNameLen - 1);
        assert buffer[..] == buffer[..1] + buffer[1..typeNameLen];
      }
      varName := buffer[..];
    } else {
      varName := typeName;
    }
  }

  /** The `I` branch: `i`, then the run of non-lower-case characters lowered, then the rest copied. */
  method FillInterfaceName(typeName: string, buffer: array<char>)
    requires |typeName| > 0 && typeName[0] == 'I' && buffer.Length == |typeName|
    modifies buffer
    ensures buffer[..] == TypeVariableName(typeName)
  {
    var typeNameLen := |typeName|;
    var n := LowerInterfaceRun(typeName, buffer);
    var b := n;
    var prefix := buffer[..b];
    if n < typeNameLen {
      TextHelper.CopyBlock(typeName[n..], buffer, b, typeNameLen - n);
      assert buffer[b..typeNameLen] == typeName[n..];
      assert buffer[..] == buffer[..b] + buffer[b..typeNameLen];
    } else {
      assert buffer[..] == buffer[..b];
    }
  }

  /** The scan of the `I` branch: writes `i` and the lowered run, and returns where the run ends. */
  method LowerInterfaceRun(typeName: string, buffer: array<char>) returns (n: nat)
    requires |typeName| > 0 && typeName[0] == 'I' && buffer.Length == |typeName|
    modifies buffer
    ensures n == 1 + Strings.LeadingCount(typeName[1..], NotLower)
    ensures buffer[..n] == "i" + LowerAll(typeName[1..n])
  {
    var typeNameLen := |typeName|;
    n := 1;
    var b := 0;
    buffer[b] := 'i';
    b := b + 1;
    while n < typeNameLen
      invariant 1 <= n <= typeNameLen && b == n
      invariant buffer[..b] == "i" + LowerAll(typeName[1..n])
      invariant forall j :: 0 <= j < n - 1 ==> NotLower(typeName[1..][j])
    {
      var ch := typeName[n];
      if CharClass.IsLower(ch) {
        break;
      }
      assert LowerAll(typeName[1..n + 1]) == LowerAll(typeName[1..n]) + [CharClass.ToLower(ch)];
      buffer[b] := CharClass.ToLower(ch);
      b := b + 1;
      n := n + 1;
    }
    InterfaceRunEnds(typeName, n);
  }

  /** Where the scan of the `I` branch stops, the leading run of non-lower-case characters ends. */
  lemma InterfaceRunEnds(typeName: string, n: nat)
    requires 1 <= n <= |typeName|
    requires forall j :: 0 <= j < n - 1 ==> NotLower(typeName[1..][j])
    requires n == |typeName| || CharClass.IsLower(typeName[n])
    ensures 1 + Strings.LeadingCount(typeName[1..], NotLower) == n
  {
    if n < |typeName| {
      assert typeName[1..][n - 1] == typeName[n];
    }
    Strings.LeadingCountAt(typeName[1..], NotLower, n - 1);
  }

  /** `ToVariableName(name)`: `_` for an empty name, else the camel-case name, escaped. */
  method ToVariableName(syntax: CSharpSyntax, name: string) returns (r: string)
    ensures r == VariableNameOf(syntax, name)
  {
    var nameLen := |name|;
    if nameLen == 0 {
      return "_";
    }
    var buffer := new char[nameLen];
    buffer[0] := CharClass.ToLower(name[0]);
    TextHelper.CopyBlock(name[1..], buffer, 1, nameLen - 1);
    assert buffer[..] == CamelCase(name);
    var varName := buffer[..];
    if NeedsEscape(syntax, varName) {
      return "@" + varName;
    }
    return varName;
  }

  /** The name `ToVariableName` returns: `_` for an empty name, else the camel-case name, escaped. */
  function VariableNameOf(syntax: CSharpSyntax, name: string): (r: string)
    ensures |name| == 0 ==> r == "_"
    ensures |name| > 0 ==> |r| == |name| + (if NeedsEscape(syntax, CamelCase(name)) then 1 else 0)
    ensures |name| > 0 ==> var c := |r| - |name|; r[c] == CharClass.ToLower(name[0]) && r[c + 1..] == name[1..]
    ensures |name| > 0 && NeedsEscape(syntax, CamelCase(name)) ==> r[0] == '@'
  {
    if |name| == 0 then "_" else Escaped(syntax, CamelCase(name))
  }
}
