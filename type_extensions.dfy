// TypeExtensions.GetPrettyTypeName: a readable name for a runtime type, writing generic
// arguments the way C# source does ("Dictionary<String, List<Int32>>").
module TypeExtensions {
  import opened Wrappers
  import opened Text

  /**
   * A runtime type as GetPrettyTypeName sees it: a non-generic type, a constructed generic
   * type with its type arguments, or a generic type definition with its number of type
   * parameters. `name` is Type.Name, which for a generic type carries a backtick and the
   * parameter count ("List`1").
   */
  datatype Type =
    | Plain(name: string)
    | Constructed(name: string, arguments: seq<Type>)
    | Definition(name: string, parameterCount: nat)

  /** string.Substring with a negative length throws ArgumentOutOfRangeException. */
  datatype TypeNameError = ArgumentOutOfRange

  /** The name up to its first backtick; a name without one makes Substring(0, -1) throw. */
  function RootTypeName(name: string): (r: Result<string, TypeNameError>)
    ensures r.Failure? <==> forall j :: 0 <= j < |name| ==> name[j] != '`'
    ensures r.Success? ==>
      |r.value| < |name| && name[|r.value|] == '`' && r.value == name[..|r.value|] &&
      forall j :: 0 <= j < |r.value| ==> r.value[j] != '`'
  {
    match IndexOf(name, "`", 0)
    case None =>
      assert forall j :: 0 <= j < |name| ==> name[j] != '`' by {
        forall j | 0 <= j < |name| ensures name[j] != '`' {
          assert !OccursAt(name, "`", j);
          assert name[j..j + 1] == [name[j]];
        }
      }
      Failure(ArgumentOutOfRange)
    case Some(i) =>
      assert OccursAt(name, "`", i) && name[i..i + 1] == [name[i]];
      assert forall j :: 0 <= j < i ==> name[j] != '`' by {
        forall j | 0 <= j < i ensures name[j] != '`' {
          assert !OccursAt(name, "`", j);
          assert name[j..j + 1] == [name[j]];
        }
      }
      Success(name[..i])
  }

  /** The pretty name of a type. */
  function GetPrettyTypeName(t: Type): (r: Result<string, TypeNameError>)
    decreases t, 1
  {
    match t
    case Plain(name) => Success(name)
    case Constructed(name, arguments) =>
      var root :- RootTypeName(name);
      var names :- PrettyNames(arguments);
      Success(root + "<" + Join(", ", names) + ">")
    case Definition(name, n) =>
      var root :- RootTypeName(name);
      Success(root + "<" + Join(",", seq(n, _ => "")) + ">")
  }

  /** The pretty names of type arguments, in order; the first failure is the result. */
  function PrettyNames(arguments: seq<Type>): (r: Result<seq<string>, TypeNameError>)
    ensures r.Success? ==> |r.value| == |arguments|
    decreases arguments, 0
  {
    if arguments == [] then Success([])
    else
      var first :- GetPrettyTypeName(arguments[0]);
      var rest :- PrettyNames(arguments[1..]);
      Success([first] + rest)
  }

  /** Every generic type in the tree has a backtick in its name. */
  predicate WellNamed(t: Type)
    decreases t, 1
  {
    match t
    case Plain(_) => true
    case Constructed(name, arguments) => HasBacktick(name) && AllWellNamed(arguments)
    case Definition(name, _) => HasBacktick(name)
  }

  predicate AllWellNamed(arguments: seq<Type>)
    decreases arguments, 0
  {
    arguments == [] || (WellNamed(arguments[0]) && AllWellNamed(arguments[1..]))
  }

  predicate HasBacktick(name: string)
  {
    exists j :: 0 <= j < |name| && name[j] == '`'
  }

  /** The pretty name exists exactly when every generic type in the tree has a backtick. */
  lemma {:induction false} PrettyNameDefinedIffWellNamed(t: Type)
    ensures GetPrettyTypeName(t).Success? <==> WellNamed(t)
    decreases t, 1
  {
    match t
    case Plain(_) =>
    case Constructed(name, arguments) =>
      PrettyNamesDefinedIffWellNamed(arguments);
    case Definition(name, _) =>
  }

  lemma {:induction false} PrettyNamesDefinedIffWellNamed(arguments: seq<Type>)
    ensures PrettyNames(arguments).Success? <==> AllWellNamed(arguments)
    decreases arguments, 0
  {
    if arguments != [] {
      PrettyNameDefinedIffWellNamed(arguments[0]);
      PrettyNamesDefinedIffWellNamed(arguments[1..]);
    }
  }

  /** A non-generic type is written as its Name. */
  lemma PlainName(name: string)
    ensures GetPrettyTypeName(Plain(name)) == Success(name)
  {
  }

  function Commas(n: nat): (s: string)
    ensures |s| == n && forall i :: 0 <= i < n ==> s[i] == ','
  {
    if n == 0 then "" else Commas(n - 1) + ","
  }

  /** Joining n empty strings with "," gives n - 1 commas. */
  lemma {:induction false} JoinEmpties(n: nat)
    requires n >= 1
    ensures Join(",", seq(n, _ => "")) == Commas(n - 1)
  {
    if n > 1 {
      JoinEmpties(n - 1);
      var parts := seq(n, _ => "");
      assert parts[..n - 1] == seq(n - 1, _ => "");
    }
  }

  /** A generic type definition with n >= 1 parameters is written as its root, then '<', n - 1 commas, '>'. */
  lemma DefinitionName(name: string, root: string, n: nat)
    requires n >= 1 && RootTypeName(name) == Success(root)
    ensures GetPrettyTypeName(Definition(name, n)) == Success(root + "<" + Commas(n - 1) + ">")
  {
    JoinEmpties(n);
  }

  /**
   * A constructed generic type is written as its root, '<', its arguments' pretty names
   * joined by ", ", then '>'; the root never contains a backtick.
   */
  lemma ConstructedName(name: string, arguments: seq<Type>)
    requires HasBacktick(name) && AllWellNamed(arguments)
    ensures PrettyNames(arguments).Success?
    ensures forall j :: 0 <= j < |arguments| ==> GetPrettyTypeName(arguments[j]).Success?
    ensures GetPrettyTypeName(Constructed(name, arguments)).Success?
    ensures var s := GetPrettyTypeName(Constructed(name, arguments)).value;
      var root := RootTypeName(name).value;
      s == root + "<" + Join(", ", PrettyNames(arguments).value) + ">" &&
      (forall j :: 0 <= j < |root| ==> root[j] != '`') &&
      forall j :: 0 <= j < |arguments| ==> PrettyNames(arguments).value[j] == GetPrettyTypeName(arguments[j]).value
  {
    PrettyNamesDefinedIffWellNamed(arguments);
    PrettyNamesPointwise(arguments);
  }

  /** The i-th pretty name is the pretty name of the i-th argument. */
  lemma {:induction false} PrettyNamesPointwise(arguments: seq<Type>)
    requires PrettyNames(arguments).Success?
    ensures forall j :: 0 <= j < |arguments| ==>
      GetPrettyTypeName(arguments[j]).Success? && PrettyNames(arguments).value[j] == GetPrettyTypeName(arguments[j]).value
  {
    if arguments != [] {
      PrettyNamesPointwise(arguments[1..]);
      forall j | 0 <= j < |arguments|
        ensures GetPrettyTypeName(arguments[j]).Success?
        ensures PrettyNames(arguments).value[j] == GetPrettyTypeName(arguments[j]).value
      {
        if j > 0 {
          assert arguments[j] == arguments[1..][j - 1];
        }
      }
    }
  }
}
