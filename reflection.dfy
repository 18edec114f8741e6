/** The host runtime's reflection, which the scanners only consult.
    Types and assemblies are opaque handles; every question the scanners ask
    about them is a field of `Runtime`, so that nothing is assumed about the
    type hierarchy beyond what a particular runtime value says. */
module Reflection {

  /** A loaded type (`System.Type`), identified by an opaque handle. */
  datatype Type = Type(handle: nat)

  /** A loaded assembly (`System.Reflection.Assembly`), identified by an opaque handle. */
  datatype Assembly = Assembly(handle: nat)

  /** The reflection primitives the scanners call. */
  datatype Runtime = Runtime(
    getTypes: Assembly -> seq<Type>,           // Assembly.GetTypes()
    assemblyOf: Type -> Assembly,              // Type.Assembly
    isAssignableFrom: (Type, Type) -> bool,    // target.IsAssignableFrom(candidate)
    isClass: Type -> bool,                     // Type.IsClass
    isAbstract: Type -> bool,                  // Type.IsAbstract
    getInterfaces: Type -> seq<Type>,          // Type.GetInterfaces()
    fullName: Type -> string)                  // Type.FullName

  /** `s.StartsWith(prefix)`, compared character by character: `s` is
      `prefix` followed by the rest of `s`. */
  function StartsWith(s: string, prefix: string): (r: bool)
    ensures r <==> |prefix| <= |s| && forall k :: 0 <= k < |prefix| ==> s[k] == prefix[k]
    ensures r ==> s == prefix + s[|prefix|..]
  {
    |prefix| <= |s| && s[..|prefix|] == prefix
  }
}
