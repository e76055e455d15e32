/** The type of a cmake cache variable, as written after the colon in a `-D` option. */
module CmakeVariableTypes {
  import opened Wrappers
  import opened Text

  /** Boolean ON/OFF checkbox, file chooser, directory chooser, arbitrary string, and a
      variable with no GUI entry (kept for persistence). */
  datatype CmakeVariableType = BOOL | FILEPATH | PATH | STRING | INTERNAL

  /** Every variable type, in declaration order. */
  const AllTypes: seq<CmakeVariableType> := [BOOL, FILEPATH, PATH, STRING, INTERNAL]

  /** The type as a cmake command-line argument: a non-empty word of upper-case letters,
      so it needs no quoting and cannot run into the `:` before it or the `=` after it. */
  function CmakeArg(t: CmakeVariableType): (r: string)
    ensures r != []
    ensures forall i :: 0 <= i < |r| ==> IsUpper(r[i])
  {
    match t
    case BOOL => "BOOL"
    case FILEPATH => "FILEPATH"
    case PATH => "PATH"
    case STRING => "STRING"
    case INTERNAL => "INTERNAL"
  }

  /** The enum's own lookup by constant name; an unknown name is an error, here `None`.
      A name is found exactly when it is some type's argument, and then it is that type's. */
  function ValueOf(name: string): (r: Option<CmakeVariableType>)
    ensures r.Some? ==> CmakeArg(r.value) == name
    ensures r.None? ==> forall t :: CmakeArg(t) != name
  {
    if name == "BOOL" then Some(BOOL)
    else if name == "FILEPATH" then Some(FILEPATH)
    else if name == "PATH" then Some(PATH)
    else if name == "STRING" then Some(STRING)
    else if name == "INTERNAL" then Some(INTERNAL)
    else None
  }

  /** There are exactly five types, all different. */
  lemma AllTypesExact(t: CmakeVariableType)
    ensures t in AllTypes
    ensures |AllTypes| == 5
    ensures forall i, j :: 0 <= i < j < |AllTypes| ==> AllTypes[i] != AllTypes[j]
  {
  }

  /** The argument of each type is its own constant name: looking the argument up by name
      gives the type back. */
  lemma CmakeArgIsConstantName(t: CmakeVariableType)
    ensures ValueOf(CmakeArg(t)) == Some(t)
  {
  }

  /** Different types have different arguments. */
  lemma CmakeArgInjective(a: CmakeVariableType, b: CmakeVariableType)
    ensures CmakeArg(a) == CmakeArg(b) <==> a == b
  {
    CmakeArgIsConstantName(a);
    CmakeArgIsConstantName(b);
  }

  /** The arguments are the five cmake type keywords. */
  lemma CmakeArgKeywords()
    ensures CmakeArg(BOOL) == "BOOL" && CmakeArg(FILEPATH) == "FILEPATH" && CmakeArg(PATH) == "PATH"
    ensures CmakeArg(STRING) == "STRING" && CmakeArg(INTERNAL) == "INTERNAL"
  {
  }
}
