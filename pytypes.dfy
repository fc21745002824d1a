/** Result types of binary operations: a type is a base type name and an
    optional array size, and each operation has a table from the two operand
    base types to the result's base type. */
module PyTypes {
  import opened Wrappers

  /** A type as the type pass hands it around: base name and array spec. */
  datatype PyType = PyType(base: string, arraySpec: Option<int>)

  const NativeTypes: seq<string> := ["int", "float", "vec2", "vec3", "vec4", "mat4"]

  /** Operand base types to result base type, for one operation. */
  type OpMap = map<(string, string), string>

  /** Multiplication: scalars and matrices by themselves, and a matrix applied
      to a vector. */
  const MultMap: OpMap := map[
    ("int", "int") := "int",
    ("float", "float") := "float",
    ("mat4", "mat4") := "mat4",
    ("mat4", "vec4") := "vec4"
  ]

  /** The operations with a result table; only multiplication has one. */
  const BinopTypeMap: map<string, OpMap> := map["Mult" := MultMap]

  /** How a pair of base names prints in an error message. */
  function ComboRepr(combo: (string, string)): string {
    "('" + combo.0 + "', '" + combo.1 + "')"
  }

  /** The error for a pair of base types that `op`'s table lacks. */
  function UndefinedMessage(op: string, combo: (string, string)): string {
    "Operator " + op + " result not defined for operands " + ComboRepr(combo)
  }

  /** The result type of `op` applied to `t1` and `t2`: none when the array
      specs differ (checked before anything else), an error when `op` has no
      table or the table has no entry for the two base types, and otherwise
      the table's base type with the left operand's array spec. */
  function CombineBinary(op: string, t1: PyType, t2: PyType): (r: Result<Option<PyType>, string>)
    ensures t1.arraySpec != t2.arraySpec <==> r == Success(None)
    ensures r.Failure? <==>
              t1.arraySpec == t2.arraySpec && (op !in BinopTypeMap || (t1.base, t2.base) !in BinopTypeMap[op])
    ensures r.Success? && r.value.Some? ==>
              op in BinopTypeMap && (t1.base, t2.base) in BinopTypeMap[op]
              && r.value.value == PyType(BinopTypeMap[op][(t1.base, t2.base)], t1.arraySpec)
  {
    if t1.arraySpec != t2.arraySpec then Success(None)
    else if op !in BinopTypeMap then Failure("Type result not defined for operation: " + op)
    else
      var opmap := BinopTypeMap[op];
      var combo := (t1.base, t2.base);
      if combo !in opmap then
        Failure(UndefinedMessage(op, combo))
      else Success(Some(PyType(opmap[combo], t1.arraySpec)))
  }

  /** The four products the table defines, for any common array spec. */
  lemma MultResults(spec: Option<int>)
    ensures CombineBinary("Mult", PyType("int", spec), PyType("int", spec)) == Success(Some(PyType("int", spec)))
    ensures CombineBinary("Mult", PyType("float", spec), PyType("float", spec)) == Success(Some(PyType("float", spec)))
    ensures CombineBinary("Mult", PyType("mat4", spec), PyType("mat4", spec)) == Success(Some(PyType("mat4", spec)))
    ensures CombineBinary("Mult", PyType("mat4", spec), PyType("vec4", spec)) == Success(Some(PyType("vec4", spec)))
  {
  }

  /** Every operation but multiplication fails on operands of one array
      spec, naming the operation. */
  lemma OnlyMultTyped(op: string, t1: PyType, t2: PyType)
    requires op != "Mult" && t1.arraySpec == t2.arraySpec
    ensures CombineBinary(op, t1, t2) == Failure("Type result not defined for operation: " + op)
  {
  }

  /** A product the table lacks fails with a message naming the operation
      and the operands, left first. */
  lemma MultUndefined(t1: PyType, t2: PyType)
    requires t1.arraySpec == t2.arraySpec && (t1.base, t2.base) !in MultMap
    ensures CombineBinary("Mult", t1, t2) == Failure(UndefinedMessage("Mult", (t1.base, t2.base)))
  {
  }

  /** The table is not symmetric: a vector times a matrix has no type. */
  lemma VectorTimesMatrix(spec: Option<int>)
    ensures CombineBinary("Mult", PyType("vec4", spec), PyType("mat4", spec)).Failure?
  {
  }

  /** Every result of the table is one of the native types, and so is every
      operand base type it accepts. */
  lemma CombineNative(op: string, t1: PyType, t2: PyType)
    requires CombineBinary(op, t1, t2).Success? && CombineBinary(op, t1, t2).value.Some?
    ensures CombineBinary(op, t1, t2).value.value.base in NativeTypes
    ensures t1.base in NativeTypes && t2.base in NativeTypes
  {
    var combo := (t1.base, t2.base);
    assert op == "Mult" && combo in MultMap;
    assert combo == ("int", "int") || combo == ("float", "float")
        || combo == ("mat4", "mat4") || combo == ("mat4", "vec4");
  }
}
