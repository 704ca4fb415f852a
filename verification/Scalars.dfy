/** The scalar types of protobuf under the names that schemas give them. */
module Scalars {
  import opened Prelude
  import opened Names
  import opened Messages

  const SCALARS := {
    "float", "double", "bool", "string", "bytes", "int32", "int64", "uint32", "uint64",
    "sint32", "sint64", "fixed32", "fixed64", "sfixed32", "sfixed64" }

  /** The platform's own names beside those of protobuf. */
  const ALIASES := map["ArrowTable" := "bytes", "Datetime" := "sint64", "Int" := "sint32", "Bigint" := "sint64"]

  /** How a schema writes the name of a protobuf scalar. */
  function Raised(name: string): string {
    if name == "" then "" else [ToUpper(name[0])] + name[1..]
  }

  lemma Capital(name: string, raised: string)
    requires |raised| == |name| > 0 && raised[0] == ToUpper(name[0])
    requires forall i | 1 <= i < |name| :: raised[i] == name[i]
    ensures Raised(name) == raised
  {
  }

  lemma RaisedPlain()
    ensures Raised("float") == "Float" && Raised("double") == "Double" && Raised("bool") == "Bool"
    ensures Raised("string") == "String" && Raised("bytes") == "Bytes"
  {
    Capital("float", "Float");
    Capital("double", "Double");
    Capital("bool", "Bool");
    Capital("string", "String");
    Capital("bytes", "Bytes");
  }

  lemma RaisedInts()
    ensures Raised("int32") == "Int32" && Raised("int64") == "Int64" && Raised("uint32") == "Uint32"
    ensures Raised("uint64") == "Uint64" && Raised("sint32") == "Sint32"
  {
    Capital("int32", "Int32");
    Capital("int64", "Int64");
    Capital("uint32", "Uint32");
    Capital("uint64", "Uint64");
    Capital("sint32", "Sint32");
  }

  lemma RaisedFixed()
    ensures Raised("sint64") == "Sint64" && Raised("fixed32") == "Fixed32" && Raised("fixed64") == "Fixed64"
    ensures Raised("sfixed32") == "Sfixed32" && Raised("sfixed64") == "Sfixed64"
  {
    Capital("sint64", "Sint64");
    Capital("fixed32", "Fixed32");
    Capital("fixed64", "Fixed64");
    Capital("sfixed32", "Sfixed32");
    Capital("sfixed64", "Sfixed64");
  }

  /** Every protobuf scalar is offered under its own name. */
  lemma ScalarsAreOffered(name: string)
    requires name in SCALARS
    ensures ScalarType(Raised(name)) == Some(name)
  {
    RaisedPlain();
    RaisedInts();
    RaisedFixed();
    hide Raised;
  }

  /** No other name is a scalar, and every scalar offered is one of protobuf's. */
  lemma ScalarsExactly(typeName: string)
    ensures ScalarType(typeName).Some? && typeName !in ALIASES ==>
      ScalarType(typeName).value in SCALARS && typeName == Raised(ScalarType(typeName).value)
    ensures typeName in ALIASES ==> ScalarType(typeName) == Some(ALIASES[typeName])
  {
    RaisedPlain();
    RaisedInts();
    RaisedFixed();
    hide Raised;
  }
}
