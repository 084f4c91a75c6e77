/** The schema records the C++ code generator reads, and the files it writes. */
module Schema {

  /** A value, or the message of the exception the generator would throw. */
  datatype Result<T> = Success(value: T) | Failure(error: string)

  datatype ComponentSchema = ComponentSchema(id: int, name: string)

  datatype MessageSchema = MessageSchema(id: int, name: string)

  /** A component named by a family of a system. */
  datatype ComponentReferenceSchema = ComponentReferenceSchema(name: string)

  datatype FamilySchema = FamilySchema(name: string, components: seq<ComponentReferenceSchema>)

  /** A message a system sends, receives, or both. */
  datatype MessageReferenceSchema = MessageReferenceSchema(name: string, send: bool, receive: bool)

  /** Which entry point a system implements; any other value is rejected by the generator. */
  datatype SystemMethod = Update | Render | OtherMethod

  /** How a system visits its main family; any other value is rejected by the generator. */
  datatype SystemStrategy = Global | Individual | Parallel | OtherStrategy

  datatype SystemSchema = SystemSchema(
    name: string,
    methodKind: SystemMethod,
    strategy: SystemStrategy,
    families: seq<FamilySchema>,
    messages: seq<MessageReferenceSchema>)

  /** A parameter or member declaration handed to the class generator: its type and its name. */
  datatype VariableSchema = VariableSchema(typeName: string, name: string)

  /** One generated file: its path relative to the output folder, and its lines. */
  datatype CodeGenFile = CodeGenFile(fileName: string, fileContents: seq<string>)

  type CodeGenResult = seq<CodeGenFile>

  /** The four lines every generated header starts with. */
  const HeaderPreamble: seq<string> := ["#pragma once", "", "#include <halley.hpp>", ""]
}
