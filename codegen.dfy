/** `CodegenCPP`'s entry points for components, systems and messages: each
    yields one header file under a folder of its kind. */
module Codegen {
  import opened Schema
  import opened Names
  import opened SystemHeader

  /** `generateComponentHeader` and `generateMessageHeader`: the preamble, then the
      lines the class generator writes for the component or message class, given
      here as `classLines`. The schema only feeds those lines, so it is no argument. */
  function ClassHeader(classLines: seq<string>): seq<string>
  {
    HeaderPreamble + classLines
  }

  /** The whole of `generateSystemHeader` once its first part succeeded: that part's
      lines, the base class the class generator writes (`baseClassLines`), then the
      commented-out skeleton of the class the user implements (`implClassLines`). */
  function SystemHeaderLines(prefix: HeaderPrefix, baseClassLines: seq<string>,
                             implClassLines: seq<string>): seq<string>
  {
    prefix.contents + baseClassLines + ["", "/*", "// Implement this:"] + implClassLines + ["*/"]
  }

  /** The path of the header for a class `name + suffix` in `folder`. */
  function HeaderPath(folder: string, name: string, suffix: string): string
  {
    folder + FileNameOf(name + suffix) + ".h"
  }

  function GenerateComponent(component: ComponentSchema, classLines: seq<string>): CodeGenResult
  {
    [CodeGenFile(HeaderPath("components/", component.name, "Component"),
                 ClassHeader(classLines))]
  }

  /** The exception of `generateSystemHeader` propagates out of `generateSystem`. */
  function GenerateSystem(system: SystemSchema, baseClassLines: seq<string>,
                          implClassLines: seq<string>): Result<CodeGenResult>
  {
    match HeaderPrefixOf(system)
    case Failure(e) => Failure(e)
    case Success(prefix) => Success([SystemHeaderFile(system.name, prefix, baseClassLines, implClassLines)])
  }

  /** The file `generateSystem` returns once the header's first part succeeded. */
  function SystemHeaderFile(name: string, prefix: HeaderPrefix, baseClassLines: seq<string>,
                            implClassLines: seq<string>): CodeGenFile
  {
    CodeGenFile(HeaderPath("systems/", name, "System"),
                SystemHeaderLines(prefix, baseClassLines, implClassLines))
  }

  function GenerateMessage(message: MessageSchema, classLines: seq<string>): CodeGenResult
  {
    [CodeGenFile(HeaderPath("messages/", message.name, "Message"),
                 ClassHeader(classLines))]
  }

  lemma NoUpperConcat(a: string, b: string)
    requires NoUpper(a) && NoUpper(b)
    ensures NoUpper(a + b)
  {
    forall k | 0 <= k < |a + b|
      ensures !IsUpper((a + b)[k])
    {
      if k >= |a| {
        assert (a + b)[k] == b[k - |a|];
      }
    }
  }

  /** For a name `N` and a suffix such as `Component`, the header path is the
      folder, the file name of `N` and `_` (unless `N` is empty), the lower-cased
      suffix, and `.h`. */
  lemma HeaderPathShape(folder: string, name: string, suffix: string)
    requires |suffix| > 0 && IsUpper(suffix[0]) && NoUpper(suffix[1..])
    ensures HeaderPath(folder, name, suffix)
      == folder + (if name == [] then "" else FileNameOf(name) + "_")
         + [ToLowerChar(suffix[0])] + suffix[1..] + ".h"
  {
    FileNameWithSuffix(name, suffix);
    var stem := if name == [] then "" else FileNameOf(name) + "_";
    ConcatRegroup(folder, stem, [ToLowerChar(suffix[0])], suffix[1..], ".h");
  }

  lemma ConcatRegroup(a: string, b: string, c: string, d: string, e: string)
    ensures a + (b + c + d) + e == a + b + c + d + e
  {
  }

  /** A header path in a lower-case folder is lower case throughout. */
  lemma HeaderPathLowerCase(folder: string, name: string, suffix: string)
    requires NoUpper(folder)
    ensures NoUpper(HeaderPath(folder, name, suffix))
  {
    var fileName := FileNameOf(name + suffix);
    FileNameNoUpper(name + suffix);
    NoUpperConcat(folder, fileName);
    NoUpperConcat(folder + fileName, ".h");
  }

  /** One file, `components/<file name of the component>_component.h`, starting
      with the header preamble. */
  lemma ComponentFile(component: ComponentSchema, classLines: seq<string>)
    ensures var r := GenerateComponent(component, classLines);
      |r| == 1
      && r[0].fileName == "components/"
           + (if component.name == [] then "" else FileNameOf(component.name) + "_") + "component.h"
      && NoUpper(r[0].fileName)
      && r[0].fileContents[..4] == HeaderPreamble
  {
    HeaderPathShape("components/", component.name, "Component");
    HeaderPathLowerCase("components/", component.name, "Component");
  }

  /** One file, `messages/<file name of the message>_message.h`, starting with the
      header preamble. */
  lemma MessageFile(message: MessageSchema, classLines: seq<string>)
    ensures var r := GenerateMessage(message, classLines);
      |r| == 1
      && r[0].fileName == "messages/"
           + (if message.name == [] then "" else FileNameOf(message.name) + "_") + "message.h"
      && NoUpper(r[0].fileName)
      && r[0].fileContents[..4] == HeaderPreamble
  {
    HeaderPathShape("messages/", message.name, "Message");
    HeaderPathLowerCase("messages/", message.name, "Message");
  }

  /** `generateSystem` fails exactly when the header does, with its message. */
  lemma SystemFileFailure(system: SystemSchema, baseClassLines: seq<string>,
                          implClassLines: seq<string>)
    ensures var r := GenerateSystem(system, baseClassLines, implClassLines);
      (r.Failure? <==> system.methodKind == OtherMethod || system.strategy == OtherStrategy)
      && (r.Failure? ==> r.error == HeaderPrefixOf(system).error)
  {
    HeaderFailsOnlyWhenUnsupported(system);
  }

  /** The system's file is `systems/<file name of the system>_system.h`, in lower
      case; its lines start with the header's first part and end with the closing
      comment. */
  lemma SystemHeaderFileShape(name: string, prefix: HeaderPrefix, baseClassLines: seq<string>,
                              implClassLines: seq<string>)
    ensures var f := SystemHeaderFile(name, prefix, baseClassLines, implClassLines);
      f.fileName == "systems/" + (if name == [] then "" else FileNameOf(name) + "_") + "system.h"
      && NoUpper(f.fileName)
      && f.fileContents[..|prefix.contents|] == prefix.contents
      && f.fileContents[|f.fileContents| - 1] == "*/"
  {
    HeaderPathShape("systems/", name, "System");
    HeaderPathLowerCase("systems/", name, "System");
    var lines := SystemHeaderLines(prefix, baseClassLines, implClassLines);
    assert lines[..|prefix.contents|] == prefix.contents;
  }

  /** Otherwise it yields one file, built by `SystemHeaderFile` from the header's
      first part. */
  lemma SystemFile(system: SystemSchema, baseClassLines: seq<string>, implClassLines: seq<string>)
    requires HeaderPrefixOf(system).Success?
    ensures var r := GenerateSystem(system, baseClassLines, implClassLines);
      var prefix := HeaderPrefixOf(system).value;
      r.Success? && |r.value| == 1
      && r.value[0].fileName == "systems/"
           + (if system.name == [] then "" else FileNameOf(system.name) + "_") + "system.h"
      && NoUpper(r.value[0].fileName)
      && r.value[0].fileContents[..|prefix.contents|] == prefix.contents
      && r.value[0].fileContents[|r.value[0].fileContents| - 1] == "*/"
  {
    var prefix := HeaderPrefixOf(system).value;
    SystemHeaderFileShape(system.name, prefix, baseClassLines, implClassLines);
  }
}
