# Halley C++ code generator, modelled in Dafny

This project models the core of Halley's C++ code generator
(`CodegenCPP`, in `halley/tools/src/codegen/cpp/codegen_cpp.cpp`). The generator
reads schema records for components, systems and messages. It writes header
files for them and a registry of system factories. Each output file is a path
plus a list of lines.

What is modelled:

- **Name helpers** (module `Names`).
  - `toFileName` turns a CamelCase class name into a snake_case file name. It is a loop method, `ToFileName`, proved against the function `FileNameOf`.
  - `upperFirst` and `lowerFirst` are functions.
- **`convert`** (module `Sequences`). The loop method `Convert` is proved against `MapSeq`.
- **Component-include deduplication** (module `Sequences`). The `included` set keeps the first occurrence of each component name. `Dedup` models this.
- **`generateRegistry`** (module `Registry`). It produces the `registry.cpp` and `registry.h` lines.
- **The self-contained part of `generateSystemHeader`** (module `SystemHeader`). This is the method/strategy selection, the include block and the `msgsReceived` list. The loop methods are proved against the function `HeaderPrefixOf`.
- **`generateComponent`, `generateSystem`, `generateMessage`** (module `Codegen`), including the fixed preamble of each generated header.

The generator throws an exception for an unsupported method or strategy. The
model returns `Failure` with the same message text instead.

## Model

| member | source | states |
|---|---|---|
| `Names.ToFileName` | halley/tools/src/codegen/cpp/codegen_cpp.cpp:9-23 | The loop that appends to the string stream yields exactly `FileNameOf(className)`. |
| `Names.FileNameLength` | halley/tools/src/codegen/cpp/codegen_cpp.cpp:12-21 | The file name is as long as the class name plus one `_` for each capital at an index above zero. |
| `Names.FileNameNoUpper` | halley/tools/src/codegen/cpp/codegen_cpp.cpp:13-17 | No character of a file name is in 'A'..'Z'. |
| `Names.FileNameCharAt` | halley/tools/src/codegen/cpp/codegen_cpp.cpp:12-20 | The character at index i lands after i characters plus the underscores inserted so far. There it is unchanged, or lowered with `+ 32` if it was a capital. A capital at index > 0 is preceded by `_`. A capital at index 0 gets no `_`. |
| `Names.FileNameOfPlain` | halley/tools/src/codegen/cpp/codegen_cpp.cpp:18-19 | A name with no capitals is copied unchanged. |
| `Names.FileNameIdempotent` | halley/tools/src/codegen/cpp/codegen_cpp.cpp:9-23 | Applying `toFileName` twice gives the same result as applying it once. |
| `Names.FileNameAppendPlain` | halley/tools/src/codegen/cpp/codegen_cpp.cpp:18-19 | Appending text without capitals to a class name appends it unchanged to the file name. |
| `Names.FileNameWithSuffix` | halley/tools/src/codegen/cpp/codegen_cpp.cpp:14-17 | For a name plus a capitalised suffix such as `Component`, the result is the stem's file name, then `_` unless the stem is empty, then the suffix in lower case. |
| `Names.UpperFirst` | halley/tools/src/codegen/cpp/codegen_cpp.cpp:25-31 | The length is unchanged and only the first character may change. A small first letter becomes its capital (its code minus 32). A name whose first character is not a small letter is returned unchanged. So afterwards the first character is never a small letter. |
| `Names.LowerFirst` | halley/tools/src/codegen/cpp/codegen_cpp.cpp:33-39 | The length is unchanged and only the first character may change. A capital first letter becomes its small letter (its code plus 32). A name whose first character is not a capital is returned unchanged. So afterwards the first character is never a capital. |
| `Names.UpperFirstIdempotent` | halley/tools/src/codegen/cpp/codegen_cpp.cpp:25-31 | `upperFirst` applied twice equals `upperFirst` applied once. |
| `Names.LowerFirstIdempotent` | halley/tools/src/codegen/cpp/codegen_cpp.cpp:33-39 | `lowerFirst` applied twice equals `lowerFirst` applied once. |
| `Names.CaseRoundTrip` | halley/tools/src/codegen/cpp/codegen_cpp.cpp:25-39 | `lowerFirst(upperFirst(s)) == s` when s starts with a small letter, and `upperFirst(lowerFirst(s)) == s` when s starts with a capital. |
| `Sequences.MapSeq` | halley/tools/src/codegen/cpp/codegen_cpp.cpp:145-155 | The result has the input's length, and its i-th element is `f(in[i])`. |
| `Sequences.Convert` | halley/tools/src/codegen/cpp/codegen_cpp.cpp:145-155 | The reserve-then-append loop returns `MapSeq(in, f)`. |
| `Sequences.DedupElements` | halley/tools/src/codegen/cpp/codegen_cpp.cpp:195-203 | Deduplication keeps exactly the names that occur in the input. |
| `Sequences.DedupDistinct` | halley/tools/src/codegen/cpp/codegen_cpp.cpp:195-203 | No name is kept twice. |
| `Sequences.DedupFirstOccurrenceOrder` | halley/tools/src/codegen/cpp/codegen_cpp.cpp:195-203 | Kept names appear in the order of their first occurrences in the input. |
| `Registry.GenerateRegistry` | halley/tools/src/codegen/cpp/codegen_cpp.cpp:68-118 | Returns exactly two files, `registry.cpp` then `registry.h`. The first holds the fixed blocks with one declaration per system and one map entry per system. The second holds the five fixed lines. |
| `Registry.RegistryCppLayout` | halley/tools/src/codegen/cpp/codegen_cpp.cpp:70-105 | With n systems, `registry.cpp` has 20 + 2n lines. Line 4+i declares the factory of system i, and line 11+n+i is its map entry. |
| `Registry.RegistryCppSections` | halley/tools/src/codegen/cpp/codegen_cpp.cpp:77-93 | With n systems, the factory declarations are exactly lines 4..4+n, and the map entries are exactly lines 11+n..11+2n. So every declaration comes before the map-building block, and there is one of each per system. |
| `SystemHeader.AddFamilyIncludes` | halley/tools/src/codegen/cpp/codegen_cpp.cpp:197-202 | The inner loop extends the include lines to those of the deduplicated names seen so far. It keeps `included` equal to the set of names seen. |
| `SystemHeader.ComponentIncludes` | halley/tools/src/codegen/cpp/codegen_cpp.cpp:194-203 | The nested loops emit one component include per distinct component name of all families, in first-occurrence order. |
| `SystemHeader.MessageIncludes` | halley/tools/src/codegen/cpp/codegen_cpp.cpp:204-206 | One message include is emitted per message, in list order, without deduplication. |
| `SystemHeader.ReceivedIndices` | halley/tools/src/codegen/cpp/codegen_cpp.cpp:239-249 | Returns `<Name>Message::messageIndex` for each receiving message, in list order. |
| `SystemHeader.GenerateHeaderPrefix` | halley/tools/src/codegen/cpp/codegen_cpp.cpp:159-212 | The imperative first part of `generateSystemHeader` returns exactly `HeaderPrefixOf(system)`. |
| `SystemHeader.HeaderFailsOnlyWhenUnsupported` | halley/tools/src/codegen/cpp/codegen_cpp.cpp:159-185 | The header fails if and only if the method is neither Update nor Render, or the strategy is not Global, Individual or Parallel. The method is checked first. Each failure carries its "Unsupported … in <Name>System" message. |
| `SystemHeader.EntryPointArguments` | halley/tools/src/codegen/cpp/codegen_cpp.cpp:159-185 | Update selects the non-const method `update` taking `Halley::Time`, and Render the const method `render` taking `Halley::Painter&`. Individual and Parallel add exactly one argument, `MainFamily& entity`, after `p`. Global adds none. The strategy line is `static_cast<T*>(this)->` plus the method name plus `(p);` for Global. For Individual it is `invokeIndividual(static_cast<T*>(this), &T::` plus the method name plus `, p, mainFamily);`, and Parallel has the same shape with `invokeParallel`. |
| `SystemHeader.ComponentNamesMembership` | halley/tools/src/codegen/cpp/codegen_cpp.cpp:196-197 | A name is among the flattened component names if and only if some family lists it. |
| `SystemHeader.HeaderIncludes` | halley/tools/src/codegen/cpp/codegen_cpp.cpp:187-212 | After the 4-line preamble come one include per distinct component (first-occurrence order), then one include per message, then the 3 closing lines. The total is 7 + distinct components + messages. |
| `SystemHeader.ReceiversOnlyReceive` | halley/tools/src/codegen/cpp/codegen_cpp.cpp:241-248 | Every kept message is a receiving message from the list. |
| `SystemHeader.ReceiversPrefix` | halley/tools/src/codegen/cpp/codegen_cpp.cpp:241-248 | Collecting over a prefix of the messages yields a prefix of the full collection. |
| `SystemHeader.ReceiversAt` | halley/tools/src/codegen/cpp/codegen_cpp.cpp:245-248 | A receiving message at index k sits at the position equal to the number of receivers before it. So order is preserved. |
| `SystemHeader.ReceiversFrom` | halley/tools/src/codegen/cpp/codegen_cpp.cpp:241-248 | Every kept message receives and is the message at some index k of the list, sitting at the position equal to the number of receivers before k. So nothing is kept that the loop did not push. |
| `SystemHeader.ReceiversSlotsDistinct` | halley/tools/src/codegen/cpp/codegen_cpp.cpp:241-248 | An earlier receiving message always has fewer receivers before it than a later one, so no two receiving messages share a slot. |
| `SystemHeader.ReceivedNonEmpty` | halley/tools/src/codegen/cpp/codegen_cpp.cpp:239-249 | Some message is kept if and only if some message in the list receives. |
| `SystemHeader.ReceivedIndexList` | halley/tools/src/codegen/cpp/codegen_cpp.cpp:239-249 | The indices kept for a message list pair one to one with its receiving messages, in list order. Each slot holds the index of a receiving message whose preceding receivers number that slot. Each receiving message fills its slot, and no two share one. The list is empty exactly when no message is received. |
| `SystemHeader.HeaderReceivedMessages` | halley/tools/src/codegen/cpp/codegen_cpp.cpp:239-249 | `msgsReceived` holds exactly one index per receiving message, in list order, and nothing else. Each slot is the index of a receiving message whose preceding receivers number that slot, each receiving message fills its slot, and no two share one. It is non-empty (`hasReceive`) if and only if some message is received. |
| `Codegen.HeaderPathShape` | halley/tools/src/codegen/cpp/codegen_cpp.cpp:41-66 | A header path is the folder, then the stem's file name followed by `_` (nothing for an empty stem), then the lower-cased suffix, then `.h`. |
| `Codegen.HeaderPathLowerCase` | halley/tools/src/codegen/cpp/codegen_cpp.cpp:41-66 | A header path under a folder without capitals contains no capitals. |
| `Codegen.ComponentFile` | halley/tools/src/codegen/cpp/codegen_cpp.cpp:41-48 | Exactly one file, `components/<stem>_component.h`, in lower case, whose lines start with the header preamble. |
| `Codegen.MessageFile` | halley/tools/src/codegen/cpp/codegen_cpp.cpp:59-66 | Exactly one file, `messages/<stem>_message.h`, in lower case, whose lines start with the header preamble. |
| `Codegen.SystemFileFailure` | halley/tools/src/codegen/cpp/codegen_cpp.cpp:50-57 | `generateSystem` fails if and only if the method or the strategy is unsupported, and then it carries the header's message. |
| `Codegen.SystemHeaderFileShape` | halley/tools/src/codegen/cpp/codegen_cpp.cpp:50-57 | The system file is `systems/<stem>_system.h`, in lower case. Its lines begin with the header's include block and end with `*/`. |
| `Codegen.SystemFile` | halley/tools/src/codegen/cpp/codegen_cpp.cpp:50-57 | When the header succeeds, `generateSystem` returns exactly one file, `systems/<stem>_system.h`, in lower case. Its lines begin with the header's include block and end with `*/`. |

## Left out

- `CPPClassGenerator` is not part of this model. Wherever the source writes a generated class into the lines, the model takes those lines as parameters: `classLines`, `baseClassLines` and `implClassLines`.
  - For `generateComponentHeader`, `generateMessageHeader` and the class-body half of `generateSystemHeader` (codegen_cpp.cpp:130-140, 214-301, 314-326), only the fixed lines around the class text are modelled.
- The class-body half of `generateSystemHeader` is not modelled.
  - This covers the family classes, the `getAPI`/`getWorld` methods chosen by the access flags, `sendMessage`, `onMessagesReceived` and the constructor.
  - So `SystemSchema` has no access field.
  - `hasReceive` is represented by `msgsReceived` being non-empty.
- Component and message members and ids, and `String::integerToString`, only feed the class generator and are not modelled. The same goes for `String::concatList`.
- `generateSystem` is a function. It uses the header's specification function `HeaderPrefixOf` and does not call the loop method `GenerateHeaderPrefix`. That method's `ensures` ties the two together.
- Halley's `String` is modelled as a sequence of characters, and lowering a capital is modelled as adding 32 to its code.
  - On an empty name, `upperFirst` and `lowerFirst` index the string's terminating NUL. That character is not a letter, so the name is returned unchanged. The model does the same.
- The audio facade, the editor's game class and the UI label header lie outside the code generator and are not modelled.
  - `engine/audio/include/halley/audio/audio_facade.h`: a threaded command queue with a mutex, an atomic flag and float fade and volume parameters.
  - `tools/editor/src/halley_editor.h`: project loading and plugin plumbing.
  - `engine/core/include/halley/core/ui/widgets/ui_label.h`: a text-rendering widget.
