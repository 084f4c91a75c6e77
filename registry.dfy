/** `generateRegistry`: the factory table that maps each system's name to its
    creation function. */
module Registry {
  import opened Schema
  import opened Sequences

  /** Forward declaration of the factory function of one system. */
  function FactoryDeclaration(sys: SystemSchema): string
  {
    "System* halleyCreate" + sys.name + "System();"
  }

  /** Entry of the factory map for one system. */
  function FactoryEntry(sys: SystemSchema): string
  {
    "\tresult[\"" + sys.name + "System\"] = &halleyCreate" + sys.name + "System;"
  }

  // Lines longer than a few dozen characters are written as two literals joined,
  // which keeps their leading characters visible to the proofs below.

  const CppOpening: seq<string> := [
    "#include <halley.hpp>",
    "using namespace Halley;",
    "",
    "// System factory functions"
  ]

  const CppMapOpening: seq<string> := [
    "",
    "",
    "using SystemFactoryPtr = System* (*)();",
    "using SystemFactoryMap = " + "HashMap<String, SystemFactoryPtr>;",
    "",
    "static SystemFactoryMap " + "makeSystemFactories() {",
    "\tSystemFactoryMap result;"
  ]

  const CppClosing: seq<string> := [
    "\treturn result;",
    "}",
    "",
    "namespace Halley {",
    "\tstd::unique_ptr<System> " + "createSystem(String name) {",
    "\t\tstatic SystemFactoryMap factories = " + "makeSystemFactories();",
    "\t\treturn std::unique_ptr<System>" + "(factories[name]());",
    "\t}",
    "}"
  ]

  const RegistryHeader: seq<string> := [
    "#pragma once",
    "",
    "namespace Halley {",
    "\tstd::unique_ptr<System> createSystem(String name);",
    "}"
  ]

  /** The lines of `registry.cpp`. */
  function RegistryCpp(systems: seq<SystemSchema>): seq<string>
  {
    CppOpening + MapSeq(systems, FactoryDeclaration) + CppMapOpening
      + MapSeq(systems, FactoryEntry) + CppClosing
  }

  lemma PrefixSnoc(systems: seq<SystemSchema>, i: nat, f: SystemSchema -> string)
    requires i < |systems|
    ensures MapSeq(systems[..i + 1], f) == MapSeq(systems[..i], f) + [f(systems[i])]
  {
    MapSeqSnoc(systems[..i], systems[i], f);
    assert systems[..i + 1] == systems[..i] + [systems[i]];
  }

  /** `generateRegistry`: two loops over the systems around fixed blocks of lines.
      The component list is accepted and not used. */
  method GenerateRegistry(components: seq<ComponentSchema>, systems: seq<SystemSchema>)
    returns (result: CodeGenResult)
    ensures result == [CodeGenFile("registry.cpp", RegistryCpp(systems)),
                       CodeGenFile("registry.h", RegistryHeader)]
  {
    var registryCpp := CppOpening;
    var i := 0;
    while i < |systems|
      invariant 0 <= i <= |systems|
      invariant registryCpp == CppOpening + MapSeq(systems[..i], FactoryDeclaration)
    {
      PrefixSnoc(systems, i, FactoryDeclaration);
      registryCpp := registryCpp + [FactoryDeclaration(systems[i])];
      i := i + 1;
    }
    assert systems[..i] == systems;
    registryCpp := registryCpp + CppMapOpening;
    ghost var declared := registryCpp;
    i := 0;
    while i < |systems|
      invariant 0 <= i <= |systems|
      invariant registryCpp == declared + MapSeq(systems[..i], FactoryEntry)
    {
      PrefixSnoc(systems, i, FactoryEntry);
      registryCpp := registryCpp + [FactoryEntry(systems[i])];
      i := i + 1;
    }
    assert systems[..i] == systems;
    registryCpp := registryCpp + CppClosing;
    result := [CodeGenFile("registry.cpp", registryCpp), CodeGenFile("registry.h", RegistryHeader)];
  }

  predicate StartsWith(s: string, prefix: string)
  {
    |prefix| <= |s| && s[..|prefix|] == prefix
  }

  /** A line that declares a system factory function. */
  predicate IsFactoryDeclaration(line: string)
  {
    StartsWith(line, "System* halleyCreate")
  }

  /** A line that adds a system to the factory map. */
  predicate IsFactoryEntry(line: string)
  {
    StartsWith(line, "\tresult[\"")
  }

  /** `registry.cpp` has twenty fixed lines plus two per system; the declaration of
      system `i` is line `4 + i` and its map entry is line `11 + |systems| + i`. */
  lemma RegistryCppLayout(systems: seq<SystemSchema>)
    ensures |RegistryCpp(systems)| == 20 + 2 * |systems|
    ensures forall i :: 0 <= i < |systems| ==>
      RegistryCpp(systems)[4 + i] == FactoryDeclaration(systems[i])
      && RegistryCpp(systems)[11 + |systems| + i] == FactoryEntry(systems[i])
  {
  }

  /** Neither a declaration nor a map entry: told apart by a few leading characters. */
  lemma NotDeclarationNorEntry(line: string)
    requires |line| < 9 || line[0] != '\t' || line[1] != 'r' || line[3] != 's'
    requires |line| < 20 || line[0] != 'S' || line[6] != '*'
    ensures !IsFactoryDeclaration(line) && !IsFactoryEntry(line)
  {
  }

  /** None of the fixed lines is a declaration or a map entry. */
  lemma FixedLinesAreNeither(line: string)
    requires line in CppOpening || line in CppMapOpening || line in CppClosing
    ensures !IsFactoryDeclaration(line) && !IsFactoryEntry(line)
  {
    NotDeclarationNorEntry(line);
  }

  /** Which block of `registry.cpp` line `k` belongs to, and what it is there. */
  lemma RegistryCppLine(systems: seq<SystemSchema>, k: nat)
    requires k < |RegistryCpp(systems)|
    ensures var n, line := |systems|, RegistryCpp(systems)[k];
      (k < 4 ==> line in CppOpening)
      && (4 <= k < 4 + n ==> line == FactoryDeclaration(systems[k - 4]))
      && (4 + n <= k < 11 + n ==> line in CppMapOpening)
      && (11 + n <= k < 11 + 2 * n ==> line == FactoryEntry(systems[k - 11 - n]))
      && (11 + 2 * n <= k ==> line in CppClosing)
  {
    var n := |systems|;
    var a := CppOpening + MapSeq(systems, FactoryDeclaration);
    var b := a + CppMapOpening;
    var c := b + MapSeq(systems, FactoryEntry);
    assert RegistryCpp(systems) == c + CppClosing;
    if k < 11 + 2 * n {
      assert RegistryCpp(systems)[k] == c[k];
      if k < 11 + n {
        assert c[k] == b[k];
        if k < 4 + n {
          assert b[k] == a[k];
        } else {
          assert b[k] == CppMapOpening[k - 4 - n];
        }
      }
    } else {
      assert RegistryCpp(systems)[k] == CppClosing[k - 11 - 2 * n];
    }
  }

  lemma DeclarationIsNoEntry(system: SystemSchema)
    ensures IsFactoryDeclaration(FactoryDeclaration(system))
    ensures !IsFactoryEntry(FactoryDeclaration(system))
  {
    var d := FactoryDeclaration(system);
    assert d[..20] == "System* halleyCreate";
    assert d[0] != '\t';
  }

  lemma EntryIsNoDeclaration(system: SystemSchema)
    ensures IsFactoryEntry(FactoryEntry(system))
    ensures !IsFactoryDeclaration(FactoryEntry(system))
  {
    var e := FactoryEntry(system);
    assert e[..9] == "\tresult[\"";
    assert e[0] != 'S';
  }

  /** The declarations are exactly lines `4 .. 4 + |systems|` and the map entries
      exactly lines `11 + |systems| .. 11 + 2 * |systems|`: every declaration comes
      before the map is built, one of each per system. */
  lemma RegistryCppSections(systems: seq<SystemSchema>)
    ensures forall k :: 0 <= k < |RegistryCpp(systems)| ==>
      (IsFactoryDeclaration(RegistryCpp(systems)[k]) <==> 4 <= k < 4 + |systems|)
      && (IsFactoryEntry(RegistryCpp(systems)[k]) <==> 11 + |systems| <= k < 11 + 2 * |systems|)
  {
    var lines, n := RegistryCpp(systems), |systems|;
    forall k | 0 <= k < |lines|
      ensures IsFactoryDeclaration(lines[k]) <==> 4 <= k < 4 + n
      ensures IsFactoryEntry(lines[k]) <==> 11 + n <= k < 11 + 2 * n
    {
      RegistryCppLine(systems, k);
      if 4 <= k < 4 + n {
        DeclarationIsNoEntry(systems[k - 4]);
      } else if 11 + n <= k < 11 + 2 * n {
        EntryIsNoDeclaration(systems[k - 11 - n]);
      } else {
        FixedLinesAreNeither(lines[k]);
      }
    }
  }
}
