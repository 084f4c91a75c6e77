/** The part of `generateSystemHeader` that does not go through the class
    generator: choosing the method and the strategy, the `#include` lines, and
    the list of received message indices. */
module SystemHeader {
  import opened Schema
  import opened Sequences
  import opened Names

  /** The entry point a system implements: its name, the type of its `p`
      argument, and whether it is `const`. */
  datatype MethodChoice = MethodChoice(methodName: string, methodArgType: string, methodConst: bool)

  /** The arguments of the entry point and the body of the base class's
      dispatcher for the chosen strategy. */
  datatype StrategyChoice = StrategyChoice(familyArgs: seq<VariableSchema>, stratImpl: string)

  /** What the header's first part yields: the choices above, the lines written
      before the class generator takes over, and the message indices the system
      subscribes to. */
  datatype HeaderPrefix = HeaderPrefix(
    entry: MethodChoice,
    strategy: StrategyChoice,
    contents: seq<string>,
    msgsReceived: seq<string>)

  function SelectMethod(system: SystemSchema): Result<MethodChoice>
  {
    match system.methodKind
    case Update => Success(MethodChoice("update", "Halley::Time", false))
    case Render => Success(MethodChoice("render", "Halley::Painter&", true))
    case OtherMethod => Failure("Unsupported method in " + system.name + "System")
  }

  const EntityArgument := VariableSchema("MainFamily&", "entity")

  function SelectStrategy(system: SystemSchema, entry: MethodChoice): Result<StrategyChoice>
  {
    var p := VariableSchema(entry.methodArgType, "p");
    match system.strategy
    case Global =>
      Success(StrategyChoice([p], "static_cast<T*>(this)->" + entry.methodName + "(p);"))
    case Individual =>
      Success(StrategyChoice([p, EntityArgument],
        "invokeIndividual(static_cast<T*>(this), &T::" + entry.methodName + ", p, mainFamily);"))
    case Parallel =>
      Success(StrategyChoice([p, EntityArgument],
        "invokeParallel(static_cast<T*>(this), &T::" + entry.methodName + ", p, mainFamily);"))
    case OtherStrategy => Failure("Unsupported strategy in " + system.name + "System")
  }

  function ComponentName(c: ComponentReferenceSchema): string { c.name }

  /** The component names of all families, family by family, repeats included. */
  function ComponentNames(families: seq<FamilySchema>): seq<string>
  {
    if families == [] then []
    else
      var n := |families| - 1;
      ComponentNames(families[..n]) + MapSeq(families[n].components, ComponentName)
  }

  function ComponentInclude(name: string): string
  {
    "#include \"../components/" + FileNameOf(name + "Component") + ".h\""
  }

  function MessageInclude(msg: MessageReferenceSchema): string
  {
    "#include \"../messages/" + FileNameOf(msg.name + "Message") + ".h\""
  }

  function MessageIndex(msg: MessageReferenceSchema): string
  {
    msg.name + "Message::messageIndex"
  }

  const IncludesClosing: seq<string> := ["", "// Generated file; do not modify.", "template <typename T>"]

  /** The messages the system receives, in the order they are listed. */
  function Receivers(msgs: seq<MessageReferenceSchema>): seq<MessageReferenceSchema>
  {
    if msgs == [] then []
    else
      var n := |msgs| - 1;
      Receivers(msgs[..n]) + (if msgs[n].receive then [msgs[n]] else [])
  }

  /** The lines before the class generator's output: one include per distinct
      component (first occurrence first), one per message, then three fixed lines. */
  function PrefixContents(system: SystemSchema): seq<string>
  {
    HeaderPreamble
      + MapSeq(Dedup(ComponentNames(system.families)), ComponentInclude)
      + MapSeq(system.messages, MessageInclude)
      + IncludesClosing
  }

  /** The first part of `generateSystemHeader`; an unsupported method is reported
      before an unsupported strategy. */
  function HeaderPrefixOf(system: SystemSchema): Result<HeaderPrefix>
  {
    match SelectMethod(system)
    case Failure(e) => Failure(e)
    case Success(entry) =>
      match SelectStrategy(system, entry)
      case Failure(e) => Failure(e)
      case Success(strategy) =>
        Success(HeaderPrefix(entry, strategy, PrefixContents(system),
                             MapSeq(Receivers(system.messages), MessageIndex)))
  }

  lemma ComponentNamesSnoc(families: seq<FamilySchema>, f: nat)
    requires f < |families|
    ensures ComponentNames(families[..f + 1])
      == ComponentNames(families[..f]) + MapSeq(families[f].components, ComponentName)
  {
    assert families[..f + 1][..f] == families[..f];
  }

  lemma ReceiversSnoc(msgs: seq<MessageReferenceSchema>, k: nat)
    requires k < |msgs|
    ensures Receivers(msgs[..k + 1])
      == Receivers(msgs[..k]) + (if msgs[k].receive then [msgs[k]] else [])
  {
    assert msgs[..k + 1][..k] == msgs[..k];
  }

  /** One step of the inner loop: a name already in the set adds nothing, a new
      name adds its include line and joins the set. */
  lemma IncludeStep(done: seq<string>, name: string, lines: seq<string>, included: set<string>)
    requires lines == MapSeq(Dedup(done), ComponentInclude)
    requires forall x :: x in included <==> x in done
    ensures name in included ==> lines == MapSeq(Dedup(done + [name]), ComponentInclude)
    ensures name !in included
      ==> lines + [ComponentInclude(name)] == MapSeq(Dedup(done + [name]), ComponentInclude)
    ensures forall x :: x in included + {name} <==> x in done + [name]
  {
    DedupSnoc(done, name);
    if name !in included {
      MapSeqSnoc(Dedup(done), name, ComponentInclude);
    }
  }

  lemma NamesSnoc(seen: seq<string>, comps: seq<ComponentReferenceSchema>, c: nat)
    requires c < |comps|
    ensures seen + MapSeq(comps[..c + 1], ComponentName)
      == seen + MapSeq(comps[..c], ComponentName) + [comps[c].name]
  {
    MapSeqSnoc(comps[..c], comps[c], ComponentName);
    assert comps[..c + 1] == comps[..c] + [comps[c]];
  }

  /** The inner loop over one family's components: a name not yet in `included`
      gets its include line and joins the set. */
  method AddFamilyIncludes(comps: seq<ComponentReferenceSchema>, lines0: seq<string>,
                           included0: set<string>, ghost seen: seq<string>)
    returns (lines: seq<string>, included: set<string>)
    requires lines0 == MapSeq(Dedup(seen), ComponentInclude)
    requires forall x :: x in included0 <==> x in seen
    ensures lines == MapSeq(Dedup(seen + MapSeq(comps, ComponentName)), ComponentInclude)
    ensures forall x :: x in included <==> x in seen + MapSeq(comps, ComponentName)
  {
    lines, included := lines0, included0;
    var c := 0;
    assert seen + MapSeq(comps[..c], ComponentName) == seen;
    while c < |comps|
      invariant 0 <= c <= |comps|
      invariant lines == MapSeq(Dedup(seen + MapSeq(comps[..c], ComponentName)), ComponentInclude)
      invariant forall x :: x in included <==> x in seen + MapSeq(comps[..c], ComponentName)
    {
      ghost var done := seen + MapSeq(comps[..c], ComponentName);
      var name := comps[c].name;
      NamesSnoc(seen, comps, c);
      IncludeStep(done, name, lines, included);
      if name !in included {
        var fileName := ToFileName(name + "Component");
        assert "#include \"../components/" + fileName + ".h\"" == ComponentInclude(name);
        lines := lines + ["#include \"../components/" + fileName + ".h\""];
      }
      included := included + {name};
      c := c + 1;
    }
    assert comps[..c] == comps;
  }

  /** The include lines of the families: a set remembers which component names
      are already included, so each name yields one line, at its first occurrence. */
  method ComponentIncludes(families: seq<FamilySchema>) returns (lines: seq<string>)
    ensures lines == MapSeq(Dedup(ComponentNames(families)), ComponentInclude)
  {
    lines := [];
    var included: set<string> := {};
    var f := 0;
    while f < |families|
      invariant 0 <= f <= |families|
      invariant lines == MapSeq(Dedup(ComponentNames(families[..f])), ComponentInclude)
      invariant forall x :: x in included <==> x in ComponentNames(families[..f])
    {
      ComponentNamesSnoc(families, f);
      lines, included := AddFamilyIncludes(families[f].components, lines, included,
                                           ComponentNames(families[..f]));
      f := f + 1;
    }
    assert families[..f] == families;
  }

  /** One include line per message, every message included. */
  method MessageIncludes(msgs: seq<MessageReferenceSchema>) returns (lines: seq<string>)
    ensures lines == MapSeq(msgs, MessageInclude)
  {
    lines := [];
    var k := 0;
    while k < |msgs|
      invariant 0 <= k <= |msgs|
      invariant lines == MapSeq(msgs[..k], MessageInclude)
    {
      var fileName := ToFileName(msgs[k].name + "Message");
      MapSeqSnoc(msgs[..k], msgs[k], MessageInclude);
      assert msgs[..k + 1] == msgs[..k] + [msgs[k]];
      lines := lines + ["#include \"../messages/" + fileName + ".h\""];
      k := k + 1;
    }
    assert msgs[..k] == msgs;
  }

  /** The `messageIndex` of every message the system receives, in order. */
  method ReceivedIndices(msgs: seq<MessageReferenceSchema>) returns (msgsReceived: seq<string>)
    ensures msgsReceived == MapSeq(Receivers(msgs), MessageIndex)
  {
    msgsReceived := [];
    var k := 0;
    while k < |msgs|
      invariant 0 <= k <= |msgs|
      invariant msgsReceived == MapSeq(Receivers(msgs[..k]), MessageIndex)
    {
      ReceiversSnoc(msgs, k);
      if msgs[k].receive {
        MapSeqSnoc(Receivers(msgs[..k]), msgs[k], MessageIndex);
        msgsReceived := msgsReceived + [msgs[k].name + "Message::messageIndex"];
      }
      k := k + 1;
    }
    assert msgs[..k] == msgs;
  }

  /** `generateSystemHeader` up to the class generator: fails on an unsupported
      method or strategy, otherwise writes the preamble and the includes and
      collects the received message indices. */
  method GenerateHeaderPrefix(system: SystemSchema) returns (result: Result<HeaderPrefix>)
    ensures result == HeaderPrefixOf(system)
  {
    var entry: MethodChoice;
    if system.methodKind == Update {
      entry := MethodChoice("update", "Halley::Time", false);
    } else if system.methodKind == Render {
      entry := MethodChoice("render", "Halley::Painter&", true);
    } else {
      return Failure("Unsupported method in " + system.name + "System");
    }

    var familyArgs := [VariableSchema(entry.methodArgType, "p")];
    var stratImpl: string;
    if system.strategy == Global {
      stratImpl := "static_cast<T*>(this)->" + entry.methodName + "(p);";
    } else if system.strategy == Individual {
      familyArgs := familyArgs + [VariableSchema("MainFamily&", "entity")];
      assert familyArgs == [VariableSchema(entry.methodArgType, "p"), EntityArgument];
      stratImpl := "invokeIndividual(static_cast<T*>(this), &T::" + entry.methodName + ", p, mainFamily);";
    } else if system.strategy == Parallel {
      familyArgs := familyArgs + [VariableSchema("MainFamily&", "entity")];
      assert familyArgs == [VariableSchema(entry.methodArgType, "p"), EntityArgument];
      stratImpl := "invokeParallel(static_cast<T*>(this), &T::" + entry.methodName + ", p, mainFamily);";
    } else {
      return Failure("Unsupported strategy in " + system.name + "System");
    }

    var componentLines := ComponentIncludes(system.families);
    var messageLines := MessageIncludes(system.messages);
    var contents := HeaderPreamble + componentLines + messageLines + IncludesClosing;
    var msgsReceived := ReceivedIndices(system.messages);
    assert SelectMethod(system) == Success(entry);
    assert SelectStrategy(system, entry) == Success(StrategyChoice(familyArgs, stratImpl));
    assert contents == PrefixContents(system);

    result := Success(HeaderPrefix(entry, StrategyChoice(familyArgs, stratImpl), contents, msgsReceived));
  }

  /** The header fails exactly for an unsupported method or strategy, with the
      message that names the system; the method is checked first. */
  lemma HeaderFailsOnlyWhenUnsupported(system: SystemSchema)
    ensures HeaderPrefixOf(system).Failure?
      <==> system.methodKind == OtherMethod || system.strategy == OtherStrategy
    ensures system.methodKind == OtherMethod
      ==> HeaderPrefixOf(system) == Failure("Unsupported method in " + system.name + "System")
    ensures system.methodKind != OtherMethod && system.strategy == OtherStrategy
      ==> HeaderPrefixOf(system) == Failure("Unsupported strategy in " + system.name + "System")
  {
  }

  /** Update is a non-const `update(Halley::Time p)` and Render a const
      `render(Halley::Painter& p)`; Individual and Parallel add exactly one
      argument, `MainFamily& entity`, after `p`, and Global adds none. Global calls
      the method on the system directly; Individual and Parallel hand it to
      `invokeIndividual` or `invokeParallel` with the main family. */
  lemma EntryPointArguments(system: SystemSchema)
    requires HeaderPrefixOf(system).Success?
    ensures var h := HeaderPrefixOf(system).value;
      h.entry.methodName == (if system.methodKind == Update then "update" else "render")
      && (h.entry.methodConst <==> system.methodKind == Render)
      && h.entry.methodArgType == (if system.methodKind == Update then "Halley::Time" else "Halley::Painter&")
      && |h.strategy.familyArgs| == (if system.strategy == Global then 1 else 2)
      && h.strategy.familyArgs[0] == VariableSchema(h.entry.methodArgType, "p")
      && (system.strategy != Global ==> h.strategy.familyArgs[1] == EntityArgument)
      && (system.strategy == Global ==>
            h.strategy.stratImpl == "static_cast<T*>(this)->" + h.entry.methodName + "(p);")
      && (system.strategy == Individual ==>
            h.strategy.stratImpl == "invokeIndividual(static_cast<T*>(this), &T::"
                                    + h.entry.methodName + ", p, mainFamily);")
      && (system.strategy == Parallel ==>
            h.strategy.stratImpl == "invokeParallel(static_cast<T*>(this), &T::"
                                    + h.entry.methodName + ", p, mainFamily);")
  {
    var entry := SelectMethod(system).value;
    var strategy := SelectStrategy(system, entry).value;
    assert HeaderPrefixOf(system).value.entry == entry;
    assert HeaderPrefixOf(system).value.strategy == strategy;
  }

  /** A name is among the family component names exactly when some family lists it. */
  lemma {:induction false} ComponentNamesMembership(families: seq<FamilySchema>, x: string)
    ensures x in ComponentNames(families)
      <==> exists f, c :: 0 <= f < |families| && 0 <= c < |families[f].components|
                          && families[f].components[c].name == x
  {
    if families != [] {
      var n := |families| - 1;
      var init, last := families[..n], families[n].components;
      ComponentNamesMembership(init, x);
      var tail := MapSeq(last, ComponentName);
      assert ComponentNames(families) == ComponentNames(init) + tail;
      if x in tail {
        var c :| 0 <= c < |tail| && tail[c] == x;
        assert families[n].components[c].name == x;
      }
      if exists f, c :: 0 <= f < |families| && 0 <= c < |families[f].components|
                        && families[f].components[c].name == x {
        var f, c :| 0 <= f < |families| && 0 <= c < |families[f].components|
                    && families[f].components[c].name == x;
        if f == n {
          assert tail[c] == x;
        } else {
          assert init[f] == families[f];
        }
      }
    }
  }

  lemma IncludeLayout(names: seq<string>, msgs: seq<MessageReferenceSchema>)
    ensures var c := HeaderPreamble + MapSeq(names, ComponentInclude)
                     + MapSeq(msgs, MessageInclude) + IncludesClosing;
      |c| == 7 + |names| + |msgs|
      && c[..4] == HeaderPreamble
      && (forall i :: 0 <= i < |names| ==> c[4 + i] == ComponentInclude(names[i]))
      && (forall j :: 0 <= j < |msgs| ==> c[4 + |names| + j] == MessageInclude(msgs[j]))
      && c[|c| - 3..] == IncludesClosing
  {
  }

  /** The include block: after the four-line preamble, one line per distinct
      component name in first-occurrence order, then one line for every message,
      then the three closing lines. */
  lemma HeaderIncludes(system: SystemSchema)
    requires HeaderPrefixOf(system).Success?
    ensures var c := HeaderPrefixOf(system).value.contents;
      var all := ComponentNames(system.families);
      var names := Dedup(all);
      |c| == 7 + |names| + |system.messages|
      && c[..4] == HeaderPreamble
      && (forall x :: x in names <==> x in all)
      && (forall i, j :: 0 <= i < j < |names| ==> names[i] != names[j])
      && (forall i, j :: 0 <= i < j < |names| ==> FirstIndex(all, names[i]) < FirstIndex(all, names[j]))
      && (forall i :: 0 <= i < |names| ==> c[4 + i] == ComponentInclude(names[i]))
      && (forall j :: 0 <= j < |system.messages| ==>
            c[4 + |names| + j] == MessageInclude(system.messages[j]))
      && c[|c| - 3..] == IncludesClosing
  {
    var all := ComponentNames(system.families);
    IncludeLayout(Dedup(all), system.messages);
    DedupElements(all);
    DedupDistinct(all);
    DedupFirstOccurrenceOrder(all);
  }

  /** Every kept message receives and comes from the list. */
  lemma {:induction false} ReceiversOnlyReceive(msgs: seq<MessageReferenceSchema>)
    ensures forall m :: m in Receivers(msgs) ==> m in msgs && m.receive
  {
    if msgs != [] {
      var n := |msgs| - 1;
      ReceiversOnlyReceive(msgs[..n]);
      assert msgs == msgs[..n] + [msgs[n]];
    }
  }

  /** What is kept from a prefix of the messages is a prefix of what is kept from all. */
  lemma {:induction false} ReceiversPrefix(msgs: seq<MessageReferenceSchema>, k: nat)
    requires k <= |msgs|
    ensures Receivers(msgs[..k]) <= Receivers(msgs)
  {
    if k < |msgs| {
      var n := |msgs| - 1;
      assert msgs[..n][..k] == msgs[..k];
      ReceiversPrefix(msgs[..n], k);
    } else {
      assert msgs[..k] == msgs;
    }
  }

  /** A receiving message at index `k` is kept, at the position given by the
      number of receivers before it: order is preserved. */
  lemma ReceiversAt(msgs: seq<MessageReferenceSchema>, k: nat)
    requires k < |msgs| && msgs[k].receive
    ensures |Receivers(msgs[..k])| < |Receivers(msgs)|
    ensures Receivers(msgs)[|Receivers(msgs[..k])|] == msgs[k]
  {
    ReceiversSnoc(msgs, k);
    ReceiversPrefix(msgs, k + 1);
  }

  /** Each kept message is a receiving message at some index `k`, and it sits at the
      position given by the number of receivers before `k`: nothing else is kept. */
  lemma {:induction false} ReceiversFrom(msgs: seq<MessageReferenceSchema>)
    ensures forall i :: 0 <= i < |Receivers(msgs)| ==>
      Receivers(msgs)[i].receive
      && exists k :: 0 <= k < |msgs| && Receivers(msgs)[i] == msgs[k]
                     && i == |Receivers(msgs[..k])|
  {
    if msgs != [] {
      var n := |msgs| - 1;
      var p := msgs[..n];
      var recv, before := Receivers(msgs), Receivers(p);
      ReceiversFrom(p);
      ReceiversSnoc(msgs, n);
      assert msgs[..n + 1] == msgs;
      assert recv == before + (if msgs[n].receive then [msgs[n]] else []);
      forall i | 0 <= i < |recv|
        ensures recv[i].receive
          && exists k :: 0 <= k < |msgs| && recv[i] == msgs[k] && i == |Receivers(msgs[..k])|
      {
        if i < |before| {
          var k :| 0 <= k < |p| && before[i] == p[k] && i == |Receivers(p[..k])|;
          assert p[..k] == msgs[..k];
          assert recv[i] == before[i];
        } else {
          assert msgs[n].receive && recv[i] == msgs[n] && i == |Receivers(msgs[..n])|;
        }
      }
    } else {
      assert Receivers(msgs) == [];
    }
  }

  /** Slot `i` of `r` is the index of the receiving message at some `k` of `msgs`
      with `i` receivers before it: nothing but receivers' indices, in list order. */
  predicate SlotsAreReceivers(r: seq<string>, msgs: seq<MessageReferenceSchema>)
  {
    |r| == |Receivers(msgs)|
    && forall i :: 0 <= i < |r| ==>
      r[i] == MessageIndex(Receivers(msgs)[i]) && Receivers(msgs)[i].receive
      && exists k :: 0 <= k < |msgs| && Receivers(msgs)[i] == msgs[k]
                     && i == |Receivers(msgs[..k])|
  }

  /** Every receiving message of `msgs` has its index in `r`, at the slot given by
      the number of receivers before it. */
  predicate ReceiversHaveSlots(r: seq<string>, msgs: seq<MessageReferenceSchema>)
  {
    forall k :: 0 <= k < |msgs| && msgs[k].receive ==>
      |Receivers(msgs[..k])| < |r| && r[|Receivers(msgs[..k])|] == MessageIndex(msgs[k])
  }

  /** An earlier receiving message has fewer receivers before it, so two receiving
      messages never share a slot. */
  predicate SlotsDistinct(msgs: seq<MessageReferenceSchema>)
  {
    forall k1, k2 :: 0 <= k1 < k2 <= |msgs| && msgs[k1].receive ==>
      |Receivers(msgs[..k1])| < |Receivers(msgs[..k2])|
  }

  /** `r` holds the message indices of exactly the receiving messages of `msgs`, one
      each and in list order, and is empty exactly when no message is received. */
  predicate IndexesReceivers(r: seq<string>, msgs: seq<MessageReferenceSchema>)
  {
    SlotsAreReceivers(r, msgs) && ReceiversHaveSlots(r, msgs) && SlotsDistinct(msgs)
    && (|r| > 0 <==> exists k :: 0 <= k < |msgs| && msgs[k].receive)
  }

  /** Mapping `MessageIndex` over the receivers yields one index per receiving message,
      in list order and nothing else. */
  lemma ReceivedIndexList(msgs: seq<MessageReferenceSchema>)
    ensures IndexesReceivers(MapSeq(Receivers(msgs), MessageIndex), msgs)
  {
    var r := MapSeq(Receivers(msgs), MessageIndex);
    ReceivedSlots(msgs, r);
    ReceivedFilled(msgs, r);
    ReceiversSlotsDistinct(msgs);
    ReceivedNonEmpty(msgs);
  }

  lemma ReceivedSlots(msgs: seq<MessageReferenceSchema>, r: seq<string>)
    requires r == MapSeq(Receivers(msgs), MessageIndex)
    ensures SlotsAreReceivers(r, msgs)
  {
    ReceiversFrom(msgs);
  }

  lemma ReceivedFilled(msgs: seq<MessageReferenceSchema>, r: seq<string>)
    requires r == MapSeq(Receivers(msgs), MessageIndex)
    ensures ReceiversHaveSlots(r, msgs)
  {
    forall k | 0 <= k < |msgs| && msgs[k].receive
      ensures |Receivers(msgs[..k])| < |r| && r[|Receivers(msgs[..k])|] == MessageIndex(msgs[k])
    {
      ReceiversAt(msgs, k);
    }
  }

  lemma ReceiversSlotsDistinct(msgs: seq<MessageReferenceSchema>)
    ensures SlotsDistinct(msgs)
  {
    forall k1, k2 | 0 <= k1 < k2 <= |msgs| && msgs[k1].receive
      ensures |Receivers(msgs[..k1])| < |Receivers(msgs[..k2])|
    {
      ReceiversSnoc(msgs, k1);
      assert msgs[..k2][..k1 + 1] == msgs[..k1 + 1];
      ReceiversPrefix(msgs[..k2], k1 + 1);
    }
  }

  lemma ReceivedNonEmpty(msgs: seq<MessageReferenceSchema>)
    ensures |Receivers(msgs)| > 0 <==> exists k :: 0 <= k < |msgs| && msgs[k].receive
  {
    if |Receivers(msgs)| > 0 {
      ReceiversFrom(msgs);
      var k :| 0 <= k < |msgs| && Receivers(msgs)[0] == msgs[k] && 0 == |Receivers(msgs[..k])|;
    }
    forall k | 0 <= k < |msgs| && msgs[k].receive ensures |Receivers(msgs)| > 0 {
      ReceiversAt(msgs, k);
    }
  }

  /** `msgsReceived` has one index per receiving message, in list order and nothing
      else, and is empty exactly when no message is received. */
  lemma HeaderReceivedMessages(system: SystemSchema)
    requires HeaderPrefixOf(system).Success?
    ensures IndexesReceivers(HeaderPrefixOf(system).value.msgsReceived, system.messages)
  {
    ReceivedIndexList(system.messages);
  }
}
