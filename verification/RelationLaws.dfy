/**
 What holds of every semantic relation stream: live distinct endpoints, no repeated
 relation, and gapless ordinals.
 */
module RelationLaws {
  import opened Batches
  import opened SemanticRelations
  import opened Wrappers

  // ----- Endpoints -----

  /** Every emitted relation joins two distinct live model elements. */
  lemma {:induction false} EndpointsAreLive(input: Input, kinds: map<Id, ObjectKind>, ledger: Ledger, items: seq<Item>,
                                            k: nat)
    requires k < |Stream(input, kinds, ledger, items)| && Stream(input, kinds, ledger, items)[k].Emitted?
    ensures var r := Stream(input, kinds, ledger, items)[k].item; ValidEdge(input, kinds, r.source, r.target)
    decreases |items|
  {
    hide ValidEdge;
    var (next, events) := Step(input, kinds, ledger, items[0]);
    if k >= |events| {
      EndpointsAreLive(input, kinds, next, items[1..], k - |events|);
    }
  }

  // ----- No relation repeats -----

  /** The identity of a relation. */
  datatype Key = Key(kind: RelationKind, source: Id, target: Id, origin: Origin)

  function KeyOf(r: Relation): Key {
    Key(r.kind, r.source, r.target, r.origin)
  }

  /** The pair is already recorded for its kind. */
  ghost predicate Recorded(ledger: Ledger, key: Key) {
    match key.kind
    case Subelement => (key.source, key.target) in ledger.subelements
    case HostedOn => (key.source, key.target) in ledger.hosted
    case ConnectsTo => (key.source, key.target) in ledger.connections
    case InAssembly => false
  }

  /** The membership a fact would emit, when it is a membership fact. */
  function MembershipKey(item: Item): Option<Key> {
    match item
    case MainItem(assembly, main) => Some(Key(InAssembly, main, assembly, AssemblyMembership))
    case MemberItem(assembly, main, member) =>
      if member == main then None else Some(Key(InAssembly, member, assembly, AssemblyMembership))
    case PourItem(pour) => Some(Key(InAssembly, pour.poured, pour.pourUnit, PourMembership))
    case _ => None
  }

  /** No membership fact occurs twice. */
  ghost predicate DistinctMemberships(items: seq<Item>) {
    forall i, j :: 0 <= i < j < |items| && MembershipKey(items[i]).Some? ==>
        MembershipKey(items[i]) != MembershipKey(items[j])
  }

  lemma StepRecords(input: Input, kinds: map<Id, ObjectKind>, ledger: Ledger, item: Item, key: Key)
    ensures var (next, events) := Step(input, kinds, ledger, item);
      && (Recorded(ledger, key) ==> Recorded(next, key))
      && (|events| == 1 && events[0].Emitted? ==>
            var new' := KeyOf(events[0].item);
            && !Recorded(ledger, new')
            && (if new'.kind.InAssembly? then MembershipKey(item) == Some(new') else Recorded(next, new')))
  {
    hide ValidEdge;
  }

  /** A relation that is recorded, or is a membership none of the facts states, does not occur. */
  lemma {:induction false} KeyIsSpent(input: Input, kinds: map<Id, ObjectKind>, ledger: Ledger, items: seq<Item>,
                                      key: Key, k: nat)
    requires if key.kind.InAssembly? then forall i :: 0 <= i < |items| ==> MembershipKey(items[i]) != Some(key)
        else Recorded(ledger, key)
    requires k < |Stream(input, kinds, ledger, items)| && Stream(input, kinds, ledger, items)[k].Emitted?
    ensures KeyOf(Stream(input, kinds, ledger, items)[k].item) != key
    decreases |items|
  {
    hide Step, Recorded;
    var (next, events) := Step(input, kinds, ledger, items[0]);
    StepRecords(input, kinds, ledger, items[0], key);
    if k >= |events| {
      KeyIsSpent(input, kinds, next, items[1..], key, k - |events|);
    }
  }

  /** No kind, source, target and origin occur together twice. */
  lemma {:induction false} RelationsAreDistinct(input: Input, kinds: map<Id, ObjectKind>, ledger: Ledger,
                                                items: seq<Item>, i: nat, j: nat)
    requires DistinctMemberships(items)
    requires i < j < |Stream(input, kinds, ledger, items)|
    requires Stream(input, kinds, ledger, items)[i].Emitted? && Stream(input, kinds, ledger, items)[j].Emitted?
    ensures KeyOf(Stream(input, kinds, ledger, items)[i].item) != KeyOf(Stream(input, kinds, ledger, items)[j].item)
    decreases |items|
  {
    hide Step, Recorded, MembershipKey;
    var (next, events) := Step(input, kinds, ledger, items[0]);
    var rest := items[1..];
    if i >= |events| {
      RelationsAreDistinct(input, kinds, next, rest, i - |events|, j - |events|);
    } else {
      var key := KeyOf(events[i].item);
      StepRecords(input, kinds, ledger, items[0], key);
      forall m | 0 <= m < |rest| && key.kind.InAssembly? ensures MembershipKey(rest[m]) != Some(key) {
        assert rest[m] == items[m + 1];
      }
      KeyIsSpent(input, kinds, next, rest, key, j - |events|);
    }
  }

  // ----- Child ordinals -----

  /** How many of the first `k` events add a child to a parent. */
  function ChildrenBefore(events: seq<RelationEvent>, k: nat, parent: Id): nat
    requires k <= |events|
  {
    if k == 0 then 0
    else ChildrenBefore(events, k - 1, parent)
         + if events[k - 1].Emitted? && events[k - 1].item.kind.Subelement? && events[k - 1].item.source == parent then
             1 else 0
  }

  lemma {:induction false} ChildrenBeforeConcat(a: seq<RelationEvent>, b: seq<RelationEvent>, k: nat, parent: Id)
    requires k <= |b|
    ensures ChildrenBefore(a + b, |a| + k, parent) == ChildrenBefore(a, |a|, parent) + ChildrenBefore(b, k, parent)
    decreases k
  {
    if k == 0 {
      ChildrenPrefix(a, b, |a|, parent);
    } else {
      ChildrenBeforeConcat(a, b, k - 1, parent);
    }
  }

  lemma {:induction false} ChildrenPrefix(a: seq<RelationEvent>, b: seq<RelationEvent>, k: nat, parent: Id)
    requires k <= |a|
    ensures ChildrenBefore(a + b, k, parent) == ChildrenBefore(a, k, parent)
  {
    if k > 0 { ChildrenPrefix(a, b, k - 1, parent); }
  }

  lemma StepOrdinal(input: Input, kinds: map<Id, ObjectKind>, ledger: Ledger, item: Item, parent: Id)
    ensures var (next, events) := Step(input, kinds, ledger, item);
      && OrdinalOf(next, parent) == OrdinalOf(ledger, parent) + ChildrenBefore(events, |events|, parent)
      && (|events| == 1 && events[0].Emitted? && events[0].item.kind.Subelement? && events[0].item.source == parent ==>
            events[0].item.ordinal == OrdinalOf(ledger, parent))
  {
    hide ValidEdge;
    var (next, events) := Step(input, kinds, ledger, item);
    if |events| == 1 { assert ChildrenBefore(events, 0, parent) == 0; }
  }

  /** The ordinals of a parent's children count up by one from the recorded ordinal. */
  lemma {:induction false} ChildOrdinalsCount(input: Input, kinds: map<Id, ObjectKind>, ledger: Ledger,
                                              items: seq<Item>, k: nat)
    requires k < |Stream(input, kinds, ledger, items)| && Stream(input, kinds, ledger, items)[k].Emitted?
    requires Stream(input, kinds, ledger, items)[k].item.kind.Subelement?
    ensures var stream := Stream(input, kinds, ledger, items);
            stream[k].item.ordinal ==
            OrdinalOf(ledger, stream[k].item.source) + ChildrenBefore(stream, k, stream[k].item.source)
    decreases |items|
  {
    hide Step, OrdinalOf;
    var (next, events) := Step(input, kinds, ledger, items[0]);
    var stream, rest := Stream(input, kinds, ledger, items), Stream(input, kinds, next, items[1..]);
    var parent := stream[k].item.source;
    StepOrdinal(input, kinds, ledger, items[0], parent);
    if k >= |events| {
      ChildOrdinalsCount(input, kinds, next, items[1..], k - |events|);
      ChildrenBeforeConcat(events, rest, k - |events|, parent);
    }
  }

  /** The children recorded for a parent are as many as its next ordinal, and all of them are endpoints. */
  ghost predicate OrdinalsBounded(input: Input, ledger: Ledger) {
    forall parent: Id :: BoundedBy(input, ledger, parent)
  }

  ghost function ChildrenOf(ledger: Ledger, parent: Id): set<Id> {
    set pair | pair in ledger.subelements && pair.0 == parent :: pair.1
  }

  ghost predicate BoundedBy(input: Input, ledger: Ledger, parent: Id) {
    ChildrenOf(ledger, parent) <= input.endpoints && |ChildrenOf(ledger, parent)| == OrdinalOf(ledger, parent)
  }

  /** A step either leaves the children alone or adds the one it emits. */
  lemma StepChildren(input: Input, kinds: map<Id, ObjectKind>, ledger: Ledger, item: Item)
    ensures var (next, events) := Step(input, kinds, ledger, item);
      || (next.subelements == ledger.subelements && next.childOrdinals == ledger.childOrdinals)
      || (&& |events| == 1 && events[0].Emitted?
          && var r := events[0].item;
          && (r.source, r.target) !in ledger.subelements && r.target in input.endpoints
          && next.subelements == ledger.subelements + {(r.source, r.target)}
          && next.childOrdinals == ledger.childOrdinals[r.source := OrdinalOf(ledger, r.source) + 1])
  {
  }

  lemma StepBounded(input: Input, kinds: map<Id, ObjectKind>, ledger: Ledger, item: Item)
    requires OrdinalsBounded(input, ledger)
    ensures OrdinalsBounded(input, Step(input, kinds, ledger, item).0)
  {
    hide Step;
    var (next, events) := Step(input, kinds, ledger, item);
    StepChildren(input, kinds, ledger, item);
    forall parent: Id ensures BoundedBy(input, next, parent) {
      assert BoundedBy(input, ledger, parent);
      if next.subelements == ledger.subelements && next.childOrdinals == ledger.childOrdinals {
        assert ChildrenOf(next, parent) == ChildrenOf(ledger, parent);
      } else {
        var r := events[0].item;
        AddedChild(ledger, next, r.source, r.target, parent);
      }
    }
  }

  lemma AddedChild(ledger: Ledger, next: Ledger, source: Id, child: Id, parent: Id)
    requires next.subelements == ledger.subelements + {(source, child)} && (source, child) !in ledger.subelements
    ensures ChildrenOf(next, parent) == if parent == source then ChildrenOf(ledger, parent) + {child}
        else ChildrenOf(ledger, parent)
    ensures parent == source ==> child !in ChildrenOf(ledger, parent)
  {
    var before, after := ChildrenOf(ledger, parent), ChildrenOf(next, parent);
    forall c: Id ensures c in after <==> c in before || (parent == source && c == child) {
      if c in before { assert (parent, c) in next.subelements; }
      if parent == source && c == child { assert (source, child) in next.subelements; }
    }
  }

  /** Child ordinals stay below the number of live objects, so they never wrap in 32 bits. */
  lemma {:induction false} ChildOrdinalsFit(input: Input, kinds: map<Id, ObjectKind>, ledger: Ledger, items: seq<Item>,
                                            k: nat)
    requires OrdinalsBounded(input, ledger)
    requires k < |Stream(input, kinds, ledger, items)| && Stream(input, kinds, ledger, items)[k].Emitted?
    requires Stream(input, kinds, ledger, items)[k].item.kind.Subelement?
    ensures Stream(input, kinds, ledger, items)[k].item.ordinal < |input.endpoints|
    decreases |items|
  {
    hide Step, OrdinalOf, ValidEdge, OrdinalsBounded;
    var (next, events) := Step(input, kinds, ledger, items[0]);
    StepBounded(input, kinds, ledger, items[0]);
    if k >= |events| {
      ChildOrdinalsFit(input, kinds, next, items[1..], k - |events|);
    } else {
      var r := events[0].item;
      StepOrdinal(input, kinds, ledger, items[0], r.source);
      NewOrdinalFits(input, kinds, ledger, items[0]);
    }
  }

  lemma NewOrdinalFits(input: Input, kinds: map<Id, ObjectKind>, ledger: Ledger, item: Item)
    requires OrdinalsBounded(input, ledger)
    requires var events := Step(input, kinds, ledger, item).1;
             |events| == 1 && events[0].Emitted? && events[0].item.kind.Subelement?
    ensures OrdinalOf(ledger, Step(input, kinds, ledger, item).1[0].item.source) < |input.endpoints|
  {
    var r := Step(input, kinds, ledger, item).1[0].item;
    assert BoundedBy(input, ledger, r.source);
    var children := ChildrenOf(ledger, r.source);
    assert r.target in input.endpoints && r.target !in children;
    SmallerSet(children, input.endpoints, r.target);
  }

  lemma SmallerSet(a: set<Id>, b: set<Id>, x: Id)
    requires a <= b && x in b && x !in a
    ensures |a| < |b|
  {
    Subset(a, b - {x});
  }

  lemma {:induction false} Subset(a: set<Id>, b: set<Id>)
    requires a <= b
    ensures |a| <= |b|
  {
    if a != {} {
      var x :| x in a;
      Subset(a - {x}, b - {x});
    }
  }

  // ----- Assembly ordinals -----

  /**
   The facts are grouped by assembly: a member fact follows its own assembly's main fact
   with only member facts in between, and no assembly is started twice.
   */
  ghost predicate Grouped(items: seq<Item>, open: Option<(Id, Id)>, started: set<Id>)
    decreases |items|
  {
    items == [] ||
    match items[0]
    case MainItem(assembly, main) =>
        assembly !in started && Grouped(items[1..], Some((assembly, main)), started + {assembly})
    case MemberItem(assembly, main, member) => open == Some((assembly, main)) && Grouped(items[1..], open, started)
    case AssemblyEnd => Grouped(items[1..], None, started)
    case _ => Grouped(items[1..], open, started)
  }

  predicate IsMembership(event: RelationEvent, assembly: Id, main: Id) {
    && event.Emitted? && event.item.kind.InAssembly? && event.item.origin.AssemblyMembership?
    && event.item.target == assembly && event.item.source != main
  }

  /** How many of the first `k` events add a member other than the main one to an assembly. */
  function MembersBefore(events: seq<RelationEvent>, k: nat, assembly: Id, main: Id): nat
    requires k <= |events|
  {
    if k == 0 then 0
    else MembersBefore(events, k - 1, assembly, main) + if IsMembership(events[k - 1], assembly, main) then 1 else 0
  }

  lemma {:induction false} MembersBeforeConcat(a: seq<RelationEvent>, b: seq<RelationEvent>, k: nat, assembly: Id,
                                               main: Id)
    requires k <= |b|
    ensures MembersBefore(a + b, |a| + k, assembly, main)
              == MembersBefore(a, |a|, assembly, main) + MembersBefore(b, k, assembly, main)
    decreases k
  {
    if k == 0 {
      MembersPrefix(a, b, |a|, assembly, main);
    } else {
      MembersBeforeConcat(a, b, k - 1, assembly, main);
    }
  }

  lemma {:induction false} MembersPrefix(a: seq<RelationEvent>, b: seq<RelationEvent>, k: nat, assembly: Id, main: Id)
    requires k <= |a|
    ensures MembersBefore(a + b, k, assembly, main) == MembersBefore(a, k, assembly, main)
  {
    if k > 0 { MembersPrefix(a, b, k - 1, assembly, main); }
  }

  /** An assembly that is not open any more, or was never started, gets no members. */
  lemma {:induction false} NoMembership(input: Input, kinds: map<Id, ObjectKind>, ledger: Ledger, items: seq<Item>,
                                        open: Option<(Id, Id)>, started: set<Id>, assembly: Id, k: nat)
    requires Grouped(items, open, started) && assembly in started && (open.Some? ==> open.value.0 != assembly)
    requires k < |Stream(input, kinds, ledger, items)| && Stream(input, kinds, ledger, items)[k].Emitted?
    ensures var r := Stream(input, kinds, ledger, items)[k].item;
            !(r.kind.InAssembly? && r.origin.AssemblyMembership? && r.target == assembly)
    decreases |items|
  {
    hide ValidEdge;
    var (next, events) := Step(input, kinds, ledger, items[0]);
    if k >= |events| {
      match items[0]
      case MainItem(a, main) =>
          NoMembership(input, kinds, next, items[1..], Some((a, main)), started + {a}, assembly, k - |events|);
      case AssemblyEnd => NoMembership(input, kinds, next, items[1..], None, started, assembly, k - |events|);
      case _ => NoMembership(input, kinds, next, items[1..], open, started, assembly, k - |events|);
    }
  }

  /** The main facts agree with a table of main members. */
  ghost predicate MainsAgree(items: seq<Item>, mains: map<Id, Id>) {
    forall i :: 0 <= i < |items| && items[i].MainItem? ==>
      items[i].assembly in mains && mains[items[i].assembly] == items[i].main
  }

  /** What one fact contributes to the memberships of an assembly. */
  lemma StepMembership(input: Input, kinds: map<Id, ObjectKind>, ledger: Ledger, item: Item, assembly: Id, main: Id)
    requires item.MainItem? && item.assembly == assembly ==> item.main == main
    requires item.MemberItem? && item.assembly == assembly ==> item.main == main
    ensures var (next, events) := Step(input, kinds, ledger, item);
      var added := MembersBefore(events, |events|, assembly, main);
      && next.memberOrdinal == (match item
           case MainItem(_, _) => 1
           case AssemblyEnd => 1
           case MemberItem(a, _, _) => if a == assembly then ledger.memberOrdinal + added else next.memberOrdinal
           case _ => ledger.memberOrdinal)
      && (added > 0 ==> item.MemberItem? && item.assembly == assembly)
      && (|events| == 1 && events[0].Emitted? ==>
            var r := events[0].item;
            r.kind.InAssembly? && r.origin.AssemblyMembership? && r.target == assembly ==>
              || (item.MainItem? && item.assembly == assembly && r.source == main && r.ordinal == 0)
              || (item.MemberItem? && item.assembly == assembly && r.source != main
                  && r.ordinal == ledger.memberOrdinal))
  {
    hide ValidEdge;
    var (next, events) := Step(input, kinds, ledger, item);
    if |events| == 1 { assert MembersBefore(events, 0, assembly, main) == 0; }
  }

  /** The assembly a fact is about, if it is a membership fact, has its main member in the table. */
  lemma MemberFactsAgree(items: seq<Item>, open: Option<(Id, Id)>, started: set<Id>, mains: map<Id, Id>)
    requires items != [] && Grouped(items, open, started) && MainsAgree(items, mains)
    requires open.Some? ==> open.value.0 in mains && mains[open.value.0] == open.value.1
    ensures items[0].MainItem? || items[0].MemberItem? ==>
              items[0].assembly in mains && mains[items[0].assembly] == items[0].main
    ensures MainsAgree(items[1..], mains)
    ensures items[0].MemberItem? ==> open == Some((items[0].assembly, items[0].main))
    ensures items[0].MainItem? ==> items[0].assembly !in started
    ensures Grouped(items[1..], OpenAfter(items[0], open), if items[0].MainItem? then started + {items[0].assembly}
        else started)
  {
    assert forall i :: 0 <= i < |items[1..]| ==> items[1..][i] == items[i + 1];
  }

  lemma TargetHasMain(input: Input, kinds: map<Id, ObjectKind>, ledger: Ledger, item: Item)
    ensures var events := Step(input, kinds, ledger, item).1;
      |events| == 1 && events[0].Emitted? && events[0].item.kind.InAssembly?
          && events[0].item.origin.AssemblyMembership? ==>
        (item.MainItem? || item.MemberItem?) && item.assembly == events[0].item.target
  {
    hide ValidEdge;
  }

  /**
   Within an assembly the main member has ordinal 0, and the others count up by one from
   the next member ordinal (of the open assembly) or from 1 (of any other).
   */
  lemma {:induction false} MemberOrdinalsCount(input: Input, kinds: map<Id, ObjectKind>, ledger: Ledger,
                                               items: seq<Item>,
                                               open: Option<(Id, Id)>, started: set<Id>, mains: map<Id, Id>, k: nat)
    requires Grouped(items, open, started) && MainsAgree(items, mains)
    requires open.Some? ==> open.value.0 in started && open.value.0 in mains && mains[open.value.0] == open.value.1
    requires k < |Stream(input, kinds, ledger, items)| && Stream(input, kinds, ledger, items)[k].Emitted?
    requires var r := Stream(input, kinds, ledger, items)[k].item; r.kind.InAssembly? && r.origin.AssemblyMembership?
    ensures var stream := Stream(input, kinds, ledger, items);
      var r := stream[k].item;
      && r.target in mains
      && r.ordinal == if r.source == mains[r.target] then 0
                      else (if open.Some? && open.value.0 == r.target then ledger.memberOrdinal else 1)
                           + MembersBefore(stream, k, r.target, mains[r.target])
    decreases |items|
  {
    hide Step, Grouped, MainsAgree;
    var item, rest := items[0], items[1..];
    var (next, events) := Step(input, kinds, ledger, item);
    var later := Stream(input, kinds, next, rest);
    var r := Stream(input, kinds, ledger, items)[k].item;
    MemberFactsAgree(items, open, started, mains);
    TargetHasMain(input, kinds, ledger, item);
    if k < |events| {
      StepMembership(input, kinds, ledger, item, r.target, mains[r.target]);
    } else {
      var open', started' := OpenAfter(item, open), if item.MainItem? then started + {item.assembly} else started;
      if open.Some? && open.value.0 == r.target && open' != open {
        NoMembership(input, kinds, next, rest, open', started', r.target, k - |events|);
      } else {
        MemberOrdinalsCount(input, kinds, next, rest, open', started', mains, k - |events|);
        StepMembership(input, kinds, ledger, item, r.target, mains[r.target]);
        MembersBeforeConcat(events, later, k - |events|, r.target, mains[r.target]);
      }
    }
  }

  function OpenAfter(item: Item, open: Option<(Id, Id)>): Option<(Id, Id)> {
    match item
    case MainItem(assembly, main) => Some((assembly, main))
    case AssemblyEnd => None
    case _ => open
  }

  // ----- Which pairs are related -----

  datatype Fact = Fact(kind: RelationKind, source: Id, target: Id)

  function FactOf(r: Relation): Fact {
    Fact(r.kind, r.source, r.target)
  }

  /** The pair a persisted fact relates, if it relates any: two live model elements of fitting kinds. */
  function Wish(input: Input, kinds: map<Id, ObjectKind>, item: Item): Option<Fact> {
    var fact :=
      match item
      case ParentItem(element) => Some(Fact(Subelement, element.parent, element.id))
      case StoredItem(Some(row)) =>
        if row.hidden then None
        else if IsSubelementRelation(row.relation) then Some(Fact(Subelement, row.source, row.target))
        else if row.relation == 47 && HasKind(kinds, row.target, IsReinforcement)
            && HasKind(kinds, row.source, IsHost) then
          Some(Fact(HostedOn, row.target, row.source))
        else None
      case MainItem(assembly, main) => Some(Fact(InAssembly, main, assembly))
      case MemberItem(assembly, main, member) => if member == main then None
          else Some(Fact(InAssembly, member, assembly))
      case PourItem(pour) => Some(Fact(InAssembly, pour.poured, pour.pourUnit))
      case SpliceItem(splice, second) =>
          Some(Fact(ConnectsTo, splice.id, if second then splice.second else splice.first))
      case SurfaceItem(surface) =>
        if HasKind(kinds, surface.surface, (kind: ObjectKind) => kind.SurfaceObject?)
            && HasKind(kinds, surface.host, IsHost) then
          Some(Fact(HostedOn, surface.surface, surface.host))
        else None
      case JointItem(Some(row)) => if row.hidden then None else Some(Fact(ConnectsTo, row.primary, row.secondary))
      case _ => None;
    if fact.Some? && ValidEdge(input, kinds, fact.value.source, fact.value.target) then fact else None
  }

  predicate HasKind(kinds: map<Id, ObjectKind>, id: Id, test: ObjectKind -> bool) {
    id in kinds && test(kinds[id])
  }

  ghost predicate Related(stream: seq<RelationEvent>, fact: Fact) {
    exists k :: 0 <= k < |stream| && stream[k].Emitted? && FactOf(stream[k].item) == fact
  }

  ghost predicate Wished(input: Input, kinds: map<Id, ObjectKind>, items: seq<Item>, fact: Fact) {
    exists i :: 0 <= i < |items| && Wish(input, kinds, items[i]) == Some(fact)
  }

  /** The pair is already recorded; memberships are never recorded. */
  ghost predicate Settled(ledger: Ledger, fact: Fact) {
    match fact.kind
    case Subelement => (fact.source, fact.target) in ledger.subelements
    case HostedOn => (fact.source, fact.target) in ledger.hosted
    case ConnectsTo => (fact.source, fact.target) in ledger.connections
    case InAssembly => false
  }

  lemma StepWishes(input: Input, kinds: map<Id, ObjectKind>, ledger: Ledger, item: Item, fact: Fact)
    ensures var (next, events) := Step(input, kinds, ledger, item);
      && (Related(events, fact) ==> Wish(input, kinds, item) == Some(fact))
      && (Wish(input, kinds, item) == Some(fact) ==> Settled(ledger, fact) || Related(events, fact))
      && (Settled(next, fact) ==> Settled(ledger, fact) || Related(events, fact))
  {
    hide ValidEdge;
    var (next, events) := Step(input, kinds, ledger, item);
    if item.MemberItem? { NotItsOwnMember(input, kinds, item.assembly); }
    if |events| == 1 && events[0].Emitted? { assert Related(events, FactOf(events[0].item)); }
  }

  lemma NotItsOwnMember(input: Input, kinds: map<Id, ObjectKind>, id: Id)
    ensures !ValidEdge(input, kinds, id, id)
  {
  }

  lemma RelatedConcat(a: seq<RelationEvent>, b: seq<RelationEvent>, fact: Fact)
    ensures Related(a + b, fact) <==> Related(a, fact) || Related(b, fact)
  {
    if Related(a, fact) {
      var k :| 0 <= k < |a| && a[k].Emitted? && FactOf(a[k].item) == fact;
      assert (a + b)[k] == a[k];
    } else if Related(b, fact) {
      var k :| 0 <= k < |b| && b[k].Emitted? && FactOf(b[k].item) == fact;
      assert (a + b)[|a| + k] == b[k];
    }
  }

  lemma WishedFirst(input: Input, kinds: map<Id, ObjectKind>, items: seq<Item>, fact: Fact)
    requires items != []
    ensures Wished(input, kinds, items, fact) <==>
              Wish(input, kinds, items[0]) == Some(fact) || Wished(input, kinds, items[1..], fact)
  {
    hide Wish;
    if Wished(input, kinds, items[1..], fact) {
      var i :| 0 <= i < |items[1..]| && Wish(input, kinds, items[1..][i]) == Some(fact);
      assert items[i + 1] == items[1..][i];
    }
    if i :| 0 <= i < |items| && Wish(input, kinds, items[i]) == Some(fact) && i > 0 {
      assert items[1..][i - 1] == items[i];
    }
  }

  /** A pair is related by the stream if and only if some fact wishes it and it was not settled before. */
  lemma {:induction false} WishesAreRelated(input: Input, kinds: map<Id, ObjectKind>, ledger: Ledger, items: seq<Item>,
                                            fact: Fact)
    ensures Related(Stream(input, kinds, ledger, items), fact) ==> Wished(input, kinds, items, fact)
    ensures Wished(input, kinds, items, fact) ==>
              Settled(ledger, fact) || Related(Stream(input, kinds, ledger, items), fact)
    decreases |items|
  {
    hide Step, Wish, Settled, Related, Wished;
    if items == [] {
      NothingWished(input, kinds, fact);
    } else {
      var (next, events) := Step(input, kinds, ledger, items[0]);
      StepWishes(input, kinds, ledger, items[0], fact);
      WishesAreRelated(input, kinds, next, items[1..], fact);
      RelatedConcat(events, Stream(input, kinds, next, items[1..]), fact);
      WishedFirst(input, kinds, items, fact);
    }
  }

  lemma NothingWished(input: Input, kinds: map<Id, ObjectKind>, fact: Fact)
    ensures !Wished(input, kinds, [], fact) && !Related([], fact)
  {
  }
}
