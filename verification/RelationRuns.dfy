/**
 The laws of whole relation streams: for every input the list builder makes, the facts of
 the stream are grouped and free of repetition, so every law of the stream applies.
 */
module RelationRuns {
  import opened Batches
  import opened SemanticRelations
  import opened RelationLaws
  import opened RelationLists
  import opened Wrappers

  // ----- Facts without memberships -----

  predicate IsPlain(item: Item) {
    !item.MainItem? && !item.MemberItem? && !item.AssemblyEnd? && !item.PourItem?
  }

  ghost predicate AllPlain(items: seq<Item>) {
    forall i :: 0 <= i < |items| ==> IsPlain(items[i])
  }

  lemma {:induction false} ParentsArePlain(objects: seq<Element>)
    ensures AllPlain(ParentItems(objects))
  {
    if objects != [] { ParentsArePlain(objects[1..]); }
  }

  lemma {:induction false} StoredArePlain(rows: seq<Option<RelationRow>>)
    ensures AllPlain(StoredItems(rows))
  {
    if rows != [] { StoredArePlain(rows[1..]); }
  }

  lemma {:induction false} JointsArePlain(rows: seq<Option<JointRow>>)
    ensures AllPlain(JointItems(rows))
  {
    if rows != [] { JointsArePlain(rows[1..]); }
  }

  lemma {:induction false} SplicesArePlain(splices: seq<Splice>)
    ensures AllPlain(SpliceItems(splices))
  {
    if splices != [] { SplicesArePlain(splices[1..]); }
  }

  lemma {:induction false} SurfacesArePlain(surfaces: seq<SurfaceHost>)
    ensures AllPlain(SurfaceItems(surfaces))
  {
    if surfaces != [] { SurfacesArePlain(surfaces[1..]); }
  }

  ghost predicate AllPours(items: seq<Item>, pours: seq<Pour>) {
    |items| == |pours| && forall i :: 0 <= i < |items| ==> items[i] == PourItem(pours[i])
  }

  lemma {:induction false} PoursAreInOrder(pours: seq<Pour>)
    ensures AllPours(PourItems(pours), pours)
  {
    if pours != [] { PoursAreInOrder(pours[1..]); }
  }

  lemma {:induction false} MembersAreInOrder(assembly: Id, main: Id, members: seq<Id>)
    ensures |MemberItems(assembly, main, members)| == |members|
    ensures forall i :: 0 <= i < |members| ==>
        MemberItems(assembly, main, members)[i] == MemberItem(assembly, main, members[i])
  {
    if members != [] { MembersAreInOrder(assembly, main, members[1..]); }
  }

  /** The facts fall into plain ones, those of the assemblies, pours, and plain ones again. */
  lemma ItemsInParts(input: Input) returns (before: seq<Item>, pours: seq<Item>, after: seq<Item>)
    requires WellFormed(input)
    ensures AllItems(input) == before + (AssemblyItems(input, input.assemblies) + (pours + after))
    ensures AllPlain(before) && AllPours(pours, input.pours) && AllPlain(after)
  {
    hide ParentItems, StoredItems, AssemblyItems, PourItems, SpliceItems, SurfaceItems, JointItems, RowsOf;
    var stored, joints := RowsOf(input.relations), RowsOf(input.joints);
    ParentsArePlain(input.objects);
    StoredArePlain(stored);
    PoursAreInOrder(input.pours);
    SplicesArePlain(input.splices);
    SurfacesArePlain(input.surfaces);
    JointsArePlain(joints);
    before, pours := ParentItems(input.objects) + StoredItems(stored), PourItems(input.pours);
    after := SpliceItems(input.splices) + (SurfaceItems(input.surfaces) + JointItems(joints));
    var rest := AssemblyItems(input, input.assemblies) + (pours + after);
    Unfold(input);
    assert before + rest == ParentItems(input.objects) + (StoredItems(stored) + rest);
    PlainConcat(ParentItems(input.objects), StoredItems(stored));
    PlainConcat(SurfaceItems(input.surfaces), JointItems(joints));
    PlainConcat(SpliceItems(input.splices), SurfaceItems(input.surfaces) + JointItems(joints));
  }

  lemma Unfold(input: Input)
    requires WellFormed(input)
    ensures AllItems(input) ==
      ParentItems(input.objects) + (StoredItems(RowsOf(input.relations)) + (AssemblyItems(input, input.assemblies)
      + (PourItems(input.pours)
          + (SpliceItems(input.splices) + (SurfaceItems(input.surfaces) + JointItems(RowsOf(input.joints)))))))
  {
    hide ParentItems, StoredItems, AssemblyItems, PourItems, SpliceItems, SurfaceItems, JointItems, RowsOf;
    assert After(input, RebarSplices) == SurfaceItems(input.surfaces) + JointItems(RowsOf(input.joints));
    assert After(input, Assemblies)
        == PourItems(input.pours) + (SpliceItems(input.splices) + After(input, RebarSplices));
  }

  lemma PlainConcat(a: seq<Item>, b: seq<Item>)
    requires AllPlain(a) && AllPlain(b)
    ensures AllPlain(a + b)
  {
    hide IsPlain;
  }

  // ----- No membership is stated twice -----

  ghost predicate States(items: seq<Item>, key: Key) {
    exists i :: 0 <= i < |items| && MembershipKey(items[i]) == Some(key)
  }

  lemma DistinctConcat(a: seq<Item>, b: seq<Item>)
    requires DistinctMemberships(a) && DistinctMemberships(b)
    requires forall key :: States(a, key) ==> !States(b, key)
    ensures DistinctMemberships(a + b)
  {
    var all := a + b;
    forall i, j | 0 <= i < j < |all| && MembershipKey(all[i]).Some?
        ensures MembershipKey(all[i]) != MembershipKey(all[j])
    {
      if i < |a| && |a| <= j {
        var key := MembershipKey(all[i]).value;
        assert MembershipKey(a[i]) == Some(key) && States(a, key);
        assert !States(b, key) && b[j - |a|] == all[j];
      }
    }
  }

  lemma StatesConcat(a: seq<Item>, b: seq<Item>, key: Key)
    requires States(a + b, key)
    ensures States(a, key) || States(b, key)
  {
    var i :| 0 <= i < |a + b| && MembershipKey((a + b)[i]) == Some(key);
    if i < |a| { assert MembershipKey(a[i]) == Some(key); } else { assert MembershipKey(b[i - |a|]) == Some(key); }
  }

  /** The membership facts of the assemblies from position `k` on concern those assemblies only. */
  lemma {:induction false} AssembliesStateTheirOwn(input: Input, assemblies: seq<Id>, key: Key)
    requires forall a :: a in assemblies ==> a in input.mains
    requires States(AssemblyItems(input, assemblies), key)
    ensures key.target in assemblies && key.origin.AssemblyMembership?
  {
    var assembly := assemblies[0];
    var main, members, rest := input.mains[assembly], MembersOf(input, assembly), AssemblyItems(input, assemblies[1..]);
    MembersAreInOrder(assembly, main, members);
    var own := [MainItem(assembly, main)] + MemberItems(assembly, main, members) + [AssemblyEnd];
    StatesConcat(own, rest, key);
    if !States(own, key) { AssembliesStateTheirOwn(input, assemblies[1..], key); }
  }

  lemma OwnFactsAreDistinct(assembly: Id, main: Id, members: seq<Id>)
    requires Distinct(members)
    ensures DistinctMemberships([MainItem(assembly, main)] + MemberItems(assembly, main, members) + [AssemblyEnd])
  {
    MembersAreInOrder(assembly, main, members);
  }

  lemma {:induction false} AssemblyFactsAreDistinct(input: Input, assemblies: seq<Id>)
    requires forall a :: a in assemblies ==> a in input.mains
    requires Distinct(assemblies) && forall assembly :: Distinct(MembersOf(input, assembly))
    ensures DistinctMemberships(AssemblyItems(input, assemblies))
  {
    if assemblies != [] {
      var assembly, later := assemblies[0], assemblies[1..];
      var main, members, rest := input.mains[assembly], MembersOf(input, assembly), AssemblyItems(input, later);
      var own := [MainItem(assembly, main)] + MemberItems(assembly, main, members) + [AssemblyEnd];
      OwnFactsAreDistinct(assembly, main, members);
      AssemblyFactsAreDistinct(input, later);
      MembersAreInOrder(assembly, main, members);
      forall key | States(own, key) ensures !States(rest, key) {
        assert key.target == assembly;
        if States(rest, key) { AssembliesStateTheirOwn(input, later, key); }
      }
      DistinctConcat(own, rest);
    }
  }

  lemma PlainStatesNothing(items: seq<Item>, key: Key)
    requires AllPlain(items)
    ensures !States(items, key) && DistinctMemberships(items)
  {
  }

  lemma PourFactsAreDistinct(items: seq<Item>, pours: seq<Pour>)
    requires AllPours(items, pours) && Distinct(pours)
    ensures DistinctMemberships(items)
    ensures forall key :: States(items, key) ==> key.origin.PourMembership?
  {
  }

  lemma NoRepeatedMembership(input: Input)
    requires WellBuilt(input)
    ensures DistinctMemberships(AllItems(input))
  {
    hide AllItems, AssemblyItems, DistinctMemberships, States, AllPlain, AllPours, MembershipKey, Distinct;
    var before, pours, after := ItemsInParts(input);
    var owned := AssemblyItems(input, input.assemblies);
    AssemblyFactsAreDistinct(input, input.assemblies);
    PourFactsAreDistinct(pours, input.pours);
    forall key: Key ensures !States(before, key) && !States(after, key) {
      PlainStatesNothing(before, key);
      PlainStatesNothing(after, key);
    }
    var some: Key :| true;
    PlainStatesNothing(before, some);
    PlainStatesNothing(after, some);
    DistinctConcat(pours, after);
    forall key | States(owned, key) ensures !States(pours + after, key) {
      AssembliesStateTheirOwn(input, input.assemblies, key);
      if States(pours + after, key) { StatesConcat(pours, after, key); }
    }
    DistinctConcat(owned, pours + after);
    DistinctConcat(before, owned + (pours + after));
  }

  // ----- The assemblies are grouped -----

  lemma {:induction false} UngroupedPrefix(items: seq<Item>, rest: seq<Item>, open: Option<(Id, Id)>, started: set<Id>)
    requires forall i :: 0 <= i < |items| ==> IsPlain(items[i]) || items[i].PourItem?
    requires Grouped(rest, open, started)
    ensures Grouped(items + rest, open, started)
    decreases |items|
  {
    if items == [] {
      assert items + rest == rest;
    } else {
      UngroupedPrefix(items[1..], rest, open, started);
      assert (items + rest)[1..] == items[1..] + rest;
      assert IsPlain(items[0]) || items[0].PourItem?;
    }
  }

  lemma {:induction false} MembersGrouped(assembly: Id, main: Id, members: seq<Id>, rest: seq<Item>, started: set<Id>)
    requires Grouped(rest, None, started)
    ensures Grouped(MemberItems(assembly, main, members) + ([AssemblyEnd] + rest), Some((assembly, main)), started)
  {
    var items := MemberItems(assembly, main, members);
    if members == [] {
      assert items + ([AssemblyEnd] + rest) == [AssemblyEnd] + rest && ([AssemblyEnd] + rest)[1..] == rest;
    } else {
      MembersGrouped(assembly, main, members[1..], rest, started);
      assert (items + ([AssemblyEnd] + rest))[1..]
          == MemberItems(assembly, main, members[1..]) + ([AssemblyEnd] + rest);
    }
  }

  lemma {:induction false} AssembliesGrouped(input: Input, assemblies: seq<Id>, rest: seq<Item>, started: set<Id>)
    requires AllNew(input, assemblies, started) && Distinct(assemblies)
    requires forall all: set<Id> :: Grouped(rest, None, all)
    ensures Grouped(AssemblyItems(input, assemblies) + rest, None, started)
    decreases |assemblies|
  {
    hide Grouped, Distinct, MembersOf, MemberItems, AllNew;
    if assemblies == [] {
      assert AssemblyItems(input, assemblies) + rest == rest;
    } else {
      var assembly, later := assemblies[0], assemblies[1..];
      LaterAreNew(input, assemblies, started);
      AssembliesGrouped(input, later, rest, started + {assembly});
      FirstGrouped(input, assemblies, rest, started);
    }
  }

  /** The assemblies have main members and have not been started. */
  ghost predicate AllNew(input: Input, assemblies: seq<Id>, started: set<Id>)
    ensures AllNew(input, assemblies, started) ==> forall a :: a in assemblies ==> a in input.mains
  {
    forall a :: a in assemblies ==> a in input.mains && a !in started
  }

  lemma LaterAreNew(input: Input, assemblies: seq<Id>, started: set<Id>)
    requires AllNew(input, assemblies, started) && Distinct(assemblies) && assemblies != []
    ensures assemblies[0] in input.mains && assemblies[0] !in started && Distinct(assemblies[1..])
    ensures AllNew(input, assemblies[1..], started + {assemblies[0]})
  {
    var later := assemblies[1..];
    forall a | a in later ensures a in input.mains && a !in started + {assemblies[0]} {
      var k :| 0 <= k < |later| && later[k] == a;
      assert assemblies[k + 1] == a;
    }
  }

  lemma FirstGrouped(input: Input, assemblies: seq<Id>, rest: seq<Item>, started: set<Id>)
    requires assemblies != [] && (forall a :: a in assemblies ==> a in input.mains) && assemblies[0] !in started
    requires Grouped(AssemblyItems(input, assemblies[1..]) + rest, None, started + {assemblies[0]})
    ensures Grouped(AssemblyItems(input, assemblies) + rest, None, started)
  {
    hide Grouped, MembersOf, MemberItems;
    var assembly := assemblies[0];
    var main, members, tail :=
        input.mains[assembly], MembersOf(input, assembly), AssemblyItems(input, assemblies[1..]) + rest;
    MembersGrouped(assembly, main, members, tail, started + {assembly});
    var own := MemberItems(assembly, main, members) + ([AssemblyEnd] + tail);
    assert AssemblyItems(input, assemblies) + rest == [MainItem(assembly, main)] + own;
    MainGrouped(assembly, main, own, started);
  }

  lemma MainGrouped(assembly: Id, main: Id, own: seq<Item>, started: set<Id>)
    requires assembly !in started && Grouped(own, Some((assembly, main)), started + {assembly})
    ensures Grouped([MainItem(assembly, main)] + own, None, started)
  {
    assert ([MainItem(assembly, main)] + own)[1..] == own;
  }

  lemma {:induction false} MainsOfAssemblies(input: Input, assemblies: seq<Id>)
    requires forall a :: a in assemblies ==> a in input.mains
    ensures MainsAgree(AssemblyItems(input, assemblies), input.mains)
  {
    if assemblies != [] {
      MembersAreInOrder(assemblies[0], input.mains[assemblies[0]], MembersOf(input, assemblies[0]));
      MainsOfAssemblies(input, assemblies[1..]);
    }
  }

  lemma AssembliesAreGrouped(input: Input)
    requires WellBuilt(input)
    ensures Grouped(AllItems(input), None, {}) && MainsAgree(AllItems(input), input.mains)
  {
    hide AllItems, AssemblyItems, Distinct;
    var before, pours, after := ItemsInParts(input);
    var rest := pours + after;
    assert rest + [] == rest;
    forall all: set<Id> ensures Grouped(rest, None, all) {
      UngroupedPrefix(rest, [], None, all);
    }
    AssembliesGrouped(input, input.assemblies, rest, {});
    UngroupedPrefix(before, AssemblyItems(input, input.assemblies) + rest, None, {});
    MainsOfAssemblies(input, input.assemblies);
  }

  // ----- The laws of the whole stream -----

  ghost predicate EmittedAt(input: Input, k: nat)
    requires WellFormed(input)
  {
    k < |OnePass(input)| && OnePass(input)[k].Emitted?
  }

  /** Every stream relates exactly the pairs that its facts wish. */
  lemma StreamsRelateWishes(input: Input, fact: Fact)
    requires WellFormed(input)
    ensures Related(OnePass(input), fact) <==> Wished(input, KindsOf(input.objects), AllItems(input), fact)
  {
    hide AllItems, Related, Wished, Stream;
    WishesAreRelated(input, KindsOf(input.objects), EmptyLedger(), AllItems(input), fact);
    NothingSettled(fact);
  }

  lemma NothingSettled(fact: Fact)
    ensures !Settled(EmptyLedger(), fact)
  {
  }

  /** In every stream, relations join distinct live model elements and never repeat. */
  lemma StreamsDoNotRepeat(input: Input, i: nat, j: nat)
    requires WellBuilt(input) && i < j && EmittedAt(input, i) && EmittedAt(input, j)
    ensures ValidEdge(input, KindsOf(input.objects), OnePass(input)[i].item.source, OnePass(input)[i].item.target)
    ensures KeyOf(OnePass(input)[i].item) != KeyOf(OnePass(input)[j].item)
  {
    hide AllItems, ValidEdge, DistinctMemberships;
    NoRepeatedMembership(input);
    EndpointsAreLive(input, KindsOf(input.objects), EmptyLedger(), AllItems(input), i);
    RelationsAreDistinct(input, KindsOf(input.objects), EmptyLedger(), AllItems(input), i, j);
  }

  /** In every stream, the n-th child of a parent has ordinal n, below the number of live objects. */
  lemma StreamsNumberChildren(input: Input, k: nat)
    requires WellFormed(input) && EmittedAt(input, k) && OnePass(input)[k].item.kind.Subelement?
    ensures var r := OnePass(input)[k].item;
            r.ordinal == ChildrenBefore(OnePass(input), k, r.source) < |input.endpoints|
  {
    hide AllItems;
    forall parent: Id ensures BoundedBy(input, EmptyLedger(), parent) {
      assert ChildrenOf(EmptyLedger(), parent) == {};
    }
    ChildOrdinalsCount(input, KindsOf(input.objects), EmptyLedger(), AllItems(input), k);
    ChildOrdinalsFit(input, KindsOf(input.objects), EmptyLedger(), AllItems(input), k);
  }

  /** In every stream, only the main member of an assembly has ordinal 0, and the n-th other member has ordinal n. */
  lemma StreamsNumberMembers(input: Input, k: nat)
    requires WellBuilt(input) && EmittedAt(input, k)
    requires var r := OnePass(input)[k].item; r.kind.InAssembly? && r.origin.AssemblyMembership?
    ensures var r := OnePass(input)[k].item;
            && r.target in input.mains
            && r.ordinal == if r.source == input.mains[r.target] then 0
                            else 1 + MembersBefore(OnePass(input), k, r.target, input.mains[r.target])
  {
    hide AllItems, Grouped, MainsAgree;
    AssembliesAreGrouped(input);
    MemberOrdinalsCount(input, KindsOf(input.objects), EmptyLedger(), AllItems(input), None, {}, input.mains, k);
  }
}
