/** Which property an object ends up with, told from the stored links and definitions alone. */
module PropertyLaws {
  import opened Batches
  import opened PropertyWinners
  import opened Wrappers

  // ----- Links -----

  /** The row links the object to the definition of that name, found in the map of the source's family. */
  ghost predicate Links(defs: Definitions, sources: seq<Source>, p: Place, father: Id, d: Definition) {
    && p.source < |sources| && p.row < |sources[p.source].rows|
    && var source, row := sources[p.source], sources[p.source].rows[p.row];
    && row.Some? && row.value.father == father
    && match source.family
       case Numeric => row.value.definition in defs.numeric && defs.numeric[row.value.definition] == d
       case Strings => row.value.definition in defs.strings && defs.strings[row.value.definition] == d
       case References => row.value.definition in defs.references && defs.references[row.value.definition] == d
  }

  lemma LinksResolve(defs: Definitions, sources: seq<Source>, p: Place, father: Id, d: Definition)
    ensures Links(defs, sources, p, father, d) <==>
            && Resolves(defs, sources, p) && DefinitionAt(defs, sources, p) == d
            && KeyAt(defs, sources, p) == Key(father, d.name)
    ensures Links(defs, sources, p, father, d) ==>
              PropertyAt(defs, sources, p) == Property(father, d.name, d.kind, d.value)
  {
  }

  // ----- What the stream holds -----

  lemma {:induction false} StatedIsEmitted(defs: Definitions, sources: seq<Source>, p: Place, from: Place)
    requires States(defs, sources, p) && !Earlier(p, from)
    ensures Emitted(PropertyAt(defs, sources, p)) in StreamFrom(defs, sources, from)
    decreases |sources| - from.source, RowsLeft(sources, from)
  {
    hide States;
    StatesResolves(defs, sources, p);
    if !InRange(sources, from) {
      StatedIsEmitted(defs, sources, p, Place(from.source + 1, 0));
    } else if p != from {
      StatedIsEmitted(defs, sources, p, Place(from.source, from.row + 1));
    }
  }

  lemma {:induction false} EmittedIsStated(defs: Definitions, sources: seq<Source>, from: Place, property: Property)
    returns (p: Place)
    requires Emitted(property) in StreamFrom(defs, sources, from)
    ensures States(defs, sources, p) && Resolves(defs, sources, p) && PropertyAt(defs, sources, p) == property
    decreases |sources| - from.source, RowsLeft(sources, from)
  {
    hide States;
    if !InRange(sources, from) {
      p := EmittedIsStated(defs, sources, Place(from.source + 1, 0), property);
    } else if Emitted(property) in RowEvents(defs, sources, from) {
      p := from;
      StatesResolves(defs, sources, p);
    } else {
      p := EmittedIsStated(defs, sources, Place(from.source, from.row + 1), property);
    }
  }

  /** Every property in the stream is what some link says. */
  lemma EmittedIsLinked(defs: Definitions, sources: seq<Source>, property: Property)
    requires Emitted(property) in StreamFrom(defs, sources, Place(0, 0))
    ensures exists p, d :: Links(defs, sources, p, property.father, d)
              && property.name == d.name && property.kind == d.kind && property.value == d.value
  {
    hide States, StreamFrom;
    var p := EmittedIsStated(defs, sources, Place(0, 0), property);
    LinksResolve(defs, sources, p, property.father, DefinitionAt(defs, sources, p));
  }

  /** What a link says of a name that only one definition carries is in the stream. */
  lemma UncontestedIsEmitted(defs: Definitions, sources: seq<Source>, p: Place, father: Id, d: Definition)
    requires Links(defs, sources, p, father, d) && !Ambiguous(defs, d.name)
    ensures Emitted(Property(father, d.name, d.kind, d.value)) in StreamFrom(defs, sources, Place(0, 0))
  {
    hide Ambiguous, StreamFrom;
    LinksResolve(defs, sources, p, father, d);
    StatedIsEmitted(defs, sources, p, Place(0, 0));
  }

  // ----- Which link wins -----

  /** References come before numbers, and numbers before texts. */
  predicate Outclasses(a: Kind, b: Kind) {
    (a.Reference? && !b.Reference?) || ((a.Integer? || a.Floating?) && b.Text?)
  }

  /** The link is of the best kind that the object has for the name, and the first of that kind in stored order. */
  ghost predicate IsBest(defs: Definitions, sources: seq<Source>, p: Place, father: Id, d: Definition) {
    && Links(defs, sources, p, father, d)
    && forall q, e :: Links(defs, sources, q, father, e) && e.name == d.name && q != p ==>
         Outclasses(d.kind, e.kind)
         || (!Outclasses(e.kind, d.kind) && (p.source < q.source || (p.source == q.source && p.row < q.row)))
  }

  lemma BestIsStated(defs: Definitions, sources: seq<Source>, p: Place, father: Id, d: Definition)
    requires Links(defs, sources, p, father, d) && Ambiguous(defs, d.name)
    ensures States(defs, sources, p) <==> IsBest(defs, sources, p, father, d)
  {
    hide Ambiguous, Links;
    LinksResolve(defs, sources, p, father, d);
    forall q, e ensures Links(defs, sources, q, father, e) && e.name == d.name && q != p ==>
        && Resolves(defs, sources, q)
        && (Rival(defs, sources, p, q) <==>
              !(Outclasses(d.kind, e.kind)
                || (!Outclasses(e.kind, d.kind) && (p.source < q.source || (p.source == q.source && p.row < q.row))))) {
      LinksResolve(defs, sources, q, father, e);
    }
    if !States(defs, sources, p) {
      var q :| Rival(defs, sources, p, q);
      LinksResolve(defs, sources, q, father, DefinitionAt(defs, sources, q));
      assert Links(defs, sources, q, father, DefinitionAt(defs, sources, q));
    }
  }

  lemma {:induction false} OnlyMention(events: seq<Event<Property>>, key: Key, i: nat)
    requires i < |events| && Mentions(events, key) == 1
    requires events[i].Emitted? && Key(events[i].item.father, events[i].item.name) == key
    ensures forall j :: 0 <= j < |events| && j != i && events[j].Emitted? ==>
              Key(events[j].item.father, events[j].item.name) != key
  {
    if i > 0 {
      if Mentions(events[1..], key) == 0 { NoMention(events[1..], key, i - 1); }
      OnlyMention(events[1..], key, i - 1);
    } else {
      forall j | 1 <= j < |events| && events[j].Emitted?
          ensures Key(events[j].item.father, events[j].item.name) != key {
        NoMention(events[1..], key, j - 1);
      }
    }
  }

  lemma {:induction false} NoMention(events: seq<Event<Property>>, key: Key, j: nat)
    requires j < |events| && Mentions(events, key) == 0
    ensures events[j].Emitted? ==> Key(events[j].item.father, events[j].item.name) != key
  {
    if j > 0 { NoMention(events[1..], key, j - 1); }
  }

  /**
   An object with links of an ambiguous name has one property of that name in the stream. It is
   a reference if any of those links leads to one, else a number if any leads to one, else a
   text, and is what the earliest link of that kind says.
   */
  lemma BestLinkIsEmitted(defs: Definitions, sources: seq<Source>, some: Place, father: Id, other: Definition)
    requires Links(defs, sources, some, father, other) && Ambiguous(defs, other.name)
    ensures var stream := StreamFrom(defs, sources, Place(0, 0));
      exists p, d, i :: IsBest(defs, sources, p, father, d) && d.name == other.name
        && 0 <= i < |stream| && stream[i] == Emitted(Property(father, d.name, d.kind, d.value))
        && forall j :: 0 <= j < |stream| && j != i && stream[j].Emitted? ==>
             stream[j].item.father != father || stream[j].item.name != other.name
  {
    hide Ambiguous, StreamFrom, Links, IsBest, States, Mentions, AllLead;
    var stream, key, end := StreamFrom(defs, sources, Place(0, 0)), Key(father, other.name), Place(|sources|, 0);
    LinksResolve(defs, sources, some, father, other);
    ContestedOnce(defs, sources, some);
    var p := WinnerOf(defs, sources, some);
    var d := DefinitionAt(defs, sources, p);
    LinksResolve(defs, sources, p, father, d);
    BestIsStated(defs, sources, p, father, d);
    StatedIsEmitted(defs, sources, p, Place(0, 0));
    var i :| 0 <= i < |stream| && stream[i] == Emitted(PropertyAt(defs, sources, p));
    OnlyMention(stream, key, i);
    assert IsBest(defs, sources, p, father, d) && stream[i] == Emitted(Property(father, d.name, d.kind, d.value));
  }

  /** Among the links of an object and an ambiguous name there is one that states its property. */
  lemma WinnerOf(defs: Definitions, sources: seq<Source>, some: Place) returns (p: Place)
    requires Resolves(defs, sources, some) && Ambiguous(defs, DefinitionAt(defs, sources, some).name)
    ensures Resolves(defs, sources, p) && KeyAt(defs, sources, p) == KeyAt(defs, sources, some)
    ensures States(defs, sources, p)
  {
    hide Ambiguous, AllLead, RankAt, States, Rival, Beats;
    var key, end := KeyAt(defs, sources, some), Place(|sources|, 0);
    var leaders := Leaders(defs, sources, end);
    LeadersLead(defs, sources, end);
    LeadersAt(defs, sources, leaders, key);
    assert Competes(defs, sources, some, key) && Earlier(some, end);
    p := leaders[key].place;
    LeaderStates(defs, sources, key, leaders[key]);
  }
}
