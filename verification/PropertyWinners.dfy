/**
 Attribute properties: when a name is carried by several definitions, each object keeps the
 value of its best link; a first pass finds the best links, a batched reader replays them.
 */
module PropertyWinners {
  import opened Batches
  import opened Wrappers

  type Id = nat

  datatype Kind = Reference | Integer | Floating | Text

  datatype Value = IdValue(id: Id) | WholeValue(whole: int) | RealValue(number: real) | TextValue(text: string)

  datatype Definition = Definition(name: string, kind: Kind, value: Value)

  datatype Family = Numeric | Strings | References

  datatype Definitions = Definitions(
    numeric: map<Id, Definition>, strings: map<Id, Definition>, references: map<Id, Definition>)

  /** A stored link from an object to a definition; a row outside the payload is `None`. */
  datatype LinkRow = LinkRow(father: Id, definition: Id)

  datatype Source = Source(family: Family, rows: seq<Option<LinkRow>>)

  datatype Place = Place(source: nat, row: nat)

  datatype Key = Key(father: Id, name: string)

  datatype Property = Property(father: Id, name: string, kind: Kind, value: Value)

  function Precedence(kind: Kind): nat {
    match kind
    case Reference => 3
    case Integer => 2
    case Floating => 2
    case Text => 1
  }

  function FamilyOf(defs: Definitions, family: Family): map<Id, Definition> {
    match family
    case Numeric => defs.numeric
    case References => defs.references
    case Strings => defs.strings
  }

  // ----- What each link resolves to -----

  predicate InRange(sources: seq<Source>, p: Place) {
    p.source < |sources| && p.row < |sources[p.source].rows|
  }

  predicate Resolves(defs: Definitions, sources: seq<Source>, p: Place) {
    && InRange(sources, p) && sources[p.source].rows[p.row].Some?
    && sources[p.source].rows[p.row].value.definition in FamilyOf(defs, sources[p.source].family)
  }

  function DefinitionAt(defs: Definitions, sources: seq<Source>, p: Place): Definition
    requires Resolves(defs, sources, p)
  {
    FamilyOf(defs, sources[p.source].family)[sources[p.source].rows[p.row].value.definition]
  }

  function KeyAt(defs: Definitions, sources: seq<Source>, p: Place): Key
    requires Resolves(defs, sources, p)
  {
    Key(sources[p.source].rows[p.row].value.father, DefinitionAt(defs, sources, p).name)
  }

  function RankAt(defs: Definitions, sources: seq<Source>, p: Place): nat
    requires Resolves(defs, sources, p)
  {
    Precedence(DefinitionAt(defs, sources, p).kind)
  }

  predicate Earlier(a: Place, b: Place) {
    a.source < b.source || (a.source == b.source && a.row < b.row)
  }

  // ----- Names carried by several definitions -----

  /** The definitions that carry a name. */
  function Carriers(definitions: map<Id, Definition>, name: string): set<Id> {
    set id | id in definitions && definitions[id].name == name
  }

  function CarrierCount(defs: Definitions, name: string): nat {
    |Carriers(defs.references, name)| + |Carriers(defs.numeric, name)| + |Carriers(defs.strings, name)|
  }

  predicate Ambiguous(defs: Definitions, name: string) {
    CarrierCount(defs, name) > 1
  }

  function CountIn(counts: map<string, nat>, name: string): nat {
    if name in counts then counts[name] else 0
  }

  method CountDefinitions(before: map<string, nat>, definitions: map<Id, Definition>) returns (counts: map<string, nat>)
    ensures forall name :: CountIn(counts, name) == CountIn(before, name) + |Carriers(definitions, name)|
  {
    counts := before;
    var left := definitions.Keys;
    ghost var done: set<Id> := {};
    while left != {}
      invariant left + done == definitions.Keys && left !! done
      invariant forall name :: CountIn(counts, name) == CountIn(before, name) + |CarriersAmong(definitions, done, name)|
      decreases |left|
    {
      var id :| id in left;
      ghost var was, seen := counts, done;
      var name := definitions[id].name;
      counts := counts[name := CountIn(counts, name) + 1];
      left := left - {id};
      done := done + {id};
      forall other ensures CountIn(counts, other)
          == CountIn(before, other) + |CarriersAmong(definitions, done, other)|
      {
        OneMoreCarrier(definitions, seen, id, other);
        assert CountIn(was, other) == CountIn(before, other) + |CarriersAmong(definitions, seen, other)|;
      }
    }
    forall name ensures CountIn(counts, name) == CountIn(before, name) + |Carriers(definitions, name)| {
      assert CarriersAmong(definitions, done, name) == Carriers(definitions, name);
    }
  }

  ghost function CarriersAmong(definitions: map<Id, Definition>, ids: set<Id>, name: string): set<Id> {
    set id | id in ids && id in definitions && definitions[id].name == name
  }

  lemma OneMoreCarrier(definitions: map<Id, Definition>, ids: set<Id>, id: Id, name: string)
    requires id in definitions && id !in ids
    ensures |CarriersAmong(definitions, ids + {id}, name)|
            == |CarriersAmong(definitions, ids, name)| + if definitions[id].name == name then 1 else 0
  {
    var before, after := CarriersAmong(definitions, ids, name), CarriersAmong(definitions, ids + {id}, name);
    if definitions[id].name == name { assert after == before + {id}; } else { assert after == before; }
  }

  method FindAmbiguous(defs: Definitions) returns (names: set<string>)
    ensures forall name :: name in names <==> Ambiguous(defs, name)
  {
    var counts := CountDefinitions(map[], defs.references);
    counts := CountDefinitions(counts, defs.numeric);
    counts := CountDefinitions(counts, defs.strings);
    names := set name | name in counts && counts[name] > 1;
    forall name ensures name in names <==> Ambiguous(defs, name) {
      assert CountIn(counts, name) == CarrierCount(defs, name);
    }
  }

  // ----- The specification -----

  /** The first link beats the second: higher precedence, or the same and an earlier place. */
  predicate Beats(defs: Definitions, sources: seq<Source>, a: Place, b: Place)
    requires Resolves(defs, sources, a) && Resolves(defs, sources, b)
  {
    RankAt(defs, sources, a) > RankAt(defs, sources, b)
        || (RankAt(defs, sources, a) == RankAt(defs, sources, b) && Earlier(a, b))
  }

  ghost predicate Rival(defs: Definitions, sources: seq<Source>, p: Place, q: Place)
    requires Resolves(defs, sources, p)
  {
    Resolves(defs, sources, q) && KeyAt(defs, sources, q) == KeyAt(defs, sources, p) && Beats(defs, sources, q, p)
  }

  /** A link states a property unless its name is ambiguous and a better link has the same object and name. */
  ghost predicate States(defs: Definitions, sources: seq<Source>, p: Place) {
    && Resolves(defs, sources, p)
    && (Ambiguous(defs, DefinitionAt(defs, sources, p).name) ==> forall q :: !Rival(defs, sources, p, q))
  }

  function PropertyAt(defs: Definitions, sources: seq<Source>, p: Place): Property
    requires Resolves(defs, sources, p)
  {
    var d := DefinitionAt(defs, sources, p);
    Property(sources[p.source].rows[p.row].value.father, d.name, d.kind, d.value)
  }

  // ----- The first pass -----

  datatype Winner = Winner(place: Place, precedence: nat, occurrences: nat)

  /** A link that competes for its object and name. */
  predicate Competes(defs: Definitions, sources: seq<Source>, p: Place, key: Key) {
    Resolves(defs, sources, p) && KeyAt(defs, sources, p) == key && Ambiguous(defs, key.name)
  }

  ghost predicate BestBefore(defs: Definitions, sources: seq<Source>, limit: Place, key: Key, winner: Winner) {
    && Competes(defs, sources, winner.place, key) && Earlier(winner.place, limit)
    && winner.precedence == RankAt(defs, sources, winner.place) && winner.occurrences >= 1
    && forall q :: Competes(defs, sources, q, key) && Earlier(q, limit) ==>
         q == winner.place || (winner.occurrences >= 2 && Beats(defs, sources, winner.place, q))
  }

  ghost predicate Leads(defs: Definitions, sources: seq<Source>, limit: Place, winners: map<Key, Winner>, key: Key) {
    if key in winners then BestBefore(defs, sources, limit, key, winners[key])
    else forall q :: Competes(defs, sources, q, key) ==> !Earlier(q, limit)
  }

  ghost predicate AllLead(defs: Definitions, sources: seq<Source>, limit: Place, winners: map<Key, Winner>) {
    forall key: Key :: Leads(defs, sources, limit, winners, key)
  }

  /** Nothing competes between one limit and the next. */
  lemma LimitMoves(defs: Definitions, sources: seq<Source>, limit: Place, next: Place, winners: map<Key, Winner>)
    requires AllLead(defs, sources, limit, winners)
    requires forall q :: Earlier(q, limit) ==> Earlier(q, next)
    requires forall q, key :: Competes(defs, sources, q, key) && Earlier(q, next) ==> Earlier(q, limit)
    ensures AllLead(defs, sources, next, winners)
  {
    hide Competes, Earlier, Beats;
    forall key: Key ensures Leads(defs, sources, next, winners, key) {
      assert Leads(defs, sources, limit, winners, key);
    }
  }

  function Entered(defs: Definitions, sources: seq<Source>, p: Place, winners: map<Key, Winner>): map<Key, Winner>
    requires Resolves(defs, sources, p)
  {
    var key, rank := KeyAt(defs, sources, p), RankAt(defs, sources, p);
    if key !in winners then winners[key := Winner(p, rank, 1)]
    else if rank > winners[key].precedence then winners[key := Winner(p, rank, winners[key].occurrences + 1)]
    else winners[key := winners[key].(occurrences := winners[key].occurrences + 1)]
  }

  lemma EnteringLeads(defs: Definitions, sources: seq<Source>, p: Place, winners: map<Key, Winner>)
    requires AllLead(defs, sources, p, winners) && Resolves(defs, sources, p)
    requires Ambiguous(defs, DefinitionAt(defs, sources, p).name)
    ensures AllLead(defs, sources, Place(p.source, p.row + 1), Entered(defs, sources, p, winners))
  {
    hide Ambiguous, RankAt;
    var next, entered, own := Place(p.source, p.row + 1), Entered(defs, sources, p, winners), KeyAt(defs, sources, p);
    assert forall q :: Earlier(q, next) <==> Earlier(q, p) || q == p;
    forall key: Key ensures Leads(defs, sources, next, entered, key) {
      assert Leads(defs, sources, p, winners, key);
      if key == own {
        forall q | Competes(defs, sources, q, key) && Earlier(q, next)
          ensures q
                    == entered[key].place
                        || (entered[key].occurrences >= 2 && Beats(defs, sources, entered[key].place, q))
        {
          if Earlier(q, p) && key in winners { assert BestBefore(defs, sources, p, key, winners[key]); }
        }
      }
    }
  }

  ghost predicate IsLimit(sources: seq<Source>, p: Place) {
    p.source <= |sources| && p.row <= if p.source < |sources| then |sources[p.source].rows| else 0
  }

  /** The leaders among all links before a place. */
  ghost function Leaders(defs: Definitions, sources: seq<Source>, limit: Place): map<Key, Winner>
    requires IsLimit(sources, limit)
    decreases limit.source, limit.row
  {
    if limit.row > 0 then
      var last := Place(limit.source, limit.row - 1);
      var before := Leaders(defs, sources, last);
      if Resolves(defs, sources, last) && Ambiguous(defs, DefinitionAt(defs, sources, last).name) then
          Entered(defs, sources, last, before)
      else before
    else if limit.source > 0 then Leaders(defs, sources, Place(limit.source - 1, |sources[limit.source - 1].rows|))
    else map[]
  }

  lemma {:induction false} LeadersLead(defs: Definitions, sources: seq<Source>, limit: Place)
    requires IsLimit(sources, limit)
    ensures AllLead(defs, sources, limit, Leaders(defs, sources, limit))
    decreases limit.source, limit.row
  {
    hide AllLead, Ambiguous, Entered;
    if limit.row > 0 {
      var last := Place(limit.source, limit.row - 1);
      LeadersLead(defs, sources, last);
      if Resolves(defs, sources, last) && Ambiguous(defs, DefinitionAt(defs, sources, last).name) {
        EnteringLeads(defs, sources, last, Leaders(defs, sources, last));
      } else {
        LimitMoves(defs, sources, last, limit, Leaders(defs, sources, last));
      }
    } else if limit.source > 0 {
      var last := Place(limit.source - 1, |sources[limit.source - 1].rows|);
      LeadersLead(defs, sources, last);
      LimitMoves(defs, sources, last, limit, Leaders(defs, sources, last));
    } else {
      NobodyLeads(defs, sources);
    }
  }

  lemma NobodyLeads(defs: Definitions, sources: seq<Source>)
    ensures AllLead(defs, sources, Place(0, 0), map[])
  {
  }

  ghost predicate AllReadable(sources: seq<Source>) {
    forall p :: InRange(sources, p) ==> sources[p.source].rows[p.row].Some?
  }

  ghost predicate SomeAmbiguous(defs: Definitions) {
    exists name :: Ambiguous(defs, name)
  }

  /** A link is replayed unless another one won its object and name. */
  predicate Passes(defs: Definitions, sources: seq<Source>, winners: map<Key, Winner>, p: Place) {
    Resolves(defs, sources, p) && (KeyAt(defs, sources, p) in winners ==> winners[KeyAt(defs, sources, p)].place == p)
  }

  /** The winners let exactly the stating links pass. */
  ghost predicate Decides(defs: Definitions, sources: seq<Source>, winners: map<Key, Winner>) {
    forall p :: Passes(defs, sources, winners, p) <==> States(defs, sources, p)
  }

  function Contested(winners: map<Key, Winner>): map<Key, Winner> {
    map key | key in winners && winners[key].occurrences >= 2 :: winners[key]
  }

  lemma ContestedDecide(defs: Definitions, sources: seq<Source>, winners: map<Key, Winner>)
    requires AllLead(defs, sources, Place(|sources|, 0), winners)
    ensures Decides(defs, sources, Contested(winners))
  {
    hide Ambiguous, AllLead, Leads;
    forall p ensures Passes(defs, sources, Contested(winners), p) <==> States(defs, sources, p) {
      if Resolves(defs, sources, p) {
        var key := KeyAt(defs, sources, p);
        LeadersAt(defs, sources, winners, key);
        if Ambiguous(defs, key.name) {
          DecidesAt(defs, sources, winners, p);
        } else {
          LeadersAreAmbiguous(defs, sources, winners, key);
        }
      }
    }
  }

  lemma LeadersAt(defs: Definitions, sources: seq<Source>, winners: map<Key, Winner>, key: Key)
    requires AllLead(defs, sources, Place(|sources|, 0), winners)
    ensures Leads(defs, sources, Place(|sources|, 0), winners, key)
  {
  }

  lemma LeadersAreAmbiguous(defs: Definitions, sources: seq<Source>, winners: map<Key, Winner>, key: Key)
    requires Leads(defs, sources, Place(|sources|, 0), winners, key)
    ensures key in winners ==> Ambiguous(defs, key.name)
  {
    hide Ambiguous;
  }

  lemma LeaderIsUnbeaten(defs: Definitions, sources: seq<Source>, limit: Place, key: Key, winner: Winner, q: Place)
    requires BestBefore(defs, sources, limit, key, winner) && Competes(defs, sources, q, key) && Earlier(q, limit)
    ensures !Beats(defs, sources, q, winner.place)
  {
    hide Ambiguous, RankAt;
  }

  /** The leader of an object and name states its property. */
  lemma LeaderStates(defs: Definitions, sources: seq<Source>, key: Key, winner: Winner)
    requires BestBefore(defs, sources, Place(|sources|, 0), key, winner)
    ensures States(defs, sources, winner.place)
  {
    hide Ambiguous, RankAt, Beats;
    forall q ensures !Rival(defs, sources, winner.place, q) {
      if Resolves(defs, sources, q) && KeyAt(defs, sources, q) == key {
        assert Competes(defs, sources, q, key) && Earlier(q, Place(|sources|, 0));
        LeaderIsUnbeaten(defs, sources, Place(|sources|, 0), key, winner, q);
      }
    }
  }

  lemma DecidesAt(defs: Definitions, sources: seq<Source>, winners: map<Key, Winner>, p: Place)
    requires Resolves(defs, sources, p) && Ambiguous(defs, DefinitionAt(defs, sources, p).name)
    requires Leads(defs, sources, Place(|sources|, 0), winners, KeyAt(defs, sources, p))
    ensures Passes(defs, sources, Contested(winners), p) <==> States(defs, sources, p)
  {
    hide Ambiguous, RankAt;
    var key := KeyAt(defs, sources, p);
    assert Competes(defs, sources, p, key) && Earlier(p, Place(|sources|, 0));
    if p == winners[key].place {
      LeaderStates(defs, sources, key, winners[key]);
    } else {
      assert Rival(defs, sources, p, winners[key].place);
    }
  }

  /** Reads every link once and remembers the best of each contested object and name. */
  method FindWinners(defs: Definitions, sources: seq<Source>) returns (winners: Option<map<Key, Winner>>)
    ensures winners.None? <==> SomeAmbiguous(defs) && !AllReadable(sources)
    ensures winners.Some? ==> Decides(defs, sources, winners.value)
  {
    hide Ambiguous, Decides, AllLead;
    var names := FindAmbiguous(defs);
    if names == {} {
      NothingContested(defs, sources);
      return Some(map[]);
    }
    var name :| name in names;
    assert SomeAmbiguous(defs);
    var leading: map<Key, Winner> := map[];
    for source := 0 to |sources|
      invariant leading == Leaders(defs, sources, Place(source, 0))
      invariant forall p :: InRange(sources, p) && p.source < source ==> sources[p.source].rows[p.row].Some?
    {
      var rows, definitions := sources[source].rows, FamilyOf(defs, sources[source].family);
      for row := 0 to |rows|
        invariant leading == Leaders(defs, sources, Place(source, row))
        invariant forall k :: 0 <= k < row ==> rows[k].Some?
      {
        ghost var p := Place(source, row);
        if rows[row].None? {
          assert InRange(sources, p);
          return None;
        }
        var link := rows[row].value;
        if link.definition !in definitions || definitions[link.definition].name !in names { continue; }
        var definition := definitions[link.definition];
        var key, precedence := Key(link.father, definition.name), Precedence(definition.kind);
        if key !in leading {
          leading := leading[key := Winner(Place(source, row), precedence, 1)];
          continue;
        }
        var winner := leading[key].(occurrences := leading[key].occurrences + 1);
        if precedence > winner.precedence {
          winner := winner.(place := Place(source, row), precedence := precedence);
        }
        leading := leading[key := winner];
      }
    }
    LeadersLead(defs, sources, Place(|sources|, 0));
    ContestedDecide(defs, sources, leading);
    return Some(Contested(leading));
  }

  lemma NothingContested(defs: Definitions, sources: seq<Source>)
    requires forall name :: !Ambiguous(defs, name)
    ensures Decides(defs, sources, map[]) && !SomeAmbiguous(defs)
  {
    hide Ambiguous;
  }

  // ----- The one-pass stream -----

  ghost function RowEvents(defs: Definitions, sources: seq<Source>, p: Place): seq<Event<Property>>
    requires InRange(sources, p)
  {
    if sources[p.source].rows[p.row].None? then [Failed]
    else if States(defs, sources, p) then [Emitted(PropertyAt(defs, sources, p))]
    else []
  }

  function RowsLeft(sources: seq<Source>, p: Place): nat {
    if InRange(sources, p) then |sources[p.source].rows| - p.row else 0
  }

  /** Every stated property from a place on, in the order of the links. */
  ghost function StreamFrom(defs: Definitions, sources: seq<Source>, p: Place): seq<Event<Property>>
    decreases |sources| - p.source, RowsLeft(sources, p)
  {
    if p.source >= |sources| then []
    else if !InRange(sources, p) then StreamFrom(defs, sources, Place(p.source + 1, 0))
    else RowEvents(defs, sources, p) + StreamFrom(defs, sources, Place(p.source, p.row + 1))
  }

  // ----- Exactly one property -----

  function Mentions(events: seq<Event<Property>>, key: Key): nat {
    if events == [] then 0
    else
      (if events[0].Emitted? && Key(events[0].item.father, events[0].item.name) == key then 1 else 0)
          + Mentions(events[1..], key)
  }

  lemma {:induction false} MentionsConcat(a: seq<Event<Property>>, b: seq<Event<Property>>, key: Key)
    ensures Mentions(a + b, key) == Mentions(a, key) + Mentions(b, key)
    decreases |a|
  {
    if a == [] {
      assert a + b == b;
    } else {
      MentionsConcat(a[1..], b, key);
      assert (a + b)[1..] == a[1..] + b;
    }
  }

  lemma BestIsUnique(defs: Definitions, sources: seq<Source>, key: Key, p: Place, q: Place)
    requires Ambiguous(defs, key.name) && States(defs, sources, p) && States(defs, sources, q)
    requires KeyAt(defs, sources, p) == key && KeyAt(defs, sources, q) == key
    ensures p == q
  {
    hide Ambiguous, Rival;
    if p != q { OneBeatsTheOther(defs, sources, p, q); }
  }

  lemma OneBeatsTheOther(defs: Definitions, sources: seq<Source>, p: Place, q: Place)
    requires p != q && Resolves(defs, sources, p) && Resolves(defs, sources, q)
    requires KeyAt(defs, sources, p) == KeyAt(defs, sources, q)
    ensures Rival(defs, sources, p, q) || Rival(defs, sources, q, p)
  {
    hide RankAt;
  }

  lemma {:induction false} MentionedOnce(defs: Definitions, sources: seq<Source>, key: Key, best: Place, p: Place)
    requires Ambiguous(defs, key.name) && States(defs, sources, best) && KeyAt(defs, sources, best) == key
    ensures Mentions(StreamFrom(defs, sources, p), key) == if Earlier(best, p) then 0 else 1
    decreases |sources| - p.source, RowsLeft(sources, p)
  {
    hide Ambiguous, States;
    if p.source < |sources| {
      if !InRange(sources, p) {
        assert Resolves(defs, sources, best) by { StatesResolves(defs, sources, best); }
        MentionedOnce(defs, sources, key, best, Place(p.source + 1, 0));
      } else {
        var rest := StreamFrom(defs, sources, Place(p.source, p.row + 1));
        MentionedOnce(defs, sources, key, best, Place(p.source, p.row + 1));
        MentionsConcat(RowEvents(defs, sources, p), rest, key);
        RowMentions(defs, sources, key, best, p);
      }
    } else {
      StatesResolves(defs, sources, best);
    }
  }

  lemma StatesResolves(defs: Definitions, sources: seq<Source>, p: Place)
    requires States(defs, sources, p)
    ensures Resolves(defs, sources, p)
  {
  }

  lemma RowMentions(defs: Definitions, sources: seq<Source>, key: Key, best: Place, p: Place)
    requires Ambiguous(defs, key.name) && States(defs, sources, best) && KeyAt(defs, sources, best) == key
    requires InRange(sources, p)
    ensures Mentions(RowEvents(defs, sources, p), key) == if p == best then 1 else 0
  {
    hide Ambiguous, Rival;
    var events := RowEvents(defs, sources, p);
    if |events| == 1 { assert events[1..] == []; }
    if States(defs, sources, p) && KeyAt(defs, sources, p) == key { BestIsUnique(defs, sources, key, best, p); }
  }

  /** For an ambiguous name, every object with a link of that name gets exactly one property. */
  lemma ContestedOnce(defs: Definitions, sources: seq<Source>, p: Place)
    requires Resolves(defs, sources, p) && Ambiguous(defs, DefinitionAt(defs, sources, p).name)
    ensures Mentions(StreamFrom(defs, sources, Place(0, 0)), KeyAt(defs, sources, p)) == 1
  {
    hide Ambiguous, AllLead, RankAt;
    var key, end := KeyAt(defs, sources, p), Place(|sources|, 0);
    var leaders := Leaders(defs, sources, end);
    LeadersLead(defs, sources, end);
    LeadersAt(defs, sources, leaders, key);
    assert Competes(defs, sources, p, key) && Earlier(p, end);
    var best := leaders[key].place;
    LeaderStates(defs, sources, key, leaders[key]);
    MentionedOnce(defs, sources, key, best, Place(0, 0));
  }

  /** The links of an object and name from a place on. */
  ghost function LinksFrom(defs: Definitions, sources: seq<Source>, key: Key, p: Place): (links: set<Place>)
    ensures forall q :: q in links <==> Resolves(defs, sources, q) && KeyAt(defs, sources, q) == key && !Earlier(q, p)
  {
    var all := set source: nat, row: nat | source < |sources| && row < |sources[source].rows| :: Place(source, row);
    assert forall q :: InRange(sources, q) ==> q in all;
    set q | q in all && Resolves(defs, sources, q) && KeyAt(defs, sources, q) == key && !Earlier(q, p)
  }

  lemma LinksOfRow(defs: Definitions, sources: seq<Source>, key: Key, p: Place)
    requires InRange(sources, p)
    ensures |LinksFrom(defs, sources, key, p)| == |LinksFrom(defs, sources, key, Place(p.source, p.row + 1))|
              + if Resolves(defs, sources, p) && KeyAt(defs, sources, p) == key then 1 else 0
  {
    hide KeyAt, LinksFrom, Resolves;
    var here, later := LinksFrom(defs, sources, key, p), LinksFrom(defs, sources, key, Place(p.source, p.row + 1));
    assert p !in later;
    if Resolves(defs, sources, p) && KeyAt(defs, sources, p) == key {
      assert here == later + {p};
    } else {
      assert here == later;
    }
  }

  lemma LinksOfNextSource(defs: Definitions, sources: seq<Source>, key: Key, p: Place)
    requires !InRange(sources, p)
    ensures LinksFrom(defs, sources, key, p) == LinksFrom(defs, sources, key, Place(p.source + 1, 0))
    ensures p.source >= |sources| ==> LinksFrom(defs, sources, key, p) == {}
  {
    hide KeyAt, LinksFrom;
  }

  lemma {:induction false} UncontestedFrom(defs: Definitions, sources: seq<Source>, key: Key, p: Place)
    requires !Ambiguous(defs, key.name)
    ensures Mentions(StreamFrom(defs, sources, p), key) == |LinksFrom(defs, sources, key, p)|
    decreases |sources| - p.source, RowsLeft(sources, p)
  {
    hide Ambiguous, KeyAt, RowEvents, LinksFrom, Resolves;
    if !InRange(sources, p) {
      LinksOfNextSource(defs, sources, key, p);
      if p.source < |sources| { UncontestedFrom(defs, sources, key, Place(p.source + 1, 0)); }
    } else {
      var next := Place(p.source, p.row + 1);
      UncontestedFrom(defs, sources, key, next);
      MentionsConcat(RowEvents(defs, sources, p), StreamFrom(defs, sources, next), key);
      UncontestedRow(defs, sources, key, p);
      LinksOfRow(defs, sources, key, p);
    }
  }

  lemma UncontestedRow(defs: Definitions, sources: seq<Source>, key: Key, p: Place)
    requires !Ambiguous(defs, key.name) && InRange(sources, p)
    ensures Mentions(RowEvents(defs, sources, p), key) ==
            if Resolves(defs, sources, p) && KeyAt(defs, sources, p) == key then 1 else 0
  {
    hide Ambiguous;
    var events := RowEvents(defs, sources, p);
    if |events| == 1 { assert events[1..] == []; }
  }

  /** For a name of at most one definition, every link of an object states its property. */
  lemma UncontestedPass(defs: Definitions, sources: seq<Source>, key: Key)
    requires !Ambiguous(defs, key.name)
    ensures Mentions(StreamFrom(defs, sources, Place(0, 0)), key) == |LinksFrom(defs, sources, key, Place(0, 0))|
    ensures forall p :: p in LinksFrom(defs, sources, key, Place(0, 0)) <==>
              Resolves(defs, sources, p) && KeyAt(defs, sources, p) == key
  {
    UncontestedFrom(defs, sources, key, Place(0, 0));
  }
}
