/** The batched reader of attribute properties, resumable inside any source. */
module PropertyReader {
  import opened Batches
  import opened PropertyWinners
  import opened Wrappers

  class Reader {
    const defs: Definitions
    const sources: seq<Source>
    const winners: map<Key, Winner>
    const batchSize: nat

    var source: nat
    var row: nat
    var batch: seq<Property>

    ghost predicate Valid()
      reads this
    {
      && Decides(defs, sources, winners) && batchSize >= 1 && |batch| <= batchSize
      && source <= |sources| && (source < |sources| ==> row <= |sources[source].rows|)
    }

    /** Everything the reader will still emit, in one pass. */
    ghost function Pending(): seq<Event<Property>>
      reads this
    {
      StreamFrom(defs, sources, Place(source, row))
    }

    ghost function Outlook(): seq<Event<Property>>
      reads this
    {
      Events(batch) + Pending()
    }

    constructor (defs: Definitions, sources: seq<Source>, winners: map<Key, Winner>, batchSize: nat)
      requires Decides(defs, sources, winners) && batchSize >= 1
      ensures Valid() && this.batchSize == batchSize && this.defs == defs && this.sources == sources
      ensures Pending() == StreamFrom(defs, sources, Place(0, 0))
    {
      this.defs, this.sources, this.winners, this.batchSize := defs, sources, winners, batchSize;
      source, row, batch := 0, 0, [];
    }

    /** Fills the next batch; a link outside the payload fails and drops the open batch. */
    method Next() returns (result: Batch<Property>)
      requires Valid()
      modifies this
      ensures Valid()
      ensures result.End? ==> old(Pending()) == [] && Pending() == []
      ensures result.Items? ==> old(Pending()) == Events(result.items) + Pending()
      ensures result.Items? ==> 1 <= |result.items| <= batchSize && (|result.items| < batchSize ==> Pending() == [])
      ensures result.Failure? ==> |batch| < batchSize && old(Pending()) == Events(batch) + [Failed] + Pending()
    {
      hide Decides, States, StreamFrom, RowEvents, Events;
      batch := [];
      NoEvents<Property>();
      assert Outlook() == old(Pending());
      while source < |sources| && |batch| < batchSize
        invariant Valid() && Outlook() == old(Pending())
        decreases |sources| - source, batchSize - |batch|
      {
        ghost var current := source;
        while row < |sources[source].rows| && |batch| < batchSize
          invariant Valid() && source == current && Outlook() == old(Pending())
          decreases |sources[source].rows| - row
        {
          var ok := ReadLink();
          if !ok { return Failure; }
        }
        if row >= |sources[source].rows| {
          SourceEnds(defs, sources, Place(source, row));
          source := source + 1;
          row := 0;
        }
      }
      if source >= |sources| { NothingLeft(defs, sources, Place(source, row)); }
      if batch == [] && source >= |sources| { return End; }
      return Items(batch);
    }

    method ReadLink() returns (ok: bool)
      requires Valid() && source < |sources| && row < |sources[source].rows| && |batch| < batchSize
      modifies this`row, this`batch
      ensures Valid() && row == old(row) + 1
      ensures ok ==> Outlook() == old(Outlook())
      ensures !ok ==> old(Outlook()) == Events(batch) + [Failed] + Pending() && |batch| < batchSize
    {
      hide Decides, States, StreamFrom, Events;
      ghost var p := Place(source, row);
      RowFirst(defs, sources, p);
      WinnersDecide(defs, sources, winners, p);
      var record := sources[source].rows[row];
      var current := Place(source, row);
      row := row + 1;
      if record.None? { return false; }
      var definitions := FamilyOf(defs, sources[source].family);
      var link := record.value;
      if link.definition !in definitions { return true; }
      var definition := definitions[link.definition];
      var key := Key(link.father, definition.name);
      if key in winners && winners[key].place != current { return true; }
      EventsSnoc(batch, Property(link.father, definition.name, definition.kind, definition.value));
      batch := batch + [Property(link.father, definition.name, definition.kind, definition.value)];
      return true;
    }
  }

  lemma RowFirst(defs: Definitions, sources: seq<Source>, p: Place)
    requires InRange(sources, p)
    ensures StreamFrom(defs, sources, p)
              == RowEvents(defs, sources, p) + StreamFrom(defs, sources, Place(p.source, p.row + 1))
  {
  }

  lemma WinnersDecide(defs: Definitions, sources: seq<Source>, winners: map<Key, Winner>, p: Place)
    requires Decides(defs, sources, winners)
    ensures Passes(defs, sources, winners, p) <==> States(defs, sources, p)
  {
    hide States;
  }

  lemma SourceEnds(defs: Definitions, sources: seq<Source>, p: Place)
    requires p.source < |sources| && p.row >= |sources[p.source].rows|
    ensures StreamFrom(defs, sources, p) == StreamFrom(defs, sources, Place(p.source + 1, 0))
  {
  }

  lemma NothingLeft(defs: Definitions, sources: seq<Source>, p: Place)
    requires p.source >= |sources|
    ensures StreamFrom(defs, sources, p) == []
  {
  }

  /**
   Creates the reader and pulls every batch. The result is the one-pass stream whatever the
   batch size; creation fails exactly when some name is ambiguous and some link is unreadable.
   */
  method ReadProperties(defs: Definitions, sources: seq<Source>, batchSize: nat)
    returns (properties: Option<seq<Property>>, failed: bool)
    requires batchSize >= 1
    ensures properties.None? <==> SomeAmbiguous(defs) && !AllReadable(sources)
    ensures properties.Some? ==>
              Events(properties.value) == Delivered(StreamFrom(defs, sources, Place(0, 0)), batchSize)
    ensures properties.Some? ==> (failed <==> Failed in StreamFrom(defs, sources, Place(0, 0)))
  {
    hide SomeAmbiguous, AllReadable, Decides, StreamFrom, Events, Delivered, Whole;
    var winners := FindWinners(defs, sources);
    if winners.None? { return None, true; }
    var items: seq<Property> := [];
    WholeNothing(batchSize);
    NoEvents<Property>();
    var reader := new Reader(defs, sources, winners.value, batchSize);
    while true
      invariant reader.Valid() && fresh(reader) && reader.batchSize == batchSize && Whole(|items|, batchSize) == |items|
      invariant StreamFrom(defs, sources, Place(0, 0)) == Events(items) + reader.Pending()
      decreases |reader.Pending()|
    {
      ghost var before := items;
      var batch := reader.Next();
      match batch
      case End =>
        WholeStream(items, StreamFrom(defs, sources, Place(0, 0)), batchSize);
        return Some(items), false;
      case Failure =>
        BrokenStream(items, reader.batch, reader.Pending(), StreamFrom(defs, sources, Place(0, 0)), batchSize);
        return Some(items), true;
      case Items(more) =>
        EventsConcat(items, more);
        items := items + more;
        if |more| < batchSize {
          WholeStream(items, StreamFrom(defs, sources, Place(0, 0)), batchSize);
          return Some(items), false;
        }
        MoreBatches(|before|, batchSize);
    }
  }

  /** The stream from a place on fails if and only if some link from there on cannot be read. */
  lemma {:induction false} FailsAtUnreadable(defs: Definitions, sources: seq<Source>, p: Place)
    ensures Failed in StreamFrom(defs, sources, p) <==> exists q :: UnreadableFrom(sources, p, q)
    decreases |sources| - p.source, RowsLeft(sources, p)
  {
    hide States;
    if p.source < |sources| {
      var next := if InRange(sources, p) then Place(p.source, p.row + 1) else Place(p.source + 1, 0);
      FailsAtUnreadable(defs, sources, next);
      if q :| UnreadableFrom(sources, p, q) && q != p { assert UnreadableFrom(sources, next, q); }
      if q :| UnreadableFrom(sources, next, q) { assert UnreadableFrom(sources, p, q); }
      if InRange(sources, p) && sources[p.source].rows[p.row].None? { assert UnreadableFrom(sources, p, p); }
    }
  }

  ghost predicate UnreadableFrom(sources: seq<Source>, p: Place, q: Place) {
    InRange(sources, q) && sources[q.source].rows[q.row].None? && !Earlier(q, p)
  }

  /** A property stream fails if and only if some link cannot be read. */
  lemma FailsIffUnreadable(defs: Definitions, sources: seq<Source>)
    ensures Failed in StreamFrom(defs, sources, Place(0, 0)) <==> !AllReadable(sources)
  {
    hide StreamFrom;
    FailsAtUnreadable(defs, sources, Place(0, 0));
    if !AllReadable(sources) {
      var q :| InRange(sources, q) && sources[q.source].rows[q.row].None?;
      assert UnreadableFrom(sources, Place(0, 0), q);
    }
  }
}
