/**
 Values stored in linked rows: each row holds a chunk and the id of the next row. Decoding
 is safe on cycles, bounded by two budgets, and done once for each id.
 */
module LinkedRows {
  import opened Budgets
  import opened Wrappers

  type Id = nat

  datatype Row<+T> = Row(values: seq<T>, next: Id)

  datatype Status = Success | Invalid | ResourceLimit

  datatype Decoded<+T> = Decoded(status: Status, value: seq<T>)

  // ----- Chains -----

  /** The rows of the list lead from an id to the end mark 0. */
  ghost predicate Leads<T>(table: map<Id, Row<T>>, id: Id, ids: seq<Id>)
    decreases |ids|
  {
    if ids == [] then id == 0
    else ids[0] == id && id != 0 && id in table && Leads(table, table[id].next, ids[1..])
  }

  /** The rows from an id to 0; none when a row is missing or met again. */
  ghost function ChainFrom<T>(table: map<Id, Row<T>>, id: Id, seen: set<Id>): Option<seq<Id>>
    requires seen <= table.Keys
    decreases |table.Keys - seen|
  {
    if id == 0 then Some([])
    else if id in seen || id !in table then None
    else
      assert table.Keys - (seen + {id}) == (table.Keys - seen) - {id};
      var rest := ChainFrom(table, table[id].next, seen + {id});
      if rest.None? then None else Some([id] + rest.value)
  }

  lemma {:induction false} ChainLeads<T>(table: map<Id, Row<T>>, id: Id, seen: set<Id>)
    requires seen <= table.Keys && ChainFrom(table, id, seen).Some?
    ensures Leads(table, id, ChainFrom(table, id, seen).value)
    decreases |table.Keys - seen|
  {
    if id != 0 {
      assert table.Keys - (seen + {id}) == (table.Keys - seen) - {id};
      ChainLeads(table, table[id].next, seen + {id});
      assert ChainFrom(table, id, seen).value[1..] == ChainFrom(table, table[id].next, seen + {id}).value;
    }
  }

  /** Rows determine their successors, so at most one list leads to the end. */
  lemma {:induction false} LeadsOnce<T>(table: map<Id, Row<T>>, id: Id, a: seq<Id>, b: seq<Id>)
    requires Leads(table, id, a) && Leads(table, id, b)
    ensures a == b
    decreases |a|
  {
    if a != [] { LeadsOnce(table, table[id].next, a[1..], b[1..]); }
  }

  lemma {:induction false} SuffixLeads<T>(table: map<Id, Row<T>>, id: Id, ids: seq<Id>, k: nat)
    requires Leads(table, id, ids) && k < |ids|
    ensures Leads(table, ids[k], ids[k..])
    decreases k
  {
    if k == 0 {
      assert ids[0..] == ids;
    } else {
      SuffixLeads(table, table[id].next, ids[1..], k - 1);
      assert ids[1..][k - 1..] == ids[k..];
    }
  }

  /** A list that leads to the end meets no row twice. */
  lemma LeadingIsDistinct<T>(table: map<Id, Row<T>>, id: Id, ids: seq<Id>, i: nat, j: nat)
    requires Leads(table, id, ids) && i < j < |ids|
    ensures ids[i] != ids[j]
  {
    SuffixLeads(table, id, ids, i);
    SuffixLeads(table, id, ids, j);
    if ids[i] == ids[j] { LeadsOnce(table, ids[i], ids[i..], ids[j..]); }
  }

  lemma {:induction false} LeadingIsFound<T>(table: map<Id, Row<T>>, id: Id, ids: seq<Id>, seen: set<Id>)
    requires seen <= table.Keys && Leads(table, id, ids) && forall k :: 0 <= k < |ids| ==> ids[k] !in seen
    ensures ChainFrom(table, id, seen) == Some(ids)
    decreases |ids|
  {
    if ids != [] {
      var rest := ids[1..];
      forall k | 0 <= k < |rest| ensures rest[k] !in seen + {id} {
        assert rest[k] == ids[k + 1];
        LeadingIsDistinct(table, id, ids, 0, k + 1);
      }
      LeadingIsFound(table, table[id].next, rest, seen + {id});
      assert ids[0] !in seen && ids == [id] + rest;
    }
  }

  /** Some list of rows leads from the id to the end. */
  ghost predicate Ends<T>(table: map<Id, Row<T>>, id: Id) {
    exists ids: seq<Id> :: Leads(table, id, ids)
  }

  /** The walk finds the end exactly when some list of rows leads there. */
  lemma ChainIffEnds<T>(table: map<Id, Row<T>>, id: Id)
    ensures ChainFrom(table, id, {}).Some? <==> Ends(table, id)
  {
    if ChainFrom(table, id, {}).Some? {
      ChainLeads(table, id, {});
    } else if Ends(table, id) {
      var ids :| Leads(table, id, ids);
      LeadingIsFound(table, id, ids, {});
    }
  }

  /** The chunks of a list of rows, in order. */
  ghost function Contents<T>(table: map<Id, Row<T>>, ids: seq<Id>): seq<T> {
    if ids == [] then []
    else
      var last := ids[|ids| - 1];
      Contents(table, ids[..|ids| - 1]) + if last in table then table[last].values else []
  }

  /** The row that follows a walk from an id, when the list is one. */
  ghost function NextAfter<T>(table: map<Id, Row<T>>, id: Id, walked: seq<Id>): Option<Id> {
    if walked == [] then Some(id)
    else
      var last := walked[|walked| - 1];
      if last != 0 && NextAfter(table, id, walked[..|walked| - 1]) == Some(last) && last in table then
          Some(table[last].next) else None
  }

  lemma StepWalk<T>(table: map<Id, Row<T>>, id: Id, walked: seq<Id>, current: Id)
    requires NextAfter(table, id, walked) == Some(current) && current != 0 && current in table
    ensures NextAfter(table, id, walked + [current]) == Some(table[current].next)
    ensures Contents(table, walked + [current]) == Contents(table, walked) + table[current].values
  {
    assert (walked + [current])[..|walked|] == walked;
  }

  lemma NothingWalked<T>(table: map<Id, Row<T>>, id: Id)
    ensures NextAfter(table, id, []) == Some(id) && Contents(table, []) == [] && Joined<T>([]) == []
  {
  }

  /** Every walk follows the chain. */
  lemma {:induction false} WalkIsPrefix<T>(table: map<Id, Row<T>>, id: Id, ids: seq<Id>, walked: seq<Id>)
    requires Leads(table, id, ids) && NextAfter(table, id, walked).Some?
    ensures |walked| <= |ids| && walked == ids[..|walked|]
    ensures Leads(table, NextAfter(table, id, walked).value, ids[|walked|..])
    decreases |walked|
  {
    if walked == [] {
      assert ids[0..] == ids;
    } else {
      var n := |walked| - 1;
      WalkIsPrefix(table, id, ids, walked[..n]);
      assert ids[n..][1..] == ids[n + 1..];
    }
  }

  lemma {:induction false} PrefixHoldsLess<T>(table: map<Id, Row<T>>, ids: seq<Id>, k: nat)
    requires k <= |ids|
    ensures |Contents(table, ids[..k])| <= |Contents(table, ids)|
    decreases |ids| - k
  {
    if k == |ids| {
      assert ids[..k] == ids;
    } else {
      assert ids[..k + 1][..k] == ids[..k];
      PrefixHoldsLess(table, ids, k + 1);
    }
  }

  /** A walk met more rows than the visits left. */
  ghost predicate TooLong<T>(table: map<Id, Row<T>>, id: Id, left: nat) {
    exists walked: seq<Id> ::
        NextAfter(table, id, walked).Some? && NextAfter(table, id, walked).value != 0 && |walked| >= left
  }

  /** A walk holds more bytes than the room, or than the size type can count. */
  ghost predicate TooLarge<T>(table: map<Id, Row<T>>, id: Id, width: nat, room: nat) {
    exists walked: seq<Id> ::
      NextAfter(table, id, walked).Some?
          && (|Contents(table, walked)| * width > room || |Contents(table, walked)| * width > SIZE_MAX)
  }

  /** The chain ends within the visits and the bytes left. */
  ghost predicate Affordable<T>(table: map<Id, Row<T>>, id: Id, width: nat, left: nat, room: nat) {
    && ChainFrom(table, id, {}).Some?
    && var ids := ChainFrom(table, id, {}).value;
    |ids| <= left && |Contents(table, ids)| * width <= room && |Contents(table, ids)| * width <= SIZE_MAX
  }

  lemma AffordableFits<T>(table: map<Id, Row<T>>, id: Id, width: nat, left: nat, room: nat)
    requires Affordable(table, id, width, left, room)
    ensures !TooLong(table, id, left) && !TooLarge(table, id, width, room)
  {
    hide ChainFrom, Leads, NextAfter, Contents;
    var ids := ChainFrom(table, id, {}).value;
    ChainLeads(table, id, {});
    forall walked: seq<Id> | NextAfter(table, id, walked).Some?
      ensures NextAfter(table, id, walked).value != 0 ==> |walked| < left
      ensures |Contents(table, walked)| * width <= room && |Contents(table, walked)| * width <= SIZE_MAX
    {
      WalkIsPrefix(table, id, ids, walked);
      WalkGoesOn(table, NextAfter(table, id, walked).value, ids[|walked|..]);
      PrefixHoldsLess(table, ids, |walked|);
      Monotone(|Contents(table, walked)|, |Contents(table, ids)|, width);
    }
  }

  lemma AffordableEnds<T>(table: map<Id, Row<T>>, id: Id, width: nat, left: nat, room: nat)
    requires Affordable(table, id, width, left, room)
    ensures ChainFrom(table, id, {}).Some?
  {
  }

  lemma WalkGoesOn<T>(table: map<Id, Row<T>>, id: Id, ids: seq<Id>)
    requires Leads(table, id, ids)
    ensures id != 0 ==> |ids| > 0
  {
  }

  // ----- Decoding -----

  /** What remains of a walk that has met the rows `walked`. */
  ghost predicate Walking<T>(table: map<Id, Row<T>>, id: Id, current: Id, walked: seq<Id>, seen: set<Id>) {
    && seen <= table.Keys && |walked| == |seen|
    && ChainFrom(table, id, {}) ==
         (var rest := ChainFrom(table, current, seen); if rest.None? then None else Some(walked + rest.value))
  }

  lemma StartWalking<T>(table: map<Id, Row<T>>, id: Id)
    ensures Walking(table, id, id, [], {})
  {
    var rest := ChainFrom(table, id, {});
    if rest.Some? { assert [] + rest.value == rest.value; }
  }

  lemma WalkOn<T>(table: map<Id, Row<T>>, id: Id, current: Id, walked: seq<Id>, seen: set<Id>)
    requires Walking(table, id, current, walked, seen) && current != 0
    ensures current in seen || current !in table ==> ChainFrom(table, id, {}).None?
    ensures current !in seen && current in table ==>
              Walking(table, id, table[current].next, walked + [current], seen + {current})
  {
    if current !in seen && current in table {
      var rest := ChainFrom(table, table[current].next, seen + {current});
      if rest.Some? { assert walked + ([current] + rest.value) == (walked + [current]) + rest.value; }
    }
  }

  lemma StopWalking<T>(table: map<Id, Row<T>>, id: Id, walked: seq<Id>, seen: set<Id>)
    requires Walking(table, id, 0, walked, seen)
    ensures ChainFrom(table, id, {}) == Some(walked)
  {
    assert walked + [] == walked;
  }

  class Decoder<T(0)> {
    const table: map<Id, Row<T>>
    /** The bytes of one value. */
    const width: nat
    const visits: VisitBudget
    const memory: RetainedBudget

    var cache: map<Id, Decoded<T>>

    ghost predicate Valid()
      reads this, visits, memory
    {
      && visits.Valid() && memory.Valid() && width >= 1
      && forall id :: id in cache ==> Sound(id, cache[id])
    }

    /** A decoded value is the contents of the id's chain; an invalid one has no chain. */
    ghost predicate Sound(id: Id, decoded: Decoded<T>) {
      match decoded.status
      case Success => ChainFrom(table, id, {}).Some? && decoded.value == Contents(table, ChainFrom(table, id, {}).value)
      case Invalid => ChainFrom(table, id, {}).None? && decoded.value == []
      case ResourceLimit => decoded.value == []
    }

    constructor (table: map<Id, Row<T>>, width: nat, visits: VisitBudget, memory: RetainedBudget)
      requires visits.Valid() && memory.Valid() && width >= 1
      ensures Valid() && cache == map[] && this.table == table && this.width == width
      ensures this.visits == visits && this.memory == memory
    {
      this.table, this.width, this.visits, this.memory, cache := table, width, visits, memory, map[];
    }

    /**
     Decodes the chain of an id. A cached id costs nothing. Otherwise, unless a budget runs
     out, the result is a success exactly when the chain ends, and costs its rows and bytes.
     */
    method Resolve(id: Id) returns (result: Decoded<T>)
      requires Valid()
      modifies this, visits, memory
      ensures Valid() && id in cache && cache[id] == result && Sound(id, result)
      ensures id in old(cache) ==>
                cache == old(cache) && visits.used == old(visits.used) && memory.used == old(memory.used)
      ensures id !in old(cache) ==> cache == old(cache)[id := result]
      ensures id !in old(cache) && result.status.Success? ==>
                && visits.used == old(visits.used) + |ChainFrom(table, id, {}).value|
                && memory.used == old(memory.used) + |result.value| * width
      ensures id !in old(cache) && result.status.Invalid? ==> memory.used == old(memory.used)
      ensures id !in old(cache) && result.status.ResourceLimit? ==> memory.used == memory.limit
      ensures id !in old(cache)
              && Affordable(table, id, width, old(visits.limit - visits.used), old(memory.Remaining())) ==>
                result.status.Success?
    {
      hide ChainFrom, Contents, Affordable;
      if id in cache { return cache[id]; }
      ghost var left, room := visits.limit - visits.used, memory.Remaining();
      result := Walk(id);
      if Affordable(table, id, width, left, room) {
        AffordableFits(table, id, width, left, room);
        AffordableEnds(table, id, width, left, room);
      }
      cache := cache[id := result];
    }

    method Walk(id: Id) returns (result: Decoded<T>)
      requires Valid()
      modifies visits, memory
      ensures Valid() && Sound(id, result)
      ensures result.status.Success? ==>
                && visits.used == old(visits.used) + |ChainFrom(table, id, {}).value|
                && memory.used == old(memory.used) + |result.value| * width
      ensures result.status.Invalid? ==> memory.used == old(memory.used)
      ensures result.status.ResourceLimit? ==> memory.used == memory.limit
      ensures result.status.ResourceLimit? ==>
                TooLong(table, id, old(visits.limit - visits.used))
                    || TooLarge(table, id, width, old(memory.Remaining()))
    {
      hide ChainFrom, Walking, Contents, Joined, NextAfter;
      NothingWalked(table, id);
      var chunks: seq<seq<T>> := [];
      var seen: set<Id> := {};
      ghost var walked: seq<Id> := [];
      var count := 0;
      var current := id;
      StartWalking(table, id);
      while current != 0
        invariant Valid() && Walking(table, id, current, walked, seen) && seen <= table.Keys
        invariant NextAfter(table, id, walked) == Some(current)
        invariant visits.used == old(visits.used) + |walked| && memory.used == old(memory.used)
        invariant Joined(chunks) == Contents(table, walked) && count == |Contents(table, walked)|
        decreases table.Keys - seen
      {
        var granted := visits.Consume();
        if !granted {
          memory.Exhaust();
          return Decoded(ResourceLimit, []);
        }
        WalkOn(table, id, current, walked, seen);
        if current in seen || current !in table { return Decoded(Invalid, []); }
        var row := table[current];
        ghost var longer := walked + [current];
        StepWalk(table, id, walked, current);
        count := count + |row.values|;
        var bytes := CheckedProduct(count, width);
        if bytes.None? || bytes.value > memory.Remaining() {
          memory.Exhaust();
          return Decoded(ResourceLimit, []);
        }
        JoinedSnoc(chunks, row.values);
        chunks := chunks + [row.values];
        seen := seen + {current};
        walked := longer;
        current := row.next;
      }
      StopWalking(table, id, walked, seen);
      result := Collect(chunks);
      var paid := memory.Consume(count * width);
      if !paid {
        memory.Exhaust();
        return Decoded(ResourceLimit, []);
      }
    }

    method Collect(chunks: seq<seq<T>>) returns (result: Decoded<T>)
      ensures result == Decoded(Success, Joined(chunks))
    {
      var value: seq<T> := [];
      for k := 0 to |chunks|
        invariant value == Joined(chunks[..k])
      {
        assert chunks[..k + 1][..k] == chunks[..k];
        value := value + chunks[k];
      }
      assert chunks[..|chunks|] == chunks;
      return Decoded(Success, value);
    }
  }

  function Joined<T>(chunks: seq<seq<T>>): seq<T> {
    if chunks == [] then [] else Joined(chunks[..|chunks| - 1]) + chunks[|chunks| - 1]
  }

  lemma JoinedSnoc<T>(chunks: seq<seq<T>>, chunk: seq<T>)
    ensures Joined(chunks + [chunk]) == Joined(chunks) + chunk
  {
    assert (chunks + [chunk])[..|chunks|] == chunks;
  }

  /** String rows keep their text and their successors in two tables; a row needs both. */
  function StringRows(strings: map<Id, string>, nextIds: map<Id, Id>): map<Id, Row<char>> {
    map id | id in strings && id in nextIds :: Row(strings[id], nextIds[id])
  }

  /** The ids lead to the end mark 0, each with its text in one table and its successor in the other. */
  ghost predicate LeadsThrough(strings: map<Id, string>, nextIds: map<Id, Id>, id: Id, ids: seq<Id>)
    decreases |ids|
  {
    if ids == [] then id == 0
    else
      && ids[0] == id && id != 0 && id in strings && id in nextIds
      && LeadsThrough(strings, nextIds, nextIds[id], ids[1..])
  }

  ghost function Text(strings: map<Id, string>, ids: seq<Id>): string {
    if ids == [] then ""
    else
      var last := ids[|ids| - 1];
      Text(strings, ids[..|ids| - 1]) + if last in strings then strings[last] else ""
  }

  lemma {:induction false} StringsLead(strings: map<Id, string>, nextIds: map<Id, Id>, id: Id, ids: seq<Id>)
    ensures Leads(StringRows(strings, nextIds), id, ids) <==> LeadsThrough(strings, nextIds, id, ids)
    decreases |ids|
  {
    if ids != [] && id in strings && id in nextIds { StringsLead(strings, nextIds, nextIds[id], ids[1..]); }
  }

  lemma {:induction false} LeadsInside(strings: map<Id, string>, nextIds: map<Id, Id>, id: Id, ids: seq<Id>)
    requires LeadsThrough(strings, nextIds, id, ids)
    ensures forall k :: 0 <= k < |ids| ==> ids[k] in strings && ids[k] in nextIds
    decreases |ids|
  {
    if ids != [] {
      LeadsInside(strings, nextIds, nextIds[id], ids[1..]);
      assert forall k :: 1 <= k < |ids| ==> ids[k] == ids[1..][k - 1];
    }
  }

  lemma {:induction false} StringsHold(strings: map<Id, string>, nextIds: map<Id, Id>, ids: seq<Id>)
    requires forall k :: 0 <= k < |ids| ==> ids[k] in strings && ids[k] in nextIds
    ensures Contents(StringRows(strings, nextIds), ids) == Text(strings, ids)
    decreases |ids|
  {
    if ids != [] { StringsHold(strings, nextIds, ids[..|ids| - 1]); }
  }

  /**
   Looks up a string: the texts along the ids that lead to the end, one byte for each
   character, and invalid exactly when a text or a successor is missing or an id met again.
   */
  method ResolveString(decoder: Decoder<char>, ghost strings: map<Id, string>, ghost nextIds: map<Id, Id>, id: Id)
    returns (result: Decoded<char>)
    requires decoder.Valid() && decoder.table == StringRows(strings, nextIds) && decoder.width == 1
    modifies decoder, decoder.visits, decoder.memory
    ensures decoder.Valid()
    ensures result.status.Success? ==>
              exists ids :: LeadsThrough(strings, nextIds, id, ids) && result.value == Text(strings, ids)
    ensures result.status.Invalid? ==> result.value == "" && forall ids :: !LeadsThrough(strings, nextIds, id, ids)
    ensures result.status.Success? && id !in old(decoder.cache) ==>
              decoder.memory.used == old(decoder.memory.used) + |result.value|
  {
    hide ChainFrom, Affordable, Contents, Leads, LeadsThrough, Text, StringRows;
    result := decoder.Resolve(id);
    StringChains(strings, nextIds, id);
  }

  lemma StringChains(strings: map<Id, string>, nextIds: map<Id, Id>, id: Id)
    ensures var table := StringRows(strings, nextIds);
            if ChainFrom(table, id, {}).Some? then
              var ids := ChainFrom(table, id, {}).value;
              LeadsThrough(strings, nextIds, id, ids) && Contents(table, ids) == Text(strings, ids)
            else forall ids :: !LeadsThrough(strings, nextIds, id, ids)
  {
    hide ChainFrom, Contents, Leads, LeadsThrough, Text, StringRows;
    var table := StringRows(strings, nextIds);
    ChainIffEnds(table, id);
    if ChainFrom(table, id, {}).Some? {
      var ids := ChainFrom(table, id, {}).value;
      ChainLeads(table, id, {});
      StringsLead(strings, nextIds, id, ids);
      LeadsInside(strings, nextIds, id, ids);
      StringsHold(strings, nextIds, ids);
    } else {
      forall ids ensures !LeadsThrough(strings, nextIds, id, ids) {
        StringsLead(strings, nextIds, id, ids);
      }
    }
  }

  /**
   Any run of lookups stays within both budgets, and every lookup of an id gives what its
   first one gave.
   */
  method ResolveAll<T(0)>(decoder: Decoder<T>, ids: seq<Id>) returns (results: seq<Decoded<T>>)
    requires decoder.Valid()
    modifies decoder, decoder.visits, decoder.memory
    ensures decoder.Valid() && decoder.visits.used <= decoder.visits.limit
    ensures decoder.memory.used <= decoder.memory.limit
    ensures |results| == |ids| && forall k :: 0 <= k < |ids| ==> decoder.Sound(ids[k], results[k])
    ensures forall k :: 0 <= k < |ids| ==> ids[k] in decoder.cache && decoder.cache[ids[k]] == results[k]
    ensures forall id :: id in old(decoder.cache) ==> id in decoder.cache && decoder.cache[id] == old(decoder.cache)[id]
  {
    hide ChainFrom, Affordable, Contents;
    results := [];
    for k := 0 to |ids|
      invariant decoder.Valid() && |results| == k
      invariant forall j :: 0 <= j < k ==> ids[j] in decoder.cache && decoder.cache[ids[j]] == results[j]
      invariant forall id :: id in old(decoder.cache) ==>
                  id in decoder.cache && decoder.cache[id] == old(decoder.cache)[id]
    {
      var result := decoder.Resolve(ids[k]);
      results := results + [result];
    }
  }
}
