/** Reordering rows under a unique position key: park every row out of the way, then rank it. */
module Reorder {
  import opened Common

  /** Positions by row id, as the table stores them. */
  type Positions = map<string, int>

  ghost predicate Unique(pos: Positions)
  {
    forall a, b :: a in pos && b in pos && a != b ==> pos[a] != pos[b]
  }

  ghost predicate Positive(pos: Positions)
  {
    forall a :: a in pos ==> pos[a] > 0
  }

  /** The table once the rows of `done` have been written, in whatever order. */
  function Mix(before: Positions, after: Positions, done: set<string>): Positions
  {
    map k | k in before :: if k in done && k in after then after[k] else before[k]
  }

  /** `ids` lists every row exactly once. */
  ghost predicate Lists(ids: seq<string>, keys: set<string>)
  {
    NoRepeats(ids) && keys == Elements(ids)
  }

  function Largest(pos: Positions, rows: seq<string>): (m: int)
    requires forall i :: 0 <= i < |rows| ==> rows[i] in pos
    ensures forall i :: 0 <= i < |rows| ==> pos[rows[i]] <= m
    ensures rows == [] ==> m == 0
  {
    if rows == [] then 0
    else if |rows| == 1 then pos[rows[0]]
    else Max(pos[rows[0]], Largest(pos, rows[1..]))
  }

  /** Where content items are parked: above every position in use, in query order. */
  function Offset(pos: Positions, rows: seq<string>): int
    requires forall i :: 0 <= i < |rows| ==> rows[i] in pos
  {
    Largest(pos, rows) + |rows| + 1
  }

  function IndexIn(ids: seq<string>, id: string): (i: nat)
    requires id in ids
    ensures i < |ids| && ids[i] == id
    ensures forall j :: i < j < |ids| ==> ids[j] != id
  {
    if ids[|ids| - 1] == id then |ids| - 1 else IndexIn(ids[..|ids| - 1], id)
  }

  /** Each listed row at the number of its place in the list, counted from `first`. */
  function Numbered(pos: Positions, ids: seq<string>, first: int): Positions
  {
    map k | k in pos && k in ids :: first + IndexIn(ids, k)
  }

  function Parked(pos: Positions, rows: seq<string>): Positions
    requires forall i :: 0 <= i < |rows| ==> rows[i] in pos
  {
    Numbered(pos, rows, Offset(pos, rows))
  }

  function Ranked(pos: Positions, order: seq<string>): Positions
  {
    Numbered(pos, order, 1)
  }

  /** The negative-offset variant of parking. */
  function Flipped(pos: Positions): Positions
  {
    map k | k in pos :: FlippedValue(pos[k])
  }

  function FlippedValue(p: int): int { -((if p < 0 then -p else p) + 1000) }

  /** The negative-offset variant after ranking: rows the request omits stay parked. */
  function Partly(pos: Positions, order: seq<string>): Positions
  {
    map k | k in pos :: if k in order then IndexIn(order, k) + 1 else FlippedValue(pos[k])
  }

  class PositionTable {
    var position: Positions

    constructor (initial: Positions)
      ensures position == initial
    {
      position := initial;
    }

    /** First phase: rows take consecutive places from `offset`, in query order. */
    method Park(rows: seq<string>, offset: int)
      requires Lists(rows, position.Keys)
      modifies this
      ensures position == Numbered(old(position), rows, offset)
    {
      for i := 0 to |rows|
        invariant position.Keys == old(position.Keys)
        invariant forall j :: 0 <= j < i ==> Placed(position, rows, offset, rows[j])
      {
        assert IndexIn(rows, rows[i]) == i;
        position := position[rows[i] := offset + i];
      }
      AllNumbered(old(position), position, rows, rows, offset);
    }

    /** Second phase: each row takes its rank in the requested order. */
    method Rank(rows: seq<string>, order: seq<string>)
      requires Lists(rows, position.Keys) && Lists(order, position.Keys)
      modifies this
      ensures position == Ranked(old(position), order)
    {
      for i := 0 to |rows|
        invariant position.Keys == old(position.Keys)
        invariant forall j :: 0 <= j < i ==> Placed(position, order, 1, rows[j])
      {
        ListedIn(order, position.Keys, rows[i]);
        position := position[rows[i] := IndexIn(order, rows[i]) + 1];
      }
      AllNumbered(old(position), position, rows, order, 1);
    }

    /** Content items: refuse any list that is not a permutation of the rows. */
    method ReorderContent(rows: seq<string>, order: seq<string>) returns (ok: bool)
      requires Lists(rows, position.Keys)
      modifies this
      ensures ok <==> Lists(order, old(position.Keys))
      ensures position == if ok then Ranked(old(position), order) else old(position)
    {
      RepeatsShrink(order);
      ok := |Elements(order)| == |order| && Elements(order) == Elements(rows);
      if ok {
        NumberedUnique(position, rows, Offset(position, rows));
        Park(rows, Offset(position, rows));
        Rank(rows, order);
      }
    }

    /** Modules, lessons and questions: any list is accepted, unknown ids are skipped. */
    method ReorderLoosely(rows: seq<string>, order: seq<string>)
      requires Lists(rows, position.Keys)
      modifies this
      ensures position == Partly(old(position), order)
    {
      var start := position;
      for i := 0 to |rows|
        invariant position.Keys == start.Keys
        invariant forall j :: 0 <= j < i ==> position[rows[j]] == FlippedValue(start[rows[j]])
        invariant forall j :: i <= j < |rows| ==> position[rows[j]] == start[rows[j]]
      {
        position := position[rows[i] := FlippedValue(position[rows[i]])];
      }
      assert position == Flipped(start);
      for i := 0 to |order|
        invariant position == Partly(start, order[..i])
      {
        PartlyExtends(start, order, i);
        if order[i] in position {
          position := position[order[i] := i + 1];
        }
      }
      assert order[..|order|] == order;
    }
  }

  ghost predicate Placed(pos: Positions, ids: seq<string>, first: int, k: string)
  {
    k in ids && k in pos && pos[k] == first + IndexIn(ids, k)
  }

  lemma AllNumbered(before: Positions, after: Positions, rows: seq<string>, ids: seq<string>, first: int)
    requires before.Keys == after.Keys && Lists(rows, before.Keys)
    requires forall j :: 0 <= j < |rows| ==> Placed(after, ids, first, rows[j])
    ensures after == Numbered(before, ids, first)
  {
    forall k | k in before ensures Placed(after, ids, first, k) {
      ListedIn(rows, before.Keys, k);
      assert Placed(after, ids, first, rows[IndexIn(rows, k)]);
    }
  }

  lemma PartlyExtends(pos: Positions, order: seq<string>, i: nat)
    requires i < |order|
    ensures var was := Partly(pos, order[..i]);
            Partly(pos, order[..i + 1]) == if order[i] in was then was[order[i] := i + 1] else was
  {
    var longer := order[..i + 1];
    assert longer[..i] == order[..i];
    assert forall k :: k in longer <==> k in order[..i] || k == order[i];
  }

  // ---------------------------------------------------------------------------------------
  // The unique key at every write
  // ---------------------------------------------------------------------------------------

  /** No row's old position is another row's new one. */
  ghost predicate Apart(before: Positions, after: Positions)
  {
    forall a, b :: a in before && b in after && a != b ==> before[a] != after[b]
  }

  /** Every table state while a phase's writes happen, in any order, is unique. */
  ghost predicate PhaseStaysUnique(before: Positions, after: Positions)
  {
    forall done: set<string> :: Unique(Mix(before, after, done))
  }

  lemma MixAt(before: Positions, after: Positions, done: set<string>, a: string, b: string)
    requires before.Keys == after.Keys && a in before && b in before && a != b
    requires Unique(before) && Unique(after) && Apart(before, after)
    ensures Mix(before, after, done)[a] != Mix(before, after, done)[b]
  {
  }

  /** A phase is safe under every write order exactly when its start and end are unique and no
      row moves onto a place another row still holds. */
  lemma PhaseCriterion(before: Positions, after: Positions)
    requires before.Keys == after.Keys
    ensures PhaseStaysUnique(before, after) <==> Unique(before) && Unique(after) && Apart(before, after)
  {
    if Unique(before) && Unique(after) && Apart(before, after) {
      forall done: set<string> ensures Unique(Mix(before, after, done)) {
        forall a, b | a in before && b in before && a != b
          ensures Mix(before, after, done)[a] != Mix(before, after, done)[b]
        {
          MixAt(before, after, done, a, b);
        }
      }
    }
    if PhaseStaysUnique(before, after) {
      assert Mix(before, after, {}) == before;
      assert Mix(before, after, before.Keys) == after;
      forall a, b | a in before && b in after && a != b ensures before[a] != after[b] {
        assert Unique(Mix(before, after, {b}));
      }
    }
  }

  lemma ParkedAbove(pos: Positions, rows: seq<string>, order: seq<string>, k: string)
    requires Positive(pos) && Lists(rows, pos.Keys) && Lists(order, pos.Keys) && k in pos
    ensures k in Parked(pos, rows) && k in Ranked(pos, order)
    ensures 0 < pos[k] < Offset(pos, rows) <= Parked(pos, rows)[k]
    ensures 0 < Ranked(pos, order)[k] < Offset(pos, rows)
  {
    SameLength(rows, order, pos.Keys);
    ListedIn(rows, pos.Keys, k);
    ListedIn(order, pos.Keys, k);
    var i := IndexIn(rows, k);
    assert pos[rows[i]] <= Largest(pos, rows);
  }

  lemma ListedIn(ids: seq<string>, keys: set<string>, k: string)
    requires Lists(ids, keys) && k in keys
    ensures k in ids
  {
  }

  lemma IndexDiffers(ids: seq<string>, a: string, b: string)
    requires a in ids && b in ids && a != b
    ensures IndexIn(ids, a) != IndexIn(ids, b)
  {
  }

  lemma ContentPhasesApart(pos: Positions, rows: seq<string>, order: seq<string>)
    requires Positive(pos) && Lists(rows, pos.Keys) && Lists(order, pos.Keys)
    ensures var parked, ranked := Parked(pos, rows), Ranked(pos, order);
            && parked.Keys == pos.Keys == ranked.Keys && Unique(parked) && Unique(ranked)
            && Positive(parked) && Positive(ranked) && Apart(pos, parked) && Apart(parked, ranked)
  {
    NumberedUnique(pos, rows, Offset(pos, rows));
    NumberedUnique(pos, order, 1);
    forall k | k in pos
      ensures 0 < pos[k] < Offset(pos, rows) <= Parked(pos, rows)[k] && 0 < Ranked(pos, order)[k] < Offset(pos, rows)
    {
      ParkedAbove(pos, rows, order, k);
    }
  }

  lemma MixStaysPositive(before: Positions, after: Positions, done: set<string>)
    requires Positive(before) && Positive(after)
    ensures Positive(Mix(before, after, done))
  {
  }

  /** Content items: whatever order a phase's writes happen in, positions stay unique and positive
      after each of them. */
  lemma ContentWritesStayUnique(pos: Positions, rows: seq<string>, order: seq<string>, done: set<string>)
    requires Unique(pos) && Positive(pos) && Lists(rows, pos.Keys) && Lists(order, pos.Keys)
    ensures PhaseStaysUnique(pos, Parked(pos, rows))
    ensures PhaseStaysUnique(Parked(pos, rows), Ranked(pos, order))
    ensures Positive(Mix(pos, Parked(pos, rows), done)) && Positive(Mix(Parked(pos, rows), Ranked(pos, order), done))
  {
    var parked, ranked := Parked(pos, rows), Ranked(pos, order);
    ContentPhasesApart(pos, rows, order);
    PhaseCriterion(pos, parked);
    PhaseCriterion(parked, ranked);
    MixStaysPositive(pos, parked, done);
    MixStaysPositive(parked, ranked, done);
  }

  lemma NumberedUnique(pos: Positions, ids: seq<string>, first: int)
    requires Lists(ids, pos.Keys)
    ensures Numbered(pos, ids, first).Keys == pos.Keys && Unique(Numbered(pos, ids, first))
  {
    forall k | k in pos ensures k in ids {
      ListedIn(ids, pos.Keys, k);
    }
    forall a, b | a in pos && b in pos && a != b ensures IndexIn(ids, a) != IndexIn(ids, b) {
      IndexDiffers(ids, a, b);
    }
  }

  lemma SameLength(a: seq<string>, b: seq<string>, keys: set<string>)
    requires Lists(a, keys) && Lists(b, keys)
    ensures |a| == |b|
  {
    RepeatsShrink(a);
    RepeatsShrink(b);
  }

  /** Afterwards the rows hold exactly 1..n in the requested order. */
  lemma ContentEndsRanked(pos: Positions, order: seq<string>, i: nat)
    requires Lists(order, pos.Keys) && i < |order|
    ensures Ranked(pos, order).Keys == pos.Keys && Ranked(pos, order)[order[i]] == i + 1
  {
    assert order[i] in pos.Keys;
    assert IndexIn(order, order[i]) == i;
    forall k | k in pos ensures k in order {
      ListedIn(order, pos.Keys, k);
    }
  }

  /** No two rows park at one position, and no row parks where another still stands. */
  ghost predicate NoClash(pos: Positions)
  {
    forall a, b :: a in pos && b in pos && a != b ==>
      FlippedValue(pos[a]) != FlippedValue(pos[b]) && pos[a] != FlippedValue(pos[b])
  }

  /** Every table state between two writes of the negative-offset variant is unique. */
  ghost predicate WritesStayUnique(pos: Positions, order: seq<string>)
  {
    PhaseStaysUnique(pos, Flipped(pos)) && PhaseStaysUnique(Flipped(pos), Partly(pos, order))
  }

  lemma RankingIsSafe(pos: Positions, order: seq<string>)
    requires Unique(Flipped(pos))
    ensures PhaseStaysUnique(Flipped(pos), Partly(pos, order))
  {
    var flipped, final := Flipped(pos), Partly(pos, order);
    forall a, b | a in pos && b in pos && a != b
      ensures final[a] != final[b] && flipped[a] != final[b]
    {
      assert flipped[a] != flipped[b];
      if a in order && b in order {
        IndexDiffers(order, a, b);
      }
    }
    PhaseCriterion(flipped, final);
  }

  /** The negative-offset variant keeps the key unique at every write exactly when the starting
      positions do not clash; the requested list does not matter. */
  lemma LooseWritesStayUnique(pos: Positions, order: seq<string>)
    requires Unique(pos)
    ensures WritesStayUnique(pos, order) <==> NoClash(pos)
  {
    PhaseCriterion(pos, Flipped(pos));
    assert NoClash(pos) <==> Unique(Flipped(pos)) && Apart(pos, Flipped(pos));
    if Unique(Flipped(pos)) {
      RankingIsSafe(pos, order);
    }
  }

  /** Distinct positive positions never clash. */
  lemma PositiveNeverClash(pos: Positions)
    requires Unique(pos) && Positive(pos)
    ensures NoClash(pos)
  {
    forall a, b | a in pos && b in pos && a != b
      ensures FlippedValue(pos[a]) != FlippedValue(pos[b]) && pos[a] != FlippedValue(pos[b])
    {
    }
  }

  /** The final positions are the requested ranks, and nothing is left parked, exactly when the
      request lists every row once. */
  lemma LooseEndsRanked(pos: Positions, order: seq<string>)
    ensures (&& (forall i :: 0 <= i < |order| ==> order[i] in pos && Partly(pos, order)[order[i]] == i + 1)
             && Positive(Partly(pos, order)))
            <==> Lists(order, pos.Keys)
  {
    var final := Partly(pos, order);
    var listed := Elements(order);
    if Lists(order, pos.Keys) {
      forall i | 0 <= i < |order| ensures order[i] in pos && final[order[i]] == i + 1 {
        assert order[i] in listed;
        assert IndexIn(order, order[i]) == i;
      }
    }
    if Positive(final) && forall i :: 0 <= i < |order| ==> order[i] in pos && final[order[i]] == i + 1 {
      forall k | k in pos ensures k in listed {
        assert final[k] > 0;
        var i := IndexIn(order, k);
        assert order[i] == k;
      }
      assert pos.Keys == listed;
    }
  }

  /** The place an omitted row is parked at collides in the next reorder neither with a listed row nor
      with another omitted one. */
  ghost predicate Roomy(pos: Positions, order: seq<string>)
  {
    forall a, b :: a in pos && b in pos && a !in order && a != b ==>
      if b in order then IndexIn(order, b) + 1 != pos[a] && IndexIn(order, b) + 1 != pos[a] + 1000
      else pos[b] != pos[a] + 1000
  }

  lemma PartlyUnique(pos: Positions, order: seq<string>)
    requires Unique(pos) && Positive(pos)
    ensures Unique(Partly(pos, order))
  {
    PositiveNeverClash(pos);
    LooseWritesStayUnique(pos, order);
    PhaseCriterion(Flipped(pos), Partly(pos, order));
  }

  lemma ClashOfPair(pos: Positions, order: seq<string>, a: string, b: string)
    requires Unique(pos) && Positive(pos) && a in pos && b in pos && a != b
    requires Roomy(pos, order)
    ensures var q := Partly(pos, order); FlippedValue(q[a]) != FlippedValue(q[b]) && q[a] != FlippedValue(q[b])
  {
    if a in order && b in order { IndexDiffers(order, a, b); }
  }

  lemma RoomyMeansNoClash(pos: Positions, order: seq<string>)
    requires Unique(pos) && Positive(pos)
    ensures NoClash(Partly(pos, order)) <==> Roomy(pos, order)
  {
    var q := Partly(pos, order);
    if Roomy(pos, order) {
      forall a, b | a in q && b in q && a != b
        ensures FlippedValue(q[a]) != FlippedValue(q[b]) && q[a] != FlippedValue(q[b]) {
        ClashOfPair(pos, order, a, b);
      }
    }
    if NoClash(q) {
      forall a, b | a in pos && b in pos && a !in order && a != b
        ensures if b in order then IndexIn(order, b) + 1 != pos[a] && IndexIn(order, b) + 1 != pos[a] + 1000
                else pos[b] != pos[a] + 1000
      {
        assert FlippedValue(q[a]) != FlippedValue(q[b]) && q[a] != FlippedValue(q[b]) && q[b] != FlippedValue(q[a]);
      }
    }
  }

  /** After a request that omits rows, the next reordering, whatever it asks for, keeps the key unique
      at every write exactly when no omitted row at `p` meets a listed row of rank `p` or `p + 1000` or
      an omitted row at `p + 1000`. */
  lemma NextReorderIsSafeExactlyWhen(pos: Positions, order: seq<string>, next: seq<string>)
    requires Unique(pos) && Positive(pos)
    ensures WritesStayUnique(Partly(pos, order), next) <==> Roomy(pos, order)
  {
    PartlyUnique(pos, order);
    LooseWritesStayUnique(Partly(pos, order), next);
    RoomyMeansNoClash(pos, order);
  }

  /** Leaving a row out is not harmless: after a request that omits the first of two rows, the next
      reordering meets a duplicate position while it parks. */
  lemma OmissionBreaksTheNextReorder(a: string, b: string, next: seq<string>)
    requires a != b
    ensures !WritesStayUnique(Partly(map[a := 1, b := 2], [b]), next)
  {
    var pos := map[a := 1, b := 2];
    assert IndexIn([b], b) + 1 == pos[a];
    NextReorderIsSafeExactlyWhen(pos, [b], next);
  }
}
