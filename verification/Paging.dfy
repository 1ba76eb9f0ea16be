/** Keyset pagination over a fixed table: descending by (key, id), one opaque cursor per page. */
module Paging {
  import opened Common
  import opened Cursor
  import Iso = IsoTimestamp

  datatype Row = Row(key: SortKey, id: string)

  /** One response: its items, and the cursor of the next page when more rows follow. */
  datatype Page = Page(items: seq<Row>, next: Option<string>)

  /** Row `a` sorts strictly after the position (value, id) in descending order. */
  predicate Beyond(a: Row, value: int, id: string)
  {
    Value(a.key) < value || (Value(a.key) == value && StrLess(a.id, id))
  }

  predicate Below(a: Row, b: Row)
  {
    Beyond(a, Value(b.key), b.id)
  }

  ghost predicate DistinctIds(t: set<Row>)
  {
    forall r, s :: r in t && s in t && r.id == s.id ==> r == s
  }

  lemma BelowTransitive(a: Row, b: Row, c: Row)
    requires Below(a, b) && Below(b, c)
    ensures Below(a, c)
  {
    if StrLess(a.id, b.id) && StrLess(b.id, c.id) {
      StrLessTransitive(a.id, b.id, c.id);
    }
  }

  lemma BelowIrreflexive(a: Row)
    ensures !Below(a, a)
  {
    StrLessIrreflexive(a.id);
  }

  ghost predicate IsTop(t: set<Row>, top: Row)
  {
    top in t && forall r :: r in t && r != top ==> Below(r, top)
  }

  lemma TopOfLarger(rest: set<Row>, x: Row, m: Row)
    requires IsTop(rest, m) && x !in rest && x.id != m.id
    ensures IsTop(rest + {x}, if Below(m, x) then x else m)
  {
    StrLessTotal(x.id, m.id);
    if Below(m, x) {
      forall r | r in rest && r != m ensures Below(r, x) {
        BelowTransitive(r, m, x);
      }
    }
  }

  lemma {:induction false} TopExists(t: set<Row>) returns (top: Row)
    requires t != {} && DistinctIds(t)
    ensures IsTop(t, top)
    decreases |t|
  {
    top :| top in t;
    var rest := t - {top};
    if rest != {} {
      var m := TopExists(rest);
      TopOfLarger(rest, top, m);
      assert rest + {top} == t;
      top := if Below(m, top) then top else m;
    } else {
      assert t == {top};
    }
  }

  ghost function Top(t: set<Row>): (top: Row)
    requires t != {} && DistinctIds(t)
    ensures IsTop(t, top)
  {
    assert exists r :: IsTop(t, r) by {
      var r := TopExists(t);
    }
    var top :| IsTop(t, top);
    top
  }

  /** ORDER BY key DESC, id DESC. */
  ghost function Sorted(t: set<Row>): seq<Row>
    requires DistinctIds(t)
    decreases |t|
  {
    if t == {} then [] else [Top(t)] + Sorted(t - {Top(t)})
  }

  /** The ordering lists every row exactly once ... */
  lemma {:induction false} SortedListsAll(t: set<Row>)
    requires DistinctIds(t)
    ensures multiset(Sorted(t)) == multiset(t) && |Sorted(t)| == |t|
    decreases |t|
  {
    if t != {} {
      var rest := t - {Top(t)};
      SortedListsAll(rest);
      assert multiset(t) == multiset(rest) + multiset{Top(t)};
    }
  }

  lemma SortedIn(t: set<Row>, i: nat)
    requires DistinctIds(t) && i < |Sorted(t)|
    ensures Sorted(t)[i] in t
  {
    SortedListsAll(t);
    assert Sorted(t)[i] in multiset(Sorted(t));
  }

  /** ... each one below all earlier ones. */
  lemma {:induction false} SortedDescends(t: set<Row>, i: nat, j: nat)
    requires DistinctIds(t) && i < j < |Sorted(t)|
    ensures Below(Sorted(t)[j], Sorted(t)[i])
    decreases |t|
  {
    var rest := t - {Top(t)};
    if i == 0 {
      SortedIn(rest, j - 1);
    } else {
      SortedDescends(rest, i - 1, j - 1);
    }
  }

  ghost function After(t: set<Row>, value: int, id: string): set<Row>
  {
    set r | r in t && Beyond(r, value, id)
  }

  lemma AfterTop(t: set<Row>, r: Row)
    requires t != {} && DistinctIds(t) && r in t
    ensures r == Top(t) ==> After(t, Value(r.key), r.id) == t - {Top(t)}
    ensures r != Top(t) ==> After(t, Value(r.key), r.id) == After(t - {Top(t)}, Value(r.key), r.id)
  {
    var top := Top(t);
    BelowIrreflexive(top);
    if r != top && Below(top, r) {
      BelowTransitive(top, r, top);
    }
  }

  /** The rows a cursor leaves are exactly those listed after its row. */
  lemma {:induction false} AfterIsSuffix(t: set<Row>, i: nat)
    requires DistinctIds(t) && i < |Sorted(t)|
    ensures var r := Sorted(t)[i];
            Sorted(After(t, Value(r.key), r.id)) == Sorted(t)[i + 1..]
    decreases |t|
  {
    var rest := t - {Top(t)};
    SortedIn(t, i);
    AfterTop(t, Sorted(t)[i]);
    if i > 0 {
      SortedIn(rest, i - 1);
      assert Sorted(t)[i] == Sorted(rest)[i - 1];
      AfterIsSuffix(rest, i - 1);
    }
  }

  // ---------------------------------------------------------------------------------------
  // Following cursors, for any endpoint
  // ---------------------------------------------------------------------------------------

  type Endpoint = Option<string> -> Result<Page, Fault>

  /** `pages` is what a client collects by following the cursors from `cursor` to the end. */
  ghost predicate Follows(q: Endpoint, cursor: Option<string>, pages: seq<Page>)
    decreases |pages|
  {
    && pages != []
    && q(cursor) == Ok(pages[0])
    && if pages[0].next.None? then |pages| == 1 else Follows(q, pages[0].next, pages[1..])
  }

  function Items(pages: seq<Page>): seq<Row>
  {
    if pages == [] then [] else pages[0].items + Items(pages[1..])
  }

  /** `p` is the page of `s` that starts at `i`. */
  ghost predicate IsPage(p: Page, s: seq<Row>, i: nat, size: nat)
  {
    && i <= |s|
    && p.items == s[i..Min(i + size, |s|)]
    && (p.next.None? <==> i + size >= |s|)
  }

  /** At every cursor that stands for a position, the endpoint answers that position's page, and
      the page's own cursor stands for the position after it. */
  ghost predicate Serves(q: Endpoint, at: (Option<string>, int) -> bool, s: seq<Row>, size: nat)
  {
    forall c: Option<string>, i: nat :: at(c, i) ==>
      q(c).Ok? && IsPage(q(c).value, s, i, size) && (q(c).value.next.Some? ==> at(q(c).value.next, i + size))
  }

  /** Following the cursors terminates: some finite sequence of pages reaches a page without a
      next cursor. */
  lemma {:induction false} FollowingEnds(q: Endpoint, at: (Option<string>, int) -> bool, s: seq<Row>, size: nat,
                                         cursor: Option<string>, i: nat)
    returns (pages: seq<Page>)
    requires size > 0 && Serves(q, at, s, size) && at(cursor, i)
    ensures Follows(q, cursor, pages)
    decreases |s| - i
  {
    var p := q(cursor).value;
    if p.next.None? {
      pages := [p];
    } else {
      var rest := FollowingEnds(q, at, s, size, p.next, i + size);
      pages := [p] + rest;
      assert pages[1..] == rest;
    }
  }

  lemma {:induction false} FollowedPages(q: Endpoint, at: (Option<string>, int) -> bool, s: seq<Row>, size: nat,
                                         cursor: Option<string>, i: nat, pages: seq<Page>)
    requires size > 0 && Serves(q, at, s, size) && at(cursor, i) && Follows(q, cursor, pages)
    ensures Items(pages) == s[i..]
    decreases |pages|
  {
    var p := pages[0];
    if p.next.Some? {
      FollowedPages(q, at, s, size, p.next, i + size, pages[1..]);
      PageAndRest(s, i, size);
    } else {
      assert pages[1..] == [];
      assert s[i..|s|] == s[i..];
    }
  }

  lemma PageAndRest(s: seq<Row>, i: nat, size: nat)
    requires i + size <= |s|
    ensures s[i..] == s[i..i + size] + s[i + size..]
  {
  }

  /** Every page is full but the last. */
  lemma {:induction false} PagesAreFull(q: Endpoint, at: (Option<string>, int) -> bool, s: seq<Row>, size: nat,
                                        cursor: Option<string>, i: nat, pages: seq<Page>)
    requires size > 0 && Serves(q, at, s, size) && at(cursor, i) && Follows(q, cursor, pages)
    ensures forall j :: 0 <= j < |pages| ==> |pages[j].items| <= size && (j < |pages| - 1 ==> |pages[j].items| == size)
    decreases |pages|
  {
    var p := pages[0];
    if p.next.Some? {
      PagesAreFull(q, at, s, size, p.next, i + size, pages[1..]);
      assert forall j :: 1 <= j < |pages| ==> pages[j] == pages[1..][j - 1];
    }
  }

  // ---------------------------------------------------------------------------------------
  // The endpoint
  // ---------------------------------------------------------------------------------------

  /** How an endpoint writes the cursor of a row and reads a cursor back. */
  datatype Codec = Codec(write: Row -> string, read: string -> Result<(int, string), Fault>)

  /** A table the codec can page over: ids are distinct and every row survives its cursor. */
  ghost predicate Pageable(codec: Codec, t: set<Row>)
  {
    && DistinctIds(t)
    && forall r :: r in t ==> codec.write(r) != "" && codec.read(codec.write(r)) == Ok((Value(r.key), r.id))
  }

  /** The rows the WHERE clause keeps; an absent or empty cursor keeps all. */
  ghost function Base(codec: Codec, t: set<Row>, cursor: Option<string>): (r: Result<set<Row>, Fault>)
    ensures r.Ok? ==> r.value <= t
  {
    if cursor.None? || cursor.value == "" then Ok(t)
    else
      match codec.read(cursor.value)
      case Err(e) => Err(e)
      case Ok((value, id)) => Ok(After(t, value, id))
  }

  /** The rows from the cursor on, in order. */
  ghost function Rest(codec: Codec, t: set<Row>, cursor: Option<string>): Result<seq<Row>, Fault>
    requires DistinctIds(t)
  {
    match Base(codec, t, cursor)
    case Err(e) => Err(e)
    case Ok(base) => Ok(Sorted(base))
  }

  /** One row more than the page holds is fetched; it only tells that there is more. */
  function Cut(codec: Codec, all: seq<Row>, size: nat): Page
    requires size > 0
  {
    var rows := if |all| > size + 1 then all[..size + 1] else all;
    if |rows| > size then Page(rows[..size], Some(codec.write(rows[size - 1]))) else Page(rows, None)
  }

  ghost function Query(codec: Codec, t: set<Row>, cursor: Option<string>, size: nat): Result<Page, Fault>
    requires DistinctIds(t) && size > 0
  {
    match Rest(codec, t, cursor)
    case Err(e) => Err(e)
    case Ok(all) => Ok(Cut(codec, all, size))
  }

  /** The cursor stands for position `i` of the full ordering. */
  ghost predicate StandsAt(codec: Codec, t: set<Row>, cursor: Option<string>, i: int)
    requires DistinctIds(t)
  {
    0 <= i <= |Sorted(t)| && Rest(codec, t, cursor) == Ok(Sorted(t)[i..])
  }

  lemma CursorStands(codec: Codec, t: set<Row>, i: nat)
    requires Pageable(codec, t) && i < |Sorted(t)|
    ensures StandsAt(codec, t, Some(codec.write(Sorted(t)[i])), i + 1)
  {
    SortedIn(t, i);
    AfterIsSuffix(t, i);
  }

  lemma StartStands(codec: Codec, t: set<Row>)
    requires DistinctIds(t)
    ensures PositionIn(codec, t)(None, 0)
  {
    assert Sorted(t)[0..] == Sorted(t);
  }

  lemma CutAt(codec: Codec, s: seq<Row>, i: nat, size: nat)
    requires size > 0 && i <= |s|
    ensures var p := Cut(codec, s[i..], size);
            && IsPage(p, s, i, size)
            && (p.next.Some? ==> p.next == Some(codec.write(s[i + size - 1])))
  {
    if i + size < |s| {
      assert s[i..][size - 1] == s[i + size - 1];
      assert s[i..][..size] == s[i..i + size];
      if |s[i..]| > size + 1 {
        assert s[i..][..size + 1][..size] == s[i..i + size];
      }
    }
  }

  /** The endpoint over one table with one page size, and the position a cursor stands for. */
  ghost function EndpointOver(codec: Codec, t: set<Row>, size: nat): Endpoint
    requires DistinctIds(t) && size > 0
  {
    (c: Option<string>) => Query(codec, t, c, size)
  }

  ghost function PositionIn(codec: Codec, t: set<Row>): (Option<string>, int) -> bool
    requires DistinctIds(t)
  {
    (c: Option<string>, i: int) => StandsAt(codec, t, c, i)
  }

  lemma QueryAt(codec: Codec, t: set<Row>, size: nat, c: Option<string>, i: nat) returns (p: Page)
    requires Pageable(codec, t) && size > 0 && StandsAt(codec, t, c, i)
    ensures Query(codec, t, c, size) == Ok(p) && IsPage(p, Sorted(t), i, size)
    ensures p.next.Some? ==> p.next == Some(codec.write(Sorted(t)[i + size - 1]))
  {
    p := Cut(codec, Sorted(t)[i..], size);
    CutAt(codec, Sorted(t), i, size);
  }

  lemma PageAt(codec: Codec, t: set<Row>, size: nat, c: Option<string>, i: nat) returns (p: Page)
    requires Pageable(codec, t) && size > 0 && StandsAt(codec, t, c, i)
    ensures Query(codec, t, c, size) == Ok(p) && IsPage(p, Sorted(t), i, size)
    ensures p.next.Some? ==> StandsAt(codec, t, p.next, i + size)
  {
    p := QueryAt(codec, t, size, c, i);
    if p.next.Some? {
      CursorStands(codec, t, i + size - 1);
    }
  }

  lemma EndpointServes(codec: Codec, t: set<Row>, size: nat)
    requires Pageable(codec, t) && size > 0
    ensures Serves(EndpointOver(codec, t, size), PositionIn(codec, t), Sorted(t), size)
  {
    var q, at, s := EndpointOver(codec, t, size), PositionIn(codec, t), Sorted(t);
    forall c: Option<string>, i: nat | at(c, i)
      ensures q(c).Ok? && IsPage(q(c).value, s, i, size) && (q(c).value.next.Some? ==> at(q(c).value.next, i + size))
    {
      var p := PageAt(codec, t, size, c, i);
      assert q(c) == Query(codec, t, c, size);
    }
  }

  // ---------------------------------------------------------------------------------------
  // The two codecs of the application
  // ---------------------------------------------------------------------------------------

  function CodecFor(kind: Kind): Codec
  {
    Codec((r: Row) => if KeyOk(r.key) then EncodeCursor(r.key, r.id) else "", (s: string) => DecodeCursor(kind, s))
  }

  lemma EmptyCursorIsInvalid(kind: Kind)
    ensures DecodeCursor(kind, "").Err?
  {
    assert Base64.Pads(0) == "";
    assert Unseal("") == Some("");
  }

  /** Distinct ids, one kind of key, and keys and ids a cursor can carry make a table pageable. */
  lemma CursorsPage(kind: Kind, t: set<Row>)
    requires DistinctIds(t)
    requires forall r :: r in t ==> KindOf(r.key) == kind && KeyOk(r.key) && Encodable(r.key, r.id)
    ensures Pageable(CodecFor(kind), t)
  {
    EmptyCursorIsInvalid(kind);
    forall r | r in t
      ensures var c := EncodeCursor(r.key, r.id); c != "" && DecodeCursor(kind, c) == Ok((Value(r.key), r.id))
    {
      CursorRoundTrip(r.key, r.id);
    }
  }

  /** A later time or a higher rating comes first, and the later id among equals. */
  predicate ComesBefore(a: Row, b: Row)
  {
    match (a.key, b.key)
    case (Rating(x), Rating(y)) => y < x || (y == x && StrLess(b.id, a.id))
    case (Time(x), Time(y)) =>
      Iso.Instant(y) < Iso.Instant(x) || (Iso.Instant(y) == Iso.Instant(x) && StrLess(b.id, a.id))
    case _ => false
  }

  /** The order of the query is that order, within one kind of key. */
  lemma BelowIsAfter(a: Row, b: Row)
    requires KindOf(a.key) == KindOf(b.key)
    ensures Below(b, a) <==> ComesBefore(a, b)
  {
  }

  /** The rows a cursor keeps are exactly those its row comes before. */
  lemma CursorKeeps(kind: Kind, t: set<Row>, last: Row)
    requires KindOf(last.key) == kind && KeyOk(last.key) && Encodable(last.key, last.id)
    requires forall r :: r in t ==> KindOf(r.key) == kind
    ensures Base(CodecFor(kind), t, Some(EncodeCursor(last.key, last.id))) ==
            Ok(set r | r in t && ComesBefore(last, r))
  {
    EmptyCursorIsInvalid(kind);
    CursorRoundTrip(last.key, last.id);
    forall r | r in t ensures Below(r, last) <==> ComesBefore(last, r) { BelowIsAfter(last, r); }
    assert After(t, Value(last.key), last.id) == set r | r in t && ComesBefore(last, r);
  }

  /** Paging is a complete enumeration: from the start the client always reaches the end, and what
      it then holds is the whole table, every row once, in the order of `ComesBefore`, every page full
      but the last; for the time and the rating key alike. */
  lemma PagingEnumerates(kind: Kind, t: set<Row>, size: nat) returns (pages: seq<Page>)
    requires DistinctIds(t) && size > 0
    requires forall r :: r in t ==> KindOf(r.key) == kind && KeyOk(r.key) && Encodable(r.key, r.id)
    ensures Follows(EndpointOver(CodecFor(kind), t, size), None, pages)
    ensures multiset(Items(pages)) == multiset(t)
    ensures forall i, j :: 0 <= i < j < |Items(pages)| ==> ComesBefore(Items(pages)[i], Items(pages)[j])
    ensures forall j :: 0 <= j < |pages| ==> |pages[j].items| <= size
    ensures forall j :: 0 <= j < |pages| - 1 ==> |pages[j].items| == size
  {
    var codec, s := CodecFor(kind), Sorted(t);
    var q, at := EndpointOver(codec, t, size), PositionIn(codec, t);
    CursorsPage(kind, t);
    EndpointServes(codec, t, size);
    StartStands(codec, t);
    pages := FollowingEnds(q, at, s, size, None, 0);
    FollowedPages(q, at, s, size, None, 0, pages);
    PagesAreFull(q, at, s, size, None, 0, pages);
    SortedListsAll(t);
    forall i, j | 0 <= i < j < |Items(pages)| ensures ComesBefore(Items(pages)[i], Items(pages)[j]) {
      SortedIn(t, i);
      SortedIn(t, j);
      SortedDescends(t, i, j);
      BelowIsAfter(s[i], s[j]);
    }
  }

  /** However a client follows the cursors, it ends with the same rows. */
  lemma EveryWalkEnumerates(kind: Kind, t: set<Row>, size: nat, pages: seq<Page>)
    requires DistinctIds(t) && size > 0
    requires forall r :: r in t ==> KindOf(r.key) == kind && KeyOk(r.key) && Encodable(r.key, r.id)
    requires Follows(EndpointOver(CodecFor(kind), t, size), None, pages)
    ensures Items(pages) == Sorted(t)
  {
    var codec, s := CodecFor(kind), Sorted(t);
    CursorsPage(kind, t);
    EndpointServes(codec, t, size);
    StartStands(codec, t);
    FollowedPages(EndpointOver(codec, t, size), PositionIn(codec, t), s, size, None, 0, pages);
  }
}
