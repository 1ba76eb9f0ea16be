/** Batches of progress mutations: replays, splits, and what the order of a batch can change. */
module ProgressSync {
  import opened Common
  import opened LearnerModel

  // ---------------------------------------------------------------------------------------
  // Whole batches
  // ---------------------------------------------------------------------------------------

  /** The mutations of a batch and its gate inputs, as state `st` knows them. */
  ghost predicate Known(c: Content, course: string, st: State, ms: seq<Mutation>)
  {
    forall m :: m in ms ==> m.id in st.mutations && st.mutations[m.id] == m && Refusal(c, course, st, m).None?
  }

  /** Only progress rows and recorded mutations change, and nothing recorded is lost. */
  ghost predicate SyncsTo(st: State, after: State)
  {
    && after == st.(progress := after.progress, mutations := after.mutations)
    && forall k :: k in st.mutations ==> k in after.mutations && after.mutations[k] == st.mutations[k]
  }

  lemma RefusalFrame(c: Content, course: string, a: State, b: State, m: Mutation)
    requires a.attempts == b.attempts && a.watched == b.watched
    ensures Refusal(c, course, a, m) == Refusal(c, course, b, m)
  {
  }

  lemma {:induction false} AcceptedIsKnown(c: Content, course: string, st: State, ms: seq<Mutation>)
    requires SyncAll(c, course, st, ms).Ok?
    ensures SyncsTo(st, SyncAll(c, course, st, ms).value) && Known(c, course, SyncAll(c, course, st, ms).value, ms)
  {
    if ms != [] {
      var n := |ms| - 1;
      AcceptedIsKnown(c, course, st, ms[..n]);
      var mid, after := SyncAll(c, course, st, ms[..n]).value, SyncAll(c, course, st, ms).value;
      forall m | m in ms ensures m.id in after.mutations && after.mutations[m.id] == m &&
          Refusal(c, course, after, m).None? {
        RefusalFrame(c, course, mid, after, m);
        assert m == ms[n] || m in ms[..n];
      }
    }
  }

  lemma {:induction false} KnownIsSilent(c: Content, course: string, st: State, ms: seq<Mutation>)
    requires Known(c, course, st, ms)
    ensures SyncAll(c, course, st, ms) == Ok(st)
  {
    if ms != [] {
      KnownIsSilent(c, course, st, ms[..|ms| - 1]);
      assert ms[|ms| - 1] in ms;
    }
  }

  /** A replay of an accepted batch changes nothing: at once, and in any later state that still has
      the recorded mutations and whose gates have not closed. */
  lemma ReplayIsSilent(c: Content, course: string, st: State, ms: seq<Mutation>, later: State)
    requires SyncAll(c, course, st, ms).Ok?
    requires var after := SyncAll(c, course, st, ms).value;
             && (forall k :: k in after.mutations ==> k in later.mutations && later.mutations[k] == after.mutations[k])
             && (forall l :: GateOf(c, after, l) ==> GateOf(c, later, l))
    ensures SyncAll(c, course, later, ms) == Ok(later)
  {
    AcceptedIsKnown(c, course, st, ms);
    KnownIsSilent(c, course, later, ms);
  }

  /** One batch or two: a split changes neither the outcome nor the state. */
  lemma {:induction false} BatchesSplit(c: Content, course: string, st: State, a: seq<Mutation>, b: seq<Mutation>)
    ensures SyncAll(c, course, st, a + b) ==
            match SyncAll(c, course, st, a)
            case Err(code) => Err(code)
            case Ok(mid) => SyncAll(c, course, mid, b)
    decreases |b|
  {
    if b == [] {
      assert a + b == a;
    } else {
      var n := |b| - 1;
      assert (a + b)[..|a + b| - 1] == a + b[..n];
      BatchesSplit(c, course, st, a, b[..n]);
    }
  }

  // ---------------------------------------------------------------------------------------
  // One lesson's row is a fold over its fresh mutations
  // ---------------------------------------------------------------------------------------

  /** The mutations of one lesson that were not recorded before, each once, in order of arrival. */
  function FreshFor(st: State, ms: seq<Mutation>, lesson: string): seq<Mutation>
  {
    if ms == [] then []
    else
      var n := |ms| - 1;
      var m := ms[n];
      FreshFor(st, ms[..n], lesson) + if m.lesson == lesson && m.id !in st.mutations && m !in ms[..n] then [m] else []
  }

  function Fold(row: Row, ms: seq<Mutation>): Row
  {
    if ms == [] then row else Synced(Fold(row, ms[..|ms| - 1]), ms[|ms| - 1])
  }

  lemma FoldSnoc(row: Row, ms: seq<Mutation>, m: Mutation)
    ensures Fold(row, ms + [m]) == Synced(Fold(row, ms), m)
  {
    assert (ms + [m])[..|ms|] == ms;
  }

  /** Mutation ids recorded by a batch that the state did not know. */
  lemma {:induction false} RecordedFrom(c: Content, course: string, st: State, ms: seq<Mutation>, k: string)
    requires SyncAll(c, course, st, ms).Ok? && k in SyncAll(c, course, st, ms).value.mutations && k !in st.mutations
    ensures SyncAll(c, course, st, ms).value.mutations[k] in ms
  {
    if ms != [] {
      var n := |ms| - 1;
      if k in SyncAll(c, course, st, ms[..n]).value.mutations {
        RecordedFrom(c, course, st, ms[..n], k);
      }
    }
  }

  /** A mutation of an accepted batch writes exactly when its id is new to the state and it is new to
      the batch. */
  lemma WritesWhenFresh(c: Content, course: string, st: State, ms: seq<Mutation>, n: nat)
    requires n == |ms| - 1 && SyncAll(c, course, st, ms).Ok?
    ensures ms[n].id in SyncAll(c, course, st, ms[..n]).value.mutations <==>
            ms[n].id in st.mutations || ms[n] in ms[..n]
  {
    var m, mid := ms[n], SyncAll(c, course, st, ms[..n]).value;
    AcceptedIsKnown(c, course, st, ms[..n]);
    if m.id in mid.mutations && m.id !in st.mutations {
      RecordedFrom(c, course, st, ms[..n], m.id);
    }
  }

  lemma {:induction false} RowIsFold(c: Content, course: string, st: State, ms: seq<Mutation>, lesson: string)
    requires SyncAll(c, course, st, ms).Ok?
    ensures OldRow(SyncAll(c, course, st, ms).value.progress, lesson) ==
            Fold(OldRow(st.progress, lesson), FreshFor(st, ms, lesson))
    ensures lesson in SyncAll(c, course, st, ms).value.progress <==>
            lesson in st.progress || FreshFor(st, ms, lesson) != []
  {
    if ms != [] {
      var n := |ms| - 1;
      var mid := SyncAll(c, course, st, ms[..n]).value;
      RowIsFold(c, course, st, ms[..n], lesson);
      WritesWhenFresh(c, course, st, ms, n);
      if ms[n].id in mid.mutations || ms[n].lesson != lesson {
        assert FreshFor(st, ms, lesson) == FreshFor(st, ms[..n], lesson);
      } else {
        assert FreshFor(st, ms, lesson) == FreshFor(st, ms[..n], lesson) + [ms[n]];
        FoldSnoc(OldRow(st.progress, lesson), FreshFor(st, ms[..n], lesson), ms[n]);
      }
    }
  }

  lemma {:induction false} RecordedUnderId(c: Content, course: string, st: State, ms: seq<Mutation>, k: string)
    requires SyncAll(c, course, st, ms).Ok? && k in SyncAll(c, course, st, ms).value.mutations && k !in st.mutations
    ensures SyncAll(c, course, st, ms).value.mutations[k].id == k
  {
    if ms != [] {
      var n := |ms| - 1;
      if k in SyncAll(c, course, st, ms[..n]).value.mutations {
        RecordedUnderId(c, course, st, ms[..n], k);
      }
    }
  }

  predicate SameId(m: Mutation, n: Mutation) { m.id == n.id }

  /** No mutation is refused, none reuses a recorded id for other data, and no two of them share an id. */
  ghost predicate Acceptable(c: Content, course: string, st: State, ms: seq<Mutation>)
  {
    && (forall m :: m in ms ==> Refusal(c, course, st, m).None? && (m.id in st.mutations ==> st.mutations[m.id] == m))
    && (forall m, n :: m in ms && n in ms && SameId(m, n) ==> m == n)
  }

  /** Whether a batch is accepted depends on its mutations alone, not on their order or repeats. */
  lemma {:induction false} AcceptedExactlyWhen(c: Content, course: string, st: State, ms: seq<Mutation>)
    ensures SyncAll(c, course, st, ms).Ok? <==> Acceptable(c, course, st, ms)
  {
    if ms != [] {
      var n := |ms| - 1;
      assert ms == ms[..n] + [ms[n]];
      AcceptedExactlyWhen(c, course, st, ms[..n]);
      if SyncAll(c, course, st, ms[..n]).Ok? {
        var mid := SyncAll(c, course, st, ms[..n]).value;
        LastAccepted(c, course, st, ms[..n], ms[n], mid);
      }
    }
  }

  lemma LastAccepted(c: Content, course: string, st: State, ms: seq<Mutation>, m: Mutation, mid: State)
    requires SyncAll(c, course, st, ms) == Ok(mid) && Acceptable(c, course, st, ms)
    ensures ApplyMutation(c, course, mid, m).Ok? <==>
            Refusal(c, course, st, m).None? && (m.id in st.mutations ==> st.mutations[m.id] == m) && forall k ::
                k in ms && SameId(k, m) ==> k == m
  {
    AcceptedIsKnown(c, course, st, ms);
    RefusalFrame(c, course, st, mid, m);
    if m.id in mid.mutations && m.id !in st.mutations {
      RecordedFrom(c, course, st, ms, m.id);
      RecordedUnderId(c, course, st, ms, m.id);
      assert SameId(mid.mutations[m.id], m);
    }
  }

  lemma {:induction false} FreshOnes(st: State, ms: seq<Mutation>, lesson: string)
    ensures forall m :: m in FreshFor(st, ms, lesson) <==> m in ms && m.lesson == lesson && m.id !in st.mutations
    ensures NoRepeats(FreshFor(st, ms, lesson))
  {
    if ms != [] {
      var n := |ms| - 1;
      FreshOnes(st, ms[..n], lesson);
      assert ms == ms[..n] + [ms[n]];
    }
  }

  /** The distinct fresh mutation ids of a lesson in a batch. */
  function FreshIds(st: State, ms: seq<Mutation>, lesson: string): set<string>
  {
    set m | m in ms && m.lesson == lesson && m.id !in st.mutations :: m.id
  }

  lemma {:induction false} FoldCounts(row: Row, ms: seq<Mutation>)
    ensures Fold(row, ms).revision == row.revision + |ms|
  {
    if ms != [] {
      FoldCounts(row, ms[..|ms| - 1]);
    }
  }

  lemma FreshIdsCount(st: State, ms: seq<Mutation>, lesson: string)
    requires forall m, n :: m in ms && n in ms && m.id == n.id ==> m == n
    ensures |FreshIds(st, ms, lesson)| == |FreshFor(st, ms, lesson)|
  {
    var news := FreshFor(st, ms, lesson);
    FreshOnes(st, ms, lesson);
    RepeatsShrink(news);
    var id := (m: Mutation) => m.id;
    assert FreshIds(st, ms, lesson) == set m | m in Elements(news) :: id(m) by {
      forall k ensures k in FreshIds(st, ms, lesson) <==> k in (set m | m in Elements(news) :: id(m)) {
        if m: Mutation :| m in Elements(news) && id(m) == k { assert m in ms && m.id == k; }
        if k in FreshIds(st, ms, lesson) {
          var m :| m in ms && m.lesson == lesson && m.id !in st.mutations && m.id == k;
          assert m in news && id(m) == k;
        }
      }
    }
    InjectiveImageSize(Elements(news), id, FreshIds(st, ms, lesson));
  }

  /** The revision of a lesson grows by its number of distinct fresh mutation ids. */
  lemma RevisionCountsFreshIds(c: Content, course: string, st: State, ms: seq<Mutation>, lesson: string)
    requires SyncAll(c, course, st, ms).Ok?
    ensures OldRow(SyncAll(c, course, st, ms).value.progress, lesson).revision ==
            OldRow(st.progress, lesson).revision + |FreshIds(st, ms, lesson)|
  {
    RowIsFold(c, course, st, ms, lesson);
    FoldCounts(OldRow(st.progress, lesson), FreshFor(st, ms, lesson));
    AcceptedIsKnown(c, course, st, ms);
    FreshIdsCount(st, ms, lesson);
  }

  // ---------------------------------------------------------------------------------------
  // What the order of the mutations can change
  // ---------------------------------------------------------------------------------------

  predicate InRange(row: Row) { 0 <= row.position <= row.duration }

  /** `v` is the largest of `base` and the values of `f` on the mutations. */
  ghost predicate IsTop(v: int, base: int, ms: seq<Mutation>, f: Mutation -> int)
  {
    && base <= v && (forall m :: m in ms ==> f(m) <= v)
    && (v == base || exists m :: m in ms && f(m) == v)
  }

  function DurationOf(m: Mutation): int { m.duration }

  function PositionOf(m: Mutation): int { m.position }

  lemma {:induction false} FoldKeepsRange(row: Row, ms: seq<Mutation>)
    requires InRange(row)
    ensures InRange(Fold(row, ms)) && Fold(row, ms).duration >= row.duration &&
            (row.completed ==> Fold(row, ms).completed)
  {
    if ms != [] {
      FoldKeepsRange(row, ms[..|ms| - 1]);
    }
  }

  /** The duration is the largest ever reported, and one completion completes. */
  lemma {:induction false} FoldDuration(row: Row, ms: seq<Mutation>)
    ensures IsTop(Fold(row, ms).duration, row.duration, ms, DurationOf)
    ensures Fold(row, ms).completed <==> row.completed || exists m :: m in ms && Completes(m)
  {
    if ms != [] {
      var n := |ms| - 1;
      FoldDuration(row, ms[..n]);
      assert ms == ms[..n] + [ms[n]] && ms[n] in ms;
      assert forall m :: m in ms ==> m in ms[..n] || m == ms[n];
      assert DurationOf(ms[n]) == ms[n].duration;
    }
  }

  /** The largest position is reached in every order if and only if the duration known before, or
      that of some mutation reporting the position, admits it. */
  ghost predicate Backed(row: Row, ms: seq<Mutation>, top: int)
  {
    top <= row.duration || exists m :: m in ms && m.position == top && top <= m.duration
  }

  lemma {:induction false} PositionAtMostTop(row: Row, ms: seq<Mutation>, top: int)
    requires row.position <= top && forall m :: m in ms ==> m.position <= top
    ensures Fold(row, ms).position <= top
  {
    if ms != [] {
      assert ms[|ms| - 1] in ms;
      PositionAtMostTop(row, ms[..|ms| - 1], top);
    }
  }

  lemma {:induction false} BackedIsReached(row: Row, ms: seq<Mutation>, top: int)
    requires InRange(row) && IsTop(top, row.position, ms, PositionOf) && Backed(row, ms, top)
    ensures Fold(row, ms).position == top
  {
    PositionAtMostTopOf(row, ms, top);
    if row.position == top {
      StaysAbove(row, ms, top);
    } else {
      var m :| m in ms && m.position == top && (top <= row.duration || top <= m.duration) by {
        assert exists m :: m in ms && PositionOf(m) == top;
      }
      ReachedAt(row, ms, m);
    }
  }

  lemma PositionAtMostTopOf(row: Row, ms: seq<Mutation>, top: int)
    requires IsTop(top, row.position, ms, PositionOf)
    ensures Fold(row, ms).position <= top
  {
    forall m | m in ms ensures m.position <= top {
      assert PositionOf(m) <= top;
    }
    PositionAtMostTop(row, ms, top);
  }

  lemma {:induction false} StaysAbove(row: Row, ms: seq<Mutation>, p: int)
    requires InRange(row) && p <= row.position
    ensures p <= Fold(row, ms).position
  {
    if ms != [] {
      StaysAbove(row, ms[..|ms| - 1], p);
      FoldKeepsRange(row, ms[..|ms| - 1]);
    }
  }

  lemma {:induction false} ReachedAt(row: Row, ms: seq<Mutation>, m: Mutation)
    requires InRange(row) && m in ms && (m.position <= row.duration || m.position <= m.duration)
    ensures m.position <= Fold(row, ms).position
  {
    var n := |ms| - 1;
    FoldKeepsRange(row, ms[..n]);
    if ms[n] != m {
      assert m in ms[..n];
      ReachedAt(row, ms[..n], m);
    }
  }

  /** The mutations reporting `top`, before or after all others. */
  function Select(ms: seq<Mutation>, top: int, at: bool): (r: seq<Mutation>)
    ensures forall m :: m in r <==> m in ms && ((m.position == top) == at)
  {
    if ms == [] then []
    else
      var n := |ms| - 1;
      assert ms == ms[..n] + [ms[n]];
      Select(ms[..n], top, at) + if (ms[n].position == top) == at then [ms[n]] else []
  }

  lemma OneMoreOf(s: seq<Mutation>, m: Mutation)
    ensures multiset(s + [m]) == multiset(s) + multiset{m}
  {
  }

  lemma AddToEither(a: multiset<Mutation>, b: multiset<Mutation>, all: multiset<Mutation>, x: multiset<Mutation>)
    requires a + b == all
    ensures (a + x) + b == all + x && a + (b + x) == all + x
  {
  }

  lemma {:induction false} SelectSplits(ms: seq<Mutation>, top: int)
    ensures multiset(Select(ms, top, true)) + multiset(Select(ms, top, false)) == multiset(ms)
  {
    if ms != [] {
      var n, m := |ms| - 1, ms[|ms| - 1];
      var at, off := Select(ms[..n], top, true), Select(ms[..n], top, false);
      SelectSplits(ms[..n], top);
      assert ms == ms[..n] + [m];
      OneMoreOf(ms[..n], m);
      AddToEither(multiset(at), multiset(off), multiset(ms[..n]), multiset{m});
      if m.position == top {
        OneMoreOf(at, m);
        assert Select(ms, top, true) == at + [m] && Select(ms, top, false) == off;
      } else {
        OneMoreOf(off, m);
        assert Select(ms, top, true) == at && Select(ms, top, false) == off + [m];
      }
    }
  }

  lemma {:induction false} StaysBelow(row: Row, ms: seq<Mutation>, top: int)
    requires InRange(row) && row.position < top
    requires (forall m :: m in ms ==> m.position < top) ||
             (row.duration < top && forall m :: m in ms ==> m.duration < top)
    ensures Fold(row, ms).position < top
    ensures row.duration < top && (forall m :: m in ms ==> m.duration < top) ==> Fold(row, ms).duration < top
  {
    if ms != [] {
      var n := |ms| - 1;
      assert ms[n] in ms && forall m :: m in ms[..n] ==> m in ms;
      StaysBelow(row, ms[..n], top);
    }
  }

  lemma {:induction false} FoldConcat(row: Row, a: seq<Mutation>, b: seq<Mutation>)
    ensures Fold(row, a + b) == Fold(Fold(row, a), b)
    decreases |b|
  {
    if b == [] {
      assert a + b == a;
    } else {
      var n := |b| - 1;
      assert (a + b)[..|a + b| - 1] == a + b[..n];
      FoldConcat(row, a, b[..n]);
    }
  }

  lemma UnbackedIsMissed(row: Row, ms: seq<Mutation>, top: int) returns (order: seq<Mutation>)
    requires InRange(row) && IsTop(top, row.position, ms, PositionOf) && !Backed(row, ms, top)
    ensures multiset(order) == multiset(ms) && Fold(row, order).position < top
  {
    var first, rest := Select(ms, top, true), Select(ms, top, false);
    order := first + rest;
    SelectSplits(ms, top);
    StaysBelow(row, first, top);
    FoldKeepsRange(row, first);
    forall m | m in rest ensures m.position < top {
      assert PositionOf(m) <= top;
    }
    StaysBelow(Fold(row, first), rest, top);
    FoldConcat(row, first, rest);
  }

  lemma TopOfPermutation(top: int, base: int, a: seq<Mutation>, b: seq<Mutation>, f: Mutation -> int)
    requires multiset(a) == multiset(b) && IsTop(top, base, a, f)
    ensures IsTop(top, base, b, f)
  {
    SameMembers(a, b);
  }

  lemma SameMembers(a: seq<Mutation>, b: seq<Mutation>)
    requires multiset(a) == multiset(b)
    ensures forall m :: m in a <==> m in b
  {
    forall m ensures m in a <==> m in b {
      assert m in a <==> m in multiset(a);
      assert m in b <==> m in multiset(b);
    }
  }

  /** Exactly when the position reached is the largest reported one whatever the order. */
  lemma PositionIsTopInEveryOrder(row: Row, ms: seq<Mutation>, top: int)
    requires InRange(row) && IsTop(top, row.position, ms, PositionOf)
    ensures (forall order :: multiset(order) == multiset(ms) ==> Fold(row, order).position == top) <==>
            Backed(row, ms, top)
  {
    if Backed(row, ms, top) {
      forall order | multiset(order) == multiset(ms) ensures Fold(row, order).position == top {
        SameMembers(ms, order);
        TopOfPermutation(top, row.position, ms, order, PositionOf);
        BackedIsReached(row, order, top);
      }
    } else {
      var order := UnbackedIsMissed(row, ms, top);
    }
  }

  /** Every mutation reports a position within its own duration. */
  ghost predicate Sane(ms: seq<Mutation>)
  {
    forall m :: m in ms ==> m.position <= m.duration
  }

  lemma {:induction false} SanePosition(row: Row, ms: seq<Mutation>)
    requires InRange(row) && Sane(ms)
    ensures IsTop(Fold(row, ms).position, row.position, ms, PositionOf)
  {
    if ms != [] {
      var n := |ms| - 1;
      assert ms == ms[..n] + [ms[n]] && ms[n] in ms;
      assert Sane(ms[..n]);
      SanePosition(row, ms[..n]);
      FoldKeepsRange(row, ms[..n]);
      assert PositionOf(ms[n]) == ms[n].position;
    }
  }

  lemma TopIsUnique(v: int, w: int, base: int, a: seq<Mutation>, b: seq<Mutation>, f: Mutation -> int)
    requires IsTop(v, base, a, f) && IsTop(w, base, b, f) && forall m :: m in a <==> m in b
    ensures v == w
  {
  }

  lemma SaneFoldsAgree(row: Row, a: seq<Mutation>, b: seq<Mutation>)
    requires InRange(row) && Sane(a) && NoRepeats(a) && NoRepeats(b) && forall m :: m in a <==> m in b
    ensures Fold(row, a) == Fold(row, b)
  {
    FoldDuration(row, a);
    FoldDuration(row, b);
    TopIsUnique(Fold(row, a).duration, Fold(row, b).duration, row.duration, a, b, DurationOf);
    SanePosition(row, a);
    SanePosition(row, b);
    TopIsUnique(Fold(row, a).position, Fold(row, b).position, row.position, a, b, PositionOf);
    FoldCounts(row, a);
    FoldCounts(row, b);
    RepeatsShrink(a);
    RepeatsShrink(b);
    assert Elements(a) == Elements(b);
  }

  ghost predicate RowsInRange(st: State)
  {
    forall l :: l in st.progress ==> InRange(st.progress[l])
  }

  /** Two batches with the same mutations, in any order and with any repeats, are both accepted or both
      refused, and lead to the same state when every mutation reports a position within its duration. */
  lemma OrderIrrelevantWhenSane(c: Content, course: string, st: State, a: seq<Mutation>, b: seq<Mutation>)
    requires RowsInRange(st) && Sane(a) && forall m :: m in a <==> m in b
    ensures SyncAll(c, course, st, a).Ok? <==> SyncAll(c, course, st, b).Ok?
    ensures SyncAll(c, course, st, a).Ok? ==> SyncAll(c, course, st, a) == SyncAll(c, course, st, b)
  {
    AcceptedExactlyWhen(c, course, st, a);
    AcceptedExactlyWhen(c, course, st, b);
    if SyncAll(c, course, st, a).Ok? { SaneBatchesAgree(c, course, st, a, b); }
  }

  lemma SaneBatchesAgree(c: Content, course: string, st: State, a: seq<Mutation>, b: seq<Mutation>)
    requires SyncAll(c, course, st, a).Ok? && SyncAll(c, course, st, b).Ok?
    requires RowsInRange(st) && Sane(a) && forall m :: m in a <==> m in b
    ensures SyncAll(c, course, st, a) == SyncAll(c, course, st, b)
  {
    var x, y := SyncAll(c, course, st, a).value, SyncAll(c, course, st, b).value;
    AcceptedIsKnown(c, course, st, a);
    AcceptedIsKnown(c, course, st, b);
    forall l ensures OldRow(x.progress, l) == OldRow(y.progress, l) && (l in x.progress <==> l in y.progress) {
      RowIsFold(c, course, st, a, l);
      RowIsFold(c, course, st, b, l);
      FreshOnes(st, a, l);
      FreshOnes(st, b, l);
      SaneFoldsAgree(OldRow(st.progress, l), FreshFor(st, a, l), FreshFor(st, b, l));
      if FreshFor(st, a, l) != [] { assert FreshFor(st, a, l)[0] in FreshFor(st, b, l); }
      if FreshFor(st, b, l) != [] { assert FreshFor(st, b, l)[0] in FreshFor(st, a, l); }
    }
    SameRecorded(c, course, st, a, b);
    SameRows(x.progress, y.progress);
  }

  lemma SameRows(x: map<string, Row>, y: map<string, Row>)
    requires forall l :: OldRow(x, l) == OldRow(y, l) && (l in x <==> l in y)
    ensures x == y
  {
    forall l | l in x ensures l in y && x[l] == y[l] {
      assert OldRow(x, l) == OldRow(y, l);
    }
  }

  lemma RecordedWithin(c: Content, course: string, st: State, a: seq<Mutation>, b: seq<Mutation>, k: string)
    requires SyncAll(c, course, st, a).Ok? && SyncAll(c, course, st, b).Ok? && forall m :: m in a ==> m in b
    ensures var x, y := SyncAll(c, course, st, a).value.mutations, SyncAll(c, course, st, b).value.mutations;
            k in x ==> k in y && x[k] == y[k]
  {
    var after := SyncAll(c, course, st, b).value;
    AcceptedIsKnown(c, course, st, a);
    AcceptedIsKnown(c, course, st, b);
    if k in SyncAll(c, course, st, a).value.mutations && k !in st.mutations {
      RecordedFrom(c, course, st, a, k);
      var m := SyncAll(c, course, st, a).value.mutations[k];
      RecordedUnderId(c, course, st, a, k);
      assert m in b && m.id in after.mutations;
    }
  }

  lemma SameRecorded(c: Content, course: string, st: State, a: seq<Mutation>, b: seq<Mutation>)
    requires SyncAll(c, course, st, a).Ok? && SyncAll(c, course, st, b).Ok? && forall m :: m in a <==> m in b
    ensures SyncAll(c, course, st, a).value.mutations == SyncAll(c, course, st, b).value.mutations
  {
    var x, y := SyncAll(c, course, st, a).value.mutations, SyncAll(c, course, st, b).value.mutations;
    forall k ensures (k in x ==> k in y && x[k] == y[k]) && (k in y ==> k in x) {
      RecordedWithin(c, course, st, a, b, k);
      RecordedWithin(c, course, st, b, a, k);
    }
  }

  /** Without that condition the order shows: a position beyond the duration known so far is lost. */
  lemma OrderMattersOtherwise()
    ensures var m1 := Mutation("1", "lesson", "position", 10, 5, false, 0, 0);
            var m2 := Mutation("2", "lesson", "position", 0, 20, false, 0, 0);
            Fold(Row(0, 0, false, 0), [m1, m2]).position == 5 && Fold(Row(0, 0, false, 0), [m2, m1]).position == 10
  {
    var m1 := Mutation("1", "lesson", "position", 10, 5, false, 0, 0);
    var m2 := Mutation("2", "lesson", "position", 0, 20, false, 0, 0);
    FoldSnoc(Row(0, 0, false, 0), [m1], m2);
    FoldSnoc(Row(0, 0, false, 0), [m2], m1);
    assert [m1] + [m2] == [m1, m2] && [m2] + [m1] == [m2, m1];
    FoldSnoc(Row(0, 0, false, 0), [], m1);
    FoldSnoc(Row(0, 0, false, 0), [], m2);
    assert [] + [m1] == [m1] && [] + [m2] == [m2];
  }
}
