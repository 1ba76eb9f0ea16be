/** Server-side credit for watching one video: positions are paid for with elapsed server time. */
module Watch {
  import opened Common

  /** One learner's progress row for one video; seconds are reals. */
  datatype Progress = Progress(position: real, furthest: real, completed: bool, checkpoint: real)

  /** The forward movement paid for by the time since the last checkpoint. */
  function Allowance(row: Progress, now: real): real
  {
    RMin(30.0, RMax(0.0, now - row.checkpoint)) * 2.0
  }

  predicate Rejects(row: Progress, position: real, now: real)
  {
    position > row.furthest + Allowance(row, now) + 2.0
  }

  /** The row after an accepted report; None is the forward-seek rejection. */
  function Advance(row: Progress, position: real, duration: real, now: real): Option<Progress>
  {
    if Rejects(row, position, now) then None
    else
      var p := RMin(RMin(position, duration), row.furthest + Allowance(row, now));
      var f := RMax(row.furthest, p);
      Some(Progress(p, f, row.completed || f >= duration * 0.95, now))
  }

  function NewRow(now: real): Progress { Progress(0.0, 0.0, false, now) }

  class WatchRow {
    var position: real
    var furthest: real
    var completed: bool
    var checkpoint: real

    function View(): Progress
      reads this
    {
      Progress(position, furthest, completed, checkpoint)
    }

    constructor (now: real)
      ensures View() == NewRow(now)
    {
      position, furthest, completed, checkpoint := 0.0, 0.0, false, now;
    }

    /** Reading the progress starts a fresh window; idle time is never banked. */
    method Open(now: real)
      modifies this
      ensures View() == old(View()).(checkpoint := now)
    {
      checkpoint := now;
    }

    method Report(reported: real, duration: real, now: real) returns (accepted: bool)
      modifies this
      ensures accepted <==> Advance(old(View()), reported, duration, now).Some?
      ensures View() == if accepted then Advance(old(View()), reported, duration, now).value else old(View())
    {
      var allowance := RMin(30.0, RMax(0.0, now - checkpoint)) * 2.0;
      if reported > furthest + allowance + 2.0 {
        return false;
      }
      position := RMin(RMin(reported, duration), furthest + allowance);
      furthest := RMax(furthest, position);
      completed := completed || furthest >= duration * 0.95;
      checkpoint := now;
      accepted := true;
    }
  }

  // ---------------------------------------------------------------------------------------
  // Runs
  // ---------------------------------------------------------------------------------------

  /** A player reads its progress, or reports a non-negative position. */
  datatype Event = Get(now: real) | Save(now: real, position: real)

  function Apply(row: Progress, duration: real, e: Event): Progress
  {
    match e
    case Get(now) => row.(checkpoint := now)
    case Save(now, position) =>
      var r := Advance(row, position, duration, now);
      if r.Some? then r.value else row
  }

  predicate Accepted(row: Progress, duration: real, e: Event)
  {
    e.Save? && Advance(row, e.position, duration, e.now).Some?
  }

  function Run(row: Progress, duration: real, es: seq<Event>): Progress
  {
    if es == [] then row else Apply(Run(row, duration, es[..|es| - 1]), duration, es[|es| - 1])
  }

  function Saves(row: Progress, duration: real, es: seq<Event>): nat
  {
    if es == [] then 0
    else
      Saves(row, duration, es[..|es| - 1]) +
      if Accepted(Run(row, duration, es[..|es| - 1]), duration, es[|es| - 1]) then 1 else 0
  }

  /** Times never run back, starting from `from`, and positions are non-negative. */
  predicate Forward(from: real, es: seq<Event>)
  {
    es != [] ==>
      var e := es[|es| - 1];
      && Forward(from, es[..|es| - 1])
      && (if |es| == 1 then from else es[|es| - 2].now) <= e.now
      && (e.Save? ==> e.position >= 0.0)
  }

  /** The latest time seen by a run that starts at `from`. */
  function Latest(from: real, es: seq<Event>): real
  {
    if es == [] then from else es[|es| - 1].now
  }

  predicate InRange(row: Progress, duration: real)
  {
    0.0 <= row.position <= row.furthest <= duration
  }

  /** A fresh row opened at `t0`, after any run of reads and reports, accepted or rejected. */
  lemma {:induction false} CreditIsEarned(t0: real, duration: real, es: seq<Event>)
    requires duration > 0.0 && Forward(t0, es)
    ensures var row := Run(NewRow(t0), duration, es);
            && InRange(row, duration)
            && row.checkpoint <= Latest(t0, es)
            && row.furthest <= 2.0 * (row.checkpoint - t0)
            && row.furthest <= 60.0 * Saves(NewRow(t0), duration, es) as real
            && (row.completed <==> row.furthest >= duration * 0.95)
  {
    if es != [] {
      CreditIsEarned(t0, duration, es[..|es| - 1]);
    }
  }

  /** Completion takes at least 0.475 of the duration in server time. */
  lemma CompletionTakesTime(t0: real, duration: real, es: seq<Event>)
    requires duration > 0.0 && Forward(t0, es)
    requires Run(NewRow(t0), duration, es).completed
    ensures Latest(t0, es) - t0 >= 0.475 * duration
    ensures 60 * Saves(NewRow(t0), duration, es) >= Ceil(0.95 * duration)
  {
    CreditIsEarned(t0, duration, es);
    var saves := Saves(NewRow(t0), duration, es);
    assert 60.0 * saves as real == (60 * saves) as real;
  }

  /** Whatever happens next, a completed row stays completed and the furthest point stays. */
  lemma {:induction false} CompletionIsPermanent(row: Progress, duration: real, es: seq<Event>)
    ensures row.completed ==> Run(row, duration, es).completed
    ensures Run(row, duration, es).furthest >= row.furthest
  {
    if es != [] {
      CompletionIsPermanent(row, duration, es[..|es| - 1]);
    }
  }

  /** A fair player: each reported position lies within the video and is at most twice the elapsed
      time beyond the last known one, and no gap exceeds thirty seconds. Reading the progress
      resets the elapsed time. `last` is the position the player last had. */
  predicate Fair(duration: real, last: real, from: real, es: seq<Event>)
    decreases |es|
  {
    es != [] ==>
      var e := es[0];
      && from <= e.now <= from + 30.0
      && match e
         case Get(now) => Fair(duration, last, now, es[1..])
         case Save(now, position) =>
           0.0 <= position <= duration && position <= last + 2.0 * (now - from) &&
               Fair(duration, position, now, es[1..])
  }

  function Furthest(start: real, es: seq<Event>): real
    decreases |es|
  {
    if es == [] then start
    else Furthest(if es[0].Save? then RMax(start, es[0].position) else start, es[1..])
  }

  /** The run from the front, with every report accepted. */
  predicate NeverRejected(row: Progress, duration: real, es: seq<Event>)
    decreases |es|
  {
    es != [] ==>
      (es[0].Save? ==> Accepted(row, duration, es[0])) && NeverRejected(Apply(row, duration, es[0]), duration, es[1..])
  }

  lemma {:induction false} RunCons(row: Progress, duration: real, es: seq<Event>)
    requires es != []
    ensures Run(Apply(row, duration, es[0]), duration, es[1..]) == Run(row, duration, es)
    decreases |es|
  {
    if |es| == 1 {
      assert es[..0] == [] && es[1..] == [];
    } else {
      var m := |es| - 1;
      RunCons(row, duration, es[..m]);
      assert es[..m][1..] == es[1..][..m - 1];
    }
  }

  /** Credit is complete: a fair player is never rejected, its furthest point is exactly the largest
      position it ever reported, and it is complete as soon as that reaches 95 percent. */
  lemma {:induction false} FairPlayerIsCredited(row: Progress, duration: real, last: real, es: seq<Event>)
    requires duration > 0.0 && InRange(row, duration) && last <= row.furthest
    requires row.completed <==> row.furthest >= duration * 0.95
    requires Fair(duration, last, row.checkpoint, es)
    ensures NeverRejected(row, duration, es)
    ensures Run(row, duration, es).furthest == Furthest(row.furthest, es)
    ensures Run(row, duration, es).completed <==> Furthest(row.furthest, es) >= duration * 0.95
    decreases |es|
  {
    if es != [] {
      var e := es[0];
      var next := Apply(row, duration, e);
      FairPlayerIsCredited(next, duration, if e.Save? then e.position else last, es[1..]);
      RunCons(row, duration, es);
    }
  }
}
