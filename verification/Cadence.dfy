/** Cadence arithmetic: a job is due on a fixed grid of times. */
module Cadence {
  datatype GridData = GridData(start: real, step: real)

  /** The start time and the interval of one job, in exact seconds. */
  type Grid = g: GridData | g.step > 0.0 witness GridData(0.0, 1.0)

  /** The c-th time of the grid. */
  function Mark(g: Grid, c: int): real {
    g.start + c as real * g.step
  }

  /** The floor division of an elapsed time by the interval. */
  function Quotient(elapsed: real, step: real): int
    requires step > 0.0
  {
    (elapsed / step).Floor
  }

  /** The grid cell a time lies in. */
  function CellOf(g: Grid, now: real): int {
    Quotient(now - g.start, g.step)
  }

  lemma {:induction false} Scale(a: real, b: real, c: real)
    requires a <= b && c > 0.0
    ensures a * c <= b * c
  {
  }

  lemma {:induction false} ScaleStrictly(a: real, b: real, c: real)
    requires a < b && c > 0.0
    ensures a * c < b * c
  {
  }

  lemma {:induction false} SpanAround(q: real, x: real, next: real, step: real, elapsed: real)
    requires step > 0.0 && q <= x < next && x * step == elapsed
    ensures q * step <= elapsed < next * step
  {
    Scale(q, x, step);
    ScaleStrictly(x, next, step);
  }

  lemma {:induction false} QuotientSpan(elapsed: real, step: real)
    requires step > 0.0
    ensures Quotient(elapsed, step) as real * step <= elapsed < (Quotient(elapsed, step) as real + 1.0) * step
  {
    var x, q := elapsed / step, Quotient(elapsed, step);
    assert x * step == elapsed;
    assert q as real <= x < q as real + 1.0;
    SpanAround(q as real, x, q as real + 1.0, step, elapsed);
  }

  lemma {:induction false} MarkStep(g: Grid, c: int, n: int)
    ensures Mark(g, c + n) == Mark(g, c) + n as real * g.step
  {
    var x, y := c as real, n as real;
    assert (c + n) as real == x + y;
    assert (x + y) * g.step == x * g.step + y * g.step;
  }

  lemma {:induction false} MarksAscend(g: Grid, c: int, d: int)
    requires c <= d
    ensures Mark(g, c) <= Mark(g, d)
  {
    Scale(c as real, d as real, g.step);
  }

  lemma {:induction false} CellSpan(g: Grid, now: real)
    ensures var c := CellOf(g, now); Mark(g, c) <= now < Mark(g, c + 1)
  {
    var c := CellOf(g, now);
    QuotientSpan(now - g.start, g.step);
    assert (c + 1) as real == c as real + 1.0;
  }

  /** The cell of a time is the only one whose half-open span contains it. */
  lemma {:induction false} CellUnique(g: Grid, now: real, c: int)
    requires Mark(g, c) <= now < Mark(g, c + 1)
    ensures c == CellOf(g, now)
  {
    var d := CellOf(g, now);
    CellSpan(g, now);
    if c < d {
      MarksAscend(g, c + 1, d);
    } else if d < c {
      MarksAscend(g, d + 1, c);
    }
  }

  /** The due time after a tick at `now`. */
  function NextDue(due: real, now: real, step: real): real
    requires step > 0.0
  {
    if now < due then due else due + (Quotient(now - due, step) + 1) as real * step
  }

  /** A due time on the grid moves to the start of the cell after the current one. */
  lemma {:induction false} NextDueOnGrid(g: Grid, k: int, now: real)
    requires now >= Mark(g, k)
    ensures NextDue(Mark(g, k), now, g.step) == Mark(g, CellOf(g, now) + 1)
  {
    var due := Mark(g, k);
    var e := Quotient(now - due, g.step);
    QuotientSpan(now - due, g.step);
    assert (e + 1) as real == e as real + 1.0;
    MarkStep(g, k, e);
    MarkStep(g, k, e + 1);
    assert k + (e + 1) == k + e + 1;
    CellUnique(g, now, k + e);
  }

  /** The start of a cell is reached exactly by the times in that cell or a later one. */
  lemma {:induction false} ReachedIff(g: Grid, c: int, now: real)
    ensures now >= Mark(g, c) <==> CellOf(g, now) >= c
  {
    var f := CellOf(g, now);
    CellSpan(g, now);
    if f >= c {
      MarksAscend(g, c, f);
    } else {
      MarksAscend(g, f + 1, c);
    }
  }

  /** A clock that never runs backwards, read at startup and at every tick. */
  ghost predicate Clock(start: real, ticks: seq<real>) {
    && (forall i | 0 <= i < |ticks| :: ticks[i] >= start)
    && (forall i, j | 0 <= i < j < |ticks| :: ticks[i] <= ticks[j])
  }

  /** The due time the incremental update reaches. */
  function DueAfter(g: Grid, ticks: seq<real>): real {
    if ticks == [] then g.start
    else NextDue(DueAfter(g, ticks[..|ticks| - 1]), ticks[|ticks| - 1], g.step)
  }

  /** Ticks that found the job due. */
  function Firings(g: Grid, ticks: seq<real>): nat {
    if ticks == [] then 0
    else Firings(g, ticks[..|ticks| - 1]) + if ticks[|ticks| - 1] >= DueAfter(g, ticks[..|ticks| - 1]) then 1 else 0
  }

  /** The next cell to be served, in closed form: it depends on the last tick alone. */
  function NextCell(g: Grid, ticks: seq<real>): int {
    if ticks == [] then 0 else CellOf(g, ticks[|ticks| - 1]) + 1
  }

  /**
   * The incremental due time equals its closed form, whatever ticks led there:
   * no drift, and missed cells are skipped rather than caught up.
   */
  lemma {:induction false} DueClosedForm(g: Grid, ticks: seq<real>)
    requires Clock(g.start, ticks)
    ensures DueAfter(g, ticks) == Mark(g, NextCell(g, ticks))
  {
    if ticks != [] {
      var front, now := ticks[..|ticks| - 1], ticks[|ticks| - 1];
      var k := NextCell(g, front);
      DueClosedForm(g, front);
      ReachedIff(g, k, now);
      if now >= Mark(g, k) {
        NextDueOnGrid(g, k, now);
      } else {
        NotBefore(g, front, now);
      }
    }
  }

  /** A later reading of the clock lies in the last tick's cell or after it. */
  lemma {:induction false} NotBefore(g: Grid, ticks: seq<real>, now: real)
    requires Clock(g.start, ticks + [now])
    ensures CellOf(g, now) >= NextCell(g, ticks) - 1 && CellOf(g, now) >= 0
  {
    var all := ticks + [now];
    assert all[|ticks|] == now;
    assert Mark(g, 0) == g.start;
    ReachedIff(g, 0, now);
    if ticks != [] {
      var last := ticks[|ticks| - 1];
      assert all[|ticks| - 1] == last <= now;
      CellSpan(g, last);
      ReachedIff(g, CellOf(g, last), now);
    }
  }

  /** The grid cells the ticks fell into. */
  ghost function CellsEntered(g: Grid, ticks: seq<real>): set<int> {
    set i | 0 <= i < |ticks| :: CellOf(g, ticks[i])
  }

  lemma {:induction false} EarlierCells(g: Grid, ticks: seq<real>, i: nat)
    requires Clock(g.start, ticks) && i < |ticks|
    ensures 0 <= CellOf(g, ticks[i]) < NextCell(g, ticks)
  {
    var last := ticks[|ticks| - 1];
    assert Mark(g, 0) == g.start;
    ReachedIff(g, 0, ticks[i]);
    CellSpan(g, ticks[i]);
    ReachedIff(g, CellOf(g, ticks[i]), last);
  }

  /** A tick finds the job due exactly when it enters a grid cell no earlier tick was in. */
  lemma {:induction false} FiresIffNewCell(g: Grid, ticks: seq<real>, now: real)
    requires Clock(g.start, ticks + [now])
    ensures now >= DueAfter(g, ticks) <==> CellOf(g, now) !in CellsEntered(g, ticks)
  {
    ClockPrefix(g.start, ticks, now);
    DueClosedForm(g, ticks);
    ReachedIff(g, NextCell(g, ticks), now);
    NotBefore(g, ticks, now);
    if now >= DueAfter(g, ticks) {
      forall i | 0 <= i < |ticks| ensures CellOf(g, ticks[i]) != CellOf(g, now) { EarlierCells(g, ticks, i); }
    } else {
      assert ticks != [];
      assert CellOf(g, now) == CellOf(g, ticks[|ticks| - 1]);
    }
  }

  lemma {:induction false} ClockPrefix(start: real, ticks: seq<real>, now: real)
    requires Clock(start, ticks + [now])
    ensures Clock(start, ticks)
  {
    var all := ticks + [now];
    forall i | 0 <= i < |ticks| ensures ticks[i] == all[i] >= start {}
    forall i, j | 0 <= i < j < |ticks| ensures ticks[i] <= ticks[j] { assert all[i] <= all[j]; }
  }

  /** A job is due once per grid cell that any tick entered: never twice in a cell, and no catching up. */
  lemma {:induction false} FiringsAreCellsEntered(g: Grid, ticks: seq<real>)
    requires Clock(g.start, ticks)
    ensures Firings(g, ticks) == |CellsEntered(g, ticks)|
  {
    if ticks != [] {
      var front, now := ticks[..|ticks| - 1], ticks[|ticks| - 1];
      assert ticks == front + [now];
      FiringsAreCellsEntered(g, front);
      FiresIffNewCell(g, front, now);
      CellsGrow(g, front, now);
      var cells, c := CellsEntered(g, front), CellOf(g, now);
      assert Firings(g, ticks) == Firings(g, front) + if now >= DueAfter(g, front) then 1 else 0;
      assert |cells + {c}| == |cells| + if c in cells then 0 else 1 by {
        if c in cells { assert cells + {c} == cells; }
      }
    } else {
      assert CellsEntered(g, ticks) == {};
    }
  }

  lemma {:induction false} CellsGrow(g: Grid, ticks: seq<real>, now: real)
    ensures CellsEntered(g, ticks + [now]) == CellsEntered(g, ticks) + {CellOf(g, now)}
  {
    var all := ticks + [now];
    forall c | c in CellsEntered(g, ticks) + {CellOf(g, now)} ensures c in CellsEntered(g, all) {
      if c == CellOf(g, now) {
        assert all[|ticks|] == now;
      } else {
        var i :| 0 <= i < |ticks| && c == CellOf(g, ticks[i]);
        assert all[i] == ticks[i];
      }
    }
  }

  /** By time t a job was due at most floor((t - start) / interval) + 1 times. */
  lemma {:induction false} FiringsBounded(g: Grid, ticks: seq<real>)
    requires Clock(g.start, ticks)
    ensures Firings(g, ticks) <= NextCell(g, ticks)
  {
    if ticks != [] {
      var front, now := ticks[..|ticks| - 1], ticks[|ticks| - 1];
      assert ticks == front + [now];
      FiringsBounded(g, front);
      DueClosedForm(g, front);
      ReachedIff(g, NextCell(g, front), now);
      NotBefore(g, front, now);
    }
  }
}
