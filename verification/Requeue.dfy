/** The run-once requeue with a per-SKU attempt cap, over any number of runs
    that share one marker. */
module Requeue {

  // One dead-letter row; a payload without a SKU falls back to the job id.
  datatype Row = Row(job: string, payloadSku: string)

  datatype Enqueue = Enqueue(job: string, sku: string)

  datatype Marker = Marker(jobs: set<string>, counts: map<string, nat>)

  datatype Tally = Tally(requeued: nat, skipped: nat, already: nat, capped: nat)

  function Sku(row: Row): string {
    if row.payloadSku != "" then row.payloadSku else if |row.job| <= 8 then row.job else row.job[..8]
  }

  function Count(counts: map<string, nat>, sku: string): nat {
    if sku in counts then counts[sku] else 0
  }

  predicate CapReached(counts: map<string, nat>, sku: string, cap: int) {
    cap > 0 && Count(counts, sku) >= cap
  }

  function Total(t: Tally): nat { t.requeued + t.skipped + t.already + t.capped }

  // Every job enqueued so far, by any run; newest last.
  type Log = seq<Enqueue>

  datatype State = State(marker: Marker, log: Log, tally: Tally)

  // What one row does; `accepted` is whether the queue took the job.
  function Handle(cap: int, s: State, row: Row, accepted: bool): State {
    var m := s.marker;
    if row.job in m.jobs then s.(tally := s.tally.(already := s.tally.already + 1))
    else if CapReached(m.counts, Sku(row), cap) then s.(tally := s.tally.(capped := s.tally.capped + 1))
    else if !accepted then s.(tally := s.tally.(skipped := s.tally.skipped + 1))
    else
      State(Marker(m.jobs + {row.job}, m.counts[Sku(row) := Count(m.counts, Sku(row)) + 1]),
            s.log + [Enqueue(row.job, Sku(row))],
            s.tally.(requeued := s.tally.requeued + 1))
  }

  function RunRows(cap: int, s: State, rows: seq<Row>, accepted: seq<bool>): State
    requires |accepted| == |rows|
  {
    if rows == [] then s
    else
      var n := |rows| - 1;
      Handle(cap, RunRows(cap, s, rows[..n], accepted[..n]), rows[n], accepted[n])
  }

  const Zero := Tally(0, 0, 0, 0)

  function Times(log: Log, sku: string): nat {
    if log == [] then 0 else Times(log[..|log| - 1], sku) + if log[|log| - 1].sku == sku then 1 else 0
  }

  ghost predicate Inv(cap: int, s: State) {
    && (forall i, j :: 0 <= i < j < |s.log| ==> s.log[i].job != s.log[j].job)
    && (forall i :: 0 <= i < |s.log| ==> s.log[i].job in s.marker.jobs)
    && (forall sku :: Times(s.log, sku) <= Count(s.marker.counts, sku))
    && (cap > 0 ==> forall sku :: Count(s.marker.counts, sku) <= cap)
  }

  lemma HandleKeeps(cap: int, s: State, row: Row, accepted: bool)
    requires Inv(cap, s)
    ensures Inv(cap, Handle(cap, s, row, accepted))
  {}

  lemma {:induction false} RunKeeps(cap: int, s: State, rows: seq<Row>, accepted: seq<bool>)
    requires |accepted| == |rows| && Inv(cap, s)
    ensures Inv(cap, RunRows(cap, s, rows, accepted))
  {
    if rows != [] {
      var n := |rows| - 1;
      RunKeeps(cap, s, rows[..n], accepted[..n]);
      HandleKeeps(cap, RunRows(cap, s, rows[..n], accepted[..n]), rows[n], accepted[n]);
    }
  }

  lemma RunNone(cap: int, s: State, rows: seq<Row>, accepted: seq<bool>)
    requires rows == [] && accepted == []
    ensures RunRows(cap, s, rows, accepted) == s && Total(Zero) == 0
  {}

  lemma RunSnoc(cap: int, s: State, rows: seq<Row>, i: nat, accepted: seq<bool>, took: bool)
    requires i < |rows| && |accepted| == i
    ensures RunRows(cap, s, rows[..i + 1], accepted + [took]) ==
            Handle(cap, RunRows(cap, s, rows[..i], accepted), rows[i], took)
  {
    assert rows[..i + 1][..i] == rows[..i] && (accepted + [took])[..i] == accepted;
  }

  /** Every row lands in exactly one tally, and the queue only grows. */
  lemma {:induction false} RunGrows(cap: int, s: State, rows: seq<Row>, accepted: seq<bool>)
    requires |accepted| == |rows|
    ensures Total(RunRows(cap, s, rows, accepted).tally) == Total(s.tally) + |rows|
    ensures s.log <= RunRows(cap, s, rows, accepted).log
  {
    if rows != [] {
      var n := |rows| - 1;
      RunGrows(cap, s, rows[..n], accepted[..n]);
    }
  }

  // One completed run: rows it read, and which of them the queue took.
  datatype Batch = Batch(rows: seq<Row>, accepted: seq<bool>)

  function RunAll(cap: int, s: State, batches: seq<Batch>): State
    requires forall b :: b in batches ==> |b.accepted| == |b.rows|
    decreases |batches|
  {
    if batches == [] then s
    else
      var b := batches[0];
      RunAll(cap, RunRows(cap, s.(tally := Zero), b.rows, b.accepted), batches[1..])
  }

  /** Over every sequence of completed runs sharing a marker, no job is enqueued
      twice and no SKU more often than the positive cap. */
  lemma {:induction false} EnqueuedOnce(cap: int, s: State, batches: seq<Batch>)
    requires Inv(cap, s) && forall b :: b in batches ==> |b.accepted| == |b.rows|
    ensures var t := RunAll(cap, s, batches);
      && s.log <= t.log
      && (forall i, j :: 0 <= i < j < |t.log| ==> t.log[i].job != t.log[j].job)
      && (cap > 0 ==> forall sku :: Times(t.log, sku) <= Count(t.marker.counts, sku) <= cap)
    decreases |batches|
  {
    if batches != [] {
      var b := batches[0];
      RunKeeps(cap, s.(tally := Zero), b.rows, b.accepted);
      RunGrows(cap, s.(tally := Zero), b.rows, b.accepted);
      EnqueuedOnce(cap, RunRows(cap, s.(tally := Zero), b.rows, b.accepted), batches[1..]);
    }
  }

  // Another log changes nothing but what is appended to.
  lemma {:induction false} LogOnly(cap: int, s: State, log: Log, rows: seq<Row>, accepted: seq<bool>)
    requires |accepted| == |rows|
    ensures var t, u := RunRows(cap, s, rows, accepted), RunRows(cap, s.(log := log), rows, accepted);
      && s.log <= t.log && u.marker == t.marker && u.tally == t.tally && u.log == log + t.log[|s.log|..]
  {
    RunGrows(cap, s, rows, accepted);
    if rows == [] {
      assert log + s.log[|s.log|..] == log;
    } else {
      var n := |rows| - 1;
      LogOnly(cap, s, log, rows[..n], accepted[..n]);
      RunGrows(cap, s, rows[..n], accepted[..n]);
      LogStep(cap, s, log, RunRows(cap, s, rows[..n], accepted[..n]), RunRows(cap, s.(log := log), rows[..n], accepted[..n]), rows[n], accepted[n]);
    }
  }

  lemma LogStep(cap: int, s: State, log: Log, t: State, u: State, row: Row, took: bool)
    requires s.log <= t.log && u.marker == t.marker && u.tally == t.tally && u.log == log + t.log[|s.log|..]
    ensures var t', u' := Handle(cap, t, row, took), Handle(cap, u, row, took);
      && s.log <= t'.log && u'.marker == t'.marker && u'.tally == t'.tally && u'.log == log + t'.log[|s.log|..]
  {
    hide Sku, CapReached, Count;
    var t' := Handle(cap, t, row, took);
    if t'.log != t.log {
      var e := t'.log[|t.log|];
      assert t'.log == t.log + [e];
      assert t'.log[|s.log|..] == t.log[|s.log|..] + [e];
    }
  }

  /** A run that dies before it saves its marker is repeated in full: the next run over
      the same rows, from the marker that was never replaced, enqueues exactly what the
      lost run enqueued, once more. */
  lemma UnsavedRunRepeats(cap: int, s: State, rows: seq<Row>, accepted: seq<bool>)
    requires |accepted| == |rows|
    ensures
      var lost := RunRows(cap, s, rows, accepted);
      var again := RunRows(cap, State(s.marker, lost.log, s.tally), rows, accepted);
      && s.log <= lost.log && again.log == lost.log + lost.log[|s.log|..]
      && again.marker == lost.marker && again.tally == lost.tally
  {
    LogOnly(cap, s, RunRows(cap, s, rows, accepted).log, rows, accepted);
  }

  // The script: the marker it saves and the queue it fills.
  class Script {
    var marker: Marker
    ghost var log: Log

    method Run(rows: seq<Row>, cap: int) returns (tally: Tally, ghost accepted: seq<bool>)
      modifies this
      ensures |accepted| == |rows|
      ensures State(marker, log, tally) == RunRows(cap, State(old(marker), old(log), Zero), rows, accepted)
      ensures Inv(cap, State(old(marker), old(log), Zero)) ==> Inv(cap, State(marker, log, tally))
      ensures Total(tally) == |rows| && old(log) <= log
    {
      hide Inv, Times, Sku, CapReached, RunRows, Total, Count;
      var already: set<string>, counts: map<string, nat> := marker.jobs, marker.counts;
      ghost var start := State(marker, log, Zero);
      tally, accepted := Zero, [];
      RunNone(cap, start, rows[..0], accepted);
      for i := 0 to |rows|
        invariant |accepted| == i && marker == old(marker)
        invariant State(Marker(already, counts), log, tally) == RunRows(cap, start, rows[..i], accepted)
      {
        var row := rows[i];
        var sku := Sku(row);
        ghost var before := State(Marker(already, counts), log, tally);
        var took := *;
        RunSnoc(cap, start, rows, i, accepted, took);
        if row.job in already {
          tally := tally.(already := tally.already + 1);
        } else if CapReached(counts, sku, cap) {
          tally := tally.(capped := tally.capped + 1);
        } else if took {
          tally := tally.(requeued := tally.requeued + 1);
          already, counts := already + {row.job}, counts[sku := Count(counts, sku) + 1];
          log := log + [Enqueue(row.job, sku)];
        } else {
          tally := tally.(skipped := tally.skipped + 1);
        }
        accepted := accepted + [took];
        assert State(Marker(already, counts), log, tally) == Handle(cap, before, row, took);
      }
      assert rows[..|rows|] == rows;
      marker := Marker(already, counts);
      RunGrows(cap, start, rows, accepted);
      if Inv(cap, start) { RunKeeps(cap, start, rows, accepted); }
    }
  }

  /** When a row is enqueued: it never was, the queue takes it, and either there is no
      positive cap or its SKU is below it. */
  lemma EnqueuedExactly(cap: int, s: State, row: Row, accepted: bool)
    ensures var sku := if row.payloadSku != "" then row.payloadSku else if |row.job| <= 8 then row.job else row.job[..8];
      var below := cap <= 0 || sku !in s.marker.counts || s.marker.counts[sku] < cap;
      var taken := row.job !in s.marker.jobs && accepted && below;
      var t := Handle(cap, s, row, accepted);
      && t.log == s.log + (if taken then [Enqueue(row.job, sku)] else [])
      && t.tally.requeued == s.tally.requeued + (if taken then 1 else 0)
      && t.tally.already == s.tally.already + (if row.job in s.marker.jobs then 1 else 0)
      && t.tally.capped == s.tally.capped + (if row.job !in s.marker.jobs && !below then 1 else 0)
      && t.tally.skipped == s.tally.skipped + (if row.job !in s.marker.jobs && below && !accepted then 1 else 0)
      && t.marker.jobs == s.marker.jobs + (if taken then {row.job} else {})
      && forall k :: Count(t.marker.counts, k) == Count(s.marker.counts, k) + if taken && k == sku then 1 else 0
  {}
}
