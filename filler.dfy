/**
 * The filling phase of the wiper: the private method `writeData` of the Java
 * class `MainActivity` (MainActivity.java), the body of the `Flowable` it
 * creates. Its loop writes data files of random size into the storage until
 * only a reserve of the free space measured at the start is left, reports the
 * running total after every file, and stops early when its subscriber cancels.
 *
 * What the environment decides is given as inputs: the free space measured
 * once at the start, for every file the random draw and the fault it meets,
 * and the moment the subscriber cancels.
 */
module Filler {
  import opened Wrappers
  import opened IOUtil

  /** The reserve left free: 200 unit buffers, 200 MiB. */
  const SPACE_SIZE: nat := IO_BUFFER_SIZE * 200

  /** What the environment does to the n-th file: `nextInt(90)`, the I/O fault, whether close throws. */
  datatype FileWrite = FileWrite(draw: nat, fault: IoFault, closeThrows: bool)

  predicate ValidWrites(writes: seq<FileWrite>) {
    forall k :: 0 <= k < |writes| ==> writes[k].draw < RANDOM_BOUND
  }

  /** The byte count each file write returns. */
  function Sizes(writes: seq<FileWrite>): seq<nat>
    requires ValidWrites(writes)
  {
    seq(|writes|, k requires 0 <= k < |writes| => FileSize(writes[k].draw, writes[k].fault))
  }

  /**
   * One progress value: the free space measured at the start and the total
   * written so far, the two byte counts the progress text is formatted from.
   */
  datatype Progress = Progress(available: nat, written: nat)

  /**
   * The cancellation signal. The checks of `isCancelled` are numbered from 0 in
   * the order they happen; the subscriber cancels just before check number
   * `cancelAt`, and from then on every check sees it. None: it never cancels.
   */
  predicate Cancelled(cancelAt: Option<nat>, check: nat) {
    cancelAt.Some? && cancelAt.value <= check
  }

  // ---------------------------------------------------------------------------
  // Specification of the fill loop
  // ---------------------------------------------------------------------------

  /**
   * How the loop ends: its guard failed, it saw the cancellation, or the given
   * file writes ran out before either happened (the run is not finished yet).
   */
  datatype Exit = SpaceReached | CancelObserved | Unfinished

  /** The totals emitted, in order, and how the loop ended. */
  datatype Run = Run(totals: seq<nat>, exit: Exit)

  /**
   * The loop from iteration `i` on, entered with `total` bytes written; the
   * i-th iteration performs check number i and file write number i.
   */
  function FillFrom(available: nat, sizes: seq<nat>, cancelAt: Option<nat>, i: nat, total: nat): Run
    decreases |sizes| - i
  {
    if total + SPACE_SIZE >= available then Run([], SpaceReached)
    else if Cancelled(cancelAt, i) then Run([], CancelObserved)
    else if i >= |sizes| then Run([], Unfinished)
    else
      var rest := FillFrom(available, sizes, cancelAt, i + 1, total + sizes[i]);
      Run([total + sizes[i]] + rest.totals, rest.exit)
  }

  function Fill(available: nat, sizes: seq<nat>, cancelAt: Option<nat>): Run {
    FillFrom(available, sizes, cancelAt, 0, 0)
  }

  /**
   * The run signals completion: the loop ended on its guard and the check after
   * the loop, number |totals|, does not see a cancellation.
   */
  predicate Completes(available: nat, sizes: seq<nat>, cancelAt: Option<nat>) {
    var run := Fill(available, sizes, cancelAt);
    run.exit == SpaceReached && !Cancelled(cancelAt, |run.totals|)
  }

  /** The total in force when iteration k of a run entered with `total` starts. */
  function Before(total: nat, totals: seq<nat>, k: nat): nat
    requires k <= |totals|
  {
    if k == 0 then total else totals[k - 1]
  }

  /** The total when the run ends. */
  function Final(total: nat, totals: seq<nat>): nat {
    Before(total, totals, |totals|)
  }

  function Sum(s: seq<nat>): nat {
    if s == [] then 0 else s[0] + Sum(s[1..])
  }

  /** The progress values emitted for the given totals. */
  function Reports(available: nat, totals: seq<nat>): seq<Progress> {
    seq(|totals|, k requires 0 <= k < |totals| => Progress(available, totals[k]))
  }

  // ---------------------------------------------------------------------------
  // Properties of the fill loop
  // ---------------------------------------------------------------------------

  /** A run uses no more file writes than it is given, and runs out only when it used them all. */
  lemma {:induction false} FillLength(available: nat, sizes: seq<nat>, cancelAt: Option<nat>, i: nat, total: nat)
    requires i <= |sizes|
    ensures var run := FillFrom(available, sizes, cancelAt, i, total);
      && i + |run.totals| <= |sizes|
      && (run.exit == Unfinished ==> i + |run.totals| == |sizes|)
    decreases |sizes| - i
  {
    if total + SPACE_SIZE < available && !Cancelled(cancelAt, i) && i < |sizes| {
      FillLength(available, sizes, cancelAt, i + 1, total + sizes[i]);
    }
  }

  /**
   * Iteration k of `run`, a run from iteration `i` entered with `total`: it
   * started only with `total + SPACE_SIZE < available` and no cancellation
   * seen at its check, and it added exactly the size its write returned.
   */
  predicate IterationAllowed(available: nat, sizes: seq<nat>, cancelAt: Option<nat>, i: nat, total: nat, run: Run, k: nat)
    requires k < |run.totals|
  {
    && i + k < |sizes|
    && Before(total, run.totals, k) + SPACE_SIZE < available
    && !Cancelled(cancelAt, i + k)
    && run.totals[k] == Before(total, run.totals, k) + sizes[i + k]
  }

  /** Every iteration of the loop starts only when its guard and its cancellation check allow it. */
  lemma {:induction false} FillIterations(available: nat, sizes: seq<nat>, cancelAt: Option<nat>, i: nat, total: nat)
    ensures forall k :: 0 <= k < |FillFrom(available, sizes, cancelAt, i, total).totals| ==>
      IterationAllowed(available, sizes, cancelAt, i, total, FillFrom(available, sizes, cancelAt, i, total), k)
    decreases |sizes| - i
  {
    var run := FillFrom(available, sizes, cancelAt, i, total);
    if total + SPACE_SIZE < available && !Cancelled(cancelAt, i) && i < |sizes| {
      var t := total + sizes[i];
      FillIterations(available, sizes, cancelAt, i + 1, t);
      var rest := FillFrom(available, sizes, cancelAt, i + 1, t);
      assert run.totals == [t] + rest.totals;
      forall k | 0 <= k < |run.totals|
        ensures IterationAllowed(available, sizes, cancelAt, i, total, run, k)
      {
        if k > 0 {
          assert IterationAllowed(available, sizes, cancelAt, i + 1, t, rest, k - 1);
          assert Before(total, run.totals, k) == Before(t, rest.totals, k - 1);
        }
      }
    }
  }

  /**
   * The run stops on its guard only once the total plus the reserve reaches
   * the free space, and on cancellation only when the check sees it.
   */
  lemma {:induction false} FillExit(available: nat, sizes: seq<nat>, cancelAt: Option<nat>, i: nat, total: nat)
    ensures var run := FillFrom(available, sizes, cancelAt, i, total);
      && (run.exit == SpaceReached ==> Final(total, run.totals) + SPACE_SIZE >= available)
      && (run.exit == CancelObserved ==>
            Final(total, run.totals) + SPACE_SIZE < available && Cancelled(cancelAt, i + |run.totals|))
    decreases |sizes| - i
  {
    var run := FillFrom(available, sizes, cancelAt, i, total);
    if total + SPACE_SIZE < available && !Cancelled(cancelAt, i) && i < |sizes| {
      var t := total + sizes[i];
      FillExit(available, sizes, cancelAt, i + 1, t);
      var rest := FillFrom(available, sizes, cancelAt, i + 1, t);
      assert run.totals == [t] + rest.totals;
      assert Final(total, run.totals) == Final(t, rest.totals);
    }
  }

  /** The total after iteration k is the sum of the sizes returned by the writes so far. */
  lemma {:induction false} FillAccounting(available: nat, sizes: seq<nat>, cancelAt: Option<nat>, i: nat, total: nat)
    requires i <= |sizes|
    ensures i + |FillFrom(available, sizes, cancelAt, i, total).totals| <= |sizes|
    ensures forall k :: 0 <= k < |FillFrom(available, sizes, cancelAt, i, total).totals| ==>
      FillFrom(available, sizes, cancelAt, i, total).totals[k] == total + Sum(sizes[i..i + k + 1])
    decreases |sizes| - i
  {
    var run := FillFrom(available, sizes, cancelAt, i, total);
    if total + SPACE_SIZE < available && !Cancelled(cancelAt, i) && i < |sizes| {
      var t := total + sizes[i];
      FillAccounting(available, sizes, cancelAt, i + 1, t);
      var rest := FillFrom(available, sizes, cancelAt, i + 1, t);
      assert run.totals == [t] + rest.totals;
      forall k | 0 <= k < |run.totals|
        ensures run.totals[k] == total + Sum(sizes[i..i + k + 1])
      {
        assert sizes[i..i + k + 1][1..] == sizes[i + 1..i + k + 1];
        if k == 0 {
          assert sizes[i + 1..i + 1] == [];
        }
      }
    }
  }

  /** The emitted totals never decrease, and none is below the total the run started from. */
  lemma {:induction false} FillMonotone(available: nat, sizes: seq<nat>, cancelAt: Option<nat>, i: nat, total: nat)
    ensures forall j, k :: 0 <= j <= k < |FillFrom(available, sizes, cancelAt, i, total).totals| ==>
      total <= FillFrom(available, sizes, cancelAt, i, total).totals[j] <= FillFrom(available, sizes, cancelAt, i, total).totals[k]
    decreases |sizes| - i
  {
    if total + SPACE_SIZE < available && !Cancelled(cancelAt, i) && i < |sizes| {
      var t := total + sizes[i];
      FillMonotone(available, sizes, cancelAt, i + 1, t);
      var rest := FillFrom(available, sizes, cancelAt, i + 1, t);
      var run := FillFrom(available, sizes, cancelAt, i, total);
      assert run.totals == [t] + rest.totals;
      forall j, k | 0 <= j <= k < |run.totals|
        ensures total <= run.totals[j] <= run.totals[k]
      {
        if k > 0 {
          assert run.totals[k] == rest.totals[k - 1];
          assert t <= rest.totals[k - 1];
          if j > 0 {
            assert run.totals[j] == rest.totals[j - 1];
            assert rest.totals[j - 1] <= rest.totals[k - 1];
          }
        }
      }
    }
  }

  /**
   * No file is counted past the reserve by more than one file: every total
   * written stays below the free space less 101 MiB (the reserve less the
   * largest file).
   */
  lemma WrittenWithinReserve(available: nat, writes: seq<FileWrite>, cancelAt: Option<nat>)
    requires ValidWrites(writes)
    ensures forall k :: 0 <= k < |Fill(available, Sizes(writes), cancelAt).totals| ==>
      Fill(available, Sizes(writes), cancelAt).totals[k] + (SPACE_SIZE - MAX_FILE_SIZE) < available
  {
    var sizes := Sizes(writes);
    FillIterations(available, sizes, cancelAt, 0, 0);
    var run := Fill(available, sizes, cancelAt);
    forall k | 0 <= k < |run.totals|
      ensures run.totals[k] + (SPACE_SIZE - MAX_FILE_SIZE) < available
    {
      assert IterationAllowed(available, sizes, cancelAt, 0, 0, run, k);
      assert sizes[k] <= MAX_FILE_SIZE;
    }
  }

  /**
   * A run signals completion exactly when it ended on its guard with the free
   * space reached and no check, the last one included, saw a cancellation; a
   * run that saw the cancellation never completes.
   */
  lemma CompletionCondition(available: nat, sizes: seq<nat>, cancelAt: Option<nat>)
    ensures Completes(available, sizes, cancelAt) <==>
      && Fill(available, sizes, cancelAt).exit == SpaceReached
      && forall k :: 0 <= k <= |Fill(available, sizes, cancelAt).totals| ==> !Cancelled(cancelAt, k)
    ensures Completes(available, sizes, cancelAt) ==>
      Final(0, Fill(available, sizes, cancelAt).totals) + SPACE_SIZE >= available
    ensures Fill(available, sizes, cancelAt).exit == CancelObserved ==> !Completes(available, sizes, cancelAt)
  {
    FillExit(available, sizes, cancelAt, 0, 0);
  }

  /**
   * A write that returns 0 leaves the guard where it was: when every write
   * returns 0 (its file cannot be opened, or the write of its first buffer
   * throws) and nobody cancels, no number of writes ends the loop. A write that
   * throws at a later buffer still counts the buffers before it.
   */
  lemma {:induction false} FailingWritesNeverFinish(available: nat, sizes: seq<nat>, i: nat, total: nat)
    requires total + SPACE_SIZE < available
    requires forall k :: i <= k < |sizes| ==> sizes[k] == 0
    ensures FillFrom(available, sizes, None, i, total).exit == Unfinished
    decreases |sizes| - i
  {
    if i < |sizes| {
      FailingWritesNeverFinish(available, sizes, i + 1, total);
    }
  }

  /**
   * Writes without faults each add at least 10 MiB, so enough of them always
   * end the loop, cancelled or not.
   */
  lemma {:induction false} FaultFreeWritesFinish(available: nat, sizes: seq<nat>, cancelAt: Option<nat>, i: nat, total: nat)
    requires i <= |sizes|
    requires forall k :: i <= k < |sizes| ==> sizes[k] >= MIN_FILE_SIZE
    requires total + (|sizes| - i) * MIN_FILE_SIZE + SPACE_SIZE >= available
    ensures FillFrom(available, sizes, cancelAt, i, total).exit != Unfinished
    decreases |sizes| - i
  {
    if total + SPACE_SIZE < available && !Cancelled(cancelAt, i) {
      assert i < |sizes|;
      assert (|sizes| - i) * MIN_FILE_SIZE == (|sizes| - (i + 1)) * MIN_FILE_SIZE + MIN_FILE_SIZE;
      FaultFreeWritesFinish(available, sizes, cancelAt, i + 1, total + sizes[i]);
    }
  }

  /**
   * Writes of equal size s: the loop runs exactly n iterations when the n-th
   * total is the first to reach the free space less the reserve.
   */
  lemma {:induction false} EqualWrites(available: nat, sizes: seq<nat>, s: nat, i: nat, n: nat)
    requires i <= n <= |sizes|
    requires forall k :: 0 <= k < |sizes| ==> sizes[k] == s
    requires forall k :: i <= k < n ==> k * s + SPACE_SIZE < available
    requires n * s + SPACE_SIZE >= available
    ensures FillFrom(available, sizes, None, i, i * s) == Run(seq(n - i, j => (i + j + 1) * s), SpaceReached)
    decreases n - i
  {
    if i < n {
      assert (i + 1) * s == i * s + s;
      EqualWrites(available, sizes, s, i + 1, n);
      var rest := seq(n - (i + 1), j => (i + 1 + j + 1) * s);
      assert seq(n - i, j => (i + j + 1) * s) == [(i + 1) * s] + rest;
    }
  }

  /**
   * With 1000 MiB free and every file getting 50 buffers, the loop writes
   * exactly 16 files, 800 MiB in all, and then completes: after the 16th file
   * the total plus the reserve equals the free space, which starts no 17th.
   */
  lemma SixteenFiles(writes: seq<FileWrite>)
    requires |writes| >= 16
    requires forall k :: 0 <= k < |writes| ==> writes[k] == FileWrite(40, NoFault, false)
    ensures ValidWrites(writes)
    ensures var run := Fill(1000 * IO_BUFFER_SIZE, Sizes(writes), None);
      && run.exit == SpaceReached
      && |run.totals| == 16
      && run.totals[15] == 800 * IO_BUFFER_SIZE
      && Completes(1000 * IO_BUFFER_SIZE, Sizes(writes), None)
  {
    var s := 50 * IO_BUFFER_SIZE;
    var sizes := Sizes(writes);
    assert forall k :: 0 <= k < |sizes| ==> sizes[k] == s;
    EqualWrites(1000 * IO_BUFFER_SIZE, sizes, s, 0, 16);
  }

  // ---------------------------------------------------------------------------
  // The emitter and the loop
  // ---------------------------------------------------------------------------

  /**
   * The emitter the loop reports to: it answers `isCancelled` from the
   * subscriber's cancellation and records the values and the completion it
   * receives.
   */
  class Emitter {
    const cancelAt: Option<nat>
    var checks: nat
    var values: seq<Progress>
    var completed: bool

    constructor (cancelAt: Option<nat>)
      ensures this.cancelAt == cancelAt && checks == 0 && values == [] && !completed
    {
      this.cancelAt := cancelAt;
      checks := 0;
      values := [];
      completed := false;
    }

    method IsCancelled() returns (cancelled: bool)
      modifies this`checks
      ensures checks == old(checks) + 1
      ensures cancelled == Cancelled(cancelAt, old(checks))
    {
      cancelled := Cancelled(cancelAt, checks);
      checks := checks + 1;
    }

    method OnNext(value: Progress)
      modifies this`values
      ensures values == old(values) + [value]
    {
      values := values + [value];
    }

    method OnComplete()
      modifies this`completed
      ensures completed
    {
      completed := true;
    }
  }

  /**
   * The fill loop. While the total written plus the reserve is below the free
   * space, it checks for cancellation, writes one file, adds the bytes it
   * returned and emits the new total; after the loop it completes the emitter
   * unless the emitter is cancelled.
   */
  method WriteData(availableSize: nat, writes: seq<FileWrite>, emitter: Emitter)
    requires ValidWrites(writes)
    requires emitter.checks == 0 && emitter.values == [] && !emitter.completed
    requires Fill(availableSize, Sizes(writes), emitter.cancelAt).exit != Unfinished
    modifies emitter
    ensures var run := Fill(availableSize, Sizes(writes), emitter.cancelAt);
      && emitter.values == Reports(availableSize, run.totals)
      && emitter.completed == Completes(availableSize, Sizes(writes), emitter.cancelAt)
  {
    ghost var sizes := Sizes(writes);
    ghost var run := Fill(availableSize, sizes, emitter.cancelAt);
    ghost var done: seq<nat> := [];
    var spaceSize := SPACE_SIZE;
    var totalWriteSize := 0;
    var i := 0;
    while totalWriteSize + spaceSize < availableSize
      invariant i <= |writes| && |done| == i
      invariant emitter.checks == i && !emitter.completed
      invariant totalWriteSize == Final(0, done)
      invariant emitter.values == Reports(availableSize, done)
      invariant var rest := FillFrom(availableSize, sizes, emitter.cancelAt, i, totalWriteSize);
        run == Run(done + rest.totals, rest.exit)
      decreases |writes| - i
    {
      var cancelled := emitter.IsCancelled();
      if cancelled {
        break;
      }
      var w := writes[i];
      var size, _ := WriteRandomDataFile(w.draw, w.fault, w.closeThrows);
      var rest := FillFrom(availableSize, sizes, emitter.cancelAt, i + 1, totalWriteSize + size);
      assert done + ([totalWriteSize + size] + rest.totals) == (done + [totalWriteSize + size]) + rest.totals;
      totalWriteSize := totalWriteSize + size;
      emitter.OnNext(Progress(availableSize, totalWriteSize));
      done := done + [totalWriteSize];
      i := i + 1;
    }
    assert done == run.totals;
    var cancelled := emitter.IsCancelled();
    if !cancelled {
      emitter.OnComplete();
    }
  }
}
