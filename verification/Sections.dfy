/** The sections of the turn machine one at a time, as the code of `run` goes through them. */
module Sections {
  import opened Accumulator
  import opened Llm
  import opened MachineRuns
  import opened TurnLog
  import opened Turns
  import opened Wrappers
  import Delivery
  import R = Refinement

  // ---------- sections that decide ----------

  lemma SendFailedSection(s: Shared, job: Job, choice: Choice)
    requires job.pc.SendFailed?
    ensures var cause := job.pc.cause;
            Perform(s, job, Section(choice)) == (s, job.(pc := if AbortRequested(job) || cause == Canceled then StoppingCommit else Failing(cause)))
  {
  }

  lemma NextFailedSection(s: Shared, job: Job, choice: Choice)
    requires job.pc.NextFailed?
    ensures var cause := job.pc.cause;
            Perform(s, job, Section(choice))
            == (s, job.(pc := if AbortRequested(job) || cause == Canceled then PartialCommit
                              else Failing(if cause == Eof then UnexpectedEof else cause)))
  {
  }

  lemma FailingSection(s: Shared, job: Job, choice: Choice)
    requires job.pc.Failing?
    ensures Perform(s, job, Section(choice))
         == (s, job.(pc := Announce(if AbortRequested(job) || job.pc.cause == Canceled then Aborted else StreamError)))
  {
  }

  // ---------- sections that write, announce and end ----------

  lemma StoppingSection(s: Shared, job: Job, choice: Choice)
    requires job.pc.StoppingCommit?
    ensures Perform(s, job, Section(choice)) == CommitStopped(s, job, choice)
  {
    hide CommitStopped;
  }

  lemma PartialSection(s: Shared, job: Job, choice: Choice)
    requires job.pc.PartialCommit? && job.turn.Some? && R.InRange(s, job.turn.value)
    ensures Perform(s, job, Section(choice)) == FinalizePartial(s, job, job.turn.value, choice)
  {
    hide FinalizePartial;
  }

  lemma AnnounceSection(s: Shared, job: Job, choice: Choice)
    requires job.pc.Announce?
    ensures Perform(s, job, Section(choice))
         == (s, job.(pc := if job.streamOpen then Closing else Finishing, net := Delivery.Step(job.net, Delivery.EmitLast(job.pc.payload))))
  {
    hide Delivery.Step;
  }

  lemma FinishingSection(s: Shared, job: Job, choice: Choice)
    requires job.pc.Finishing?
    ensures Perform(s, job, Section(choice)) == (s, job.(pc := Finished, net := Delivery.Step(job.net, Delivery.FinishJob)))
  {
    hide Delivery.Step;
  }

  lemma ClosingSection(s: Shared, job: Job, choice: Choice)
    requires job.pc.Closing? && job.turn.Some?
    ensures CanStep(s, job)
    ensures Perform(s, job, Section(choice)) == (Turns.Section(s, job, choice).0, Turns.Section(s, job, choice).1)
    ensures Turns.Section(s, job, choice).1 == job.(turn := Turns.Section(s, job, choice).1.turn, pc := Finishing)
  {
  }

  /** A turn that was counted is closed without counting again, and releases what it still owns. */
  lemma ClosingValue(s: Shared, job: Job, choice: Choice)
    requires job.pc.Closing? && job.turn.Some? && job.turn.value.recorded
    ensures CanStep(s, job)
    ensures Turns.Section(s, job, choice).0 == s.(inFlight := s.inFlight && job.turn.value.finalized)
  {
  }

  // ---------- several sections in a row ----------

  lemma TwoMoves(s: Shared, job: Job, a: Move, b: Move)
    ensures PerformAll(s, job, [a, b]) == var next := Perform(s, job, a); Perform(next.0, next.1, b)
  {
    hide Perform;
    OneMoveOnly(s, job, a);
    assert [a, b] == [a] + [b];
    PerformSnoc(s, job, [a], b);
  }

  lemma OneMoveOnly(s: Shared, job: Job, a: Move)
    ensures PerformAll(s, job, [a]) == Perform(s, job, a)
  {
    hide Perform;
    assert [a][..0] == [];
  }

  lemma ThreeMoves(s: Shared, job: Job, a: Move, b: Move, c: Move)
    ensures PerformAll(s, job, [a, b, c]) ==
            var next := Perform(s, job, a);
            var later := Perform(next.0, next.1, b);
            Perform(later.0, later.1, c)
  {
    hide Perform;
    TwoMoves(s, job, a, b);
    assert [a, b, c] == [a, b] + [c];
    PerformSnoc(s, job, [a, b], c);
  }

  lemma AcquireSection(s: Shared, job: Job, choice: Choice)
    requires job.pc.Spawned?
    ensures Perform(s, job, Section(choice)) == Acquire(s, job)
    ensures Acquire(s, job).1.pc.Opening? ==> Acquire(s, job).1.turn.Some?
  {
  }

  lemma OpeningSection(s: Shared, job: Job, choice: Choice)
    requires job.pc.Opening?
    ensures Perform(s, job, Section(choice)) == Open(s, job, choice) && Open(s, job, choice).1.turn == job.turn
  {
  }

  lemma OpenFailedSection(s: Shared, job: Job, choice: Choice)
    requires job.pc.OpenFailed? && job.turn.Some?
    ensures CanStep(s, job)
    ensures Perform(s, job, Section(choice)) == (Turns.Section(s, job, choice).0, Turns.Section(s, job, choice).1)
  {
  }

  /** `Send`: the turn is taken, the stream opened or the turn given back. */
  lemma SendMoves(s: Shared, job: Job, choice: Choice) returns (moves: seq<Move>)
    requires job.pc.Spawned?
    ensures PerformAll(s, job, moves) == R.Sent(s, job, choice)
  {
    hide Perform, Acquire, Open, Turns.Section, CanStep;
    var m := Section(choice);
    AcquireSection(s, job, choice);
    OneMoveOnly(s, job, m);
    moves := [m];
    var (s1, j1) := Acquire(s, job);
    if j1.pc.Opening? {
      TwoMoves(s, job, m, m);
      OpeningSection(s1, j1, choice);
      moves := [m, m];
      var (s2, j2) := Open(s1, j1, choice);
      if j2.pc.OpenFailed? {
        ThreeMoves(s, job, m, m, m);
        OpenFailedSection(s2, j2, choice);
        moves := [m, m, m];
      }
    }
  }

  lemma PullSection(s: Shared, job: Job, choice: Choice)
    requires job.pc.Streaming? && job.turn.Some?
    ensures var (s', job', said) := Pull(s, job, job.turn.value, choice);
            && Perform(s, job, Section(choice)) == (s', if said.Some? then job'.(net := Delivery.Step(job.net, said.value)) else job')
            && job'.turn.Some? && job'.net == job.net && (said.Some? ==> job'.pc.Streaming?)
            && (R.InRange(s, job.turn.value) ==> R.InRange(s', job'.turn.value))
  {
    hide Delivery.Step, Absorb;
  }

  lemma FinalizingSection(s: Shared, job: Job, choice: Choice)
    requires job.pc.Finalizing? && job.turn.Some? && R.InRange(s, job.turn.value)
    ensures var next := FinalizeWhole(s, job, job.turn.value, job.pc.responseId, choice);
            Perform(s, job, Section(choice)) == next && next.1.turn.Some? && !next.1.pc.Streaming? && !next.1.pc.Finalizing?
  {
    hide CommitTo, Record;
  }

  lemma ReleasingSection(s: Shared, job: Job, choice: Choice)
    requires job.pc.Releasing? && job.turn.Some?
    ensures Perform(s, job, Section(choice)) == R.Released(s, job)
  {
  }

  /** `Next` when nothing is said: the result is taken, and then committed or the turn given up. */
  lemma PullMoves(s: Shared, job: Job, choice: Choice) returns (moves: seq<Move>)
    requires job.pc.Streaming? && job.turn.Some? && R.InRange(s, job.turn.value)
    requires Pull(s, job, job.turn.value, choice).2 == None
    ensures PerformAll(s, job, moves) == R.Pulled(s, job, choice)
  {
    hide Perform, Pull, FinalizeWhole, GiveUp;
    var m := Section(choice);
    var (s1, j1, _) := Pull(s, job, job.turn.value, choice);
    PullSection(s, job, choice);
    if j1.pc.Finalizing? {
      FinalizingSection(s1, j1, choice);
      var (s2, j2) := FinalizeWhole(s1, j1, j1.turn.value, j1.pc.responseId, choice);
      if j2.pc.Releasing? {
        ReleasingSection(s2, j2, choice);
        ThreeMoves(s, job, m, m, m);
        moves := [m, m, m];
      } else {
        TwoMoves(s, job, m, m);
        moves := [m, m];
      }
    } else if j1.pc.Releasing? {
      ReleasingSection(s1, j1, choice);
      TwoMoves(s, job, m, m);
      moves := [m, m];
    } else {
      OneMoveOnly(s, job, m);
      moves := [m];
    }
  }

  lemma {:induction false} PerformAppend(s: Shared, job: Job, a: seq<Move>, b: seq<Move>)
    ensures PerformAll(s, job, a + b) == var mid := PerformAll(s, job, a); PerformAll(mid.0, mid.1, b)
    decreases |b|
  {
    hide Perform;
    if b == [] {
      assert a + b == a;
    } else {
      var init, last := b[..|b| - 1], b[|b| - 1];
      PerformAppend(s, job, a, init);
      assert a + b == (a + init) + [last];
      PerformSnoc(s, job, a + init, last);
    }
  }
}
