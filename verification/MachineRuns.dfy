/** The moves of one job in the turn machine, one after another, and the run of the whole world they are part of. */
module MachineRuns {
  import opened Turns
  import Delivery

  /** The job's own next section, or something a reader or an abort does to its log. */
  datatype Move = Section(choice: Choice) | Outside(action: Delivery.Action)

  function Perform(s: Shared, job: Job, move: Move): (Shared, Job) {
    match move
    case Section(choice) => if CanStep(s, job) then JobStep(s, job, choice) else (s, job)
    case Outside(action) => (s, if FromOutside(action) then job.(net := Delivery.Step(job.net, action)) else job)
  }

  function PerformAll(s: Shared, job: Job, moves: seq<Move>): (Shared, Job) {
    if moves == [] then (s, job)
    else
      var before := PerformAll(s, job, moves[..|moves| - 1]);
      Perform(before.0, before.1, moves[|moves| - 1])
  }

  lemma PerformSnoc(s: Shared, job: Job, moves: seq<Move>, move: Move)
    ensures PerformAll(s, job, moves + [move]) == var before := PerformAll(s, job, moves); Perform(before.0, before.1, move)
  {
    assert (moves + [move])[..|moves|] == moves;
  }

  /** The same moves as actions of the world, for its job `i`. */
  function ActionsOf(i: nat, moves: seq<Move>): seq<Action> {
    seq(|moves|, k requires 0 <= k < |moves| =>
      match moves[k]
      case Section(choice) => Advance(i, choice)
      case Outside(action) => Reader(i, action))
  }

  /** What one job does in a row is a run of the world: every theorem about runs speaks of it. */
  lemma {:induction false} MovesAreARun(w: World, i: nat, moves: seq<Move>)
    requires i < |w.jobs|
    ensures var (s, job) := PerformAll(w.shared, w.jobs[i], moves);
            Run(w, ActionsOf(i, moves)) == World(s, w.jobs[i := job])
  {
    hide JobStep, CanStep, FromOutside, Delivery.Step;
    if moves == [] {
      assert ActionsOf(i, moves) == [] && w.jobs[i := w.jobs[i]] == w.jobs;
    } else {
      var init, last := moves[..|moves| - 1], moves[|moves| - 1];
      MovesAreARun(w, i, init);
      var actions := ActionsOf(i, moves);
      assert actions[..|actions| - 1] == ActionsOf(i, init);
      var (s, job) := PerformAll(w.shared, w.jobs[i], init);
      OneMove(World(s, w.jobs[i := job]), i, last);
      var (s', job') := PerformAll(w.shared, w.jobs[i], moves);
      assert w.jobs[i := job][i := job'] == w.jobs[i := job'];
    }
  }

  lemma OneMove(w: World, i: nat, move: Move)
    requires i < |w.jobs|
    ensures var (s, job) := Perform(w.shared, w.jobs[i], move);
            Step(w, ActionsOf(i, [move])[0]) == World(s, w.jobs[i := job])
  {
    hide JobStep, CanStep, FromOutside, Delivery.Step;
    assert w.jobs[i := w.jobs[i]] == w.jobs;
  }
}
