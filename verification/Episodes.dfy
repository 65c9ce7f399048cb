/** The history-dependent RECOVERY state of the model itself: what module Recovery proves of the
    control machine, said of the states that runs of a validated configuration report. */
module Episodes {
  import opened Config
  import opened Hmm
  import opened Recovery
  import opened Learning
  import Inference

  /** The model after the first k observations. */
  function Reported(c: Settings, xs: seq<Vector>, m: Libm, k: nat): Model
    requires Startable(c) && m.tiny > 0.0 && k <= |xs|
  {
    StartLearnable(c, m);
    Run(Initial(c, m), xs[..k], m)
  }

  function Start(c: Settings, m: Libm): Control
    requires Startable(c) && m.tiny > 0.0
  {
    Control(Initial(c, m).state, 0)
  }

  function AllCandidates(c: Settings, xs: seq<Vector>, m: Libm): (s: seq<State>)
    requires Startable(c) && m.tiny > 0.0
    ensures |s| == |xs|
  {
    StartLearnable(c, m);
    Candidates(Initial(c, m), xs, m)
  }

  /** The candidates of the first observations are the first candidates. */
  lemma {:induction false} CandidatesPrefix(h: Model, xs: seq<Vector>, m: Libm, k: nat)
    requires Learnable(h) && m.tiny > 0.0 && k <= |xs|
    ensures Candidates(h, xs, m)[..k] == Candidates(h, xs[..k], m)
    decreases |xs|
  {
    hide Learnable, Candidate, Run;
    if k == |xs| {
      assert xs[..k] == xs;
    } else {
      var n := |xs| - 1;
      CandidatesPrefix(h, xs[..n], m, k);
      assert xs[..n][..k] == xs[..k];
      assert Candidates(h, xs, m)[..n] == Candidates(h, xs[..n], m) by { CandidatesButLast(h, xs, m); }
      assert Candidates(h, xs, m)[..k] == Candidates(h, xs, m)[..n][..k];
    }
  }

  lemma CandidatesButLast(h: Model, xs: seq<Vector>, m: Libm)
    requires Learnable(h) && m.tiny > 0.0 && xs != []
    ensures Candidates(h, xs, m)[..|xs| - 1] == Candidates(h, xs[..|xs| - 1], m)
  {
    hide Learnable, Candidate, Run;
    var earlier := xs[..|xs| - 1];
    LearnableRow(Run(h, earlier, m), 0);
    assert Candidates(h, xs, m) == Candidates(h, earlier, m) + [Candidate(Run(h, earlier, m), xs[|xs| - 1], m)];
  }

  /** Every reported state and countdown is an output of the control machine. */
  lemma ReportedIsOutput(c: Settings, xs: seq<Vector>, m: Libm, k: nat)
    requires Startable(c) && m.tiny > 0.0 && k <= |xs|
    ensures var r := Reported(c, xs, m, k);
      Control(r.state, r.remaining) == Output(Start(c, m), c.recoveryHold, AllCandidates(c, xs, m), k)
  {
    hide Learnable, After, Run, Candidates;
    StartLearnable(c, m);
    StartControl(c, m);
    CandidatesPrefix(Initial(c, m), xs, m, k);
    hide Initial;
    RunFollowsControl(Initial(c, m), xs[..k], m);
  }

  lemma StartControl(c: Settings, m: Libm)
    requires Startable(c) && m.tiny > 0.0
    ensures Initial(c, m).remaining == 0 && Initial(c, m).hold == c.recoveryHold
  {
    hide InitialRow, ScaledRow, Normalized;
  }

  /** Along every run, RECOVERY is entered only from CONGESTED, CONGESTED is left only to
      RECOVERY with the full countdown, and the countdown is not zero only in RECOVERY. */
  lemma EntryAndExitAlongRuns(c: Settings, xs: seq<Vector>, m: Libm, k: nat)
    requires Startable(c) && m.tiny > 0.0 && k < |xs|
    ensures var now, next := Reported(c, xs, m, k), Reported(c, xs, m, k + 1);
      (next.state == RECOVERY && now.state != RECOVERY ==> now.state == CONGESTED)
      && (now.state == CONGESTED && next.state != CONGESTED ==>
        next.state == RECOVERY && next.remaining == c.recoveryHold)
      && (next.remaining > 0 ==> next.state == RECOVERY)
  {
    hide Reported, Start, AllCandidates, Output;
    ReportedIsOutput(c, xs, m, k);
    ReportedIsOutput(c, xs, m, k + 1);
    EntryAndExit(Start(c, m), c.recoveryHold, AllCandidates(c, xs, m), k);
    StartsUncounted(c, m);
    CountdownOnlyInRecovery(Start(c, m), c.recoveryHold, AllCandidates(c, xs, m), k + 1);
  }

  lemma StartsUncounted(c: Settings, m: Libm)
    requires Startable(c) && m.tiny > 0.0
    ensures Start(c, m).remaining == 0
  {
  }

  /** Some report after the k-th, up to the one j later, is CONGESTED. */
  predicate CongestedAgain(c: Settings, xs: seq<Vector>, m: Libm, k: nat, j: nat)
    requires Startable(c) && m.tiny > 0.0 && k + j <= |xs|
  {
    exists i :: k < i <= k + j && Reported(c, xs, m, i).state == CONGESTED
  }

  lemma CongestedAgainIs(c: Settings, xs: seq<Vector>, m: Libm, k: nat, j: nat)
    requires Startable(c) && m.tiny > 0.0 && k + j <= |xs|
    ensures CongestedAgain(c, xs, m, k, j)
      <==> CongestedWithin(Start(c, m), c.recoveryHold, AllCandidates(c, xs, m), k, j)
  {
    hide Reported, Start, AllCandidates, Output;
    forall i | k < i <= k + j
      ensures Reported(c, xs, m, i).state == CONGESTED
        <==> Output(Start(c, m), c.recoveryHold, AllCandidates(c, xs, m), i).state == CONGESTED
    {
      ReportedIsOutput(c, xs, m, i);
    }
  }

  /** Along every run, an entered RECOVERY episode is reported exactly recoveryHold + 1 times,
      unless CONGESTED cuts it short. */
  lemma EpisodesAlongRuns(c: Settings, xs: seq<Vector>, m: Libm, k: nat)
    requires Startable(c) && m.tiny > 0.0 && 0 < k <= |xs|
    requires Reported(c, xs, m, k - 1).state == CONGESTED && Reported(c, xs, m, k).state == RECOVERY
    ensures forall j :: 0 <= j <= c.recoveryHold && k + j <= |xs| ==>
      CongestedAgain(c, xs, m, k, j) || Reported(c, xs, m, k + j).state == RECOVERY
    ensures k + c.recoveryHold + 1 <= |xs| ==>
      CongestedAgain(c, xs, m, k, c.recoveryHold) || Reported(c, xs, m, k + c.recoveryHold + 1).state != RECOVERY
  {
    hide Reported, Start, AllCandidates, Output, CongestedAgain, CongestedWithin;
    var hold := c.recoveryHold;
    ReportedIsOutput(c, xs, m, k - 1);
    ReportedIsOutput(c, xs, m, k);
    EpisodeLength(Start(c, m), hold, AllCandidates(c, xs, m), k);
    forall j | 0 <= j <= hold && k + j <= |xs|
      ensures CongestedAgain(c, xs, m, k, j) || Reported(c, xs, m, k + j).state == RECOVERY
    {
      ReportedIsOutput(c, xs, m, k + j);
      CongestedAgainIs(c, xs, m, k, j);
    }
    if k + hold + 1 <= |xs| {
      ReportedIsOutput(c, xs, m, k + hold + 1);
      CongestedAgainIs(c, xs, m, k, hold);
    }
  }

  /** A model that starts in RECOVERY does not report it first. */
  lemma InitialRecoveryIsNotReported(c: Settings, xs: seq<Vector>, m: Libm)
    requires Startable(c) && m.tiny > 0.0 && xs != [] && Initial(c, m).state == RECOVERY
    ensures Reported(c, xs, m, 1).state != RECOVERY
  {
    ReportedIsOutput(c, xs, m, 1);
    hide Reported, AllCandidates, Output, Initial;
    InitialRecoveryIsNotHeld(Start(c, m), c.recoveryHold, AllCandidates(c, xs, m));
  }

  // ----- what is reported follows the posterior -----

  lemma ReportedStep(c: Settings, xs: seq<Vector>, m: Libm, k: nat)
    requires Startable(c) && m.tiny > 0.0 && k < |xs|
    ensures Learnable(Reported(c, xs, m, k))
    ensures Reported(c, xs, m, k + 1) == Step(Reported(c, xs, m, k), xs[k], m)
  {
    hide Initial, Step, Learnable;
    StartLearnable(c, m);
    assert xs[..k + 1][..k] == xs[..k];
  }

  lemma StepTurns(h: Model, x: Vector, m: Libm)
    requires Learnable(h) && m.tiny > 0.0
    ensures h.minVariance > 0.0
    ensures Control(Step(h, x, m).state, Step(h, x, m).remaining)
         == Turn(Control(h.state, h.remaining), h.hold, Candidate(h, x, m))
  {
    hide Candidate, Select, NextMeans, NextVariances, NextCounts, NextRow, Blended, Posterior, Learnable;
    LearnableRow(h, 0);
  }

  /** Along every run, what is reported is a state of largest posterior, the first of them,
      unless the override forbids that move or holds RECOVERY: then it is RECOVERY when
      CONGESTED is left or the countdown runs, and NORMAL when RECOVERY is refused. */
  lemma FollowsPosteriorAlongRuns(c: Settings, xs: seq<Vector>, m: Libm, k: nat)
    requires Startable(c) && m.tiny > 0.0 && k < |xs|
    ensures Reported(c, xs, m, k).minVariance > 0.0
    ensures var now, next := Reported(c, xs, m, k), Reported(c, xs, m, k + 1).state;
      var q, candidate := Posterior(now, xs[k], m), Candidate(now, xs[k], m);
      (forall j: State :: q[j] <= q[candidate]) && (forall j: State :: j < candidate ==> q[j] < q[candidate])
      && (next == candidate <==> !Overridden(Control(now.state, now.remaining), candidate))
      && (next != candidate ==> next == if candidate == RECOVERY then NORMAL else RECOVERY)
  {
    hide Reported, Posterior, Candidate, Step, Learnable, Overridden;
    ReportedStep(c, xs, m, k);
    var now := Reported(c, xs, m, k);
    StepTurns(now, xs[k], m);
    Inference.CandidateIsLargest(now, xs[k], m);
    FollowedUnlessOverridden(Control(now.state, now.remaining), now.hold, Candidate(now, xs[k], m));
  }
}
