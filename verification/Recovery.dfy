/** The history-dependent RECOVERY state over whole runs: how it is entered and left, and how
    long it lasts. */
module Recovery {
  import opened Hmm

  /** The part of the model that the override logic reads and writes. */
  datatype Control = Control(state: State, remaining: nat)

  function Turn(c: Control, hold: nat, candidate: State): Control {
    var (state, remaining) := Select(c.state, c.remaining, hold, candidate);
    Control(state, remaining)
  }

  /** The control after any number of candidates, oldest first. */
  function After(c: Control, hold: nat, candidates: seq<State>): Control
    decreases |candidates|
  {
    if candidates == [] then c
    else Turn(After(c, hold, candidates[..|candidates| - 1]), hold, candidates[|candidates| - 1])
  }

  /** Output k of a run: the control after its first k candidates. */
  function Output(c: Control, hold: nat, candidates: seq<State>, k: nat): Control
    requires k <= |candidates|
  {
    After(c, hold, candidates[..k])
  }

  lemma OutputStep(c: Control, hold: nat, candidates: seq<State>, k: nat)
    requires k < |candidates|
    ensures Output(c, hold, candidates, k + 1) == Turn(Output(c, hold, candidates, k), hold, candidates[k])
  {
    assert candidates[..k + 1][..k] == candidates[..k];
  }

  /** In every run, RECOVERY is entered only from CONGESTED, and CONGESTED is left only to
      RECOVERY, with the full countdown. */
  lemma EntryAndExit(c: Control, hold: nat, candidates: seq<State>, k: nat)
    requires k < |candidates|
    ensures var now, next := Output(c, hold, candidates, k), Output(c, hold, candidates, k + 1);
      (next.state == RECOVERY && now.state != RECOVERY ==> now.state == CONGESTED)
      && (now.state == CONGESTED && next.state != CONGESTED ==> next == Control(RECOVERY, hold))
  {
    OutputStep(c, hold, candidates, k);
  }

  /** The countdown runs only in RECOVERY. */
  lemma {:induction false} CountdownOnlyInRecovery(c: Control, hold: nat, candidates: seq<State>, k: nat)
    requires k <= |candidates| && (c.remaining > 0 ==> c.state == RECOVERY)
    ensures var now := Output(c, hold, candidates, k);
      now.remaining > 0 ==> now.state == RECOVERY
    decreases k
  {
    if k == 0 {
      assert candidates[..0] == [];
    } else {
      CountdownOnlyInRecovery(c, hold, candidates, k - 1);
      OutputStep(c, hold, candidates, k - 1);
    }
  }

  predicate CongestedWithin(c: Control, hold: nat, candidates: seq<State>, k: nat, j: nat)
    requires k + j <= |candidates|
  {
    exists i :: k < i <= k + j && Output(c, hold, candidates, i).state == CONGESTED
  }

  /** While congestion does not return, output j of an episode is RECOVERY and hold - j remain. */
  lemma {:induction false} EpisodeContinues(c: Control, hold: nat, candidates: seq<State>, k: nat, j: nat)
    requires k + j <= |candidates| && j <= hold
    requires Output(c, hold, candidates, k) == Control(RECOVERY, hold)
    requires !CongestedWithin(c, hold, candidates, k, j)
    ensures Output(c, hold, candidates, k + j) == Control(RECOVERY, hold - j)
    decreases j
  {
    if j == 0 {
    } else {
      EpisodeContinues(c, hold, candidates, k, j - 1);
      OutputStep(c, hold, candidates, k + j - 1);
      assert Output(c, hold, candidates, k + j).state != CONGESTED;
    }
  }

  /** An episode entered at output k lasts exactly hold + 1 outputs (the entry and the hold)
      unless CONGESTED cuts it short: until then every output is RECOVERY, and the one after
      is not. */
  lemma EpisodeLength(c: Control, hold: nat, candidates: seq<State>, k: nat)
    requires 0 < k <= |candidates|
    requires Output(c, hold, candidates, k - 1).state == CONGESTED
    requires Output(c, hold, candidates, k).state == RECOVERY
    ensures forall j :: 0 <= j <= hold && k + j <= |candidates| ==>
      CongestedWithin(c, hold, candidates, k, j) || Output(c, hold, candidates, k + j).state == RECOVERY
    ensures k + hold + 1 <= |candidates| ==>
      CongestedWithin(c, hold, candidates, k, hold) || Output(c, hold, candidates, k + hold + 1).state != RECOVERY
  {
    EntryAndExit(c, hold, candidates, k - 1);
    forall j | 0 <= j <= hold && k + j <= |candidates|
      ensures CongestedWithin(c, hold, candidates, k, j)
           || Output(c, hold, candidates, k + j) == Control(RECOVERY, hold - j)
    {
      if !CongestedWithin(c, hold, candidates, k, j) { EpisodeContinues(c, hold, candidates, k, j); }
    }
    if k + hold + 1 <= |candidates| { OutputStep(c, hold, candidates, k + hold); }
  }

  /** A run that starts in RECOVERY with nothing remaining leaves it at once. */
  lemma InitialRecoveryIsNotHeld(c: Control, hold: nat, candidates: seq<State>)
    requires c == Control(RECOVERY, 0) && candidates != []
    ensures Output(c, hold, candidates, 1).state != RECOVERY
  {
    OutputStep(c, hold, candidates, 0);
    assert candidates[..0] == [];
  }

  /** The moves the override logic never makes. */
  predicate Forbidden(from: State, to: State) {
    ((from == GOOD || from == NORMAL || from == DEGRADED) && to == RECOVERY)
    || (from == CONGESTED && (to == GOOD || to == NORMAL || to == DEGRADED))
  }

  lemma ForbiddenNeverSelected(from: State, remaining: nat, hold: nat, candidate: State)
    ensures !Forbidden(from, Select(from, remaining, hold, candidate).0)
  {
  }

  /** When the candidate is not followed: on a forbidden move, and in RECOVERY, while the
      countdown runs and when RECOVERY would be kept after it. */
  predicate Overridden(c: Control, candidate: State) {
    Forbidden(c.state, candidate)
    || (c.state == RECOVERY && candidate != CONGESTED && (c.remaining > 0 <==> candidate != RECOVERY))
  }

  /** Otherwise it is followed. A forbidden exit of CONGESTED and a running countdown give
      RECOVERY; a refused RECOVERY gives NORMAL. */
  lemma FollowedUnlessOverridden(c: Control, hold: nat, candidate: State)
    ensures var next := Turn(c, hold, candidate);
      (next.state == candidate <==> !Overridden(c, candidate))
      && (Overridden(c, candidate) ==>
        next.state == if candidate == RECOVERY then NORMAL else RECOVERY)
      && next.remaining == if next.state == RECOVERY && c.state == CONGESTED then hold
                           else if next.state == RECOVERY then c.remaining - 1
                           else if c.state == RECOVERY && candidate == CONGESTED then 0
                           else c.remaining
  {
  }
}
