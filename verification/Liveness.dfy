/** When exactly a window completes: the condition over all schedules of a lossy, duplicating
    and reordering channel, and what it means for a channel that does none of that. */
module Liveness {
  import opened Bits
  import opened Results
  import opened Coap
  import opened CoapSizes
  import opened Records
  import opened Segmentation
  import opened Transfer
  import opened Delivery

  // ----- the condition -----

  /** The packets of a log in the order in which they arrive. */
  function Arrived(log: seq<Sent>, schedule: seq<nat>): (arrived: seq<Sent>)
    requires forall k :: 0 <= k < |schedule| ==> schedule[k] < |log|
    ensures |arrived| == |schedule|
  {
    seq(|schedule|, k requires 0 <= k < |schedule| => log[schedule[k]])
  }

  /** The blocks of the window arrive in order, each at its step. */
  predicate BlocksAt(arrived: seq<Sent>, id: u32, steps: seq<nat>) {
    (forall i, j :: 0 <= i < j < |steps| ==> steps[i] < steps[j])
    && forall i :: 0 <= i < |steps| ==>
      steps[i] < |arrived| && arrived[steps[i]].id == id && arrived[steps[i]].block == i
  }

  /** No block zero of this or a later window arrives before a step. */
  predicate NoneBefore(arrived: seq<Sent>, id: u32, step: nat)
    requires step <= |arrived|
  {
    forall k :: 0 <= k < step && arrived[k].block == 0 ==> arrived[k].id < id
  }

  /** No block zero of any window arrives strictly between two steps. */
  predicate NoneBetween(arrived: seq<Sent>, from: nat, to: nat)
    requires to <= |arrived|
  {
    forall k :: from < k < to ==> arrived[k].block != 0
  }

  /** All n blocks of the window arrive in order, the first before any block zero of this or a
      later window, and no block zero of any window among them. Whatever else arrives, or
      arrives again, does not matter. */
  ghost predicate ArrivesUnbroken(arrived: seq<Sent>, id: u32, n: nat) {
    exists steps: seq<nat> :: UnbrokenAt(arrived, id, n, steps)
  }

  predicate UnbrokenAt(arrived: seq<Sent>, id: u32, n: nat, steps: seq<nat>) {
    |steps| == n > 0 && BlocksAt(arrived, id, steps)
    && NoneBefore(arrived, id, steps[0]) && NoneBetween(arrived, steps[0], steps[n - 1])
  }

  // ----- the condition, read off arrival by arrival -----

  /** How far a window has come: not begun, so many blocks in, all in, or past saving. */
  datatype Phase = Waiting | Upto(blocks: nat) | Finished | Lost

  function Next(phase: Phase, s: Sent, id: u32, n: nat): Phase {
    match phase
    case Waiting =>
      if s.block != 0 || s.id < id then Waiting
      else if s.id > id then Lost
      else if n == 1 then Finished
      else Upto(1)
    case Upto(j) =>
      if s.block == 0 then Lost
      else if s.id != id || s.block != j then phase
      else if j + 1 == n then Finished
      else Upto(j + 1)
    case _ => phase
  }

  function PhaseAfter(arrived: seq<Sent>, id: u32, n: nat): Phase
    decreases |arrived|
  {
    if arrived == [] then Waiting
    else Next(PhaseAfter(arrived[..|arrived| - 1], id, n), arrived[|arrived| - 1], id, n)
  }

  /** What the arrivals so far look like in each phase. */
  ghost predicate Shows(arrived: seq<Sent>, id: u32, n: nat, phase: Phase) {
    match phase
    case Waiting => NoneBefore(arrived, id, |arrived|)
    case Upto(j) =>
      0 < j < n && exists steps: seq<nat> :: |steps| == j && UnbrokenAt(arrived, id, j, steps)
                                             && NoneBetween(arrived, steps[0], |arrived|)
    case Finished => ArrivesUnbroken(arrived, id, n)
    case Lost => true
  }

  lemma {:induction false} PhaseShows(arrived: seq<Sent>, id: u32, n: nat)
    requires forall k :: 0 <= k < |arrived| && arrived[k].id == id ==> n > 0
    ensures Shows(arrived, id, n, PhaseAfter(arrived, id, n))
    decreases |arrived|
  {
    hide Shows, Next;
    if arrived == [] {
      NothingShows(id, n);
    } else {
      PhaseShows(arrived[..|arrived| - 1], id, n);
      NextShows(arrived, id, n, PhaseAfter(arrived[..|arrived| - 1], id, n));
    }
  }

  lemma NothingShows(id: u32, n: nat)
    ensures Shows([], id, n, Waiting)
  {
  }

  lemma NextShows(arrived: seq<Sent>, id: u32, n: nat, phase: Phase)
    requires arrived != [] && (arrived[|arrived| - 1].id == id ==> n > 0)
    requires Shows(arrived[..|arrived| - 1], id, n, phase)
    ensures Shows(arrived, id, n, Next(phase, arrived[|arrived| - 1], id, n))
  {
    hide UnbrokenAt, NoneBetween;
    var m := |arrived| - 1;
    var earlier, s := arrived[..m], arrived[m];
    match phase
    case Waiting =>
      if s.block == 0 && s.id == id { OneBlock(arrived, id); }
    case Upto(j) =>
      var steps: seq<nat> :| |steps| == j && UnbrokenAt(earlier, id, j, steps)
                             && NoneBetween(earlier, steps[0], |earlier|);
      if s.block != 0 {
        StillUnbroken(arrived, m, id, j, steps);
        StillNone(arrived, m, steps[0]);
        if s.id == id && s.block == j { OneMoreBlock(arrived, id, j, steps); }
      }
    case Finished =>
      var steps: seq<nat> :| UnbrokenAt(earlier, id, n, steps);
      StillUnbroken(arrived, m, id, n, steps);
    case Lost =>
  }

  lemma OneBlock(arrived: seq<Sent>, id: u32)
    requires arrived != [] && NoneBefore(arrived, id, |arrived| - 1)
    requires arrived[|arrived| - 1].block == 0 && arrived[|arrived| - 1].id == id
    ensures UnbrokenAt(arrived, id, 1, [|arrived| - 1]) && NoneBetween(arrived, |arrived| - 1, |arrived|)
  {
  }

  lemma StillUnbroken(arrived: seq<Sent>, m: nat, id: u32, n: nat, steps: seq<nat>)
    requires m <= |arrived| && UnbrokenAt(arrived[..m], id, n, steps)
    ensures UnbrokenAt(arrived, id, n, steps)
  {
  }

  lemma StillNone(arrived: seq<Sent>, m: nat, from: nat)
    requires m + 1 == |arrived| && NoneBetween(arrived[..m], from, m) && arrived[m].block != 0
    ensures NoneBetween(arrived, from, m + 1)
  {
  }

  lemma OneMoreBlock(arrived: seq<Sent>, id: u32, j: nat, steps: seq<nat>)
    requires arrived != [] && UnbrokenAt(arrived[..|arrived| - 1], id, j, steps)
    requires NoneBetween(arrived, steps[0], |arrived|)
    requires arrived[|arrived| - 1].id == id && arrived[|arrived| - 1].block == j
    ensures UnbrokenAt(arrived, id, j + 1, steps + [|arrived| - 1])
    ensures (steps + [|arrived| - 1])[0] == steps[0]
  {
    var m := |arrived| - 1;
    assert forall i :: 0 <= i < j ==> arrived[..m][steps[i]] == arrived[steps[i]];
  }

  /** Conversely, blocks that arrive unbroken are followed to the last. */
  lemma {:induction false} UnbrokenFollowed(arrived: seq<Sent>, id: u32, n: nat, steps: seq<nat>, k: nat)
    requires UnbrokenAt(arrived, id, n, steps) && k <= steps[n - 1] + 1
    ensures var phase := PhaseAfter(arrived[..k], id, n);
      if k <= steps[0] then phase == Waiting
      else phase == Finished
           || (phase.Upto? && phase.blocks < n && forall i :: 0 <= i < n && steps[i] < k ==> i < phase.blocks)
    decreases k
  {
    if k == 0 {
    } else {
      UnbrokenFollowed(arrived, id, n, steps, k - 1);
      assert arrived[..k][..k - 1] == arrived[..k - 1];
      assert steps[0] <= steps[n - 1];
      if k > steps[0] + 1 {
        FollowedOn(arrived, id, n, steps, k, PhaseAfter(arrived[..k - 1], id, n));
      }
    }
  }

  lemma FollowedOn(arrived: seq<Sent>, id: u32, n: nat, steps: seq<nat>, k: nat, phase: Phase)
    requires UnbrokenAt(arrived, id, n, steps) && steps[0] + 1 < k <= steps[n - 1] + 1
    requires phase == Finished
             || (phase.Upto? && phase.blocks < n && forall i :: 0 <= i < n && steps[i] < k - 1 ==> i < phase.blocks)
    ensures var next := Next(phase, arrived[k - 1], id, n);
      next == Finished
      || (next.Upto? && next.blocks < n && forall i :: 0 <= i < n && steps[i] < k ==> i < next.blocks)
  {
    assert arrived[k - 1].block != 0 by {
      if k - 1 == steps[n - 1] { assert n - 1 > 0; }
    }
    forall i | 0 <= i < n && steps[i] == k - 1
      ensures phase.Upto? ==> i <= phase.blocks
    {
      if i > 0 { assert steps[i - 1] < k - 1; }
    }
  }

  lemma {:induction false} FinishedStays(arrived: seq<Sent>, id: u32, n: nat, k: nat)
    requires k <= |arrived| && PhaseAfter(arrived[..k], id, n) == Finished
    ensures PhaseAfter(arrived, id, n) == Finished
    decreases |arrived| - k
  {
    if k == |arrived| {
      assert arrived[..k] == arrived;
    } else {
      assert arrived[..k + 1][..k] == arrived[..k];
      FinishedStays(arrived, id, n, k + 1);
    }
  }

  lemma PhaseFinishedIff(arrived: seq<Sent>, id: u32, n: nat)
    requires forall k :: 0 <= k < |arrived| && arrived[k].id == id ==> n > 0
    ensures PhaseAfter(arrived, id, n) == Finished <==> ArrivesUnbroken(arrived, id, n)
  {
    PhaseShows(arrived, id, n);
    hide PhaseAfter;
    if ArrivesUnbroken(arrived, id, n) {
      var steps: seq<nat> :| UnbrokenAt(arrived, id, n, steps);
      var k := steps[n - 1] + 1;
      UnbrokenFollowed(arrived, id, n, steps, k);
      FinishedStays(arrived, id, n, k);
    }
  }

  // ----- the receiver in each phase -----

  predicate Old(r: Receiver, s: Sent) {
    r.replay.initialized && s.sequence <= r.replay.highest
  }

  /** The receiver takes this packet in. */
  predicate Joins(r: Receiver, s: Sent) {
    (s.block == 0 || (r.active && r.nextBlock == s.block && r.token == BigEndian(s.id, 4))) && !Old(r, s)
  }

  /** What one packet does to a receiver, as far as later packets can tell; last says that its
      window is whole with it and decodes. */
  predicate Does(r: Receiver, s: Sent, last: bool, after: Receiver, completed: bool) {
    if Joins(r, s) then
      after.token == BigEndian(s.id, 4) && after.nextBlock == s.block + 1
      && after.replay == Seen(true, s.sequence) && completed == last && after.active == !last
    else !completed && after == if s.block == 0 then Receiver([], 0, BigEndian(s.id, 4), true, r.replay) else r
  }

  function BlocksOf(w: Window): nat {
    if Sendable(w) then |Pieces(w)| else 0
  }

  lemma Effect<D>(c: Cipher, decode: seq<byte> -> Result<D>, plans: seq<Plan>, first: u32, log: seq<Sent>,
                  r: Receiver, d: nat)
    requires Lawful(c) && Fits(plans, first) && InOrder(c, plans, first, log) && d < |log|
    requires Sane(plans, first, log, r)
    ensures first <= log[d].id < first + |plans|
    ensures var w := WindowAt(plans, first, log[d].id - first);
      var (after, o) := Accept(c, decode, r, log[d].packet);
      log[d].block < BlocksOf(w)
      && Does(r, log[d], log[d].block + 1 == BlocksOf(w) && decode(w.representation).Ok?, after, o.Complete?)
  {
    hide Carries, Pieces, Flatten, BlockSize, Accept;
    var s := log[d];
    var w := WindowAt(plans, first, s.id - first);
    CarriesFacts(c, w, s);
    OtherPacket(c, decode, w, s, r);
    if Joins(r, s) {
      if s.block > 0 {
        var i: nat :| Holding(plans, first, log, r, i);
        TokensDiffer(log[i].id, w.id);
      }
      ContinuingPacket(c, decode, w, s, r);
    }
  }

  lemma LaterIdLater(log: seq<Sent>, i: nat, j: nat)
    requires Ordered(log) && i < |log| && j < |log| && log[i].id < log[j].id
    ensures log[i].sequence < log[j].sequence
  {
  }

  lemma LaterBlockLater(log: seq<Sent>, i: nat, j: nat)
    requires Ordered(log) && i < |log| && j < |log| && log[i].id == log[j].id
    ensures log[i].block < log[j].block ==> log[i].sequence < log[j].sequence
    ensures log[i].block == log[j].block ==> log[i].sequence == log[j].sequence
  {
  }

  ghost predicate EarlierToken(token: seq<byte>, id: u32) {
    exists a: u32 :: a < id && token == BigEndian(a, 4)
  }

  /** The packet that a receiver j blocks into the window took in last. */
  predicate LastTaken(log: seq<Sent>, id: u32, j: nat, r: Receiver, i: nat) {
    i < |log| && log[i].id == id && log[i].block + 1 == j && log[i].sequence == r.replay.highest
  }

  /** The receiver of a log, by how far the window has come. */
  ghost predicate Tracks(log: seq<Sent>, id: u32, n: nat, phase: Phase, r: Receiver) {
    match phase
    case Waiting =>
      (forall i :: 0 <= i < |log| && log[i].id >= id ==> !Old(r, log[i])) && (r.active ==> EarlierToken(r.token, id))
    case Upto(j) =>
      0 < j < n && r.active && r.nextBlock == j && r.token == BigEndian(id, 4) && r.replay.initialized
      && exists i: nat :: LastTaken(log, id, j, r, i)
    case _ =>
      (forall i :: 0 <= i < |log| && log[i].id == id && log[i].block == 0 ==> Old(r, log[i]))
      && (r.active && r.token == BigEndian(id, 4) ==> r.nextBlock == 0 || r.nextBlock >= n)
  }

  /** One arrival of the log, to a receiver that tracks the window. */
  ghost predicate TracksOn(log: seq<Sent>, id: u32, n: nat, phase: Phase, s: Sent, after: Receiver, ok: bool,
                           completed: bool)
  {
    var next := Next(phase, s, id, n);
    Tracks(log, id, n, next, after)
    && (completed && s.id == id <==> ok && phase != Finished && next == Finished)
  }

  lemma WaitingStep(log: seq<Sent>, id: u32, n: nat, d: nat, r: Receiver, after: Receiver, last: bool, ok: bool,
                    completed: bool)
    requires Ordered(log) && d < |log| && Tracks(log, id, n, Waiting, r) && Does(r, log[d], last, after, completed)
    requires log[d].id == id ==> log[d].block < n && last == (log[d].block + 1 == n && ok)
    ensures TracksOn(log, id, n, Waiting, log[d], after, ok, completed)
  {
    hide BigEndian;
    var s := log[d];
    if r.active {
      var a: u32 :| a < id && r.token == BigEndian(a, 4);
      if r.token == BigEndian(s.id, 4) { TokensDiffer(a, s.id); }
    }
    if Joins(r, s) {
      forall i | 0 <= i < |log|
        ensures s.id < log[i].id ==> s.sequence < log[i].sequence
        ensures log[i].id < s.id ==> log[i].sequence < s.sequence
        ensures log[i].id == s.id && log[i].block == s.block ==> log[i].sequence == s.sequence
      {
        if s.id < log[i].id { LaterIdLater(log, d, i); }
        if log[i].id < s.id { LaterIdLater(log, i, d); }
        if s.id == log[i].id { LaterBlockLater(log, d, i); }
      }
      if s.id != id && BigEndian(s.id, 4) == BigEndian(id, 4) { TokensDiffer(s.id, id); }
      if s.id == id { assert n > 1 ==> LastTaken(log, id, 1, after, d); }
    }
  }

  lemma UptoStep(log: seq<Sent>, id: u32, n: nat, j: nat, d: nat, r: Receiver, after: Receiver, last: bool, ok: bool,
                 completed: bool)
    requires Ordered(log) && d < |log| && Tracks(log, id, n, Upto(j), r) && Does(r, log[d], last, after, completed)
    requires log[d].id == id ==> log[d].block < n && last == (log[d].block + 1 == n && ok)
    ensures TracksOn(log, id, n, Upto(j), log[d], after, ok, completed)
  {
    hide BigEndian;
    var s := log[d];
    var t: nat :| LastTaken(log, id, j, r, t);
    if s.id == id { LaterBlockLater(log, t, d); LaterBlockLater(log, d, t); }
    if s.id != id && BigEndian(s.id, 4) == BigEndian(id, 4) { TokensDiffer(s.id, id); }
    forall i | 0 <= i < |log| && log[i].id == id && log[i].block == 0
      ensures Old(r, log[i]) && (Joins(r, s) ==> log[i].sequence <= s.sequence)
    {
      LaterBlockLater(log, i, t);
    }
    if Joins(r, s) && s.id == id { assert LastTaken(log, id, j + 1, after, d); }
    if !Joins(r, s) && s.block != 0 { assert LastTaken(log, id, j, after, t); }
  }

  lemma SpentStep(log: seq<Sent>, id: u32, n: nat, phase: Phase, d: nat, r: Receiver, after: Receiver, last: bool,
                  ok: bool, completed: bool)
    requires phase.Finished? || phase.Lost?
    requires Ordered(log) && d < |log| && Tracks(log, id, n, phase, r) && Does(r, log[d], last, after, completed)
    requires log[d].id == id ==> log[d].block < n && last == (log[d].block + 1 == n && ok)
    ensures TracksOn(log, id, n, phase, log[d], after, ok, completed)
  {
    hide BigEndian;
    var s := log[d];
    if s.id != id && BigEndian(s.id, 4) == BigEndian(id, 4) { TokensDiffer(s.id, id); }
  }

  lemma TracksStep(log: seq<Sent>, id: u32, n: nat, phase: Phase, d: nat, r: Receiver, after: Receiver, last: bool,
                   ok: bool, completed: bool)
    requires Ordered(log) && d < |log| && Tracks(log, id, n, phase, r) && Does(r, log[d], last, after, completed)
    requires log[d].id == id ==> log[d].block < n && last == (log[d].block + 1 == n && ok)
    ensures TracksOn(log, id, n, phase, log[d], after, ok, completed)
  {
    hide *;
    match phase
    case Waiting => WaitingStep(log, id, n, d, r, after, last, ok, completed);
    case Upto(j) => UptoStep(log, id, n, j, d, r, after, last, ok, completed);
    case Finished => SpentStep(log, id, n, phase, d, r, after, last, ok, completed);
    case Lost => SpentStep(log, id, n, phase, d, r, after, last, ok, completed);
  }

  // ----- the theorem -----

  /** Some completion is of this window. */
  predicate Completes<D>(log: seq<Sent>, schedule: seq<nat>, done: seq<Completion<D>>, id: u32) {
    exists k :: 0 <= k < |done| && IsOf(log, schedule, done[k], id)
  }

  predicate IsOf<D>(log: seq<Sent>, schedule: seq<nat>, done: Completion<D>, id: u32) {
    done.step < |schedule| && schedule[done.step] < |log| && IdOf(log, schedule, done) == id
  }

  /** The window whose packet arrived at the step of a completion. */
  function IdOf<D>(log: seq<Sent>, schedule: seq<nat>, done: Completion<D>): u32 {
    if done.step < |schedule| && schedule[done.step] < |log| then log[schedule[done.step]].id else 0
  }

  lemma {:induction false} DeliveredTracks<D>(c: Cipher, decode: seq<byte> -> Result<D>, plans: seq<Plan>, first: u32,
                                              log: seq<Sent>, schedule: seq<nat>, id: u32)
    requires Lawful(c) && Fits(plans, first) && InOrder(c, plans, first, log) && first <= id < first + |plans|
    requires forall k :: 0 <= k < |schedule| ==> schedule[k] < |log|
    ensures var (r, done) := Delivered(c, decode, FRESH, log, schedule);
      var w := WindowAt(plans, first, id - first);
      var phase := PhaseAfter(Arrived(log, schedule), id, BlocksOf(w));
      Tracks(log, id, BlocksOf(w), phase, r)
      && (Completes(log, schedule, done, id) <==> decode(w.representation).Ok? && phase == Finished)
    decreases |schedule|
  {
    hide Accept, Tracks, Does, BlocksOf, InOrder, Sane, Faithful, Next, Completes, Lawful;
    var w := WindowAt(plans, first, id - first);
    var n := BlocksOf(w);
    if schedule == [] {
      NothingTracked<D>(log, id, n);
    } else {
      var m := |schedule| - 1;
      var d, earlier := schedule[m], schedule[..m];
      DeliveredTracks(c, decode, plans, first, log, earlier, id);
      RunIsFaithful(c, decode, plans, first, log, earlier);
      var (r, done) := Delivered(c, decode, FRESH, log, earlier);
      var (after, o) := Accept(c, decode, r, log[d].packet);
      var arrived := Arrived(log, schedule);
      assert arrived[..m] == Arrived(log, earlier) && arrived[m] == log[d];
      var phase := PhaseAfter(arrived[..m], id, n);
      Effect(c, decode, plans, first, log, r, d);
      InOrderOrdered(c, plans, first, log);
      var v := WindowAt(plans, first, log[d].id - first);
      TracksStep(log, id, n, phase, d, r, after, log[d].block + 1 == BlocksOf(v) && decode(v.representation).Ok?,
                 decode(w.representation).Ok?, o.Complete?);
      if o.Complete? {
        CompletesOne(decode, plans, first, log, schedule, done, Completion(m, after.representation, o.value), r.replay,
                     id);
      } else {
        CompletesSame(decode, plans, first, log, schedule, done, r.replay, id);
      }
      FinishedNext(phase, log[d], id, n);
    }
  }

  lemma NothingTracked<D>(log: seq<Sent>, id: u32, n: nat)
    ensures Tracks(log, id, n, Waiting, FRESH) && !Completes<D>(log, [], [], id)
  {
  }

  lemma InOrderOrdered(c: Cipher, plans: seq<Plan>, first: u32, log: seq<Sent>)
    requires Fits(plans, first) && InOrder(c, plans, first, log)
    ensures Ordered(log)
  {
  }

  lemma FinishedNext(phase: Phase, s: Sent, id: u32, n: nat)
    ensures phase == Finished ==> Next(phase, s, id, n) == Finished
  {
  }

  lemma CompletesSame<D>(decode: seq<byte> -> Result<D>, plans: seq<Plan>, first: u32, log: seq<Sent>,
                         schedule: seq<nat>, done: seq<Completion<D>>, replay: ReplayState, id: u32)
    requires Fits(plans, first) && schedule != []
    requires Faithful(decode, plans, first, log, schedule[..|schedule| - 1], done, replay)
    ensures Completes(log, schedule, done, id) <==> Completes(log, schedule[..|schedule| - 1], done, id)
  {
    hide Pieces, Sendable;
    var earlier := schedule[..|schedule| - 1];
    forall k | 0 <= k < |done|
      ensures IsOf(log, schedule, done[k], id) <==> IsOf(log, earlier, done[k], id)
    {
      assert CompletesWindow(decode, plans, first, log, earlier, done[k]);
    }
  }

  lemma CompletesOne<D>(decode: seq<byte> -> Result<D>, plans: seq<Plan>, first: u32, log: seq<Sent>,
                        schedule: seq<nat>, done: seq<Completion<D>>, last: Completion<D>, replay: ReplayState, id: u32)
    requires Fits(plans, first) && schedule != [] && last.step == |schedule| - 1 && schedule[last.step] < |log|
    requires Faithful(decode, plans, first, log, schedule[..|schedule| - 1], done, replay)
    ensures Completes(log, schedule, done + [last], id)
      <==> Completes(log, schedule[..|schedule| - 1], done, id) || log[schedule[last.step]].id == id
  {
    hide Faithful, IsOf;
    CompletesSame(decode, plans, first, log, schedule, done, replay, id);
    var all := done + [last];
    IsOfHere(log, schedule, last, id);
    assert all[|done|] == last;
    if Completes(log, schedule, done, id) {
      var k :| 0 <= k < |done| && IsOf(log, schedule, done[k], id);
      assert all[k] == done[k];
    }
  }

  lemma IsOfHere<D>(log: seq<Sent>, schedule: seq<nat>, last: Completion<D>, id: u32)
    requires last.step < |schedule| && schedule[last.step] < |log|
    ensures IsOf(log, schedule, last, id) <==> log[schedule[last.step]].id == id
  {
  }

  /** Exactly when a window completes, whatever the other windows and whatever the channel
      loses, duplicates and reorders: if it decodes and its blocks arrive unbroken. So one
      repeated block zero, of this window or any other, loses a transfer under way for good. */
  lemma CompletesIff<D>(c: Cipher, decode: seq<byte> -> Result<D>, plans: seq<Plan>, first: u32, log: seq<Sent>,
                        schedule: seq<nat>, id: u32)
    requires Lawful(c) && Fits(plans, first) && InOrder(c, plans, first, log) && first <= id < first + |plans|
    requires forall k :: 0 <= k < |schedule| ==> schedule[k] < |log|
    ensures var w := WindowAt(plans, first, id - first);
      Completes(log, schedule, Delivered(c, decode, FRESH, log, schedule).1, id)
      <==> decode(w.representation).Ok? && ArrivesUnbroken(Arrived(log, schedule), id, BlocksOf(w))
  {
    hide Delivered, Completes, Lawful, PhaseAfter, ArrivesUnbroken, Tracks, InOrder, BlocksOf, Arrived;
    DeliveredTracks(c, decode, plans, first, log, schedule, id);
    ArrivalsHaveBlocks(c, plans, first, log, schedule, id);
    PhaseFinishedIff(Arrived(log, schedule), id, BlocksOf(WindowAt(plans, first, id - first)));
  }

  /** Only a window that can be sent has packets to arrive. */
  lemma ArrivalsHaveBlocks(c: Cipher, plans: seq<Plan>, first: u32, log: seq<Sent>, schedule: seq<nat>, id: u32)
    requires Fits(plans, first) && InOrder(c, plans, first, log) && first <= id < first + |plans|
    requires forall k :: 0 <= k < |schedule| ==> schedule[k] < |log|
    ensures var arrived := Arrived(log, schedule);
      forall k :: 0 <= k < |arrived| && arrived[k].id == id ==> BlocksOf(WindowAt(plans, first, id - first)) > 0
  {
    hide Carries, Pieces, Sendable, Ordered;
    var arrived := Arrived(log, schedule);
    forall k | 0 <= k < |arrived| && arrived[k].id == id
      ensures BlocksOf(WindowAt(plans, first, id - first)) > 0
    {
      CarriesFacts(c, WindowAt(plans, first, id - first), log[schedule[k]]);
    }
  }

  lemma LastBefore(arrived: seq<Sent>, id: u32, n: nat, steps: seq<nat>, a: nat, b: nat)
    requires UnbrokenAt(arrived, id, n, steps)
    requires a < b < |arrived| && arrived[a].block == 0 == arrived[b].block && id <= arrived[a].id
    ensures steps[n - 1] < b
  {
    assert steps[0] <= steps[n - 1];
    assert steps[0] <= a;
  }

  /** Of a channel that repeats: a second block zero, after one of this or a later window and
      before this window's last block, loses this window for good. */
  lemma LostForGood(arrived: seq<Sent>, id: u32, n: nat, a: nat, b: nat)
    requires a < b < |arrived| && arrived[a].block == 0 == arrived[b].block && id <= arrived[a].id
    requires forall k :: 0 <= k < b ==> !(arrived[k].id == id && arrived[k].block + 1 == n)
    ensures !ArrivesUnbroken(arrived, id, n)
  {
    if ArrivesUnbroken(arrived, id, n) {
      var steps: seq<nat> :| UnbrokenAt(arrived, id, n, steps);
      LastBefore(arrived, id, n, steps, a, b);
    }
  }

  // ----- a channel that delivers everything once, in order -----

  function OnceInOrder(n: nat): (schedule: seq<nat>)
    ensures |schedule| == n && forall k :: 0 <= k < n ==> schedule[k] == k
  {
    seq(n, k requires 0 <= k => k)
  }

  /** All n blocks of the window stand in the log from entry a on. */
  predicate SentAt(log: seq<Sent>, a: nat, id: u32, n: nat) {
    a + n <= |log| && forall k :: a <= k < a + n ==> log[k].id == id && log[k].block == k - a
  }

  ghost predicate SentWhole(log: seq<Sent>, id: u32, n: nat) {
    exists a: nat :: SentAt(log, a, id, n)
  }

  lemma SentUnbroken(log: seq<Sent>, id: u32, n: nat)
    requires Ordered(log) && n > 0 && SentWhole(log, id, n)
    ensures ArrivesUnbroken(log, id, n)
  {
    var a: nat :| SentAt(log, a, id, n);
    var steps: seq<nat> := seq(n, i requires 0 <= i => a + i);
    assert log[a].id == id && log[a].block == 0;
    assert UnbrokenAt(log, id, n, steps);
  }

  /** A plan that its configuration can send, over a transport that never fails. */
  ghost predicate Goes(plan: Plan) {
    1 <= plan.szx <= 6 && plan.representation != [] && |plan.representation| <= MAX_REPRESENTATION
    && forall k :: plan.transport(k) == None
  }

  lemma GoesWhole(c: Cipher, route: Route, w: Window, counters: Counters, plan: Plan)
    requires Lawful(c) && |route.path| <= MAX_PATH && Segments(route.path) != []
    requires Goes(plan) && plan.szx == w.szx && plan.representation == w.representation
    requires counters.next + SendWindow(c, route, w, counters, plan.transport).seals < 0x1_0000_0000_0000_0000
    ensures BlocksOf(w) > 0 && SentAt(SendWindow(c, route, w, counters, plan.transport).sent, 0, w.id, BlocksOf(w))
  {
    hide SendWindow, Segments, Chunks, BlockSize, Carries, Lawful;
    ExponentSizes(w.szx);
    WindowSendsAll(c, route, w, counters, plan.transport);
    WindowIsConsecutive(c, route, w, counters, plan.transport);
    var sent := SendWindow(c, route, w, counters, plan.transport).sent;
    forall i | 0 <= i < |sent|
      ensures sent[i].id == w.id
    {
      CarriesId(c, w, sent[i]);
    }
  }

  lemma {:induction false} RunSendsAll(c: Cipher, route: Route, plans: seq<Plan>, first: u32, counters: Counters)
    requires Lawful(c) && |route.path| <= MAX_PATH && Segments(route.path) != []
    requires Fits(plans, first) && forall k :: 0 <= k < |plans| ==> Goes(plans[k])
    requires counters.next + RunFrom(c, route, plans, first, counters).seals < 0x1_0000_0000_0000_0000
    ensures var log := RunFrom(c, route, plans, first, counters).sent;
      forall k :: 0 <= k < |plans| ==>
        BlocksOf(WindowAt(plans, first, k)) > 0
        && SentWhole(log, first + k, BlocksOf(WindowAt(plans, first, k)))
    decreases |plans|
  {
    hide Lawful, Segments, Goes, SentWhole, SendWindow, BlocksOf, InOrder;
    if plans == [] {
    } else {
      var n := |plans| - 1;
      var earlier := plans[..n];
      RunSendsAll(c, route, earlier, first, counters);
      RunIsInOrder(c, route, earlier, first, counters);
      LastGoes(c, route, plans, first, counters);
      var before := RunFrom(c, route, earlier, first, counters).sent;
      var log := RunFrom(c, route, plans, first, counters).sent;
      var sent := log[|before|..];
      assert log == before + sent;
      hide RunFrom;
      forall k | 0 <= k < n
        ensures BlocksOf(WindowAt(plans, first, k)) > 0
        ensures SentWhole(log, first + k, BlocksOf(WindowAt(plans, first, k)))
      {
        assert WindowAt(earlier, first, k) == WindowAt(plans, first, k);
        SentEarlier(before, sent, first + k, BlocksOf(WindowAt(plans, first, k)));
      }
    }
  }

  lemma LastGoes(c: Cipher, route: Route, plans: seq<Plan>, first: u32, counters: Counters)
    requires Lawful(c) && |route.path| <= MAX_PATH && Segments(route.path) != []
    requires plans != [] && Fits(plans, first) && Goes(plans[|plans| - 1])
    requires counters.next + RunFrom(c, route, plans, first, counters).seals < 0x1_0000_0000_0000_0000
    ensures var n := |plans| - 1;
      var w := WindowAt(plans, first, n);
      BlocksOf(w) > 0 && SentWhole(RunFrom(c, route, plans, first, counters).sent, w.id, BlocksOf(w))
  {
    hide Lawful, Segments, Goes, SentWhole, SendWindow, BlocksOf;
    var n := |plans| - 1;
    RunIsInOrder(c, route, plans[..n], first, counters);
    var before, w := RunFrom(c, route, plans[..n], first, counters), WindowAt(plans, first, n);
    GoesWhole(c, route, w, before.counters, plans[n]);
    SentLater(before.sent, SendWindow(c, route, w, before.counters, plans[n].transport).sent, w.id, BlocksOf(w));
  }

  lemma SentLater(before: seq<Sent>, after: seq<Sent>, id: u32, n: nat)
    requires SentAt(after, 0, id, n)
    ensures SentWhole(before + after, id, n)
  {
    assert SentAt(before + after, |before|, id, n);
  }

  lemma SentEarlier(before: seq<Sent>, after: seq<Sent>, id: u32, n: nat)
    requires SentWhole(before, id, n)
    ensures SentWhole(before + after, id, n)
  {
    var a: nat :| SentAt(before, a, id, n);
    assert SentAt(before + after, a, id, n);
  }

  lemma {:induction false} Climbing(ids: seq<nat>, first: nat, i: nat)
    requires forall i, j :: 0 <= i < j < |ids| ==> ids[i] < ids[j]
    requires i < |ids| && forall i :: 0 <= i < |ids| ==> first <= ids[i]
    ensures first + i <= ids[i]
  {
    if i == 0 {
    } else {
      Climbing(ids, first, i - 1);
    }
  }

  /** Increasing identities that leave none out are all of them, in order. */
  lemma {:induction false} NoneLeftOut(ids: seq<nat>, first: nat, count: nat, k: nat)
    requires forall i, j :: 0 <= i < j < |ids| ==> ids[i] < ids[j]
    requires forall i :: 0 <= i < |ids| ==> first <= ids[i] < first + count
    requires forall id :: first <= id < first + count ==> id in ids
    requires k <= count
    ensures k <= |ids| && (forall i :: 0 <= i < k ==> ids[i] == first + i) && (k == count ==> |ids| == count)
  {
    if k == 0 {
    } else {
      NoneLeftOut(ids, first, count, k - 1);
      assert first + (k - 1) in ids;
      var p :| 0 <= p < |ids| && ids[p] == first + (k - 1);
      Climbing(ids, first, p);
      assert ids[k - 1] == first + (k - 1);
    }
    if ids != [] { Climbing(ids, first, |ids| - 1); }
  }

  /** Liveness. When nothing fails and the channel delivers the log once, in order, every window
      completes exactly once, in order. */
  lemma AllComplete<D>(c: Cipher, decode: seq<byte> -> Result<D>, route: Route, plans: seq<Plan>, first: u32,
                       counters: Counters)
    requires Lawful(c) && |route.path| <= MAX_PATH && Segments(route.path) != []
    requires Fits(plans, first) && forall k :: 0 <= k < |plans| ==> Goes(plans[k])
    requires forall k :: 0 <= k < |plans| ==> decode(plans[k].representation).Ok?
    requires counters.next + RunFrom(c, route, plans, first, counters).seals < 0x1_0000_0000_0000_0000
    ensures var log := RunFrom(c, route, plans, first, counters).sent;
      var done := Delivered(c, decode, FRESH, log, OnceInOrder(|log|)).1;
      |done| == |plans| && forall k :: 0 <= k < |done| ==> IsOf(log, OnceInOrder(|log|), done[k], first + k)
  {
    hide Delivered, RunFrom, Lawful, Segments, Goes, IsOf, BlocksOf, CompletesWindow, InOrder, OnceInOrder;
    var log := RunFrom(c, route, plans, first, counters).sent;
    var schedule := OnceInOrder(|log|);
    var done := Delivered(c, decode, FRESH, log, schedule).1;
    RunIsInOrder(c, route, plans, first, counters);
    CompletedWindowsAreSentWindows(c, decode, route, plans, first, counters, schedule);
    assert done == Delivered(c, decode, FRESH, RunFrom(c, route, plans, first, counters).sent, schedule).1;
    forall id: u32 | first <= id < first + |plans|
      ensures Completes(log, schedule, done, id)
    {
      WindowCompletesHere(c, decode, route, plans, first, counters, id - first);
    }
    forall k, l | 0 <= k < l < |done|
      ensures IdOf(log, schedule, done[k]) < IdOf(log, schedule, done[l])
    {
      CompletedId(decode, plans, first, log, schedule, done[k]);
      CompletedId(decode, plans, first, log, schedule, done[l]);
    }
    IdsInOrder(decode, plans, first, log, schedule, done);
  }

  lemma CompletedId<D>(decode: seq<byte> -> Result<D>, plans: seq<Plan>, first: u32, log: seq<Sent>,
                       schedule: seq<nat>, done: Completion<D>)
    requires Fits(plans, first) && CompletesWindow(decode, plans, first, log, schedule, done)
    ensures done.step < |schedule| && schedule[done.step] < |log|
    ensures IdOf(log, schedule, done) == log[schedule[done.step]].id
    ensures first <= IdOf(log, schedule, done) < first + |plans|
  {
  }

  lemma WindowCompletesHere<D>(c: Cipher, decode: seq<byte> -> Result<D>, route: Route, plans: seq<Plan>, first: u32,
                               counters: Counters, k: nat)
    requires Lawful(c) && |route.path| <= MAX_PATH && Segments(route.path) != []
    requires Fits(plans, first) && k < |plans| && forall k :: 0 <= k < |plans| ==> Goes(plans[k])
    requires decode(plans[k].representation).Ok?
    requires counters.next + RunFrom(c, route, plans, first, counters).seals < 0x1_0000_0000_0000_0000
    ensures var log := RunFrom(c, route, plans, first, counters).sent;
      Completes(log, OnceInOrder(|log|), Delivered(c, decode, FRESH, log, OnceInOrder(|log|)).1, first + k)
  {
    hide Delivered, RunFrom, Lawful, Segments, Goes, BlocksOf, InOrder, OnceInOrder, Completes, SentWhole, Ordered,
      ArrivesUnbroken;
    var log := RunFrom(c, route, plans, first, counters).sent;
    RunIsInOrder(c, route, plans, first, counters);
    RunSendsAll(c, route, plans, first, counters);
    InOrderOrdered(c, plans, first, log);
    SentUnbroken(log, first + k, BlocksOf(WindowAt(plans, first, k)));
    assert Arrived(log, OnceInOrder(|log|)) == log;
    CompletesIff(c, decode, plans, first, log, OnceInOrder(|log|), first + k);
  }

  lemma IdsInOrder<D>(decode: seq<byte> -> Result<D>, plans: seq<Plan>, first: u32, log: seq<Sent>, schedule: seq<nat>,
                      done: seq<Completion<D>>)
    requires Fits(plans, first)
    requires forall k :: 0 <= k < |done| ==> CompletesWindow(decode, plans, first, log, schedule, done[k])
    requires forall k, l :: 0 <= k < l < |done| ==> IdOf(log, schedule, done[k]) < IdOf(log, schedule, done[l])
    requires forall id: u32 :: first <= id < first + |plans| ==> Completes(log, schedule, done, id)
    ensures |done| == |plans| && forall k :: 0 <= k < |done| ==> IsOf(log, schedule, done[k], first + k)
  {
    hide CompletesWindow, IdOf;
    var ids: seq<nat> := seq(|done|, k requires 0 <= k < |done| => IdOf(log, schedule, done[k]));
    forall k | 0 <= k < |done|
      ensures first <= ids[k] < first + |plans| && IsOf(log, schedule, done[k], ids[k])
    {
      CompletedId(decode, plans, first, log, schedule, done[k]);
    }
    forall id | first <= id < first + |plans|
      ensures id in ids
    {
      assert Completes(log, schedule, done, id);
      var k :| 0 <= k < |done| && IsOf(log, schedule, done[k], id);
      assert ids[k] == id;
    }
    NoneLeftOut(ids, first, |plans|, |plans|);
  }
}
