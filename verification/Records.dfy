/** The record layer, seen from outside: a version byte, a sequence number, a sealed body;
    and a receiver that refuses every sequence number not above the highest it accepted.
    Both providers are instances of this module's functions. */
module Records {
  import opened Bits
  import opened Results

  const RECORD_VERSION: byte := 1
  const TAG_BYTES: nat := 16
  const OVERHEAD: nat := 25

  /** What a provider does to a body, given the sequence number and the associated data. */
  datatype Cipher = Cipher(seal: (u64, seq<byte>, seq<byte>) -> seq<byte>,
                           unseal: (u64, seq<byte>, seq<byte>) -> Option<seq<byte>>)

  /** Bodies open to what was sealed, and sealing adds exactly the tag. */
  ghost predicate Lawful(c: Cipher) {
    (forall s, aad, p :: |c.seal(s, aad, p)| == |p| + TAG_BYTES)
    && (forall s, aad, p :: c.unseal(s, aad, c.seal(s, aad, p)) == Some(p))
  }

  datatype ReplayState = Seen(initialized: bool, highest: u64)

  function Header(sequence: u64): (h: seq<byte>)
    ensures |h| == 9
  {
    [RECORD_VERSION] + BigEndian(sequence, 8)
  }

  function Record(c: Cipher, sequence: u64, aad: seq<byte>, p: seq<byte>): seq<byte> {
    Header(sequence) + c.seal(sequence, aad, p)
  }

  /** Sealing: the next counter, and the record or the error. */
  function Seal(c: Cipher, next: u64, aad: seq<byte>, p: seq<byte>, capacity: nat): (u64, Result<seq<byte>>) {
    if |p| > capacity || OVERHEAD > capacity - |p| then (next, Err(Capacity))
    else (NextSequence(next), Ok(Record(c, next, aad, p)))
  }

  function NextSequence(s: u64): u64 {
    if s == 0xffff_ffff_ffff_ffff then 0 else s + 1
  }

  function SequenceOf(record: seq<byte>): u64
    requires |record| >= OVERHEAD
  {
    FromBigEndianBound(record[1..9]);
    Pow2Values();
    FromBigEndian(record[1..9])
  }

  /** Opening: the replay state afterwards, and the plaintext or the error. */
  function Open(c: Cipher, replay: ReplayState, record: seq<byte>, aad: seq<byte>, capacity: nat)
    : (ReplayState, Result<seq<byte>>)
  {
    if |record| < OVERHEAD || record[0] != RECORD_VERSION then (replay, Err(Format))
    else if replay.initialized && SequenceOf(record) <= replay.highest then (replay, Err(Replay))
    else if |record| - OVERHEAD > capacity then (replay, Err(Capacity))
    else
      var body := c.unseal(SequenceOf(record), aad, record[9..]);
      if body.None? then (replay, Err(Integrity))
      else (Seen(true, SequenceOf(record)), Ok(body.value))
  }

  // ----- what every provider promises -----

  lemma SequenceOfRecord(c: Cipher, sequence: u64, aad: seq<byte>, p: seq<byte>)
    requires Lawful(c)
    ensures var r := Record(c, sequence, aad, p);
      |r| == |p| + OVERHEAD && r[0] == RECORD_VERSION && SequenceOf(r) == sequence
      && r[9..] == c.seal(sequence, aad, p)
  {
    var r := Record(c, sequence, aad, p);
    assert r[1..9] == BigEndian(sequence, 8);
    Pow2Values();
    BigEndianInverse(sequence, 8);
  }

  /** A sealed record opens, with the same associated data, to its plaintext at every receiver
      that has not yet gone as far; afterwards that receiver stands at its sequence number. */
  lemma OpenSealed(c: Cipher, replay: ReplayState, sequence: u64, aad: seq<byte>, p: seq<byte>, capacity: nat)
    requires Lawful(c) && |p| <= capacity
    ensures Open(c, replay, Record(c, sequence, aad, p), aad, capacity)
         == if replay.initialized && sequence <= replay.highest then (replay, Err(Replay))
            else (Seen(true, sequence), Ok(p))
  {
    SequenceOfRecord(c, sequence, aad, p);
  }

  lemma FailedOpenChangesNothing(c: Cipher, replay: ReplayState, record: seq<byte>, aad: seq<byte>, capacity: nat)
    ensures Open(c, replay, record, aad, capacity).1.Err? ==> Open(c, replay, record, aad, capacity).0 == replay
  {
  }

  datatype Arrival = Arrival(record: seq<byte>, aad: seq<byte>)

  /** The arrivals a receiver accepts, in order, whatever arrives. */
  function AcceptedBy(c: Cipher, replay: ReplayState, arrivals: seq<Arrival>, capacity: nat)
    : (ReplayState, seq<Arrival>)
    decreases |arrivals|
  {
    if arrivals == [] then (replay, [])
    else
      var (before, accepted) := AcceptedBy(c, replay, arrivals[..|arrivals| - 1], capacity);
      var last := arrivals[|arrivals| - 1];
      var (after, r) := Open(c, before, last.record, last.aad, capacity);
      (after, if r.Ok? then accepted + [last] else accepted)
  }

  /** Sequence numbers strictly increase through the accepted arrivals, from above the state
      the receiver started in up to the state it is in now. */
  predicate Climbs(from: ReplayState, accepted: seq<Arrival>, to: ReplayState) {
    (forall i :: 0 <= i < |accepted| ==> |accepted[i].record| >= OVERHEAD)
    && (forall i, j :: 0 <= i < j < |accepted| ==>
      SequenceOf(accepted[i].record) < SequenceOf(accepted[j].record))
    && (forall i :: 0 <= i < |accepted| ==>
      (from.initialized ==> from.highest < SequenceOf(accepted[i].record))
      && to.initialized && SequenceOf(accepted[i].record) <= to.highest)
    && (from.initialized ==> to.initialized && from.highest <= to.highest)
  }

  lemma ClimbsOn(from: ReplayState, accepted: seq<Arrival>, to: ReplayState, a: Arrival)
    requires Climbs(from, accepted, to) && |a.record| >= OVERHEAD
    requires to.initialized ==> to.highest < SequenceOf(a.record)
    ensures Climbs(from, accepted + [a], Seen(true, SequenceOf(a.record)))
  {
    hide SequenceOf;
  }

  /** Accepted sequence numbers strictly increase over any run, even one in which every byte
      that arrives is chosen by someone else. */
  lemma {:induction false} AcceptedIncrease(c: Cipher, replay: ReplayState, arrivals: seq<Arrival>, capacity: nat)
    ensures var (after, accepted) := AcceptedBy(c, replay, arrivals, capacity);
      Climbs(replay, accepted, after)
    decreases |arrivals|
  {
    hide SequenceOf, Climbs;
    if arrivals == [] {
      NothingClimbs(replay);
    } else {
      var last := arrivals[|arrivals| - 1];
      AcceptedIncrease(c, replay, arrivals[..|arrivals| - 1], capacity);
      var (before, accepted) := AcceptedBy(c, replay, arrivals[..|arrivals| - 1], capacity);
      if Open(c, before, last.record, last.aad, capacity).1.Ok? {
        ClimbsOn(replay, accepted, before, last);
      }
    }
  }

  lemma NothingClimbs(replay: ReplayState)
    ensures Climbs(replay, [], replay)
  {
  }

  /** So no record is accepted twice. */
  lemma NoRecordAcceptedTwice(c: Cipher, replay: ReplayState, arrivals: seq<Arrival>, capacity: nat, i: nat, j: nat)
    requires i < j < |AcceptedBy(c, replay, arrivals, capacity).1|
    ensures var accepted := AcceptedBy(c, replay, arrivals, capacity).1;
      accepted[i].record != accepted[j].record
  {
    AcceptedIncrease(c, replay, arrivals, capacity);
  }
}
