/** Safety and progress of the transfer: what a receiver completes, under any loss, duplication
    and reordering, is exactly what was sent; and whatever was left half done, a new window
    delivered in order is completed. */
module Delivery {
  import opened Bits
  import opened Results
  import opened Coap
  import opened CoapGrammar
  import opened CoapSizes
  import opened Records
  import opened Segmentation
  import opened Transfer
  import Aad

  // ----- what a packet carries -----

  /** The packet parses to block s.block of the window, with a record of the matching piece. */
  predicate Carries(c: Cipher, w: Window, s: Sent) {
    Sendable(w) && s.id == w.id && s.block < |Pieces(w)| && Parse(s.packet).Ok? &&
    var k := Parse(s.packet).value;
    k.token == BigEndian(w.id, 4) && k.number == s.block && (k.more != 0 <==> s.block + 1 < |Pieces(w)|)
    && k.payload == Record(c, s.sequence, Aad.Bytes(k), Pieces(w)[s.block])
  }

  lemma BuiltCarries(c: Cipher, route: Route, w: Window, message: u16, b: nat, size1: u32, sequence: u64)
    requires Sendable(w) && b < |Pieces(w)| <= MAX_REPRESENTATION
    requires var block := HeaderBlock(route, w, message, b, b + 1 < |Pieces(w)|, size1);
      Build(block.(payload := Record(c, sequence, Aad.Bytes(block), Pieces(w)[b])), route.path, MAX_PACKET).Ok?
    ensures var block := HeaderBlock(route, w, message, b, b + 1 < |Pieces(w)|, size1);
      var record := Record(c, sequence, Aad.Bytes(block), Pieces(w)[b]);
      Carries(c, w, Sent(w.id, b, sequence, Build(block.(payload := record), route.path, MAX_PACKET).value))
  {
    hide Record, Build, Parse, Pieces, Aad.Bytes;
    var block := HeaderBlock(route, w, message, b, b + 1 < |Pieces(w)|, size1);
    var record := Record(c, sequence, Aad.Bytes(block), Pieces(w)[b]);
    BuildParse(block.(payload := record), route.path, MAX_PACKET);
    Aad.BothEndsAgree(block, record);
  }

  /** A run of packets of one window: consecutive blocks under consecutive sequence numbers. */
  predicate Consecutive(c: Cipher, w: Window, sent: seq<Sent>, b: nat, next: nat) {
    forall i :: 0 <= i < |sent| ==>
      Carries(c, w, sent[i]) && sent[i].block == b + i && sent[i].sequence == next + i
  }

  lemma ConsecutiveCons(c: Cipher, w: Window, first: Sent, later: seq<Sent>, b: nat, next: nat)
    requires Carries(c, w, first) && first.block == b && first.sequence == next
    requires Consecutive(c, w, later, b + 1, next + 1)
    ensures Consecutive(c, w, [first] + later, b, next)
  {
    hide Carries;
  }

  /** While the sequence counter does not wrap, the sending loop hands over consecutive blocks,
      in order, however it ends. */
  lemma {:induction false} LoopIsConsecutive(c: Cipher, route: Route, w: Window, size1: u32, rest: seq<byte>, b: nat,
                                             counters: Counters, transport: nat -> Option<Error>)
    requires Sendable(w) && b <= |Pieces(w)| <= MAX_REPRESENTATION
    requires Chunks(rest, PieceSize(w)) == Pieces(w)[b..]
    requires counters.next + SendFrom(c, route, w, size1, rest, b, |Pieces(w)|, counters, transport).seals
      < 0x1_0000_0000_0000_0000
    ensures var t := SendFrom(c, route, w, size1, rest, b, |Pieces(w)|, counters, transport);
      Consecutive(c, w, t.sent, b, counters.next) && |t.sent| <= t.seals
      && t.counters.next == counters.next + t.seals
    decreases |Pieces(w)| - b
  {
    hide Carries, Record, Build, Aad.Bytes, Chunks, PieceSize, BlockSize;
    var count := |Pieces(w)|;
    if b == count {
    } else {
      ChunkStep(rest, PieceSize(w));
      var n := if |rest| < PieceSize(w) then |rest| else PieceSize(w);
      assert Pieces(w)[b..][0] == Pieces(w)[b] == rest[..n] && Pieces(w)[b..][1..] == Pieces(w)[b + 1..];
      var block := HeaderBlock(route, w, counters.message, b, b + 1 < count, size1);
      var message := NextMessage(counters.message);
      var (next, sealed) := Seal(c, counters.next, Aad.Bytes(block), rest[..n], MAX_RECORD);
      if sealed.Ok? && !(|sealed.value| > BlockSize(w.szx) || (b + 1 < count && |sealed.value| != BlockSize(w.szx))) {
        var packet := Build(block.(payload := sealed.value), route.path, MAX_PACKET);
        if packet.Ok? {
          BuiltCarries(c, route, w, counters.message, b, size1, counters.next);
          var first := Sent(w.id, b, counters.next, packet.value);
          if transport(b).None? {
            LoopIsConsecutive(c, route, w, size1, rest[n..], b + 1, Counters(message, next), transport);
            var later := SendFrom(c, route, w, size1, rest[n..], b + 1, count, Counters(message, next), transport);
            ConsecutiveCons(c, w, first, later.sent, b, counters.next);
          }
        }
      }
    }
  }

  lemma WindowIsConsecutive(c: Cipher, route: Route, w: Window, counters: Counters, transport: nat -> Option<Error>)
    requires |w.representation| <= MAX_REPRESENTATION
    requires counters.next + SendWindow(c, route, w, counters, transport).seals < 0x1_0000_0000_0000_0000
    ensures var t := SendWindow(c, route, w, counters, transport);
      Consecutive(c, w, t.sent, 0, counters.next) && |t.sent| <= t.seals
      && t.counters.next == counters.next + t.seals
  {
    hide Chunks, BlockCount, SendFrom;
    if Sendable(w) && Size1Of(w) <= 0xffff_ffff {
      ChunksPartition(w.representation, PieceSize(w));
      assert Pieces(w)[0..] == Pieces(w);
      LoopIsConsecutive(c, route, w, Size1Of(w), w.representation, 0, counters, transport);
    }
  }

  // ----- what a packet announces -----

  /** A confirmable POST to the segments of the route's path, with this message id, and the block
      size, content format and total size of the window. */
  predicate Announces(route: Route, w: Window, size1: u32, message: u16, packet: seq<byte>) {
    Parse(packet).Ok? &&
    var k := Parse(packet).value;
    k.typ == 0 && k.code == 2 && k.messageId == message && k.szx == w.szx
    && k.contentFormat == route.contentFormat && k.size1 == size1 && PathIs(route.path, packet)
  }

  /** The first options of the packet are the non-empty segments of the path, in order. */
  predicate PathIs(path: seq<byte>, packet: seq<byte>) {
    |packet| >= 4 && |packet| >= 4 + packet[0] % 16 &&
    var options := ReadOptions(packet[4 + packet[0] % 16..], 0);
    options.Some? && PathOptions(Segments(path)) <= options.value.0
  }

  lemma BuiltAnnounces(route: Route, w: Window, message: u16, b: u32, more: bool, size1: u32, record: seq<byte>)
    requires Build(HeaderBlock(route, w, message, b, more, size1).(payload := record), route.path, MAX_PACKET).Ok?
    ensures var block := HeaderBlock(route, w, message, b, more, size1).(payload := record);
      Announces(route, w, size1, message, Build(block, route.path, MAX_PACKET).value)
  {
    hide Build, Parse, Segments, ReadOptions, PathOptions, FieldOptions, BigEndian;
    var block := HeaderBlock(route, w, message, b, more, size1).(payload := record);
    BuildParse(block, route.path, MAX_PACKET);
    BuiltTokenLength(block, route.path, MAX_PACKET);
  }

  lemma BuiltTokenLength(block: Block, path: seq<byte>, capacity: nat)
    requires Build(block, path, capacity).Ok?
    ensures var p := Build(block, path, capacity).value;
      |p| >= 4 && p[0] as nat % 16 == |block.token|
  {
    hide Segments, ReadOptions, PathOptions, FieldOptions, BigEndian, LastOf, AllUsable, WellFormed, Wire;
    BuildDescribed(block, path, capacity);
    hide Build;
  }

  /** A run of packets of one window under consecutive message ids, which wrap. */
  predicate AllAnnounce(route: Route, w: Window, size1: u32, message: u16, sent: seq<Sent>) {
    forall i :: 0 <= i < |sent| ==> Announces(route, w, size1, MessageAfter(message, i), sent[i].packet)
  }

  function MessageAfter(message: u16, i: nat): u16 {
    (message + i) % 0x1_0000
  }

  lemma AnnounceCons(route: Route, w: Window, size1: u32, message: u16, first: Sent, later: seq<Sent>)
    requires Announces(route, w, size1, message, first.packet)
    requires AllAnnounce(route, w, size1, NextMessage(message), later)
    ensures AllAnnounce(route, w, size1, message, [first] + later)
  {
    hide Announces;
    var sent := [first] + later;
    forall i | 0 <= i < |sent|
      ensures Announces(route, w, size1, MessageAfter(message, i), sent[i].packet)
    {
      if i > 0 {
        MessageShift(message, i);
        assert sent[i] == later[i - 1];
      }
    }
  }

  lemma MessageShift(message: u16, i: nat)
    requires i > 0
    ensures MessageAfter(message, i) == MessageAfter(NextMessage(message), i - 1)
  {
    if message == 0xffff {
      SameRemainder(i - 1, message + i, 0x1_0000, 1);
    }
  }

  /** Each packet of the loop announces its window under the next message id. */
  lemma {:induction false} LoopAnnounces(c: Cipher, route: Route, w: Window, size1: u32, rest: seq<byte>, b: nat,
                                         count: nat, counters: Counters, transport: nat -> Option<Error>)
    requires Sendable(w) && b <= count <= MAX_REPRESENTATION
    ensures var t := SendFrom(c, route, w, size1, rest, b, count, counters, transport);
      AllAnnounce(route, w, size1, counters.message, t.sent)
    decreases count - b
  {
    hide Announces, AllAnnounce, Seal, Build, Aad.Bytes, PieceSize, BlockSize;
    NothingAnnounced(route, w, size1, counters.message);
    if b == count {
    } else {
      var n := if |rest| < PieceSize(w) then |rest| else PieceSize(w);
      var block := HeaderBlock(route, w, counters.message, b, b + 1 < count, size1);
      var (next, sealed) := Seal(c, counters.next, Aad.Bytes(block), rest[..n], MAX_RECORD);
      if sealed.Ok? && Build(block.(payload := sealed.value), route.path, MAX_PACKET).Ok? {
        var there := Counters(NextMessage(counters.message), next);
        var first := Sent(w.id, b, counters.next, Build(block.(payload := sealed.value), route.path, MAX_PACKET).value);
        var later := SendFrom(c, route, w, size1, rest[n..], b + 1, count, there, transport);
        BuiltAnnounces(route, w, counters.message, b, b + 1 < count, size1, sealed.value);
        LoopAnnounces(c, route, w, size1, rest[n..], b + 1, count, there, transport);
        AnnounceCons(route, w, size1, counters.message, first, []);
        AnnounceCons(route, w, size1, counters.message, first, later.sent);
        assert [first] + [] == [first];
      }
    }
  }

  lemma NothingAnnounced(route: Route, w: Window, size1: u32, message: u16)
    ensures AllAnnounce(route, w, size1, message, [])
    ensures AllAnnounce(route, w, size1, NextMessage(message), [])
  {
  }

  /** Every packet of a window announces it: its route, its block size, its total size, and
      consecutive message ids. */
  lemma WindowAnnounces(c: Cipher, route: Route, w: Window, counters: Counters, transport: nat -> Option<Error>)
    requires |w.representation| <= MAX_REPRESENTATION
    ensures var t := SendWindow(c, route, w, counters, transport);
      t.sent != [] ==>
        Sendable(w) && Size1Of(w) <= 0xffff_ffff && AllAnnounce(route, w, Size1Of(w), counters.message, t.sent)
  {
    hide AllAnnounce, SendFrom, Chunks, BlockCount;
    if Sendable(w) && Size1Of(w) <= 0xffff_ffff {
      ChunksPartition(w.representation, PieceSize(w));
      LoopAnnounces(c, route, w, Size1Of(w), w.representation, 0, BlockCount(|w.representation|, PieceSize(w)),
                    counters, transport);
    }
  }

  // ----- runs of the sender -----

  /** A window to come: whatever its representation, its block size, and what the transport
      answers to each of its packets (an error abandons the window; the packet that met the
      error may still have been delivered). */
  datatype Plan = Plan(representation: seq<byte>, szx: byte, transport: nat -> Option<Error>)

  predicate Fits(plans: seq<Plan>, first: u32) {
    first + |plans| <= 0x1_0000_0000 && forall k :: 0 <= k < |plans| ==> |plans[k].representation| <= MAX_REPRESENTATION
  }

  function WindowAt(plans: seq<Plan>, first: u32, k: nat): Window
    requires Fits(plans, first) && k < |plans|
  {
    Window(first + k, plans[k].representation, plans[k].szx)
  }

  /** The sender over a whole run: windows numbered from first, all packets handed over. */
  function RunFrom(c: Cipher, route: Route, plans: seq<Plan>, first: u32, counters: Counters): Trace
    requires Fits(plans, first)
    decreases |plans|
  {
    if plans == [] then Trace(Success, counters, [], 0)
    else
      var n := |plans| - 1;
      var before := RunFrom(c, route, plans[..n], first, counters);
      var last := SendWindow(c, route, WindowAt(plans, first, n), before.counters, plans[n].transport);
      Trace(last.status, last.counters, before.sent + last.sent, before.seals + last.seals)
  }

  /** A log of packets of these windows, in sending order. */
  predicate InOrder(c: Cipher, plans: seq<Plan>, first: u32, log: seq<Sent>)
    requires Fits(plans, first)
  {
    (forall i :: 0 <= i < |log| ==>
      first <= log[i].id < first + |plans| && Carries(c, WindowAt(plans, first, log[i].id - first), log[i]))
    && Ordered(log)
  }

  /** Identities never decrease, sequence numbers increase, and so do the blocks of a window. */
  predicate Ordered(log: seq<Sent>) {
    (forall i, j :: 0 <= i < j < |log| ==> log[i].sequence < log[j].sequence && log[i].id <= log[j].id)
    && (forall i, j :: 0 <= i < j < |log| && log[i].id == log[j].id ==> log[i].block < log[j].block)
  }

  lemma LogExtends(c: Cipher, plans: seq<Plan>, first: u32, log: seq<Sent>, sent: seq<Sent>, next: nat)
    requires plans != [] && Fits(plans, first) && Fits(plans[..|plans| - 1], first)
    requires InOrder(c, plans[..|plans| - 1], first, log)
    requires Consecutive(c, WindowAt(plans, first, |plans| - 1), sent, 0, next)
    requires forall i :: 0 <= i < |log| ==> log[i].sequence < next
    ensures InOrder(c, plans, first, log + sent)
  {
    hide Carries;
    var n := |plans| - 1;
    var w := WindowAt(plans, first, n);
    forall i | 0 <= i < |sent|
      ensures sent[i].id == w.id
    {
      CarriesId(c, w, sent[i]);
    }
    forall i | 0 <= i < |log|
      ensures WindowAt(plans[..n], first, log[i].id - first) == WindowAt(plans, first, log[i].id - first)
    {
    }
  }

  lemma CarriesId(c: Cipher, w: Window, s: Sent)
    requires Carries(c, w, s)
    ensures s.id == w.id
  {
  }

  /** With fewer than 2^64 seals, every run produces a log in order. */
  lemma {:induction false} RunIsInOrder(c: Cipher, route: Route, plans: seq<Plan>, first: u32, counters: Counters)
    requires Fits(plans, first)
    requires counters.next + RunFrom(c, route, plans, first, counters).seals < 0x1_0000_0000_0000_0000
    ensures var t := RunFrom(c, route, plans, first, counters);
      InOrder(c, plans, first, t.sent) && t.counters.next == counters.next + t.seals
      && forall i :: 0 <= i < |t.sent| ==> t.sent[i].sequence < t.counters.next
    decreases |plans|
  {
    hide Carries, SendWindow;
    if plans == [] {
    } else {
      var n := |plans| - 1;
      RunIsInOrder(c, route, plans[..n], first, counters);
      var before := RunFrom(c, route, plans[..n], first, counters);
      var w := WindowAt(plans, first, n);
      WindowIsConsecutive(c, route, w, before.counters, plans[n].transport);
      LogExtends(c, plans, first, before.sent, SendWindow(c, route, w, before.counters, plans[n].transport).sent,
                 before.counters.next);
    }
  }

  // ----- the receiver's invariant -----

  /** The transfer under way is the first blocks of one window, up to log entry i. */
  predicate Holding(plans: seq<Plan>, first: u32, log: seq<Sent>, r: Receiver, i: nat)
    requires Fits(plans, first)
  {
    i < |log| && first <= log[i].id < first + |plans| &&
    var w := WindowAt(plans, first, log[i].id - first);
    Sendable(w) && r.nextBlock == log[i].block + 1 <= |Pieces(w)| && r.token == BigEndian(log[i].id, 4)
    && r.representation == Flatten(Pieces(w)[..r.nextBlock])
    && r.replay.initialized && log[i].sequence <= r.replay.highest
  }

  ghost predicate Sane(plans: seq<Plan>, first: u32, log: seq<Sent>, r: Receiver)
    requires Fits(plans, first)
  {
    r.active ==>
      if r.nextBlock == 0 then r.representation == []
      else exists i: nat :: Holding(plans, first, log, r, i)
  }

  lemma TokensDiffer(a: u32, b: u32)
    requires BigEndian(a, 4) == BigEndian(b, 4)
    ensures a == b
  {
    Pow2Values();
    BigEndianInverse(a, 4);
    BigEndianInverse(b, 4);
  }

  lemma FlattenStep(pieces: seq<seq<byte>>, b: nat)
    requires b < |pieces|
    ensures Flatten(pieces[..b]) + pieces[b] == Flatten(pieces[..b + 1])
    ensures Flatten(pieces[..0]) == []
  {
    assert pieces[..b + 1][..b] == pieces[..b];
  }

  /** One packet of the window that continues what the receiver holds: what the receiver does,
      up to its replay test. */
  lemma ContinuingPacket<D>(c: Cipher, decode: seq<byte> -> Result<D>, w: Window, s: Sent, r: Receiver)
    requires Lawful(c) && Carries(c, w, s) && |w.representation| <= MAX_REPRESENTATION
    requires s.block == 0 || (r.active && r.nextBlock == s.block && r.token == BigEndian(w.id, 4)
                              && r.representation == Flatten(Pieces(w)[..s.block]))
    requires !(r.replay.initialized && s.sequence <= r.replay.highest)
    ensures var (r', o) := Accept(c, decode, r, s.packet);
      var representation := Flatten(Pieces(w)[..s.block + 1]);
      var u := Receiver(representation, s.block + 1, BigEndian(w.id, 4), true, Seen(true, s.sequence));
      if s.block + 1 < |Pieces(w)| then r' == u && o == More
      else
        representation == w.representation
        && match decode(w.representation)
           case Ok(d) => r' == u.(active := false) && o == Complete(d)
           case Err(e) => r' == u && o == Refused(e)
  {
    hide Parse, Record, Flatten, Chunks, BlockSize, Aad.Bytes;
    var k := Parse(s.packet).value;
    var pieces := Pieces(w);
    ChunksPartition(w.representation, PieceSize(w));
    FlattenStep(pieces, s.block);
    PrefixShort(pieces, s.block + 1);
    OpenSealed(c, r.replay, s.sequence, Aad.Bytes(k), pieces[s.block], MAX_RECORD);
    SequenceOfRecord(c, s.sequence, Aad.Bytes(k), pieces[s.block]);
    if s.block + 1 == |pieces| { assert pieces[..s.block + 1] == pieces; }
  }

  lemma {:induction false} PrefixShort(pieces: seq<seq<byte>>, b: nat)
    requires b <= |pieces|
    ensures |Flatten(pieces[..b])| <= |Flatten(pieces)|
    decreases |pieces| - b
  {
    if b < |pieces| {
      PrefixShort(pieces, b + 1);
      FlattenStep(pieces, b);
    } else {
      assert pieces[..b] == pieces;
    }
  }

  /** Any other packet of the log is refused, and disturbs no more than block zero may. */
  lemma OtherPacket<D>(c: Cipher, decode: seq<byte> -> Result<D>, w: Window, s: Sent, r: Receiver)
    requires Lawful(c) && Carries(c, w, s) && |w.representation| <= MAX_REPRESENTATION
    ensures var (r', o) := Accept(c, decode, r, s.packet);
      var start := s.block == 0;
      ((r.replay.initialized && s.sequence <= r.replay.highest)
       || !(start || (r.active && r.nextBlock == s.block && r.token == BigEndian(w.id, 4)))) ==>
        o.Refused? && r' == if start then Receiver([], 0, BigEndian(w.id, 4), true, r.replay) else r
  {
    hide Parse, Record, Flatten, Chunks, BlockSize, Aad.Bytes;
    var k := Parse(s.packet).value;
    ChunksPartition(w.representation, PieceSize(w));
    OpenSealed(c, r.replay, s.sequence, Aad.Bytes(k), Pieces(w)[s.block], MAX_RECORD);
  }

  /** What one delivery may do: keep the receiver sane, never move its replay state back, and
      complete only with the last packet of a window, carrying sequence numbers upwards. */
  lemma DeliveryStep<D>(c: Cipher, decode: seq<byte> -> Result<D>, plans: seq<Plan>, first: u32, log: seq<Sent>,
                        r: Receiver, d: nat)
    requires Lawful(c) && Fits(plans, first) && InOrder(c, plans, first, log) && d < |log|
    requires Sane(plans, first, log, r)
    ensures var (r', o) := Accept(c, decode, r, log[d].packet);
      Sane(plans, first, log, r')
      && (r.replay.initialized ==> r'.replay.initialized && r.replay.highest <= r'.replay.highest)
      && (o.Complete? ==>
        var w := WindowAt(plans, first, log[d].id - first);
        Sendable(w) && r'.representation == w.representation && decode(w.representation) == Ok(o.value)
        && log[d].block + 1 == |Pieces(w)|
        && (r.replay.initialized ==> r.replay.highest < log[d].sequence)
        && r'.replay == Seen(true, log[d].sequence))
  {
    hide Carries, Pieces, Flatten, BlockSize, Accept;
    var s := log[d];
    var w := WindowAt(plans, first, s.id - first);
    CarriesFacts(c, w, s);
    OtherPacket(c, decode, w, s, r);
    var continues := s.block == 0 || (r.active && r.nextBlock == s.block && r.token == BigEndian(w.id, 4));
    var (r', o) := Accept(c, decode, r, s.packet);
    if continues && !(r.replay.initialized && s.sequence <= r.replay.highest) {
      if s.block > 0 {
        var i: nat :| Holding(plans, first, log, r, i);
        TokensDiffer(log[i].id, w.id);
      }
      ContinuingPacket(c, decode, w, s, r);
      assert r'.active ==> Holding(plans, first, log, r', d);
    }
  }

  lemma CarriesFacts(c: Cipher, w: Window, s: Sent)
    requires Carries(c, w, s)
    ensures Sendable(w) && s.id == w.id && s.block < |Pieces(w)|
  {
  }

  // ----- safety over whole runs -----

  /** The receiver completed a window at delivery number step, with this representation in its
      buffer and this decoded value. */
  datatype Completion<D> = Completion(step: nat, representation: seq<byte>, value: D)

  /** Any schedule over the packets of a log: every entry may be delivered any number of
      times, in any order, or never. */
  function Delivered<D>(c: Cipher, decode: seq<byte> -> Result<D>, r: Receiver, log: seq<Sent>, schedule: seq<nat>)
    : (Receiver, seq<Completion<D>>)
    requires forall k :: 0 <= k < |schedule| ==> schedule[k] < |log|
    decreases |schedule|
  {
    if schedule == [] then (r, [])
    else
      var n := |schedule| - 1;
      var (before, done) := Delivered(c, decode, r, log, schedule[..n]);
      var (after, o) := Accept(c, decode, before, log[schedule[n]].packet);
      (after, if o.Complete? then done + [Completion(n, after.representation, o.value)] else done)
  }

  /** Every completion so far is of the window whose last packet arrived at its step, and the
      sequence numbers of those packets increase up to the receiver's replay state. */
  predicate Faithful<D(==)>(decode: seq<byte> -> Result<D>, plans: seq<Plan>, first: u32, log: seq<Sent>,
                            schedule: seq<nat>, done: seq<Completion<D>>, replay: ReplayState)
    requires Fits(plans, first)
  {
    (forall k :: 0 <= k < |done| ==> CompletesWindow(decode, plans, first, log, schedule, done[k]))
    && (forall k :: 0 <= k < |done| ==>
      replay.initialized && log[schedule[done[k].step]].sequence <= replay.highest)
    && (forall k, l :: 0 <= k < l < |done| ==>
      log[schedule[done[k].step]].sequence < log[schedule[done[l].step]].sequence)
  }

  predicate CompletesWindow<D(==)>(decode: seq<byte> -> Result<D>, plans: seq<Plan>, first: u32, log: seq<Sent>,
                               schedule: seq<nat>, done: Completion<D>)
    requires Fits(plans, first)
  {
    done.step < |schedule| && schedule[done.step] < |log| &&
    var s := log[schedule[done.step]];
    first <= s.id < first + |plans| &&
    var w := WindowAt(plans, first, s.id - first);
    Sendable(w) && s.block + 1 == |Pieces(w)| && done.representation == w.representation
    && decode(w.representation) == Ok(done.value)
  }

  lemma {:induction false} RunIsFaithful<D>(c: Cipher, decode: seq<byte> -> Result<D>, plans: seq<Plan>, first: u32,
                                            log: seq<Sent>, schedule: seq<nat>)
    requires Lawful(c) && Fits(plans, first) && InOrder(c, plans, first, log)
    requires forall k :: 0 <= k < |schedule| ==> schedule[k] < |log|
    ensures var (r, done) := Delivered(c, decode, FRESH, log, schedule);
      Sane(plans, first, log, r) && Faithful(decode, plans, first, log, schedule, done, r.replay)
    decreases |schedule|
  {
    hide Carries, Accept, Sane, InOrder, Pieces, Faithful;
    if schedule == [] {
      NothingCompleted(decode, plans, first, log);
    } else {
      var n := |schedule| - 1;
      RunIsFaithful(c, decode, plans, first, log, schedule[..n]);
      var (before, done) := Delivered(c, decode, FRESH, log, schedule[..n]);
      FaithfulStep(c, decode, plans, first, log, schedule, before, done);
    }
  }

  lemma NothingCompleted<D>(decode: seq<byte> -> Result<D>, plans: seq<Plan>, first: u32, log: seq<Sent>)
    requires Fits(plans, first)
    ensures Sane(plans, first, log, FRESH)
    ensures Faithful<D>(decode, plans, first, log, [], [], FRESH.replay)
  {
  }

  lemma FaithfulStep<D>(c: Cipher, decode: seq<byte> -> Result<D>, plans: seq<Plan>, first: u32, log: seq<Sent>,
                        schedule: seq<nat>, before: Receiver, done: seq<Completion<D>>)
    requires Lawful(c) && Fits(plans, first) && InOrder(c, plans, first, log)
    requires schedule != [] && schedule[|schedule| - 1] < |log|
    requires Sane(plans, first, log, before)
    requires Faithful(decode, plans, first, log, schedule[..|schedule| - 1], done, before.replay)
    ensures var n := |schedule| - 1;
      var (after, o) := Accept(c, decode, before, log[schedule[n]].packet);
      Sane(plans, first, log, after)
      && Faithful(decode, plans, first, log, schedule,
                  if o.Complete? then done + [Completion(n, after.representation, o.value)] else done, after.replay)
  {
    hide Carries, Accept, Sane, InOrder, Pieces, Faithful;
    var n := |schedule| - 1;
    DeliveryStep(c, decode, plans, first, log, before, schedule[n]);
    KnownId(c, plans, first, log, schedule[n]);
    var (after, o) := Accept(c, decode, before, log[schedule[n]].packet);
    if o.Complete? {
      FaithfulMore(decode, plans, first, log, schedule, done, Completion(n, after.representation, o.value),
                   before.replay);
    } else {
      FaithfulSoFar(decode, plans, first, log, schedule, done, before.replay, after.replay);
    }
  }

  lemma KnownId(c: Cipher, plans: seq<Plan>, first: u32, log: seq<Sent>, d: nat)
    requires Fits(plans, first) && InOrder(c, plans, first, log) && d < |log|
    ensures first <= log[d].id < first + |plans|
  {
  }

  lemma FaithfulSoFar<D>(decode: seq<byte> -> Result<D>, plans: seq<Plan>, first: u32, log: seq<Sent>,
                         schedule: seq<nat>, done: seq<Completion<D>>, before: ReplayState, after: ReplayState)
    requires Fits(plans, first) && schedule != []
    requires Faithful(decode, plans, first, log, schedule[..|schedule| - 1], done, before)
    requires before.initialized ==> after.initialized && before.highest <= after.highest
    ensures Faithful(decode, plans, first, log, schedule, done, after)
  {
    hide Pieces, Sendable;
    var shorter := schedule[..|schedule| - 1];
    forall k | 0 <= k < |done|
      ensures CompletesWindow(decode, plans, first, log, schedule, done[k])
      ensures done[k].step < |shorter| && shorter[done[k].step] == schedule[done[k].step]
    {
      assert CompletesWindow(decode, plans, first, log, shorter, done[k]);
    }
  }

  lemma FaithfulMore<D>(decode: seq<byte> -> Result<D>, plans: seq<Plan>, first: u32, log: seq<Sent>,
                        schedule: seq<nat>, done: seq<Completion<D>>, last: Completion<D>, before: ReplayState)
    requires Fits(plans, first) && schedule != [] && last.step == |schedule| - 1
    requires Faithful(decode, plans, first, log, schedule[..|schedule| - 1], done, before)
    requires CompletesWindow(decode, plans, first, log, schedule, last)
    requires before.initialized ==> before.highest < log[schedule[last.step]].sequence
    ensures Faithful(decode, plans, first, log, schedule, done + [last],
                     Seen(true, log[schedule[last.step]].sequence))
  {
    hide Pieces, Sendable;
    var now := Seen(true, log[schedule[last.step]].sequence);
    FaithfulSoFar(decode, plans, first, log, schedule, done, before, now);
    forall k | 0 <= k < |done|
      ensures log[schedule[done[k].step]].sequence < log[schedule[last.step]].sequence
    {
      assert CompletesWindow(decode, plans, first, log, schedule[..|schedule| - 1], done[k]);
    }
  }

  /** Safety. Whatever the windows, wherever each was abandoned, and whatever the channel lost,
      duplicated or reordered: every completion holds exactly the representation of one sent
      window and its decoding; completed windows come in strictly increasing order of their
      identities, so no window completes twice. */
  lemma CompletedWindowsAreSentWindows<D>(c: Cipher, decode: seq<byte> -> Result<D>, route: Route, plans: seq<Plan>,
                                          first: u32, counters: Counters, schedule: seq<nat>)
    requires Lawful(c) && Fits(plans, first)
    requires counters.next + RunFrom(c, route, plans, first, counters).seals < 0x1_0000_0000_0000_0000
    requires var log := RunFrom(c, route, plans, first, counters).sent;
      forall k :: 0 <= k < |schedule| ==> schedule[k] < |log|
    ensures var log := RunFrom(c, route, plans, first, counters).sent;
      var done := Delivered(c, decode, FRESH, log, schedule).1;
      (forall k :: 0 <= k < |done| ==> CompletesWindow(decode, plans, first, log, schedule, done[k]))
      && (forall k, l :: 0 <= k < l < |done| ==>
        log[schedule[done[k].step]].id < log[schedule[done[l].step]].id)
  {
    hide Carries, RunFrom, Delivered, InOrder, Pieces;
    RunIsInOrder(c, route, plans, first, counters);
    var log := RunFrom(c, route, plans, first, counters).sent;
    RunIsFaithful(c, decode, plans, first, log, schedule);
    var done := Delivered(c, decode, FRESH, log, schedule).1;
    forall k, l | 0 <= k < l < |done|
      ensures CompletesWindow(decode, plans, first, log, schedule, done[k])
      ensures CompletesWindow(decode, plans, first, log, schedule, done[l])
      ensures log[schedule[done[k].step]].id < log[schedule[done[l].step]].id
    {
      LaterIsAnotherWindow(c, decode, plans, first, log, schedule, done[k], done[l]);
    }
  }

  lemma LaterIsAnotherWindow<D>(c: Cipher, decode: seq<byte> -> Result<D>, plans: seq<Plan>, first: u32, log: seq<Sent>,
                                schedule: seq<nat>, a: Completion<D>, b: Completion<D>)
    requires Fits(plans, first) && InOrder(c, plans, first, log)
    requires CompletesWindow(decode, plans, first, log, schedule, a)
    requires CompletesWindow(decode, plans, first, log, schedule, b)
    requires log[schedule[a.step]].sequence < log[schedule[b.step]].sequence
    ensures log[schedule[a.step]].id < log[schedule[b.step]].id
  {
    hide Carries, Pieces;
  }

  // ----- progress -----

  /** All packets in order, and what the receiver answers to each. */
  function AcceptAll<D>(c: Cipher, decode: seq<byte> -> Result<D>, r: Receiver, sent: seq<Sent>)
    : (Receiver, seq<Outcome<D>>)
    decreases |sent|
  {
    if sent == [] then (r, [])
    else
      var n := |sent| - 1;
      var (before, outcomes) := AcceptAll(c, decode, r, sent[..n]);
      var (after, o) := Accept(c, decode, before, sent[n].packet);
      (after, outcomes + [o])
  }

  /** A window delivered up to some block, to a receiver in any state behind it. */
  lemma {:induction false} InOrderPrefix<D>(c: Cipher, decode: seq<byte> -> Result<D>, w: Window, r: Receiver,
                                            sent: seq<Sent>, next: u64)
    requires Lawful(c) && Sendable(w) && 0 < |sent| <= |Pieces(w)| && Consecutive(c, w, sent, 0, next)
    requires r.replay.initialized ==> r.replay.highest < next
    requires decode(w.representation).Ok?
    ensures var (r', outcomes) := AcceptAll(c, decode, r, sent);
      |outcomes| == |sent|
      && (forall i :: 0 <= i < |sent| && i + 1 < |Pieces(w)| ==> outcomes[i] == More)
      && if |sent| < |Pieces(w)| then
           r' == Receiver(Flatten(Pieces(w)[..|sent|]), |sent|, BigEndian(w.id, 4), true,
                          Seen(true, sent[|sent| - 1].sequence))
         else outcomes[|sent| - 1] == Complete(decode(w.representation).value)
              && r'.representation == w.representation && !r'.active
    decreases |sent|
  {
    hide Carries, Pieces, Flatten, Accept, BlockSize;
    var n := |sent| - 1;
    if n == 0 {
      assert sent[..0] == [];
    } else {
      InOrderPrefix(c, decode, w, r, sent[..n], next);
    }
    var (before, outcomes) := AcceptAll(c, decode, r, sent[..n]);
    CarriesFacts(c, w, sent[n]);
    ContinuingPacket(c, decode, w, sent[n], before);
  }

  /** When nothing fails, the sending loop hands over every block. */
  lemma {:induction false} LoopSendsAll(c: Cipher, route: Route, w: Window, size1: u32, rest: seq<byte>, b: nat,
                                        counters: Counters, transport: nat -> Option<Error>)
    requires Lawful(c) && Sendable(w) && b <= |Pieces(w)| <= MAX_REPRESENTATION
    requires Chunks(rest, PieceSize(w)) == Pieces(w)[b..]
    requires |route.path| <= MAX_PATH && Segments(route.path) != []
    requires forall k :: transport(k) == None
    ensures var t := SendFrom(c, route, w, size1, rest, b, |Pieces(w)|, counters, transport);
      t.status == Success && |t.sent| == |Pieces(w)| - b == t.seals
    decreases |Pieces(w)| - b
  {
    hide Build, Aad.Bytes, Chunks, Segments, BlockSize, Record;
    var count := |Pieces(w)|;
    if b == count {
    } else {
      ChunkStep(rest, PieceSize(w));
      ChunksPartition(w.representation, PieceSize(w));
      var n := if |rest| < PieceSize(w) then |rest| else PieceSize(w);
      assert Pieces(w)[b..][0] == Pieces(w)[b] == rest[..n] && Pieces(w)[b..][1..] == Pieces(w)[b + 1..];
      var block := HeaderBlock(route, w, counters.message, b, b + 1 < count, size1);
      BlockGoes(c, route, w, counters.message, b, b + 1 < count, size1, counters.next, rest[..n]);
      var next := Seal(c, counters.next, Aad.Bytes(block), rest[..n], MAX_RECORD).0;
      hide HeaderBlock, Lawful, Seal;
      LoopSendsAll(c, route, w, size1, rest[n..], b + 1, Counters(NextMessage(counters.message), next), transport);
    }
  }

  /** One piece is sealed and built into a packet. */
  lemma BlockGoes(c: Cipher, route: Route, w: Window, message: u16, b: u32, more: bool, size1: u32, sequence: u64,
                  piece: seq<byte>)
    requires Lawful(c) && Sendable(w) && |piece| <= PieceSize(w) && b < MAX_REPRESENTATION
    requires |route.path| <= MAX_PATH && Segments(route.path) != []
    ensures var block := HeaderBlock(route, w, message, b, more, size1);
      var sealed := Seal(c, sequence, Aad.Bytes(block), piece, MAX_RECORD).1;
      sealed.Ok? && |sealed.value| == |piece| + OVERHEAD
      && Build(block.(payload := sealed.value), route.path, MAX_PACKET).Ok?
  {
    hide Build, Aad.Bytes, Segments, BlockSize, Record;
    var block := HeaderBlock(route, w, message, b, more, size1);
    SequenceOfRecord(c, sequence, Aad.Bytes(block), piece);
    SmallExponent(w.szx);
    PipelineBlockFits(block.(payload := Seal(c, sequence, Aad.Bytes(block), piece, MAX_RECORD).1.value), route.path);
  }

  lemma SmallExponent(szx: byte)
    requires BlockSize(szx) > OVERHEAD
    ensures szx <= 6
  {
  }

  lemma WindowSendsAll(c: Cipher, route: Route, w: Window, counters: Counters, transport: nat -> Option<Error>)
    requires Lawful(c) && Sendable(w) && w.representation != []
    requires |route.path| <= MAX_PATH && Segments(route.path) != []
    requires forall k :: transport(k) == None
    ensures var t := SendWindow(c, route, w, counters, transport);
      t.status == Success && |t.sent| == |Pieces(w)| == t.seals > 0
  {
    hide SendFrom, Segments, Chunks, BlockCount;
    ChunksPartition(w.representation, PieceSize(w));
    ChunkStep(w.representation, PieceSize(w));
    assert Pieces(w)[0..] == Pieces(w);
    SmallSize1(w);
    LoopSendsAll(c, route, w, Size1Of(w), w.representation, 0, counters, transport);
  }

  /** Progress. Take any receiver, in whatever state its earlier transfers left it, whose
      highest sequence number is below the sender's next; a window sent without error and
      delivered in order gets OK for every block but the last, and COMPLETE, with exactly its
      representation, for the last. */
  lemma NewWindowCompletes<D>(c: Cipher, decode: seq<byte> -> Result<D>, route: Route, w: Window, counters: Counters,
                              transport: nat -> Option<Error>, r: Receiver)
    requires Lawful(c) && Sendable(w) && w.representation != []
    requires |route.path| <= MAX_PATH && Segments(route.path) != []
    requires forall k :: transport(k) == None
    requires counters.next + |Pieces(w)| < 0x1_0000_0000_0000_0000
    requires r.replay.initialized ==> r.replay.highest < counters.next
    requires decode(w.representation).Ok?
    ensures var t := SendWindow(c, route, w, counters, transport);
      var (r', outcomes) := AcceptAll(c, decode, r, t.sent);
      t.status == Success && |t.sent| == |Pieces(w)| == |outcomes| > 0
      && (forall i :: 0 <= i < |outcomes| - 1 ==> outcomes[i] == More)
      && outcomes[|outcomes| - 1] == Complete(decode(w.representation).value)
      && r'.representation == w.representation && !r'.active
  {
    hide SendWindow, AcceptAll, Segments, Chunks, BlockSize, Flatten;
    WindowSendsAll(c, route, w, counters, transport);
    WindowIsConsecutive(c, route, w, counters, transport);
    InOrderPrefix(c, decode, w, r, SendWindow(c, route, w, counters, transport).sent, counters.next);
  }

  lemma SmallSize1(w: Window)
    requires Sendable(w)
    ensures Size1Of(w) <= 26 * MAX_REPRESENTATION
  {
    ChunksPartition(w.representation, PieceSize(w));
  }

  /** What the configuration validator leaves open here: with a transport that never fails, a
      window of a validated size exponent is sent if and only if a block can hold more than the
      record overhead and the path names something. Exponent 0 and the path "/" both pass the
      validator, and then every window is refused. */
  lemma WindowSentIff(c: Cipher, route: Route, w: Window, counters: Counters, transport: nat -> Option<Error>)
    requires Lawful(c) && 0 < |w.representation| <= MAX_REPRESENTATION && w.szx <= 6 && |route.path| <= MAX_PATH
    requires forall k :: transport(k) == None
    ensures SendWindow(c, route, w, counters, transport).status == Success
      <==> w.szx >= 1 && Segments(route.path) != []
  {
    ExponentSizes(w.szx);
    if w.szx >= 1 {
      hide Segments, Chunks, BlockCount, BlockSize, Build;
      ChunksPartition(w.representation, PieceSize(w));
      ChunkStep(w.representation, PieceSize(w));
      assert Pieces(w)[0..] == Pieces(w);
      SmallSize1(w);
      if Segments(route.path) != [] {
        LoopSendsAll(c, route, w, Size1Of(w), w.representation, 0, counters, transport);
      } else {
        NamelessRefused(c, route, w, Size1Of(w), counters, transport);
      }
    }
  }

  lemma ExponentSizes(szx: byte)
    requires szx <= 6
    ensures BlockSize(szx) > OVERHEAD <==> szx >= 1
    ensures BlockSize(szx) <= MAX_RECORD
  {
    assert szx == 0 || szx == 1 || szx == 2 || szx == 3 || szx == 4 || szx == 5 || szx == 6;
    assert Pow2(4) == 16 && Pow2(5) == 32 && Pow2(6) == 64 && Pow2(7) == 128 && Pow2(8) == 256;
    assert Pow2(9) == 512 && Pow2(10) == 1024;
  }

  lemma NamelessRefused(c: Cipher, route: Route, w: Window, size1: u32, counters: Counters,
                        transport: nat -> Option<Error>)
    requires Lawful(c) && Sendable(w) && w.szx <= 6 && 0 < |Pieces(w)| <= MAX_REPRESENTATION
    requires |route.path| <= MAX_PATH && Segments(route.path) == []
    ensures SendFrom(c, route, w, size1, w.representation, 0, |Pieces(w)|, counters, transport).status.Failure?
  {
    hide Build, Aad.Bytes, Chunks, Segments, BlockSize, Record;
    var count := |Pieces(w)|;
    var n := if |w.representation| < PieceSize(w) then |w.representation| else PieceSize(w);
    var block := HeaderBlock(route, w, counters.message, 0, 1 < count, size1);
    SequenceOfRecord(c, counters.next, Aad.Bytes(block), w.representation[..n]);
    var sealed := Seal(c, counters.next, Aad.Bytes(block), w.representation[..n], MAX_RECORD).1;
    PipelineBlockFits(block.(payload := sealed.value), route.path);
  }
}
