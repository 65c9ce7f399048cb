/** The two record providers: the deterministic test provider (src/security_test.c), with its
    stream and tag as written, and the AES-GCM provider (src/security_oqs.c), with its
    sequence, nonce and replay logic as written and AES-GCM itself a parameter. */
module Providers {
  import opened Bits
  import opened Results
  import opened Buffers
  import opened Records

  const WORD: nat := 0x1_0000_0000_0000_0000

  // ----- the test provider's primitives -----

  function Xor64(a: u64, b: u64): u64 {
    Pow2Values();
    XorBound(a, b, 64);
    Xor(a, b)
  }

  function ShiftRight(v: u64, n: nat): u64 {
    QuotientNoLarger(v, Pow2(n));
    v / Pow2(n)
  }

  function Mix64(value: u64): u64 {
    var a := Xor64(value, ShiftRight(value, 30)) * 0xbf58476d1ce4e5b9 % WORD;
    var b := Xor64(a, ShiftRight(a, 27)) * 0x94d049bb133111eb % WORD;
    Xor64(b, ShiftRight(b, 31))
  }

  function StreamByte(key: u64, sequence: u64, index: nat): byte {
    var block := Mix64(Xor64(Xor64(key, sequence), index / 8 * 0x9e3779b97f4a7c15 % WORD));
    ShiftRight(block, 8 * (index % 8)) % 256
  }

  function Xor32(a: u32, b: u32): u32 {
    Pow2Values();
    XorBound(a, b, 32);
    Xor(a, b)
  }

  function Fnv(hash: u32, data: seq<byte>): u32
    decreases |data|
  {
    if data == [] then hash else Fnv(Xor32(hash, data[0]) * 16777619 % 0x1_0000_0000, data[1..])
  }

  function LaneSeed(key: u64, lane: nat): u32 {
    Xor32(Xor32(2166136261, ShiftRight(key, lane % 2 * 32) % 0x1_0000_0000), lane * 0x9e3779b9 % 0x1_0000_0000)
  }

  function LaneTag(key: u64, lane: nat, header: seq<byte>, aad: seq<byte>, body: seq<byte>): (t: seq<byte>)
    ensures |t| == 4
  {
    BigEndian(Fnv(Fnv(Fnv(LaneSeed(key, lane), header), aad), body), 4)
  }

  function Tag(key: u64, header: seq<byte>, aad: seq<byte>, body: seq<byte>, lanes: nat): (t: seq<byte>)
    ensures |t| == 4 * lanes
  {
    if lanes == 0 then []
    else Tag(key, header, aad, body, lanes - 1) + LaneTag(key, lanes - 1, header, aad, body)
  }

  function Streamed(key: u64, sequence: u64, data: seq<byte>): (s: seq<byte>)
    ensures |s| == |data|
  {
    seq(|data|, i requires 0 <= i < |data| => XorByte(data[i], StreamByte(key, sequence, i)))
  }

  lemma StreamedTwice(key: u64, sequence: u64, data: seq<byte>)
    ensures Streamed(key, sequence, Streamed(key, sequence, data)) == data
  {
    hide StreamByte;
    forall i | 0 <= i < |data|
      ensures XorByte(XorByte(data[i], StreamByte(key, sequence, i)), StreamByte(key, sequence, i)) == data[i]
    {
      XorCancels(data[i], StreamByte(key, sequence, i));
    }
  }

  function TestSealed(key: u64, sequence: u64, aad: seq<byte>, p: seq<byte>): seq<byte> {
    var body := Streamed(key, sequence, p);
    body + Tag(key, Header(sequence), aad, body, 4)
  }

  function TestUnsealed(key: u64, sequence: u64, aad: seq<byte>, sealed: seq<byte>): Option<seq<byte>> {
    if |sealed| < TAG_BYTES then None
    else
      var n := |sealed| - TAG_BYTES;
      if Tag(key, Header(sequence), aad, sealed[..n], 4) != sealed[n..] then None
      else Some(Streamed(key, sequence, sealed[..n]))
  }

  function TestCipher(key: u64): Cipher {
    Cipher((s, aad, p) => TestSealed(key, s, aad, p), (s, aad, b) => TestUnsealed(key, s, aad, b))
  }

  /** The test provider as written is a lawful cipher: the tag it recomputes is the one it
      wrote, and its stream undoes itself. */
  lemma TestCipherLawful(key: u64)
    ensures Lawful(TestCipher(key))
  {
    hide Streamed, Tag, Header;
    var c := TestCipher(key);
    forall s: u64, aad: seq<byte>, p: seq<byte>
      ensures |c.seal(s, aad, p)| == |p| + TAG_BYTES && c.unseal(s, aad, c.seal(s, aad, p)) == Some(p)
    {
      TestRoundTrip(key, s, aad, p);
    }
  }

  lemma TestRoundTrip(key: u64, sequence: u64, aad: seq<byte>, p: seq<byte>)
    ensures TestUnsealed(key, sequence, aad, TestSealed(key, sequence, aad, p)) == Some(p)
  {
    hide Streamed, Tag, Header;
    var body := Streamed(key, sequence, p);
    var sealed := TestSealed(key, sequence, aad, p);
    assert sealed[..|sealed| - TAG_BYTES] == body;
    assert sealed[|sealed| - TAG_BYTES..] == Tag(key, Header(sequence), aad, body, 4);
    StreamedTwice(key, sequence, p);
  }

  method MakeTag(key: u64, header: seq<byte>, body: seq<byte>, aad: seq<byte>) returns (tag: seq<byte>)
    ensures tag == Tag(key, header, aad, body, 4)
  {
    hide Fnv, LaneSeed;
    tag := [];
    for lane := 0 to 4
      invariant tag == Tag(key, header, aad, body, lane)
    {
      var hash := LaneSeed(key, lane);
      hash := Fnv1a(hash, header);
      hash := Fnv1a(hash, aad);
      hash := Fnv1a(hash, body);
      tag := tag + BigEndian(hash, 4);
    }
  }

  method Fnv1a(start: u32, data: seq<byte>) returns (hash: u32)
    ensures hash == Fnv(start, data)
  {
    hide Xor32;
    hash := start;
    for i := 0 to |data|
      invariant Fnv(hash, data[i..]) == Fnv(start, data)
    {
      assert data[i..][1..] == data[i + 1..];
      hash := Xor32(hash, data[i]) * 16777619 % 0x1_0000_0000;
    }
  }

  // ----- the test provider -----

  class TestProvider {
    var txKey: u64
    var rxKey: u64
    var txSequence: u64
    var rxHighest: u64
    var rxInitialized: bool

    constructor (txKey: u64, rxKey: u64)
      ensures this.txKey == txKey && this.rxKey == rxKey && txSequence == 0 && State() == Seen(false, 0)
    {
      this.txKey, this.rxKey, txSequence, rxHighest, rxInitialized := txKey, rxKey, 0, 0, false;
    }

    function State(): ReplayState
      reads this
    {
      Seen(rxInitialized, rxHighest)
    }

    /** Writes the record into the caller's buffer and returns its length. */
    method SealInto(plaintext: seq<byte>, aad: seq<byte>, record: array<byte>) returns (r: Result<nat>)
      modifies this`txSequence, record
      ensures txSequence == Seal(TestCipher(txKey), old(txSequence), aad, plaintext, record.Length).0
      ensures match Seal(TestCipher(txKey), old(txSequence), aad, plaintext, record.Length).1
        case Ok(bytes) => r == Ok(|bytes|) && |bytes| <= record.Length && record[..|bytes|] == bytes
        case Err(e) => r == Err(e) && record[..] == old(record[..])
    {
      hide Tag, StreamByte, XorByte, BigEndian;
      var n := |plaintext|;
      if n > record.Length || OVERHEAD > record.Length - n {
        return Err(Capacity);
      }
      var sequence := txSequence;
      txSequence := NextSequence(txSequence);
      Put(record, 0, [RECORD_VERSION] + BigEndian(sequence, 8));
      for i := 0 to n
        invariant txSequence == NextSequence(sequence) && record[..9] == Header(sequence)
        invariant forall t :: 0 <= t < i ==> record[9 + t] == XorByte(plaintext[t], StreamByte(txKey, sequence, t))
      {
        record[9 + i] := XorByte(plaintext[i], StreamByte(txKey, sequence, i));
      }
      ghost var body := Streamed(txKey, sequence, plaintext);
      assert record[9..9 + n] == body;
      var tag := MakeTag(txKey, record[..9], record[9..9 + n], aad);
      Put(record, 9 + n, tag);
      assert record[..OVERHEAD + n] == Header(sequence) + (body + tag)
          == Record(TestCipher(txKey), sequence, aad, plaintext);
      return Ok(n + OVERHEAD);
    }

    method OpenRecord(record: seq<byte>, aad: seq<byte>, plaintext: array<byte>) returns (r: Result<nat>)
      modifies this`rxHighest, this`rxInitialized, plaintext
      ensures State() == Open(TestCipher(rxKey), old(State()), record, aad, plaintext.Length).0
      ensures match Open(TestCipher(rxKey), old(State()), record, aad, plaintext.Length).1
        case Ok(p) => r == Ok(|p|) && |p| <= plaintext.Length && plaintext[..|p|] == p
        case Err(e) => r == Err(e)
    {
      hide Tag, StreamByte, XorByte, BigEndian;
      if |record| < OVERHEAD || record[0] != RECORD_VERSION { return Err(Format); }
      var sequence := SequenceOf(record);
      if rxInitialized && sequence <= rxHighest { return Err(Replay); }
      var n := |record| - OVERHEAD;
      if n > plaintext.Length { return Err(Capacity); }
      HeaderRead(record);
      var expected := MakeTag(rxKey, record[..9], record[9..9 + n], aad);
      ghost var sealed := record[9..];
      assert sealed[..n] == record[9..9 + n] && sealed[n..] == record[9 + n..];
      if expected != record[9 + n..] { return Err(Integrity); }
      for i := 0 to n
        invariant forall t :: 0 <= t < i ==> plaintext[t] == XorByte(record[9 + t], StreamByte(rxKey, sequence, t))
      {
        plaintext[i] := XorByte(record[9 + i], StreamByte(rxKey, sequence, i));
      }
      assert plaintext[..n] == Streamed(rxKey, sequence, sealed[..n]);
      rxHighest := sequence;
      rxInitialized := true;
      return Ok(n);
    }
  }

  lemma HeaderRead(record: seq<byte>)
    requires |record| >= OVERHEAD && record[0] == RECORD_VERSION
    ensures record[..9] == Header(SequenceOf(record))
  {
    BigEndianOfValue(record[1..9]);
    assert record[..9] == [record[0]] + record[1..9];
  }

  function ClientToServer(seed: u64): u64 {
    Mix64(Xor64(seed, 0x434c49454e542d54))
  }

  function ServerToClient(seed: u64): u64 {
    Mix64(Xor64(seed, 0x5345525645522d54))
  }

  /** Client and server of one seed: each one's sending key is the other's receiving key. */
  method TestPair(seed: u64) returns (client: TestProvider, server: TestProvider)
    ensures fresh(client) && fresh(server) && client != server
    ensures client.txKey == server.rxKey == ClientToServer(seed) && server.txKey == client.rxKey == ServerToClient(seed)
    ensures client.txSequence == 0 == server.txSequence && client.State() == server.State() == Seen(false, 0)
  {
    hide ClientToServer, ServerToClient;
    client := new TestProvider(ClientToServer(seed), ServerToClient(seed));
    server := new TestProvider(ServerToClient(seed), ClientToServer(seed));
  }

  // ----- the AES-GCM provider -----

  /** AES-256-GCM, by key, nonce, associated data and text. */
  datatype Gcm = Gcm(encrypt: (seq<byte>, seq<byte>, seq<byte>, seq<byte>) -> seq<byte>,
                     decrypt: (seq<byte>, seq<byte>, seq<byte>, seq<byte>) -> Option<seq<byte>>)

  ghost predicate GcmLaw(g: Gcm) {
    (forall k, n, a, p :: |g.encrypt(k, n, a, p)| == |p| + TAG_BYTES)
    && (forall k, n, a, p :: g.decrypt(k, n, a, g.encrypt(k, n, a, p)) == Some(p))
  }

  type NonceBase = b: seq<byte> | |b| == 12 witness seq(12, _ => 0)

  function XorSequence(base: seq<byte>, s: seq<byte>): (r: seq<byte>)
    requires |base| == |s|
    ensures |r| == |s|
  {
    seq(|s|, i requires 0 <= i < |s| => XorByte(base[i], s[i]))
  }

  function Nonce(base: NonceBase, sequence: u64): (n: seq<byte>)
    ensures |n| == 12
  {
    base[..4] + XorSequence(base[4..], BigEndian(sequence, 8))
  }

  /** No two sequence numbers below 2^64 share a nonce. */
  lemma NoncesDistinct(base: NonceBase, s: u64, t: u64)
    requires s != t
    ensures Nonce(base, s) != Nonce(base, t)
  {
    hide XorByte, BigEndian;
    var a, b := BigEndian(s, 8), BigEndian(t, 8);
    if Nonce(base, s) == Nonce(base, t) {
      assert XorSequence(base[4..], a) == Nonce(base, s)[4..] == Nonce(base, t)[4..] == XorSequence(base[4..], b);
      forall i | 0 <= i < 8
        ensures a[i] == b[i]
      {
        assert XorByte(base[4..][i], a[i]) == XorSequence(base[4..], a)[i] == XorByte(base[4..][i], b[i]);
        XorByteInjective(base[4..][i], a[i], b[i]);
      }
      assert a == b;
      Pow2Values();
      BigEndianInverse(s, 8);
      BigEndianInverse(t, 8);
      assert false;
    }
  }

  lemma XorByteInjective(base: byte, a: byte, b: byte)
    requires XorByte(base, a) == XorByte(base, b)
    ensures a == b
  {
    XorCommutes(base, a);
    XorCommutes(base, b);
    XorInjective(a, b, base);
  }

  function GcmCipher(g: Gcm, key: seq<byte>, base: NonceBase): Cipher {
    Cipher((s, aad, p) => g.encrypt(key, Nonce(base, s), Header(s) + aad, p),
           (s, aad, b) => g.decrypt(key, Nonce(base, s), Header(s) + aad, b))
  }

  lemma GcmCipherLawful(g: Gcm, key: seq<byte>, base: NonceBase)
    requires GcmLaw(g)
    ensures Lawful(GcmCipher(g, key, base))
  {
    hide Nonce, Header;
    var c := GcmCipher(g, key, base);
    forall s: u64, aad: seq<byte>, p: seq<byte>
      ensures |c.seal(s, aad, p)| == |p| + TAG_BYTES && c.unseal(s, aad, c.seal(s, aad, p)) == Some(p)
    {
      var nonce, bound := Nonce(base, s), Header(s) + aad;
      assert g.decrypt(key, nonce, bound, g.encrypt(key, nonce, bound, p)) == Some(p);
    }
  }

  /** The production record is bound to its header and its associated data: what the cipher
      refuses under other data, the provider refuses under another sequence number or other
      associated data. */
  lemma GcmBindsRecord(g: Gcm, key: seq<byte>, base: NonceBase, s: u64, aad: seq<byte>, p: seq<byte>, s': u64,
                       aad': seq<byte>, replay: ReplayState, capacity: nat)
    requires GcmLaw(g) && |p| <= capacity && (s' != s || aad' != aad)
    requires forall nonce, data :: data != Header(s) + aad ==>
      g.decrypt(key, nonce, data, g.encrypt(key, Nonce(base, s), Header(s) + aad, p)) == None
    ensures var sealed := g.encrypt(key, Nonce(base, s), Header(s) + aad, p);
      Open(GcmCipher(g, key, base), replay, Header(s') + sealed, aad', capacity)
      == (replay, Err(if replay.initialized && s' <= replay.highest then Replay else Integrity))
  {
    hide Nonce, Header;
    var sealed := g.encrypt(key, Nonce(base, s), Header(s) + aad, p);
    var record := Header(s') + sealed;
    HeaderReadBack(s', sealed);
    if Header(s') + aad' == Header(s) + aad {
      assert (Header(s') + aad')[..9] == Header(s') && (Header(s) + aad)[..9] == Header(s);
      assert (Header(s') + aad')[9..] == aad' && (Header(s) + aad)[9..] == aad;
      HeaderReadBack(s, sealed);
    }
    assert g.decrypt(key, Nonce(base, s'), Header(s') + aad', sealed) == None;
  }

  lemma HeaderReadBack(s: u64, sealed: seq<byte>)
    requires |sealed| >= TAG_BYTES
    ensures var record := Header(s) + sealed;
      |record| >= OVERHEAD && record[0] == RECORD_VERSION && SequenceOf(record) == s && record[9..] == sealed
  {
    var record := Header(s) + sealed;
    assert record[1..9] == BigEndian(s, 8);
    Pow2Values();
    BigEndianInverse(s, 8);
  }

  method MakeNonce(base: NonceBase, sequence: u64) returns (nonce: seq<byte>)
    ensures nonce == Nonce(base, sequence)
  {
    hide XorByte, BigEndian;
    var buffer := new byte[12];
    forall t | 0 <= t < 12 { buffer[t] := base[t]; }
    var counter := BigEndian(sequence, 8);
    for i := 0 to 8
      invariant forall t :: 0 <= t < 12 - i ==> buffer[t] == base[t]
      invariant forall t :: 12 - i <= t < 12 ==> buffer[t] == XorByte(base[t], counter[t - 4])
    {
      buffer[11 - i] := XorByte(buffer[11 - i], counter[7 - i]);
    }
    nonce := buffer[..];
  }

  class OqsProvider {
    const gcm: Gcm
    var txKey: seq<byte>
    var rxKey: seq<byte>
    var txNonceBase: NonceBase
    var rxNonceBase: NonceBase
    var txSequence: u64
    var rxHighest: u64
    var rxInitialized: bool
    /** Every nonce handed to the cipher so far, with its counter. */
    ghost var used: seq<u64>

    constructor (gcm: Gcm, txKey: seq<byte>, rxKey: seq<byte>, txNonceBase: NonceBase, rxNonceBase: NonceBase)
      ensures this.gcm == gcm && this.txKey == txKey && this.rxKey == rxKey
      ensures this.txNonceBase == txNonceBase && this.rxNonceBase == rxNonceBase
      ensures txSequence == 0 && !rxInitialized && used == [] && Consecutive()
    {
      this.gcm := gcm;
      this.txKey, this.rxKey, this.txNonceBase, this.rxNonceBase := txKey, rxKey, txNonceBase, rxNonceBase;
      txSequence, rxHighest, rxInitialized, used := 0, 0, false, [];
    }

    function State(): ReplayState
      reads this
    {
      Seen(rxInitialized, rxHighest)
    }

    /** While fewer than 2^64 records have been sealed, the counters used are 0, 1, 2, ... */
    ghost predicate Consecutive()
      reads this
    {
      |used| <= 0xffff_ffff_ffff_ffff && used == Counters(|used|) && txSequence == |used|
    }

    /** Sealing consumes the sequence number even when the cipher is not available. */
    method SealRecord(plaintext: seq<byte>, aad: seq<byte>, capacity: nat, available: bool)
      returns (r: Result<seq<byte>>)
      requires GcmLaw(gcm)
      modifies this`txSequence, this`used
      ensures var spec := Seal(GcmCipher(gcm, txKey, txNonceBase), old(txSequence), aad, plaintext, capacity);
        txSequence == spec.0 && r == if spec.1.Ok? && !available then Err(Crypto) else spec.1
      ensures used == old(used) + if r == Err(Capacity) then [] else [old(txSequence)]
      ensures old(Consecutive()) && |old(used)| < 0xffff_ffff_ffff_ffff ==> Consecutive()
    {
      if |plaintext| > capacity || OVERHEAD > capacity - |plaintext| { return Err(Capacity); }
      var sequence := txSequence;
      txSequence := NextSequence(txSequence);
      var nonce := MakeNonce(txNonceBase, sequence);
      used := used + [sequence];
      if !available { return Err(Crypto); }
      return Ok(Header(sequence) + gcm.encrypt(txKey, nonce, Header(sequence) + aad, plaintext));
    }

    method OpenRecord(record: seq<byte>, aad: seq<byte>, capacity: nat, available: bool) returns (r: Result<seq<byte>>)
      modifies this`rxHighest, this`rxInitialized
      ensures var spec := Open(GcmCipher(gcm, rxKey, rxNonceBase), old(State()), record, aad, capacity);
        if spec.1.Ok? && !available then State() == old(State()) && r == Err(Integrity)
        else State() == spec.0 && r == spec.1
    {
      hide Nonce;
      if |record| < OVERHEAD || record[0] != RECORD_VERSION { return Err(Format); }
      var sequence := SequenceOf(record);
      if rxInitialized && sequence <= rxHighest { return Err(Replay); }
      if |record| - OVERHEAD > capacity { return Err(Capacity); }
      var nonce := MakeNonce(rxNonceBase, sequence);
      HeaderRead(record);
      if !available { return Err(Integrity); }
      var plaintext := gcm.decrypt(rxKey, nonce, record[..9] + aad, record[9..]);
      if plaintext.None? { return Err(Integrity); }
      rxHighest := sequence;
      rxInitialized := true;
      return Ok(plaintext.value);
    }
  }

  /** The counters used by a session that starts at zero and seals n times. */
  function Counters(n: nat): (s: seq<u64>)
    requires n <= 0xffff_ffff_ffff_ffff
    ensures |s| == n
  {
    seq(n, i requires 0 <= i < n => i)
  }

  /** So the nonces of all its seals are pairwise distinct. */
  lemma SessionNoncesDistinct(provider: OqsProvider, i: nat, j: nat)
    requires provider.Consecutive() && i < j < |provider.used|
    ensures Nonce(provider.txNonceBase, provider.used[i]) != Nonce(provider.txNonceBase, provider.used[j])
  {
    NoncesDistinct(provider.txNonceBase, i, j);
  }
}
