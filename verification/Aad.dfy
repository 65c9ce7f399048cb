/** The associated data of a block (src/aad.c): the sixteen bytes both ends must agree on. */
module Aad {
  import opened Bits
  import opened Coap
  import opened CoapGrammar

  /** The first four token bytes, padded with zeros. */
  function TokenPart(token: seq<byte>): (t: seq<byte>)
    ensures |t| == 4
  {
    if |token| >= 4 then token[..4] else token + seq(4 - |token|, _ => 0)
  }

  function Front(block: Block): (f: seq<byte>)
    ensures |f| == 6
  {
    [0xa1, block.typ, block.code, block.szx, block.more, |block.token| % 256]
  }

  function Bytes(block: Block): (a: seq<byte>)
    ensures |a| == 16
  {
    Front(block) + BigEndian(block.number, 4) + TokenPart(block.token) + BigEndian(block.contentFormat % 0x1_0000, 2)
  }

  /** The cleared buffer with its first six bytes. */
  method FillFront(block: Block, output: array<byte>)
    requires output.Length == 16
    modifies output
    ensures output[..6] == Front(block) && forall t :: 6 <= t < 16 ==> output[t] == 0
  {
    forall t | 0 <= t < 16 { output[t] := 0; }
    output[0] := 0xa1;
    output[1] := block.typ;
    output[2] := block.code;
    output[3] := block.szx;
    output[4] := block.more;
    output[5] := |block.token| % 256;
  }

  method BuildAad(block: Block, output: array<byte>)
    requires output.Length == 16
    modifies output
    ensures output[..] == Bytes(block)
  {
    hide BigEndian, Front;
    FillFront(block, output);
    ghost var front := output[..6];
    var number := BigEndian(block.number, 4);
    forall t | 0 <= t < 4 { output[6 + t] := number[t]; }
    var copy := if |block.token| < 4 then |block.token| else 4;
    forall t | 0 <= t < copy { output[10 + t] := block.token[t]; }
    var format := BigEndian(block.contentFormat % 0x1_0000, 2);
    output[14] := format[0];
    output[15] := format[1];
    assert output[..6] == front && output[6..10] == number && output[10..14] == TokenPart(block.token)
        && output[14..] == format;
    assert output[..] == output[..6] + output[6..10] + output[10..14] + output[14..];
  }

  /** Where each field stands, numbers in network order. */
  lemma AadLayout(block: Block)
    requires |block.token| <= 8
    ensures var a := Bytes(block);
      a[0] == 0xa1 && a[1] == block.typ && a[2] == block.code && a[3] == block.szx && a[4] == block.more
      && a[5] as nat == |block.token| && FromBigEndian(a[6..10]) == block.number
      && (forall i :: 0 <= i < 4 ==> a[10 + i] == if i < |block.token| then block.token[i] else 0)
      && FromBigEndian(a[14..16]) == block.contentFormat % 0x1_0000
  {
    var front, number, format := Front(block), BigEndian(block.number, 4), BigEndian(block.contentFormat % 0x1_0000, 2);
    FourSlices(front, number, TokenPart(block.token), format);
    TokenBytes(block.token);
    FrontBytes(block);
    hide BigEndian, TokenPart, Front, FromBigEndian;
    Pow2Values();
    BigEndianInverse(block.number, 4);
    BigEndianInverse(block.contentFormat % 0x1_0000, 2);
    var a := Bytes(block);
    assert forall i :: 0 <= i < 6 ==> a[i] == front[i];
    assert forall i :: 0 <= i < 4 ==> a[10 + i] == a[10..14][i];
  }

  lemma FrontBytes(block: Block)
    requires |block.token| <= 8
    ensures var f := Front(block);
      f[0] == 0xa1 && f[1] == block.typ && f[2] == block.code && f[3] == block.szx && f[4] == block.more
      && f[5] as nat == |block.token|
  {
  }

  lemma TokenBytes(token: seq<byte>)
    ensures forall i :: 0 <= i < 4 ==> TokenPart(token)[i] == if i < |token| then token[i] else 0
  {
  }

  lemma FourSlices(a: seq<byte>, b: seq<byte>, c: seq<byte>, d: seq<byte>)
    ensures var l, m, n := a + b + c + d, |a| + |b|, |a| + |b| + |c|;
      l[..|a|] == a && l[|a|..m] == b && l[m..n] == c && l[n..n + |d|] == d
  {
  }

  /** The receiver rebuilds from the parsed block exactly what the sender sealed with. */
  lemma BothEndsAgree(block: Block, record: seq<byte>)
    requires block.typ < 4 && block.more <= 1
    ensures Bytes(Received(block.(payload := record))) == Bytes(block)
  {
  }

  /** What the bytes bind, and no more: type, code, size exponent, flag and number; the token
      through its length and first four bytes; the content format through its low 16 bits. */
  lemma AgreementMeans(a: Block, b: Block)
    requires |a.token| <= 8 && |b.token| <= 8
    ensures Bytes(a) == Bytes(b) <==>
      a.typ == b.typ && a.code == b.code && a.szx == b.szx && a.more == b.more && a.number == b.number
      && |a.token| == |b.token| && TokenPart(a.token) == TokenPart(b.token)
      && a.contentFormat % 0x1_0000 == b.contentFormat % 0x1_0000
  {
    hide BigEndian, TokenPart, Front;
    FourParts(Front(a), BigEndian(a.number, 4), TokenPart(a.token), BigEndian(a.contentFormat % 0x1_0000, 2),
              Front(b), BigEndian(b.number, 4), TokenPart(b.token), BigEndian(b.contentFormat % 0x1_0000, 2));
    FrontEqual(a, b);
    Pow2Values();
    if Bytes(a) == Bytes(b) {
      BigEndianEqual(a.number, b.number, 4);
      BigEndianEqual(a.contentFormat % 0x1_0000, b.contentFormat % 0x1_0000, 2);
    }
  }

  lemma FrontEqual(a: Block, b: Block)
    requires |a.token| <= 8 && |b.token| <= 8
    ensures Front(a) == Front(b) <==>
      a.typ == b.typ && a.code == b.code && a.szx == b.szx && a.more == b.more && |a.token| == |b.token|
  {
    var x, y := Front(a), Front(b);
    assert x == y ==> x[1] == y[1] && x[2] == y[2] && x[3] == y[3] && x[4] == y[4] && x[5] == y[5];
  }

  lemma FourParts(a: seq<byte>, b: seq<byte>, c: seq<byte>, d: seq<byte>,
                  a': seq<byte>, b': seq<byte>, c': seq<byte>, d': seq<byte>)
    requires |a| == |a'| && |b| == |b'| && |c| == |c'| && |d| == |d'|
    ensures a + b + c + d == a' + b' + c' + d' <==> a == a' && b == b' && c == c' && d == d'
  {
    var l, r := a + b + c + d, a' + b' + c' + d';
    var m, n := |a| + |b|, |a| + |b| + |c|;
    assert a == l[..|a|] && b == l[|a|..m] && c == l[m..n] && d == l[n..];
    assert a' == r[..|a|] && b' == r[|a|..m] && c' == r[m..n] && d' == r[n..];
  }

  lemma BigEndianEqual(v: nat, w: nat, n: nat)
    requires v < Pow2(8 * n) && w < Pow2(8 * n) && BigEndian(v, n) == BigEndian(w, n)
    ensures v == w
  {
    BigEndianInverse(v, n);
    BigEndianInverse(w, n);
  }

  /** For the pipeline's four-byte tokens the whole token is bound, but the content format only
      when it is below 2^16: these two blocks differ and are sealed with the same bytes. */
  lemma ContentFormatAliases()
    ensures var a := Block(0, 2, 1, [0, 0, 0, 1], 0, 0, 2, 42, 0, []);
      Bytes(a) == Bytes(a.(contentFormat := 42 + 0x1_0000))
  {
  }
}
