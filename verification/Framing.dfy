/** Length-prefix framing of messages. */
module Framing {
  import opened Words

  /** sizeof(size_t) on the supported platform; the prefix is sent in memory order, low byte first. */
  const PREFIX: nat := 8

  function Pow256(k: nat): (p: nat)
    ensures p > 0
  {
    if k == 0 then 1 else 256 * Pow256(k - 1)
  }

  /** A message whose length fits the prefix. */
  type Message = m: seq<Byte> | |m| < Pow256(PREFIX) witness []

  function ToBytes(n: nat, k: nat): (s: seq<Byte>)
    ensures |s| == k
  {
    if k == 0 then [] else [n % 256] + ToBytes(n / 256, k - 1)
  }

  function FromBytes(s: seq<Byte>): nat {
    if s == [] then 0 else s[0] + 256 * FromBytes(s[1..])
  }

  function Encode(m: Message): seq<Byte> {
    ToBytes(|m|, PREFIX) + m
  }

  function EncodeAll(ms: seq<Message>): seq<Byte> {
    if ms == [] then [] else Encode(ms[0]) + EncodeAll(ms[1..])
  }

  datatype Parse = Complete(message: Message, rest: seq<Byte>) | Incomplete

  /** The first message of a byte stream, if all of it is there. */
  function ParseOne(s: seq<Byte>): Parse {
    if |s| < PREFIX then Incomplete
    else
      var n := FromBytes(s[..PREFIX]);
      if |s| - PREFIX < n then Incomplete
      else
        BytesBound(s[..PREFIX]);
        Complete(s[PREFIX..PREFIX + n], s[PREFIX + n..])
  }

  function Decode(s: seq<Byte>): seq<Message> {
    match ParseOne(s)
    case Incomplete => []
    case Complete(m, rest) => [m] + Decode(rest)
  }

  // ---- The codec ----

  lemma {:induction false} BytesBound(s: seq<Byte>)
    ensures FromBytes(s) < Pow256(|s|)
  {
    if s != [] {
      BytesBound(s[1..]);
    }
  }

  lemma {:induction false} BytesRoundTrip(n: nat, k: nat)
    requires n < Pow256(k)
    ensures FromBytes(ToBytes(n, k)) == n
  {
    if k > 0 {
      BytesRoundTrip(n / 256, k - 1);
      assert ToBytes(n, k)[1..] == ToBytes(n / 256, k - 1);
    }
  }

  lemma {:induction false} PrefixRoundTrip(s: seq<Byte>)
    ensures ToBytes(FromBytes(s), |s|) == s
  {
    if s != [] {
      PrefixRoundTrip(s[1..]);
      var n := FromBytes(s[1..]);
      assert FromBytes(s) == s[0] as int + 256 * n;
      assert FromBytes(s) % 256 == s[0] as int && FromBytes(s) / 256 == n;
      assert s == [s[0]] + s[1..];
    }
  }

  /** A message goes out as its length in eight bytes, low byte first, followed by its contents. */
  lemma EncodingIsLiteral(m: Message)
    ensures |Encode(m)| == |m| + 8 && Encode(m)[8..] == m
    ensures Encode(m)[0] == |m| % 0x100
    ensures Encode(m)[1] == |m| / 0x100 % 0x100
    ensures Encode(m)[2] == |m| / 0x1_0000 % 0x100
    ensures Encode(m)[3] == |m| / 0x100_0000 % 0x100
    ensures Encode(m)[4] == |m| / 0x1_0000_0000 % 0x100
    ensures Encode(m)[5] == |m| / 0x100_0000_0000 % 0x100
    ensures Encode(m)[6] == |m| / 0x1_0000_0000_0000 % 0x100
    ensures Encode(m)[7] == |m| / 0x100_0000_0000_0000 % 0x100
  {
    forall i | 0 <= i < 8
      ensures Encode(m)[i] == |m| / Pow256(i) % 256
    {
      Digit(|m|, 8, i);
    }
  }

  lemma {:induction false} Digit(n: nat, k: nat, i: nat)
    requires i < k
    ensures ToBytes(n, k)[i] == n / Pow256(i) % 256
  {
    if i > 0 {
      Digit(n / 256, k - 1, i - 1);
      DivideTwice(n, Pow256(i - 1));
    }
  }

  lemma DivideTwice(n: nat, b: nat)
    requires b > 0
    ensures n / 256 / b == n / (256 * b)
  {
    var q, r, t := n / 256 / b, n / 256 % b, n % 256;
    Decompose(n / 256, b);
    assert n == 256 * (q * b) + 256 * r + t;
    assert 256 * (q * b) == q * (256 * b);
    DivMod(256 * r + t, q, 256 * b);
  }

  lemma ParseEncoded(m: Message, rest: seq<Byte>)
    ensures ParseOne(Encode(m) + rest) == Complete(m, rest)
  {
    var s := Encode(m) + rest;
    BytesRoundTrip(|m|, PREFIX);
    assert s[..PREFIX] == ToBytes(|m|, PREFIX);
    assert s[PREFIX..PREFIX + |m|] == m && s[PREFIX + |m|..] == rest;
  }

  /** A stream cut inside a message does not yield that message. */
  lemma ParseTruncated(m: Message, p: seq<Byte>)
    requires p < Encode(m)
    ensures ParseOne(p) == Incomplete
  {
    if |p| >= PREFIX {
      BytesRoundTrip(|m|, PREFIX);
      assert p[..PREFIX] == Encode(m)[..PREFIX] == ToBytes(|m|, PREFIX);
    }
  }

  lemma SplitPrefix(a: seq<Byte>, b: seq<Byte>, p: seq<Byte>)
    requires p <= a + b
    ensures |p| < |a| ==> p < a
    ensures |p| >= |a| ==> p == a + p[|a|..] && p[|a|..] <= b
  {
  }

  lemma EncodeTake(ms: seq<Message>, n: nat)
    requires 0 < n <= |ms|
    ensures EncodeAll(ms[..n]) == Encode(ms[0]) + EncodeAll(ms[1..][..n - 1])
  {
    assert ms[..n][1..] == ms[1..][..n - 1];
  }

  /** How many of the messages fit completely into the first `len` bytes. */
  function Whole(ms: seq<Message>, len: nat): (n: nat)
    ensures n <= |ms|
  {
    if ms == [] || len < |Encode(ms[0])| then 0 else 1 + Whole(ms[1..], len - |Encode(ms[0])|)
  }

  lemma {:induction false} WholeIsExact(ms: seq<Message>, len: nat)
    ensures var n := Whole(ms, len);
            && |EncodeAll(ms[..n])| <= len
            && (n < |ms| ==> len < |EncodeAll(ms[..n])| + |Encode(ms[n])|)
  {
    if ms != [] && len >= |Encode(ms[0])| {
      WholeIsExact(ms[1..], len - |Encode(ms[0])|);
      EncodeTake(ms, Whole(ms, len));
    }
  }

  /** However a stream of messages is cut off, decoding yields exactly the messages that are
      completely there, and nothing else. */
  lemma {:induction false} DecodeTruncated(ms: seq<Message>, p: seq<Byte>)
    requires p <= EncodeAll(ms)
    ensures Decode(p) == ms[..Whole(ms, |p|)]
  {
    if ms != [] {
      var first := Encode(ms[0]);
      SplitPrefix(first, EncodeAll(ms[1..]), p);
      if |p| < |first| {
        ParseTruncated(ms[0], p);
      } else {
        var rest := p[|first|..];
        ParseEncoded(ms[0], rest);
        DecodeTruncated(ms[1..], rest);
      }
    }
  }

  lemma {:induction false} DecodeEncoded(ms: seq<Message>)
    ensures Decode(EncodeAll(ms)) == ms
  {
    if ms != [] {
      ParseEncoded(ms[0], EncodeAll(ms[1..]));
      DecodeEncoded(ms[1..]);
    }
  }

  /** What is left of a stream after its complete messages. */
  function Residue(s: seq<Byte>): seq<Byte> {
    match ParseOne(s)
    case Incomplete => s
    case Complete(_, rest) => Residue(rest)
  }

  lemma ParseIsExact(s: seq<Byte>)
    requires ParseOne(s).Complete?
    ensures s == Encode(ParseOne(s).message) + ParseOne(s).rest
  {
    PrefixRoundTrip(s[..PREFIX]);
  }

  /** Decoding loses no byte: re-encoding what was decoded and adding the residue gives back the
      stream, and the residue holds no complete message. */
  lemma {:induction false} EncodeDecoded(s: seq<Byte>)
    ensures s == EncodeAll(Decode(s)) + Residue(s)
    ensures ParseOne(Residue(s)).Incomplete?
    decreases |s|
  {
    match ParseOne(s) {
      case Incomplete =>
      case Complete(m, rest) =>
        ParseIsExact(s);
        EncodeDecoded(rest);
        assert Decode(s)[1..] == Decode(rest);
    }
  }
}
