/** Blocking transfers over a socket that accepts and delivers bytes in arbitrary pieces. */
module Sockets {
  import opened Words
  import opened Framing

  /** An error number other than EAGAIN. */
  type Errno = e: int | e > 0 witness 1

  /** What one system call does: move up to `n` bytes, report EAGAIN, or fail for good. */
  datatype Io = Moves(n: nat) | Again | Breaks(errno: Errno)

  predicate Unbroken(script: seq<Io>) {
    script == [] || (!script[0].Breaks? && Unbroken(script[1..]))
  }

  function Min(a: nat, b: nat): nat {
    if a < b then a else b
  }

  /** How a transfer ended, how many bytes it moved, and the part of the script it left unused. */
  datatype Ending = Finished | Broke(errno: Errno) | Ended

  datatype Outcome = Outcome(moved: nat, ending: Ending, rest: seq<Io>) {
    function After(k: nat): Outcome {
      this.(moved := k + moved)
    }
  }

  /** What the caller is told: zero, minus the error number, or -1 for a premature end. */
  function Code(ending: Ending): int {
    match ending
    case Finished => 0
    case Broke(errno) => -(errno as int)
    case Ended => -1
  }

  /** What a script makes of an attempt to send `n` bytes: EAGAIN is retried, any other error ends it. */
  function Sends(script: seq<Io>, n: nat): (o: Outcome)
    ensures o.moved <= n && (o.ending.Finished? <==> o.moved == n) && !o.ending.Ended?
    decreases |script|
  {
    if n == 0 then Outcome(0, Finished, script)
    else if script == [] then Outcome(n, Finished, [])
    else
      match script[0]
      case Moves(k) => Sends(script[1..], n - Min(k, n)).After(Min(k, n))
      case Again => Sends(script[1..], n)
      case Breaks(errno) => Outcome(0, Broke(errno), script[1..])
  }

  /** The bytes that the calls of a script move when there is enough to move. */
  function Total(script: seq<Io>): nat {
    if script == [] then 0 else Total(script[1..]) + if script[0].Moves? then script[0].n else 0
  }

  /** The first error of the script is at `b`. */
  predicate FirstBreak(script: seq<Io>, b: nat) {
    b < |script| && script[b].Breaks? && Unbroken(script[..b])
  }

  lemma BreakTail(script: seq<Io>, b: nat)
    requires FirstBreak(script, b) && b > 0
    ensures FirstBreak(script[1..], b - 1) && script[1..][b - 1] == script[b] && !script[0].Breaks?
    ensures script[..b][0] == script[0] && script[..b][1..] == script[1..][..b - 1]
    ensures script[1..][b..] == script[b + 1..]
  {
    assert script[..b][1..] == script[1..][..b - 1];
  }

  /** Sending fails exactly when the calls before the first error move too few bytes; then exactly those
      bytes are out, the error is reported and the script goes on behind it. */
  lemma {:induction false} SendFailsExactly(script: seq<Io>, n: nat, b: nat)
    requires FirstBreak(script, b)
    ensures Sends(script, n).ending.Broke? <==> Total(script[..b]) < n
    ensures Total(script[..b]) < n ==>
              Sends(script, n) == Outcome(Total(script[..b]), Broke(script[b].errno), script[b + 1..])
    decreases |script|
  {
    if b > 0 {
      BreakTail(script, b);
      var first := script[0];
      SendFailsExactly(script[1..], n - if first.Moves? then Min(first.n, n) else 0, b - 1);
    }
  }

  lemma {:induction false} UnbrokenSends(script: seq<Io>, n: nat)
    requires Unbroken(script)
    ensures Sends(script, n).ending.Finished? && Unbroken(Sends(script, n).rest)
    decreases |script|
  {
    if n > 0 && script != [] {
      UnbrokenSends(script[1..], n - if script[0].Moves? then Min(script[0].n, n) else 0);
    }
  }

  /** The sending end. The script decides the outcome of each call; past its end calls complete. */
  class Sender {
    var wire: seq<Byte>
    var script: seq<Io>

    constructor (script: seq<Io>)
      ensures wire == [] && this.script == script
    {
      wire, this.script := [], script;
    }

    /** send(2): the number of bytes taken, or minus the error number; `again` marks EAGAIN. */
    method Send(chunk: seq<Byte>) returns (ret: int, again: bool)
      modifies this
      ensures ret <= |chunk| && wire == old(wire) + if ret < 0 then [] else chunk[..ret]
      ensures if old(script) == [] then ret == |chunk| && !again && script == []
              else
                && script == old(script)[1..] && (again <==> old(script)[0].Again?)
                && match old(script)[0]
                   case Moves(n) => ret == Min(n, |chunk|)
                   case Again => ret == -1
                   case Breaks(errno) => ret == -(errno as int)
    {
      again := false;
      if script == [] {
        ret := |chunk|;
      } else {
        var io := script[0];
        script := script[1..];
        match io {
          case Moves(n) => ret := Min(n, |chunk|);
          case Again => ret, again := -1, true;
          case Breaks(errno) => ret := -(errno as int);
        }
      }
      if ret >= 0 {
        wire := wire + chunk[..ret];
      }
    }
  }

  /** Sends all of `buf`, or fails at the first error that the script has before that, having emitted
      exactly the bytes of the calls before it. */
  method SocketSendBlocking(target: Sender, buf: seq<Byte>) returns (ret: int)
    modifies target
    ensures var o := Sends(old(target.script), |buf|);
            ret == Code(o.ending) && target.wire == old(target.wire) + buf[..o.moved] && target.script == o.rest
    ensures ret <= 0 && (ret == 0 ==> target.wire == old(target.wire) + buf)
  {
    ghost var o := Sends(target.script, |buf|);
    var sent := 0;
    while sent < |buf|
      invariant 0 <= sent <= |buf|
      invariant target.wire == old(target.wire) + buf[..sent]
      invariant o == Sends(target.script, |buf| - sent).After(sent)
      decreases |target.script|, |buf| - sent
    {
      var again;
      ret, again := target.Send(buf[sent..]);
      if ret < 0 {
        if again {
          continue;
        }
        return;
      }
      assert buf[..sent] + buf[sent..][..ret] == buf[..sent + ret];
      sent := sent + ret;
    }
    return 0;
  }

  /** What a script makes of an attempt to send one message. */
  function Emits(script: seq<Io>, m: Message): (o: Outcome)
    ensures o.moved <= |Encode(m)| && (o.ending.Finished? <==> o.moved == |Encode(m)|) && !o.ending.Ended?
  {
    var head := Sends(script, PREFIX);
    if head.ending.Finished? then Sends(head.rest, |m|).After(PREFIX) else head
  }

  /** Sends the length and then the message. */
  method SocketSendBlockingLpf(target: Sender, m: Message) returns (ret: int)
    modifies target
    ensures var o := Emits(old(target.script), m);
            ret == Code(o.ending) && target.wire == old(target.wire) + Encode(m)[..o.moved] && target.script == o.rest
    ensures ret <= 0 && (ret == 0 ==> target.wire == old(target.wire) + Encode(m))
    ensures ret < 0 ==> old(target.wire) <= target.wire < old(target.wire) + Encode(m)
  {
    ghost var prefix := ToBytes(|m|, PREFIX);
    ret := SocketSendBlocking(target, ToBytes(|m|, PREFIX));
    if ret < 0 {
      assert Encode(m)[..Emits(old(target.script), m).moved] == prefix[..Emits(old(target.script), m).moved];
      return;
    }
    ret := SocketSendBlocking(target, m);
    ghost var k := Emits(old(target.script), m).moved - PREFIX;
    assert Encode(m)[..PREFIX + k] == prefix + m[..k];
  }

  /** What a script makes of an attempt to read `n` bytes of which `there` are there; a read that is not
      at the end moves at least one byte. */
  function Reads(script: seq<Io>, there: nat, n: nat): (o: Outcome)
    ensures o.moved <= n && o.moved <= there && (o.ending.Finished? <==> o.moved == n)
    ensures o.ending.Ended? ==> o.moved == there
    decreases |script|
  {
    if n == 0 then Outcome(0, Finished, script)
    else if script == [] then Outcome(Min(there, n), if there < n then Ended else Finished, [])
    else
      match script[0]
      case Moves(k) =>
        if there == 0 then Outcome(0, Ended, script[1..])
        else
          var m := Min(if k == 0 then 1 else k, Min(n, there));
          Reads(script[1..], there - m, n - m).After(m)
      case Again => Reads(script[1..], there, n)
      case Breaks(errno) => Outcome(0, Broke(errno), script[1..])
  }

  /** The bytes that the reads of a script move when there is enough to move. */
  function Reach(script: seq<Io>): nat {
    if script == [] then 0
    else Reach(script[1..]) + if script[0].Moves? then (if script[0].n == 0 then 1 else script[0].n) else 0
  }

  /** Reading fails with an error when the calls before the first one move too few bytes and leave some
      unread; then exactly those bytes are consumed, the error is reported and the script goes on behind
      it. */
  lemma {:induction false} ReadFailsExactly(script: seq<Io>, there: nat, n: nat, b: nat)
    requires FirstBreak(script, b) && Reach(script[..b]) < n && Reach(script[..b]) < there
    ensures Reads(script, there, n) == Outcome(Reach(script[..b]), Broke(script[b].errno), script[b + 1..])
    decreases |script|
  {
    if b > 0 {
      BreakTail(script, b);
      var k := if script[0].Moves? then (if script[0].n == 0 then 1 else script[0].n) else 0;
      ReadFailsExactly(script[1..], there - k, n - k, b - 1);
    }
  }

  /** When the bytes are there and the calls before the first error move enough of them, reading
      succeeds. */
  lemma {:induction false} ReadSucceeds(script: seq<Io>, there: nat, n: nat, b: nat)
    requires FirstBreak(script, b) && n <= there && n <= Reach(script[..b])
    ensures Reads(script, there, n).ending.Finished?
    decreases |script|
  {
    if b > 0 && n > 0 {
      BreakTail(script, b);
      var k := if script[0].Moves? then (if script[0].n == 0 then 1 else script[0].n) else 0;
      ReadSucceeds(script[1..], there - Min(k, n), n - Min(k, n), b - 1);
    }
  }

  lemma {:induction false} UnbrokenReads(script: seq<Io>, there: nat, n: nat)
    requires Unbroken(script)
    ensures var o := Reads(script, there, n);
            !o.ending.Broke? && (o.ending.Finished? <==> n <= there) && Unbroken(o.rest)
    decreases |script|
  {
    if n > 0 && script != [] {
      var k := if script[0].Moves? then Min(if script[0].n == 0 then 1 else script[0].n, Min(n, there)) else 0;
      UnbrokenReads(script[1..], there - k, n - k);
    }
  }

  /** The receiving end: the bytes still to be delivered, followed by end of file. */
  class Receiver {
    var stream: seq<Byte>
    var script: seq<Io>

    constructor (stream: seq<Byte>, script: seq<Io>)
      ensures this.stream == stream && this.script == script
    {
      this.stream, this.script := stream, script;
    }

    /** read(2) of up to `want` bytes into `buf` at `at`; zero means end of file. */
    method Read(buf: array<Byte>, at: nat, want: nat) returns (ret: int, again: bool)
      requires 0 < want && at + want == buf.Length
      modifies this, buf
      ensures ret <= want && ret <= |old(stream)|
      ensures ret >= 0 ==> buf[..at + ret] == old(buf[..at]) + old(stream)[..ret] && stream == old(stream)[ret..]
      ensures ret < 0 ==> buf[..at] == old(buf[..at]) && stream == old(stream)
      ensures if old(script) == [] then ret == Min(want, |old(stream)|) && !again && script == []
              else
                && script == old(script)[1..] && (again <==> old(script)[0].Again?)
                && match old(script)[0]
                   case Moves(k) => ret == Min(if k == 0 then 1 else k, Min(want, |old(stream)|))
                   case Again => ret == -1
                   case Breaks(errno) => ret == -(errno as int)
    {
      again := false;
      var n := want;
      if script != [] {
        var io := script[0];
        script := script[1..];
        match io {
          case Moves(k) => n := if k == 0 then 1 else k;
          case Again => return -1, true;
          case Breaks(errno) => return -(errno as int), false;
        }
      }
      ret := Min(n, Min(want, |stream|));
      forall i | 0 <= i < ret {
        buf[at + i] := stream[i];
      }
      stream := stream[ret..];
    }
  }

  lemma NextSlice(s: seq<Byte>, at: nat, n: nat)
    requires at + n <= |s|
    ensures s[..at] + s[at..][..n] == s[..at + n] && s[at..][n..] == s[at + n..]
  {
  }

  /** Fills `buf` with the next bytes, or fails at the first error of the script or at the end of the
      stream, having consumed exactly the bytes of the calls before that. */
  method SocketReceiveBlocking(target: Receiver, buf: array<Byte>) returns (ret: int)
    modifies target, buf
    ensures var o := Reads(old(target.script), |old(target.stream)|, buf.Length);
            ret == Code(o.ending) && target.script == o.rest && target.stream == old(target.stream)[o.moved..]
    ensures ret <= 0 && (ret == 0 ==> buf.Length <= |old(target.stream)| && buf[..] == old(target.stream)[..buf.Length])
  {
    ghost var stream := target.stream;
    ghost var o := Reads(target.script, |stream|, buf.Length);
    var recv := 0;
    while recv < buf.Length
      invariant 0 <= recv <= buf.Length && recv <= |stream|
      invariant buf[..recv] == stream[..recv] && target.stream == stream[recv..]
      invariant o == Reads(target.script, |stream| - recv, buf.Length - recv).After(recv)
      decreases |target.script|, buf.Length - recv
    {
      var again;
      ret, again := target.Read(buf, recv, buf.Length - recv);
      if ret < 0 {
        if again {
          continue;
        }
        return;
      }
      if ret == 0 && recv < buf.Length {
        return -1;
      }
      NextSlice(stream, recv, ret);
      recv := recv + ret;
    }
    assert buf[..recv] == buf[..];
    return 0;
  }

  datatype Received = Got(message: Message) | Threw

  /** The result of one receive, with what it leaves of the stream and of the script. */
  datatype Receipt = Receipt(result: Received, stream: seq<Byte>, script: seq<Io>)

  /** What stream and script make of an attempt to receive one message. */
  function Receives(stream: seq<Byte>, script: seq<Io>): (r: Receipt)
    ensures r.result.Got? ==> ParseOne(stream) == Complete(r.result.message, r.stream)
  {
    var head := Reads(script, |stream|, PREFIX);
    if !head.ending.Finished? then Receipt(Threw, stream[head.moved..], head.rest)
    else
      var size := FromBytes(stream[..PREFIX]);
      var body := Reads(head.rest, |stream| - PREFIX, size);
      if !body.ending.Finished? then Receipt(Threw, stream[PREFIX + body.moved..], body.rest)
      else
        BytesBound(stream[..PREFIX]);
        Receipt(Got(stream[PREFIX..PREFIX + size]), stream[PREFIX + size..], body.rest)
  }

  /** Without errors a receive yields the first message exactly when all of it is there, and otherwise
      drains the stream. */
  lemma UnbrokenReceives(stream: seq<Byte>, script: seq<Io>)
    requires Unbroken(script)
    ensures var r := Receives(stream, script);
            && (r.result.Got? <==> ParseOne(stream).Complete?) && Unbroken(r.script)
            && (r.result.Threw? ==> r.stream == [])
  {
    UnbrokenReads(script, |stream|, PREFIX);
    var head := Reads(script, |stream|, PREFIX);
    if head.ending.Finished? {
      UnbrokenReads(head.rest, |stream| - PREFIX, FromBytes(stream[..PREFIX]));
    }
  }

  /** Receives the length and then that many bytes. A result is always exactly the first message of
      the stream. */
  method SocketReceiveBlockingLpf(target: Receiver) returns (r: Received)
    modifies target
    ensures Receipt(r, target.stream, target.script) == Receives(old(target.stream), old(target.script))
    ensures r.Got? ==> ParseOne(old(target.stream)) == Complete(r.message, target.stream)
  {
    var head := new Byte[PREFIX];
    var ret := SocketReceiveBlocking(target, head);
    if ret < 0 {
      return Threw;
    }
    ghost var stream := old(target.stream);
    BytesBound(head[..]);
    var size := FromBytes(head[..]);
    var buffer := new Byte[size];
    ghost var rest := target.stream;
    ghost var body := Reads(target.script, |rest|, size);
    ret := SocketReceiveBlocking(target, buffer);
    assert rest[body.moved..] == stream[PREFIX + body.moved..];
    if ret < 0 {
      return Threw;
    }
    assert rest[..size] == stream[PREFIX..PREFIX + size];
    return Got(buffer[..]);
  }

  // ---- Whole conversations ----

  lemma {:induction false} EncodePrefix(ms: seq<Message>, n: nat)
    requires n <= |ms|
    ensures EncodeAll(ms[..n]) <= EncodeAll(ms)
  {
    if n > 0 {
      EncodePrefix(ms[1..], n - 1);
      EncodeTake(ms, n);
    }
  }

  lemma {:induction false} NextMessage(ms: seq<Message>, i: nat)
    requires i < |ms|
    ensures EncodeAll(ms[..i]) + Encode(ms[i]) == EncodeAll(ms[..i + 1])
  {
    EncodeTake(ms, i + 1);
    if i > 0 {
      EncodeTake(ms, i);
      NextMessage(ms[1..], i - 1);
    }
  }

  /** What a script makes of an attempt to send a list of messages. */
  function EmitsAll(script: seq<Io>, ms: seq<Message>): (o: Outcome)
    ensures o.moved <= |EncodeAll(ms)| && (o.ending.Finished? <==> o.moved == |EncodeAll(ms)|)
    decreases |ms|
  {
    if ms == [] then Outcome(0, Finished, script)
    else
      var first := Emits(script, ms[0]);
      if first.ending.Finished? then EmitsAll(first.rest, ms[1..]).After(first.moved) else first
  }

  lemma {:induction false} UnbrokenEmits(script: seq<Io>, ms: seq<Message>)
    requires Unbroken(script)
    ensures EmitsAll(script, ms).ending.Finished?
    decreases |ms|
  {
    if ms != [] {
      UnbrokenSends(script, PREFIX);
      UnbrokenSends(Sends(script, PREFIX).rest, |ms[0]|);
      UnbrokenEmits(Emits(script, ms[0]).rest, ms[1..]);
    }
  }

  /** One message of the list more. */
  lemma EmitsStep(script: seq<Io>, ms: seq<Message>, i: nat)
    requires i < |ms|
    ensures var first, all := Emits(script, ms[i]), EmitsAll(script, ms[i..]);
            if first.ending.Finished? then all == EmitsAll(first.rest, ms[i + 1..]).After(first.moved) else all == first
    ensures |EncodeAll(ms[..i + 1])| == |EncodeAll(ms[..i])| + |Encode(ms[i])|
    ensures EncodeAll(ms[..i]) + Encode(ms[i]) == EncodeAll(ms[..i + 1]) <= EncodeAll(ms)
  {
    assert ms[i..][1..] == ms[i + 1..];
    NextMessage(ms, i);
    EncodePrefix(ms, i + 1);
  }

  lemma CutInside(w: seq<Byte>, a: seq<Byte>, b: seq<Byte>, c: seq<Byte>, k: nat)
    requires a + b <= c && k <= |b|
    ensures w + a + b[..k] == w + c[..|a| + k]
    ensures w + a + b == w + (a + b)
  {
    assert c[..|a| + k] == a + b[..k];
  }

  /** Sends messages until one fails: the script alone decides how far that is. */
  method SendAll(target: Sender, ms: seq<Message>) returns (ret: int)
    modifies target
    ensures var o := EmitsAll(old(target.script), ms);
            && ret == Code(o.ending) && target.script == o.rest
            && target.wire == old(target.wire) + EncodeAll(ms)[..o.moved]
    ensures ret == 0 ==> target.wire == old(target.wire) + EncodeAll(ms)
  {
    ghost var o := EmitsAll(target.script, ms);
    ghost var wire := target.wire;
    assert ms[0..] == ms;
    for i := 0 to |ms|
      invariant target.wire == wire + EncodeAll(ms[..i])
      invariant o == EmitsAll(target.script, ms[i..]).After(|EncodeAll(ms[..i])|)
    {
      ghost var first := Emits(target.script, ms[i]);
      EmitsStep(target.script, ms, i);
      CutInside(wire, EncodeAll(ms[..i]), Encode(ms[i]), EncodeAll(ms), first.moved);
      ret := SocketSendBlockingLpf(target, ms[i]);
      if ret < 0 {
        return;
      }
    }
    assert ms[..|ms|] == ms;
    return 0;
  }

  /** The messages of a conversation, with what is left of the stream and of the script. */
  datatype Harvest = Harvest(messages: seq<Message>, stream: seq<Byte>, script: seq<Io>) {
    function Behind(ms: seq<Message>): Harvest {
      this.(messages := ms + messages)
    }
  }

  /** What stream and script make of receiving until a receive throws. */
  function ReceivesAll(stream: seq<Byte>, script: seq<Io>): Harvest
    decreases |stream|
  {
    var r := Receives(stream, script);
    match r.result
    case Threw => Harvest([], r.stream, r.script)
    case Got(m) =>
      ReceivesAll(r.stream, r.script).Behind([m])
  }

  /** Whatever the script, what is received is the beginning of what the stream decodes to, and without
      errors all of it, with no byte left. */
  lemma {:induction false} ReceivesDecodes(stream: seq<Byte>, script: seq<Io>)
    ensures ReceivesAll(stream, script).messages <= Decode(stream)
    ensures Unbroken(script) ==>
              ReceivesAll(stream, script).messages == Decode(stream) && ReceivesAll(stream, script).stream == []
    decreases |stream|
  {
    if Unbroken(script) {
      UnbrokenReceives(stream, script);
    }
    var r := Receives(stream, script);
    if r.result.Got? {
      ReceivesDecodes(r.stream, r.script);
    }
  }

  /** Receives messages until a receive throws. */
  method ReceiveAll(target: Receiver) returns (ms: seq<Message>)
    modifies target
    ensures Harvest(ms, target.stream, target.script) == ReceivesAll(old(target.stream), old(target.script))
    ensures ms <= Decode(old(target.stream))
    ensures Unbroken(old(target.script)) ==> ms == Decode(old(target.stream)) && target.stream == []
  {
    ms := [];
    while true
      invariant ReceivesAll(old(target.stream), old(target.script)) == ReceivesAll(target.stream, target.script).Behind(ms)
      decreases |target.stream|
    {
      var r := SocketReceiveBlockingLpf(target);
      match r {
        case Threw =>
          ReceivesDecodes(old(target.stream), old(target.script));
          return;
        case Got(m) =>
          ghost var rest := ReceivesAll(target.stream, target.script);
          assert rest.Behind([m]).Behind(ms) == rest.Behind(ms + [m]);
          ms := ms + [m];
      }
    }
  }

  /** For every list of messages and every schedule of partial transfers, retries and failures on
      either end, the receiver never sees a wrong or short message: it obtains exactly the messages
      that were completely emitted, up to its own failure, and all of them when neither end breaks. How
      much is emitted and how much of that is received is decided by the two schedules. */
  method Transfer(ms: seq<Message>, sends: seq<Io>, receives: seq<Io>)
    returns (wire: seq<Byte>, received: seq<Message>)
    ensures wire == EncodeAll(ms)[..EmitsAll(sends, ms).moved]
    ensures received == ReceivesAll(wire, receives).messages <= ms[..Whole(ms, |wire|)]
    ensures Unbroken(receives) ==> received == ms[..Whole(ms, |wire|)]
    ensures Unbroken(receives) ==> wire == EncodeAll(received) + Residue(wire)
    ensures Unbroken(sends) && Unbroken(receives) ==> received == ms && wire == EncodeAll(received)
  {
    var sender := new Sender(sends);
    var ret := SendAll(sender, ms);
    wire := sender.wire;
    assert [] + EncodeAll(ms)[..EmitsAll(sends, ms).moved] == EncodeAll(ms)[..EmitsAll(sends, ms).moved];
    var receiver := new Receiver(wire, receives);
    received := ReceiveAll(receiver);
    TransferIsExact(ms, sends, wire);
  }

  lemma TransferIsExact(ms: seq<Message>, sends: seq<Io>, wire: seq<Byte>)
    requires wire == EncodeAll(ms)[..EmitsAll(sends, ms).moved]
    ensures Decode(wire) == ms[..Whole(ms, |wire|)] && wire == EncodeAll(Decode(wire)) + Residue(wire)
    ensures Unbroken(sends) ==> wire == EncodeAll(ms) && Decode(wire) == ms
  {
    DecodeTruncated(ms, wire);
    EncodeDecoded(wire);
    if Unbroken(sends) {
      UnbrokenEmits(sends, ms);
      DecodeEncoded(ms);
    }
  }
}
