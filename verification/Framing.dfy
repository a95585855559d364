/**
 The gateway client's receive loop: bytes arrive in chunks of any size, whole
 messages are dispatched, and the rest is carried to the front of the buffer.
 */
module Framing {

  type Byte = b: nat | b < 256

  const BUF_SIZE: nat := 65536
  const MAX_MESSAGE: nat := 64

  // Message types.
  const MARKET_UPDATE: Byte := 1
  const ORDER_ACK: Byte := 2
  const FILL: Byte := 3
  const CANCEL_ACK: Byte := 4
  const ORDER_ENTRY: Byte := 10
  const CANCEL_REQUEST: Byte := 11
  const HEARTBEAT: Byte := 20
  const SESSION_START: Byte := 30
  const SESSION_END: Byte := 31

  // The size of a message by its first byte; 0 for an unknown type.
  function MsgSize(t: Byte): (n: nat)
    ensures n <= MAX_MESSAGE
  {
    if t == MARKET_UPDATE || t == FILL || t == ORDER_ENTRY || t == SESSION_START || t == SESSION_END then 64
    else if t == ORDER_ACK || t == CANCEL_ACK || t == CANCEL_REQUEST || t == HEARTBEAT then 32
    else 0
  }

  // The strategy is called for these; other messages are skipped.
  predicate Handled(t: Byte) {
    t == SESSION_START || t == ORDER_ENTRY || t == CANCEL_REQUEST || t == SESSION_END
  }

  // ----- A byte stream as a list of messages -----

  // A whole message stands at the front.
  predicate Complete(s: seq<Byte>) {
    s != [] && 0 < MsgSize(s[0]) <= |s|
  }

  function Head(s: seq<Byte>): (m: seq<Byte>)
    requires Complete(s)
  {
    s[..MsgSize(s[0])]
  }

  function Tail(s: seq<Byte>): (t: seq<Byte>)
    requires Complete(s)
    ensures |t| < |s|
  {
    s[MsgSize(s[0])..]
  }

  // What the strategy sees of the stream, up to the end of the session.
  function Calls(s: seq<Byte>): (c: seq<seq<Byte>>)
    decreases |s|
  {
    if !Complete(s) then []
    else
      (if Handled(s[0]) then [Head(s)] else []) + if s[0] == SESSION_END then [] else Calls(Tail(s))
  }

  predicate Ended(s: seq<Byte>)
    decreases |s|
  {
    Complete(s) && (s[0] == SESSION_END || Ended(Tail(s)))
  }

  // The bytes after the last whole message.
  function Rest(s: seq<Byte>): (t: seq<Byte>)
    ensures |t| <= |s|
    decreases |s|
  {
    if !Complete(s) || s[0] == SESSION_END then s else Rest(Tail(s))
  }

  // No message of an unknown type comes up before the session ends.
  predicate Known(s: seq<Byte>)
    decreases |s|
  {
    s == [] || (MsgSize(s[0]) > 0 && (!Complete(s) || s[0] == SESSION_END || Known(Tail(s))))
  }

  // ----- Cutting the stream -----

  lemma CompleteLonger(a: seq<Byte>, c: seq<Byte>)
    requires Complete(a)
    ensures Complete(a + c) && Head(a + c) == Head(a) && Tail(a + c) == Tail(a) + c && (a + c)[0] == a[0]
  {
  }

  // Once ended, more bytes change nothing.
  lemma {:induction false} EndedStays(a: seq<Byte>, c: seq<Byte>)
    requires Ended(a)
    ensures Ended(a + c) && Calls(a + c) == Calls(a)
    decreases |a|
  {
    CompleteLonger(a, c);
    if a[0] != SESSION_END {
      EndedStays(Tail(a), c);
    }
  }

  // Parsing a cut stream is parsing the first part, then its rest with the
  // second part.
  lemma {:induction false} ParseInParts(a: seq<Byte>, c: seq<Byte>)
    requires !Ended(a)
    ensures Calls(a + c) == Calls(a) + Calls(Rest(a) + c)
    ensures Rest(a + c) == Rest(Rest(a) + c) && Ended(a + c) == Ended(Rest(a) + c)
    decreases |a|
  {
    if Complete(a) {
      CompleteLonger(a, c);
      ParseInParts(Tail(a), c);
    }
  }

  lemma {:induction false} KnownPrefix(a: seq<Byte>, c: seq<Byte>)
    requires Known(a + c)
    ensures Known(a)
    decreases |a|
  {
    if a != [] {
      assert (a + c)[0] == a[0];
      if Complete(a) {
        CompleteLonger(a, c);
        if a[0] != SESSION_END {
          KnownPrefix(Tail(a), c);
        }
      }
    }
  }

  // The carried bytes are never a whole message, and shorter than one.
  lemma {:induction false} RestShort(s: seq<Byte>)
    requires !Ended(s)
    ensures !Complete(Rest(s)) && Calls(Rest(s)) == [] && Rest(Rest(s)) == Rest(s) && !Ended(Rest(s))
    ensures Known(s) ==> |Rest(s)| < MAX_MESSAGE
    decreases |s|
  {
    if Complete(s) {
      RestShort(Tail(s));
    }
  }

  // The types of the protocol, by number.
  predicate KnownType(t: Byte) {
    1 <= t <= 4 || t == 10 || t == 11 || t == 20 || t == 30 || t == 31
  }

  // A message of an unknown type stops the dispatch for good.
  lemma UnknownSticks(a: seq<Byte>, c: seq<Byte>)
    requires !Ended(a) && Rest(a) != [] && !KnownType(Rest(a)[0])
    ensures Calls(a + c) == Calls(a) && !Ended(a + c) && Rest(a + c) == Rest(a) + c
  {
    hide Calls; hide Ended; hide Rest;
    ParseInParts(a, c);
    ParseStop(Rest(a) + c);
  }

  // ----- A session of messages -----

  // Orders, market updates, fills and session messages have 64 bytes; cancels,
  // acknowledgements and heartbeats have 32.
  predicate WholeMessage(m: seq<Byte>) {
    m != [] && KnownType(m[0]) && |m| == if m[0] == 2 || m[0] == 4 || m[0] == 11 || m[0] == 20 then 32 else 64
  }

  // Whole messages, with the end of the session at most last.
  ghost predicate Session(ms: seq<seq<Byte>>) {
    forall i | 0 <= i < |ms| :: WholeMessage(ms[i]) && (i + 1 < |ms| ==> ms[i][0] != 31)
  }

  function Concat(ms: seq<seq<Byte>>): (s: seq<Byte>) {
    if ms == [] then [] else ms[0] + Concat(ms[1..])
  }

  // The orders, cancels, session starts and session ends among them.
  function ForStrategy(ms: seq<seq<Byte>>): (r: seq<seq<Byte>>)
    requires forall i | 0 <= i < |ms| :: ms[i] != []
  {
    if ms == [] then []
    else
      var t := ms[0][0];
      (if t == 10 || t == 11 || t == 30 || t == 31 then [ms[0]] else []) + ForStrategy(ms[1..])
  }

  lemma MessageFront(m: seq<Byte>, rest: seq<Byte>)
    requires WholeMessage(m)
    ensures Complete(m + rest) && Head(m + rest) == m && Tail(m + rest) == rest && (m + rest)[0] == m[0]
  {
  }

  // Parsing the bytes of a session gives back its messages.
  lemma {:induction false} SessionCalls(ms: seq<seq<Byte>>)
    requires Session(ms)
    ensures Calls(Concat(ms)) == ForStrategy(ms) && Known(Concat(ms))
    ensures Ended(Concat(ms)) <==> ms != [] && ms[|ms| - 1][0] == 31
    ensures !Ended(Concat(ms)) ==> Rest(Concat(ms)) == []
  {
    hide Head; hide Tail; hide MsgSize;
    if ms == [] {
      ParseStop([]);
    } else {
      var s := Concat(ms);
      MessageFront(ms[0], Concat(ms[1..]));
      ParseStep(s);
      SessionCalls(ms[1..]);
      if ms[0][0] == 31 {
        assert ms[1..] == [];
      }
      KnownFront(ms[0], Concat(ms[1..]));
    }
  }

  lemma KnownFront(m: seq<Byte>, rest: seq<Byte>)
    requires WholeMessage(m) && Known(rest)
    ensures Known(m + rest)
  {
    MessageFront(m, rest);
  }

  // ----- The receive loop -----

  function Min(a: nat, b: nat): (r: nat) {
    if a < b then a else b
  }

  function Sum(xs: seq<nat>): (n: nat) {
    if xs == [] then 0 else xs[0] + Sum(xs[1..])
  }

  lemma {:induction false} SumSnoc(xs: seq<nat>, k: nat)
    requires k < |xs|
    ensures Sum(xs[..k + 1]) == Sum(xs[..k]) + xs[k]
  {
    if k == 0 {
      assert xs[..1] == [xs[0]] && xs[..0] == [];
    } else {
      assert xs[..k + 1][1..] == xs[1..][..k] && xs[..k][1..] == xs[1..][..k - 1];
      SumSnoc(xs[1..], k - 1);
    }
  }

  // Copies the next n bytes of the stream behind the bytes in use.
  method Receive(buf: array<Byte>, used: nat, input: seq<Byte>, pos: nat, n: nat)
    requires used + n <= buf.Length && pos + n <= |input|
    modifies buf
    ensures buf[..used + n] == old(buf[..used]) + input[pos..pos + n]
  {
    ghost var kept := buf[..used];
    for i := 0 to n
      invariant buf[..used + i] == kept + input[pos..pos + i]
    {
      buf[used + i] := input[pos + i];
      assert buf[..used + i + 1] == buf[..used + i] + [input[pos + i]];
      assert input[pos..pos + i + 1] == input[pos..pos + i] + [input[pos + i]];
    }
  }

  // One message off the front of a stream.
  lemma ParseStep(s: seq<Byte>)
    requires Complete(s)
    ensures Calls(s) == (if Handled(s[0]) then [Head(s)] else []) + (if s[0] == SESSION_END then [] else Calls(Tail(s)))
    ensures Ended(s) == (s[0] == SESSION_END || Ended(Tail(s)))
    ensures s[0] != SESSION_END ==> Rest(s) == Rest(Tail(s))
  {
  }

  lemma ParseStop(s: seq<Byte>)
    requires !Complete(s)
    ensures Calls(s) == [] && !Ended(s) && Rest(s) == s
  {
  }

  // Dispatches the whole messages in the buffer; stops at the end of the
  // session, at a partial message and at an unknown type.
  method Dispatch(buf: array<Byte>, used: nat) returns (calls: seq<seq<Byte>>, offset: nat, ended: bool)
    requires used <= buf.Length
    ensures offset <= used && calls == Calls(buf[..used]) && ended == Ended(buf[..used])
    ensures !ended ==> buf[offset..used] == Rest(buf[..used])
  {
    hide MsgSize; hide Calls; hide Ended; hide Rest; hide Handled;
    calls, offset, ended := [], 0, false;
    ghost var all := buf[..used];
    while offset < used
      invariant offset <= used
      invariant Calls(all) == calls + Calls(all[offset..]) && Ended(all) == Ended(all[offset..])
      invariant !Ended(all) ==> Rest(all) == Rest(all[offset..])
    {
      ghost var s := all[offset..];
      var t := buf[offset];
      var size := MsgSize(t);
      assert s[0] == t;
      if size == 0 || offset + size > used {
        ParseStop(s);
        break;
      }
      ParseStep(s);
      var message := buf[offset..offset + size];
      assert message == Head(s) && Tail(s) == all[offset + size..];
      if Handled(t) {
        calls := calls + [message];
      }
      if t == SESSION_END {
        ended := true;
        return;
      }
      offset := offset + size;
    }
    if offset == used {
      ParseStop(all[offset..]);
    }
    assert buf[offset..used] == all[offset..];
  }

  // Moves the unprocessed bytes to the front.
  method Compact(buf: array<Byte>, offset: nat, used: nat) returns (left: nat)
    requires offset <= used <= buf.Length
    modifies buf
    ensures left == used - offset && buf[..left] == old(buf[offset..used])
  {
    left := used;
    if offset > 0 && offset < used {
      left := used - offset;
      forall i | 0 <= i < left {
        buf[i] := buf[i + offset];
      }
    } else if offset >= used {
      left := 0;
    }
  }

  // Runs the loop on a stream whose k-th receive brings at most sizes[k] bytes.
  // However the stream is cut, the strategy sees the same messages.
  method Run(input: seq<Byte>, sizes: seq<nat>) returns (calls: seq<seq<Byte>>, pos: nat, carried: nat, ended: bool)
    ensures pos <= |input| && calls == Calls(input[..pos]) && ended == Ended(input[..pos])
    ensures ended || pos == |input| ==> calls == Calls(input)
    ensures !ended ==> carried == |Rest(input[..pos])|
    ensures Known(input) && !ended ==> carried < MAX_MESSAGE
    ensures Known(input) && !ended && (forall k | 0 <= k < |sizes| :: 0 < sizes[k] <= BUF_SIZE - MAX_MESSAGE) ==>
      pos == Min(|input|, Sum(sizes))
    ensures forall ms :: Session(ms) && input == Concat(ms) && Carries(sizes, |input|) ==> calls == ForStrategy(ms)
  {
    hide Calls; hide Ended; hide Rest; hide Known;
    var buf := new Byte[BUF_SIZE](_ => 0);
    var used: nat := 0;
    calls, pos, carried, ended := [], 0, 0, false;
    NothingYet(input);
    var k := 0;
    while k < |sizes|
      invariant k <= |sizes| && used <= BUF_SIZE && pos <= |input| && carried == used
      invariant calls == Calls(input[..pos]) && !Ended(input[..pos]) && buf[..used] == Rest(input[..pos])
      invariant (Known(input) && forall j | 0 <= j < |sizes| :: 0 < sizes[j] <= BUF_SIZE - MAX_MESSAGE) ==>
        pos == Min(|input|, Sum(sizes[..k]))
    {
      ghost var before := input[..pos];
      if Known(input) {
        PrefixShort(input, pos);
      }
      SumSnoc(sizes, k);
      var n := Min(Min(sizes[k], BUF_SIZE - used), |input| - pos);
      if n == 0 {
        SumGrows(sizes, k);
        break;
      }
      Receive(buf, used, input, pos, n);
      assert input[..pos + n] == before + input[pos..pos + n];
      ParseInParts(before, input[pos..pos + n]);
      used := used + n;
      pos := pos + n;
      var more, offset;
      more, offset, ended := Dispatch(buf, used);
      calls := calls + more;
      if ended {
        WholeOrEnded(input, pos);
        AllDelivered(input, sizes, calls, pos, ended);
        return;
      }
      used := Compact(buf, offset, used);
      carried := used;
      k := k + 1;
    }
    if k == |sizes| {
      assert sizes[..k] == sizes;
    }
    if Known(input) {
      PrefixShort(input, pos);
    }
    if pos == |input| {
      WholeOrEnded(input, pos);
    }
    AllDelivered(input, sizes, calls, pos, ended);
  }

  // Receives of at least one byte, none larger than the buffer allows beside a
  // carried message, n bytes or more in all.
  ghost predicate Carries(sizes: seq<nat>, n: nat) {
    (forall k | 0 <= k < |sizes| :: 0 < sizes[k] <= BUF_SIZE - MAX_MESSAGE) && n <= Sum(sizes)
  }

  lemma AllDelivered(input: seq<Byte>, sizes: seq<nat>, calls: seq<seq<Byte>>, pos: nat, ended: bool)
    requires ended || pos == |input| ==> calls == Calls(input)
    requires Known(input) && !ended && (forall k | 0 <= k < |sizes| :: 0 < sizes[k] <= BUF_SIZE - MAX_MESSAGE) ==>
      pos == Min(|input|, Sum(sizes))
    ensures forall ms :: Session(ms) && input == Concat(ms) && Carries(sizes, |input|) ==> calls == ForStrategy(ms)
  {
    hide Calls; hide Known; hide ForStrategy; hide Ended; hide Rest; hide Concat; hide Sum;
    forall ms | Session(ms) && input == Concat(ms) && Carries(sizes, |input|)
      ensures calls == ForStrategy(ms)
    {
      SessionCalls(ms);
    }
  }

  lemma NothingYet(input: seq<Byte>)
    ensures Calls(input[..0]) == [] && !Ended(input[..0]) && Rest(input[..0]) == []
  {
  }

  lemma PrefixShort(input: seq<Byte>, pos: nat)
    requires Known(input) && pos <= |input| && !Ended(input[..pos])
    ensures |Rest(input[..pos])| < MAX_MESSAGE
  {
    hide Calls; hide Ended; hide Rest; hide Known;
    assert input == input[..pos] + input[pos..];
    KnownPrefix(input[..pos], input[pos..]);
    RestShort(input[..pos]);
  }

  lemma {:induction false} SumGrows(xs: seq<nat>, k: nat)
    requires k <= |xs|
    ensures Sum(xs[..k]) <= Sum(xs)
    decreases |xs| - k
  {
    if k == |xs| {
      assert xs[..k] == xs;
    } else {
      SumSnoc(xs, k);
      SumGrows(xs, k + 1);
    }
  }

  // A stream read to its end, or to the end of the session, has given all its
  // calls.
  lemma WholeOrEnded(input: seq<Byte>, pos: nat)
    requires pos <= |input| && (Ended(input[..pos]) || pos == |input|)
    ensures Calls(input[..pos]) == Calls(input)
  {
    hide Calls; hide Ended;
    assert input == input[..pos] + input[pos..];
    if Ended(input[..pos]) {
      EndedStays(input[..pos], input[pos..]);
    } else {
      assert input[..pos] == input;
    }
  }
}
