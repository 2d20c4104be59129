/** Bytes and message ends on the bus (src/device.rs, src/io/read.rs, src/io/write.rs).

    An OUT transfer is sent as packets of the maximum size and a last one that may be shorter; an IN
    transfer takes packets until one is short or the buffer is full.  A short or empty packet ends a
    message.  What is invariant under all of this is the sequence of data bytes and message ends. */
module Framing {
  import opened Wrappers
  import opened Multiples

  /** One byte of data, or the end of a message. */
  datatype Token = Data(b: byte) | End

  function Plain(s: Bytes): (r: seq<Token>)
    ensures |r| == |s| && forall i :: 0 <= i < |s| ==> r[i] == Data(s[i])
  {
    seq(|s|, i requires 0 <= i < |s| => Data(s[i]))
  }

  lemma Assoc(a: seq<Token>, b: seq<Token>, c: seq<Token>)
    ensures (a + b) + c == a + (b + c)
  {
  }

  lemma PlainConcat(a: Bytes, b: Bytes)
    ensures Plain(a + b) == Plain(a) + Plain(b)
  {
  }

  /** A chunk of data that ends a message if it is shorter than its limit: a packet with the packet
      size as the limit, or the data of an IN transfer with the requested length. */
  function Chunk(s: Bytes, limit: nat): seq<Token> {
    Plain(s) + if |s| < limit then [End] else []
  }

  function Chunks(ps: seq<Bytes>, limit: nat): seq<Token> {
    if ps == [] then [] else Chunk(ps[0], limit) + Chunks(ps[1..], limit)
  }

  lemma {:induction false} ChunksConcat(a: seq<Bytes>, b: seq<Bytes>, limit: nat)
    ensures Chunks(a + b, limit) == Chunks(a, limit) + Chunks(b, limit)
  {
    if a == [] {
      assert a + b == b;
    } else {
      assert (a + b)[1..] == a[1..] + b;
      ChunksConcat(a[1..], b, limit);
    }
  }

  lemma ChunksCons(p: Bytes, ps: seq<Bytes>, limit: nat)
    ensures Chunks([p] + ps, limit) == Chunk(p, limit) + Chunks(ps, limit)
  {
    assert ([p] + ps)[1..] == ps;
  }

  // -------- OUT: a transfer becomes packets --------

  /** The packets of one OUT transfer: an empty transfer is one empty packet, and a transfer that
      fills its last packet is not followed by an empty one. */
  function Packets(data: Bytes, mps: nat): seq<Bytes>
    requires mps > 0
    decreases |data|
  {
    if |data| <= mps then [data] else [data[..mps]] + Packets(data[mps..], mps)
  }

  function Bus(transfers: seq<Bytes>, mps: nat): seq<Bytes>
    requires mps > 0
  {
    if transfers == [] then [] else Packets(transfers[0], mps) + Bus(transfers[1..], mps)
  }

  /** A transfer ends a message exactly when it is empty or not a whole number of packets. */
  predicate EndsMessage(data: Bytes, mps: nat)
    requires mps > 0
  {
    |data| == 0 || |data| % mps != 0
  }

  function TransferTokens(data: Bytes, mps: nat): seq<Token>
    requires mps > 0
  {
    Plain(data) + if EndsMessage(data, mps) then [End] else []
  }

  lemma EndsMessageStep(data: Bytes, mps: nat)
    requires mps > 0
    ensures |data| <= mps ==> (EndsMessage(data, mps) <==> |data| < mps)
    ensures |data| > mps ==> (EndsMessage(data, mps) <==> EndsMessage(data[mps..], mps))
  {
    if |data| < mps {
      ModIs(|data|, mps, 0, |data|);
    } else if |data| == mps {
      ModIs(mps, mps, 1, 0);
    } else {
      ModMinus(|data|, mps);
    }
  }

  lemma FullPacketThenTransfer(head: Bytes, tail: Bytes, mps: nat)
    requires |head| == mps > 0 && tail != []
    ensures TransferTokens(head + tail, mps) == Chunk(head, mps) + TransferTokens(tail, mps)
  {
    var end: seq<Token> := if EndsMessage(tail, mps) then [End] else [];
    assert EndsMessage(head + tail, mps) == EndsMessage(tail, mps) by {
      assert (head + tail)[mps..] == tail;
      EndsMessageStep(head + tail, mps);
    }
    hide EndsMessage, Plain;
    assert Chunk(head, mps) == Plain(head) + [];
    PlainConcat(head, tail);
    Assoc(Plain(head), Plain(tail), end);
  }

  lemma {:induction false} PacketsCarryTransfer(data: Bytes, mps: nat)
    requires mps > 0
    ensures Chunks(Packets(data, mps), mps) == TransferTokens(data, mps)
    decreases |data|
  {
    if |data| <= mps {
      EndsMessageStep(data, mps);
      ChunksCons(data, [], mps);
      assert [data] + [] == [data];
    } else {
      hide Chunk, TransferTokens;
      var head, tail := data[..mps], data[mps..];
      PacketsCarryTransfer(tail, mps);
      ChunksCons(head, Packets(tail, mps), mps);
      assert data == head + tail;
      FullPacketThenTransfer(head, tail, mps);
    }
  }

  lemma {:induction false} PacketsAreStream(data: Bytes, mps: nat)
    requires mps > 0
    ensures IsStream(Packets(data, mps), mps)
    decreases |data|
  {
    if |data| > mps {
      PacketsAreStream(data[mps..], mps);
    }
  }

  function TransfersTokens(ts: seq<Bytes>, mps: nat): seq<Token>
    requires mps > 0
  {
    if ts == [] then [] else TransferTokens(ts[0], mps) + TransfersTokens(ts[1..], mps)
  }

  /** The bus carries the tokens of the submitted transfers, in packets no longer than the maximum. */
  lemma {:induction false} BusCarriesTransfers(ts: seq<Bytes>, mps: nat)
    requires mps > 0
    ensures Chunks(Bus(ts, mps), mps) == TransfersTokens(ts, mps)
    ensures IsStream(Bus(ts, mps), mps)
  {
    if ts != [] {
      PacketsCarryTransfer(ts[0], mps);
      PacketsAreStream(ts[0], mps);
      BusCarriesTransfers(ts[1..], mps);
      ChunksConcat(Packets(ts[0], mps), Bus(ts[1..], mps), mps);
    }
  }

  lemma {:induction false} TransfersTokensAppend(ts: seq<Bytes>, t: Bytes, mps: nat)
    requires mps > 0
    ensures TransfersTokens(ts + [t], mps) == TransfersTokens(ts, mps) + TransferTokens(t, mps)
  {
    if ts == [] {
      assert [t][1..] == [];
    } else {
      assert (ts + [t])[1..] == ts[1..] + [t];
      TransfersTokensAppend(ts[1..], t, mps);
    }
  }

  // -------- IN: packets become completions --------

  predicate IsStream(ps: seq<Bytes>, mps: nat) {
    forall i :: 0 <= i < |ps| ==> |ps[i]| <= mps
  }

  /** One IN transfer with room for `n` packets: it ends after a short packet or when it is full, and
      is still waiting when the packets run out first. */
  function Fill(ps: seq<Bytes>, n: nat, mps: nat): (r: Option<(Bytes, seq<Bytes>)>)
    requires n > 0
    ensures r.Some? ==> |r.value.1| < |ps| && r.value.1 == ps[|ps| - |r.value.1|..]
    decreases |ps|
  {
    if ps == [] then None
    else if |ps[0]| < mps || n == 1 then Some((ps[0], ps[1..]))
    else match Fill(ps[1..], n - 1, mps)
         case None => None
         case Some((data, rest)) => Some((ps[0] + data, rest))
  }

  /** The data of the completed IN transfers, each with room for n packets, in order. */
  function Drain(ps: seq<Bytes>, n: nat, mps: nat): seq<Bytes>
    requires n > 0
    decreases |ps|
  {
    match Fill(ps, n, mps)
    case None => []
    case Some((data, rest)) => [data] + Drain(rest, n, mps)
  }

  /** The packets that no completed transfer has taken. */
  function Leftover(ps: seq<Bytes>, n: nat, mps: nat): seq<Bytes>
    requires n > 0
    decreases |ps|
  {
    match Fill(ps, n, mps)
    case None => ps
    case Some((_, rest)) => Leftover(rest, n, mps)
  }

  lemma FullThenChunk(p: Bytes, data: Bytes, limit: nat)
    ensures Chunk(p + data, |p| + limit) == Plain(p) + Chunk(data, limit)
  {
    PlainConcat(p, data);
  }

  /** A full packet in front of a transfer that carries the packets after it. */
  lemma FullPacketFirst(p: Bytes, after: seq<Token>, data: Bytes, less: nat, rest: seq<Token>)
    requires after == Chunk(data, less) + rest
    ensures Chunk(p, |p|) + after == Chunk(p + data, less + |p|) + rest
  {
    FullThenChunk(p, data, less);
    assert Chunk(p, |p|) == Plain(p);
    hide Chunk, Plain;
    Assoc(Plain(p), Chunk(data, less), rest);
  }

  /** A completed transfer carries the tokens of the packets it took. */
  lemma {:induction false} FillCarriesPackets(ps: seq<Bytes>, n: nat, mps: nat)
    requires n > 0 && IsStream(ps, mps) && Fill(ps, n, mps).Some?
    ensures var (data, rest) := Fill(ps, n, mps).value;
            Chunks(ps, mps) == Chunk(data, Times(n, mps)) + Chunks(rest, mps)
    decreases |ps|
  {
    assert Times(n, mps) == Times(n - 1, mps) + mps;
    if |ps[0]| < mps || n == 1 {
    } else {
      FillCarriesPackets(ps[1..], n - 1, mps);
      var (data, rest) := Fill(ps[1..], n - 1, mps).value;
      hide Chunk, Times;
      FullPacketFirst(ps[0], Chunks(ps[1..], mps), data, Times(n - 1, mps), Chunks(rest, mps));
    }
  }

  /** A transfer that waits has got only full packets. */
  lemma {:induction false} WaitingHasFullPackets(ps: seq<Bytes>, n: nat, mps: nat)
    requires n > 0 && IsStream(ps, mps) && Fill(ps, n, mps) == None
    ensures forall i :: 0 <= i < |ps| ==> |ps[i]| == mps
    decreases |ps|
  {
    if ps != [] {
      WaitingHasFullPackets(ps[1..], n - 1, mps);
    }
  }

  /** Segmentation does not depend on the transfer size: for any packets, the completed transfers
      carry exactly the tokens of the packets that they took. */
  lemma {:induction false} DrainCarriesPackets(ps: seq<Bytes>, n: nat, mps: nat)
    requires n > 0 && IsStream(ps, mps)
    ensures Chunks(ps, mps) == Chunks(Drain(ps, n, mps), Times(n, mps)) + Chunks(Leftover(ps, n, mps), mps)
    decreases |ps|
  {
    if Fill(ps, n, mps).Some? {
      var (data, rest) := Fill(ps, n, mps).value;
      var more, left := Drain(rest, n, mps), Leftover(rest, n, mps);
      FillCarriesPackets(ps, n, mps);
      DrainCarriesPackets(rest, n, mps);
      ChunksCons(data, more, Times(n, mps));
      Assoc(Chunk(data, Times(n, mps)), Chunks(more, Times(n, mps)), Chunks(left, mps));
    }
  }

  /** What is left over is the end of the packets, and if there is any, the last packet is full. */
  lemma {:induction false} LeftoverIsFull(ps: seq<Bytes>, n: nat, mps: nat)
    requires n > 0 && IsStream(ps, mps)
    ensures Leftover(ps, n, mps) != [] ==> ps != [] && |ps[|ps| - 1]| == mps
    decreases |ps|
  {
    match Fill(ps, n, mps) {
      case None => WaitingHasFullPackets(ps, n, mps);
      case Some((data, rest)) => LeftoverIsFull(rest, n, mps);
    }
  }

  /** When the last packet is short, no packet is left waiting. */
  lemma NothingLeftAfterShortPacket(ps: seq<Bytes>, n: nat, mps: nat)
    requires n > 0 && IsStream(ps, mps)
    requires ps != [] ==> |ps[|ps| - 1]| < mps
    ensures Chunks(Drain(ps, n, mps), Times(n, mps)) == Chunks(ps, mps)
  {
    DrainCarriesPackets(ps, n, mps);
    LeftoverIsFull(ps, n, mps);
    assert Chunks(ps, mps) == Chunks(Drain(ps, n, mps), Times(n, mps)) + [];
  }

  // -------- Messages --------

  function MessageTokens(ms: seq<Bytes>): seq<Token> {
    if ms == [] then [] else Plain(ms[0]) + [End] + MessageTokens(ms[1..])
  }

  /** Cut tokens into the finished messages and the unfinished one. */
  function Split(ts: seq<Token>): (r: (seq<Bytes>, Bytes)) {
    if ts == [] then ([], [])
    else
      var (done, open) := Split(ts[..|ts| - 1]);
      match ts[|ts| - 1]
      case Data(b) => (done, open + [b])
      case End => (done + [open], [])
  }

  lemma {:induction false} SplitPlain(ts: seq<Token>, s: Bytes)
    ensures Split(ts + Plain(s)) == (Split(ts).0, Split(ts).1 + s)
  {
    if s == [] {
      assert ts + Plain(s) == ts;
      assert Split(ts).1 + s == Split(ts).1;
    } else {
      var n := |s| - 1;
      assert (ts + Plain(s))[..|ts| + n] == ts + Plain(s[..n]);
      SplitPlain(ts, s[..n]);
      assert Split(ts).1 + s == Split(ts).1 + s[..n] + [s[n]];
    }
  }

  lemma {:induction false} MessageTokensAppend(ms: seq<Bytes>, m: Bytes)
    ensures MessageTokens(ms + [m]) == MessageTokens(ms) + Plain(m) + [End]
  {
    if ms == [] {
      assert [m][1..] == [];
    } else {
      assert (ms + [m])[1..] == ms[1..] + [m];
      MessageTokensAppend(ms[1..], m);
    }
  }

  lemma {:induction false} MessageTokensConcat(a: seq<Bytes>, b: seq<Bytes>)
    ensures MessageTokens(a + b) == MessageTokens(a) + MessageTokens(b)
  {
    if a == [] {
      assert a + b == b;
    } else {
      assert (a + b)[1..] == a[1..] + b;
      MessageTokensConcat(a[1..], b);
    }
  }

  /** Some messages and a part of the next one are a part of all of them. */
  lemma MessageTokensPart(ms: seq<Bytes>, i: nat, done: nat)
    requires i < |ms| && done <= |ms[i]|
    ensures MessageTokens(ms[..i]) + Plain(ms[i][..done]) <= MessageTokens(ms)
  {
    assert ms == ms[..i] + ms[i..];
    MessageTokensConcat(ms[..i], ms[i..]);
    assert Plain(ms[i][..done]) <= Plain(ms[i]) <= MessageTokens(ms[i..]);
  }

  /** Every transfer carries something: data, or the end of a message. */
  lemma {:induction false} EachCarriesToken(ts: seq<Bytes>, mps: nat)
    requires mps > 0
    ensures |ts| <= |TransfersTokens(ts, mps)|
  {
    if ts != [] {
      EachCarriesToken(ts[1..], mps);
    }
  }

  /** Cutting the tokens of messages gives the messages back. */
  lemma {:induction false} SplitMessages(ms: seq<Bytes>)
    ensures Split(MessageTokens(ms)) == (ms, [])
  {
    if ms != [] {
      var n := |ms| - 1;
      var front := MessageTokens(ms[..n]);
      assert ms == ms[..n] + [ms[n]];
      MessageTokensAppend(ms[..n], ms[n]);
      SplitMessages(ms[..n]);
      SplitPlain(front, ms[n]);
      var ts := MessageTokens(ms);
      assert ts[..|ts| - 1] == front + Plain(ms[n]);
      assert [] + ms[n] == ms[n];
    }
  }

  /** A receiver that has seen only the first part of the tokens has the first messages, complete
      and unchanged, and a beginning of the next one. */
  lemma {:induction false} SplitPrefix(ms: seq<Bytes>, ts: seq<Token>)
    requires ts <= MessageTokens(ms)
    ensures var (done, open) := Split(ts);
            && done <= ms
            && (open == [] || (|done| < |ms| && open <= ms[|done|]))
            && (ts == MessageTokens(ms) ==> done == ms && open == [])
    decreases |ms|
  {
    SplitMessages(ms);
    if ms != [] && ts != MessageTokens(ms) {
      var n := |ms| - 1;
      var front := MessageTokens(ms[..n]);
      assert ms == ms[..n] + [ms[n]];
      MessageTokensAppend(ms[..n], ms[n]);
      hide Split, MessageTokens, Plain;
      if |ts| <= |front| {
        assert ts <= front;
        SplitPrefix(ms[..n], ts);
      } else {
        SplitMessages(ms[..n]);
        SplitPartial(front, ms[n], ts);
        assert ms[..n] <= ms;
      }
    }
  }

  lemma SplitPartial(front: seq<Token>, m: Bytes, ts: seq<Token>)
    requires |front| < |ts| && ts < front + Plain(m) + [End]
    ensures var k := |ts| - |front|; k <= |m| && Split(ts) == (Split(front).0, Split(front).1 + m[..k])
  {
    var k := |ts| - |front|;
    assert ts == front + Plain(m[..k]);
    SplitPlain(front, m[..k]);
  }

  /** The data of a token sequence: what a reader that ignores message ends returns. */
  function DataOf(ts: seq<Token>): Bytes {
    if ts == [] then []
    else DataOf(ts[..|ts| - 1]) + match ts[|ts| - 1] { case Data(b) => [b] case End => [] }
  }

  lemma {:induction false} DataOfConcat(a: seq<Token>, b: seq<Token>)
    ensures DataOf(a + b) == DataOf(a) + DataOf(b)
  {
    if b == [] {
      assert a + b == a;
    } else {
      assert (a + b)[..|a + b| - 1] == a + b[..|b| - 1];
      DataOfConcat(a, b[..|b| - 1]);
    }
  }

  lemma {:induction false} DataOfPlain(s: Bytes)
    ensures DataOf(Plain(s)) == s
  {
    if s != [] {
      assert Plain(s)[..|s| - 1] == Plain(s[..|s| - 1]);
      DataOfPlain(s[..|s| - 1]);
    }
  }

  function Concat(ps: seq<Bytes>): Bytes {
    if ps == [] then [] else ps[0] + Concat(ps[1..])
  }

  lemma DataOfChunk(p: Bytes, limit: nat)
    ensures DataOf(Chunk(p, limit)) == p
  {
    DataOfPlain(p);
    DataOfConcat(Plain(p), if |p| < limit then [End] else []);
  }

  /** A reader that ignores message ends returns the concatenation of the packets. */
  lemma {:induction false} DataOfChunks(ps: seq<Bytes>, limit: nat)
    ensures DataOf(Chunks(ps, limit)) == Concat(ps)
  {
    hide Chunk, DataOf;
    if ps != [] {
      DataOfChunks(ps[1..], limit);
      DataOfConcat(Chunk(ps[0], limit), Chunks(ps[1..], limit));
      DataOfChunk(ps[0], limit);
    } else {
      DataOfPlain([]);
      assert Plain([]) == [];
    }
  }
}
