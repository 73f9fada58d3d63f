// Cutting the byte stream of a connection into messages, and sending messages in
// pieces (src/net.cpp, src/net.h).

module Receiving {
  import opened Basics

  type Byte = x: int | 0 <= x < 256

  const HEADER_SIZE := 24
  const MAX_SIZE := 0x02000000
  const MAX_PROTOCOL_MESSAGE_LENGTH := 4 * 1000 * 1000

  // CNetMessage: the header bytes and the data bytes received so far, and once the header
  // is complete (in_data) the size it announces.
  datatype NetMessage = NetMessage(inData: bool, header: seq<Byte>, size: nat, data: seq<Byte>)

  const EMPTY := NetMessage(false, [], 0, [])

  predicate Complete(m: NetMessage) {
    m.inData && |m.data| == m.size
  }

  // The size in a header of 24 bytes, or None where it cannot be read.
  type Reader = seq<Byte> -> Option<nat>

  // What a call leaves behind: the messages, and whether the connection goes on.
  datatype Outcome = Outcome(ok: bool, msgs: seq<NetMessage>)

  // ---- byte by byte ----

  // The messages with an unfinished one at the end.
  function Opened(msgs: seq<NetMessage>): (r: seq<NetMessage>)
    ensures r != []
  {
    if msgs == [] || Complete(msgs[|msgs| - 1]) then msgs + [EMPTY] else msgs
  }

  function Back(msgs: seq<NetMessage>, m: NetMessage): seq<NetMessage>
    requires msgs != []
  {
    msgs[|msgs| - 1 := m]
  }

  // A message whose header has just become complete.
  function HeaderDone(m: NetMessage, read: Reader): (bool, NetMessage) {
    var size := read(m.header);
    if size.None? || size.value > MAX_SIZE then (false, m)
    else (size.value <= MAX_PROTOCOL_MESSAGE_LENGTH, m.(inData := true, size := size.value))
  }

  function Feed(msgs: seq<NetMessage>, b: Byte, read: Reader): Outcome {
    var open := Opened(msgs);
    var m := open[|open| - 1];
    if m.inData then Outcome(true, Back(open, m.(data := m.data + [b])))
    else
      var more := m.(header := m.header + [b]);
      if |more.header| < HEADER_SIZE then Outcome(true, Back(open, more))
      else
        var (ok, m') := HeaderDone(more, read);
        Outcome(ok, Back(open, m'))
  }

  ghost function FeedAll(msgs: seq<NetMessage>, bytes: seq<Byte>, read: Reader): Outcome
    decreases |bytes|
  {
    if bytes == [] then Outcome(true, msgs)
    else
      var first := Feed(msgs, bytes[0], read);
      if !first.ok then first else FeedAll(first.msgs, bytes[1..], read)
  }

  lemma {:induction false} FeedAppend(msgs: seq<NetMessage>, a: seq<Byte>, b: seq<Byte>, read: Reader)
    ensures FeedAll(msgs, a + b, read) ==
      if FeedAll(msgs, a, read).ok then FeedAll(FeedAll(msgs, a, read).msgs, b, read) else FeedAll(msgs, a, read)
    decreases |a|
  {
    hide Feed;
    if a == [] {
      assert a + b == b;
    } else {
      assert (a + b)[0] == a[0] && (a + b)[1..] == a[1..] + b;
      var first := Feed(msgs, a[0], read);
      if first.ok {
        FeedAppend(first.msgs, a[1..], b, read);
      }
    }
  }

  // Messages as they are between calls: all but the last are complete, and the last has
  // room for what is still to come.
  ghost predicate MsgOk(m: NetMessage) {
    if m.inData then |m.data| <= m.size else |m.header| < HEADER_SIZE && m.data == []
  }

  ghost predicate MsgsOk(msgs: seq<NetMessage>) {
    && (forall i :: 0 <= i < |msgs| ==> MsgOk(msgs[i]))
    && (forall i :: 0 <= i < |msgs| - 1 ==> Complete(msgs[i]))
  }

  // ---- the limit on sizes ----

  // A message of which only part of the header is there, or one with the size that its header
  // announces, at most four million.
  ghost predicate Admitted(m: NetMessage, read: Reader) {
    if m.inData then |m.header| == 24 && read(m.header) == Some(m.size) && m.size <= 4_000_000 else |m.header| < 24
  }

  ghost predicate AllAdmitted(msgs: seq<NetMessage>, read: Reader) {
    forall i :: 0 <= i < |msgs| ==> Admitted(msgs[i], read)
  }

  // A header that is complete and announces nothing, or too much.
  ghost predicate Refused(m: NetMessage, read: Reader) {
    |m.header| == 24 && (read(m.header).Some? ==> read(m.header).value > 4_000_000)
  }

  lemma {:induction false} FeedAdmits(msgs: seq<NetMessage>, b: Byte, read: Reader)
    requires AllAdmitted(msgs, read)
    ensures var r := Feed(msgs, b, read);
            && r.msgs != []
            && (if r.ok then AllAdmitted(r.msgs, read) else Refused(r.msgs[|r.msgs| - 1], read))
  {
    assert AllAdmitted(Opened(msgs), read);
  }

  // A stream that was not rejected has only messages within the limit, and one that was rejected
  // ends with a header that announces nothing or too much.
  lemma {:induction false} StreamAdmits(msgs: seq<NetMessage>, bytes: seq<Byte>, read: Reader)
    requires AllAdmitted(msgs, read)
    ensures var r := FeedAll(msgs, bytes, read);
            if r.ok then AllAdmitted(r.msgs, read) else r.msgs != [] && Refused(r.msgs[|r.msgs| - 1], read)
    decreases |bytes|
  {
    hide Feed, AllAdmitted, Refused;
    if bytes != [] {
      FeedAdmits(msgs, bytes[0], read);
      var first := Feed(msgs, bytes[0], read);
      if first.ok {
        StreamAdmits(first.msgs, bytes[1..], read);
      }
    }
  }

  // ---- in runs ----

  // Bytes that do not finish the header only go into it.
  lemma {:induction false} FeedHeader(msgs: seq<NetMessage>, bytes: seq<Byte>, read: Reader)
    requires bytes != []
    requires var m := Opened(msgs)[|Opened(msgs)| - 1]; !m.inData && |m.header| + |bytes| <= HEADER_SIZE
    ensures var open := Opened(msgs);
            var more := open[|open| - 1].(header := open[|open| - 1].header + bytes);
            FeedAll(msgs, bytes, read) ==
            if |more.header| < HEADER_SIZE then Outcome(true, Back(open, more))
            else Outcome(HeaderDone(more, read).0, Back(open, HeaderDone(more, read).1))
    decreases |bytes|
  {
    hide HeaderDone;
    var open := Opened(msgs);
    var m := open[|open| - 1];
    var first := Feed(msgs, bytes[0], read);
    assert m.header + bytes == (m.header + [bytes[0]]) + bytes[1..];
    if |bytes| > 1 {
      assert first.ok && first.msgs == Back(open, m.(header := m.header + [bytes[0]]));
      assert Opened(first.msgs) == first.msgs;
      FeedHeader(first.msgs, bytes[1..], read);
    } else {
      assert bytes == [bytes[0]] && bytes[1..] == [];
    }
  }

  // Bytes up to the announced size only go into the data.
  lemma {:induction false} FeedData(msgs: seq<NetMessage>, bytes: seq<Byte>, read: Reader)
    requires bytes != [] && msgs != []
    requires var m := msgs[|msgs| - 1]; m.inData && |m.data| + |bytes| <= m.size
    ensures var m := msgs[|msgs| - 1];
            FeedAll(msgs, bytes, read) == Outcome(true, Back(msgs, m.(data := m.data + bytes)))
    decreases |bytes|
  {
    hide HeaderDone;
    var m := msgs[|msgs| - 1];
    assert Opened(msgs) == msgs;
    var first := Feed(msgs, bytes[0], read);
    assert m.data + bytes == (m.data + [bytes[0]]) + bytes[1..];
    assert first.msgs == Back(msgs, m.(data := m.data + [bytes[0]]));
    if |bytes| > 1 {
      FeedData(first.msgs, bytes[1..], read);
    } else {
      assert bytes == [bytes[0]] && bytes[1..] == [];
    }
  }

  class Receiver {
    const read: Reader
    var vRecvMsg: seq<NetMessage>

    constructor (read: Reader)
      ensures vRecvMsg == [] && this.read == read
    {
      this.read := read;
      vRecvMsg := [];
    }

    // The part of a chunk that one turn of the loop handles.
    method Absorb(chunk: seq<Byte>) returns (ok: bool, handled: nat)
      requires MsgsOk(vRecvMsg) && chunk != []
      modifies this
      ensures 1 <= handled <= |chunk| && Outcome(ok, vRecvMsg) == FeedAll(old(vRecvMsg), chunk[..handled], read)
      ensures ok ==> MsgsOk(vRecvMsg)
    {
      hide FeedAll;
      ghost var before := vRecvMsg;
      vRecvMsg := Opened(vRecvMsg);
      assert MsgsOk(vRecvMsg) && Opened(vRecvMsg) == vRecvMsg;
      var m := vRecvMsg[|vRecvMsg| - 1];
      var remaining := if m.inData then m.size - |m.data| else HEADER_SIZE - |m.header|;
      handled := if remaining < |chunk| then remaining else |chunk|;
      var bytes := chunk[..handled];
      ok := true;
      if m.inData {
        assert before == vRecvMsg;
        FeedData(before, bytes, read);
        m := m.(data := m.data + bytes);
      } else {
        FeedHeader(before, bytes, read);
        m := m.(header := m.header + bytes);
        if |m.header| == HEADER_SIZE {
          var done := HeaderDone(m, read);
          ok, m := done.0, done.1;
        }
      }
      vRecvMsg := Back(vRecvMsg, m);
    }

    method ReceiveMsgBytes(chunk: seq<Byte>) returns (ok: bool)
      requires MsgsOk(vRecvMsg)
      modifies this
      ensures Outcome(ok, vRecvMsg) == FeedAll(old(vRecvMsg), chunk, read) && (ok ==> MsgsOk(vRecvMsg))
    {
      hide MsgsOk, FeedAll;
      ghost var before := vRecvMsg;
      var p := 0;
      ok := true;
      assert chunk[..0] == [] && FeedAll(before, [], read) == Outcome(true, before) by { FeedNothing(before, read); }
      while p < |chunk|
        invariant 0 <= p <= |chunk| && ok && MsgsOk(vRecvMsg)
        invariant Outcome(true, vRecvMsg) == FeedAll(before, chunk[..p], read)
        decreases |chunk| - p
      {
        var handled;
        var rest := chunk[p..];
        ok, handled := Absorb(rest);
        FeedAppend(before, chunk[..p], rest[..handled], read);
        assert chunk[..p] + rest[..handled] == chunk[..p + handled];
        if !ok {
          FeedAppend(before, chunk[..p + handled], chunk[p + handled..], read);
          assert chunk[..p + handled] + chunk[p + handled..] == chunk;
          return;
        }
        p := p + handled;
      }
      assert chunk[..p] == chunk;
    }

    // However a stream is cut into chunks, the messages are those of the stream.
    method ReceiveAll(chunks: seq<seq<Byte>>) returns (ok: bool)
      requires MsgsOk(vRecvMsg)
      modifies this
      ensures Outcome(ok, vRecvMsg) == FeedAll(old(vRecvMsg), Concat(chunks), read)
    {
      hide MsgsOk, FeedAll;
      ghost var before := vRecvMsg;
      ok := true;
      var i := 0;
      assert FeedAll(before, Concat(chunks[..0]), read) == Outcome(true, before) by { FeedNothing(before, read); }
      while i < |chunks|
        invariant 0 <= i <= |chunks| && ok && MsgsOk(vRecvMsg)
        invariant Outcome(true, vRecvMsg) == FeedAll(before, Concat(chunks[..i]), read)
      {
        ok := ReceiveMsgBytes(chunks[i]);
        ConcatNext(chunks, i);
        FeedAppend(before, Concat(chunks[..i]), chunks[i], read);
        if !ok {
          ConcatSplit(chunks, i + 1);
          FeedAppend(before, Concat(chunks[..i + 1]), Concat(chunks[i + 1..]), read);
          return;
        }
        i := i + 1;
      }
      assert chunks[..i] == chunks;
    }
  }

  lemma {:induction false} FeedNothing(msgs: seq<NetMessage>, read: Reader)
    ensures FeedAll(msgs, [], read) == Outcome(true, msgs) && Concat<Byte>([]) == []
  {
  }

  function Concat<T>(chunks: seq<seq<T>>): seq<T> {
    if chunks == [] then [] else Concat(chunks[..|chunks| - 1]) + chunks[|chunks| - 1]
  }

  lemma {:induction false} ConcatNext<T>(chunks: seq<seq<T>>, i: nat)
    requires i < |chunks|
    ensures Concat(chunks[..i + 1]) == Concat(chunks[..i]) + chunks[i]
  {
    assert chunks[..i + 1][..i] == chunks[..i];
  }

  lemma {:induction false} ConcatSplit<T>(chunks: seq<seq<T>>, i: nat)
    requires i <= |chunks|
    ensures Concat(chunks) == Concat(chunks[..i]) + Concat(chunks[i..])
  {
    if i < |chunks| {
      var n := |chunks| - 1;
      ConcatSplit(chunks[..n], i);
      assert chunks[..n][..i] == chunks[..i] && chunks[..n][i..] == chunks[i..][..n - i];
      assert chunks[i..][n - i] == chunks[n];
      assert Concat(chunks[..i]) + (Concat(chunks[i..][..n - i]) + chunks[n])
          == (Concat(chunks[..i]) + Concat(chunks[i..][..n - i])) + chunks[n];
    } else {
      assert chunks[..i] == chunks;
    }
  }
}

module Sending {
  import opened Basics
  import opened Receiving

  ghost function Flat(queue: seq<seq<Byte>>): seq<Byte> {
    if queue == [] then [] else queue[0] + Flat(queue[1..])
  }

  // The bytes still to be sent, when offset bytes of the first entry are gone.
  ghost function Rest(queue: seq<seq<Byte>>, offset: nat): seq<Byte>
    requires queue != [] ==> offset <= |queue[0]|
  {
    if queue == [] then [] else queue[0][offset..] + Flat(queue[1..])
  }

  lemma {:induction false} FlatAppend(a: seq<seq<Byte>>, b: seq<seq<Byte>>)
    ensures Flat(a + b) == Flat(a) + Flat(b)
  {
    if a == [] {
      assert a + b == b;
    } else {
      FlatAppend(a[1..], b);
      FlatHead(a[0], a[1..] + b);
      assert a + b == [a[0]] + (a[1..] + b);
      assert Flat(a) == a[0] + Flat(a[1..]);
      hide Flat;
      SameBytes([], a[0], Flat(a[1..]), Flat(b));
    }
  }

  lemma {:induction false} FlatHead(x: seq<Byte>, rest: seq<seq<Byte>>)
    ensures Flat([x] + rest) == x + Flat(rest)
  {
    assert ([x] + rest)[1..] == rest;
  }

  lemma {:induction false} RestAppend(a: seq<seq<Byte>>, b: seq<seq<Byte>>, offset: nat)
    requires if a == [] then offset == 0 else offset <= |a[0]|
    ensures Rest(a + b, offset) == Rest(a, offset) + Flat(b)
  {
    if a == [] {
      assert a + b == b;
      if b != [] {
        assert b[0][0..] == b[0];
      }
    } else {
      FlatAppend(a[1..], b);
      hide Flat;
      assert (a + b)[1..] == a[1..] + b && (a + b)[0] == a[0];
      assert a[0][offset..] + (Flat(a[1..]) + Flat(b)) == (a[0][offset..] + Flat(a[1..])) + Flat(b);
    }
  }

  // A queue, what was sent and what was pushed fit together.
  ghost predicate Sends(queue: seq<seq<Byte>>, offset: nat, sent: seq<Byte>, pushed: seq<Byte>, size: int) {
    QueueOk(queue, offset) && sent + Rest(queue, offset) == pushed && size == |Flat(queue)|
  }

  ghost predicate QueueOk(queue: seq<seq<Byte>>, offset: nat) {
    && (forall i :: 0 <= i < |queue| ==> queue[i] != [])
    && (if queue == [] then offset == 0 else offset < |queue[0]|)
  }

  // How many bytes the socket takes, when send() answers with these numbers in turn and would
  // block after them: entry by entry, until an answer falls short of one.
  ghost function Taken(queue: seq<seq<Byte>>, offset: nat, results: seq<int>): nat {
    if queue == [] || offset >= |queue[0]| || results == [] || results[0] <= 0 then 0
    else
      var room := |queue[0]| - offset;
      if results[0] < room then results[0] else room + Taken(queue[1..], 0, results[1..])
  }

  // The answers from the k-th on.
  ghost function From(results: seq<int>, k: nat): seq<int> {
    if k <= |results| then results[k..] else []
  }

  // A socket that takes all it is given is given everything.
  lemma {:induction false} ReadySocketTakesAll(queue: seq<seq<Byte>>, offset: nat, results: seq<int>)
    requires QueueOk(queue, offset) && |results| >= |queue|
    requires forall i :: 0 <= i < |queue| ==> results[i] >= |queue[i]|
    ensures Taken(queue, offset, results) == |Rest(queue, offset)|
  {
    if queue != [] {
      ReadySocketTakesAll(queue[1..], 0, results[1..]);
      RestAll(queue[1..]);
    }
  }

  // What happens to a sender; the answers are those of send() at that time.
  datatype Event = Push(header: seq<Byte>, data: seq<Byte>, answers: seq<int>) | Send(answers: seq<int>)

  class Sender {
    const nSendBufferMaxSize: nat
    var vSendMsg: seq<seq<Byte>>
    var nSendOffset: nat
    var nSendSize: int
    var fPauseSend: bool
    ghost var pushed: seq<Byte>
    ghost var sent: seq<Byte>

    // What was sent is a prefix of what was pushed, and the queue holds the rest.
    ghost predicate Valid()
      reads this
    {
      Sends(vSendMsg, nSendOffset, sent, pushed, nSendSize) && fPauseSend == (nSendSize > nSendBufferMaxSize)
    }

    constructor (maxSize: nat)
      ensures Valid() && nSendBufferMaxSize == maxSize && pushed == [] && sent == []
    {
      nSendBufferMaxSize := maxSize;
      vSendMsg, nSendOffset, nSendSize, fPauseSend := [], 0, 0, false;
      pushed, sent := [], [];
    }

    // Sends as long as the socket takes bytes: results are what send() answers in turn, and
    // once they run out it would block. The asserts on the offset and the size hold.
    method SocketSendData(results: seq<int>) returns (nSentSize: nat)
      requires Valid()
      modifies this
      ensures Valid() && pushed == old(pushed) && old(sent) <= sent && |sent| == |old(sent)| + nSentSize
      ensures nSentSize == Taken(old(vSendMsg), old(nSendOffset), results)
    {
      hide Sends, Taken, From;
      var it, k := 0, 0;
      nSentSize := 0;
      ghost var queue, total := vSendMsg, Taken(vSendMsg, nSendOffset, results);
      assert queue[0..] == queue && From(results, 0) == results by { FromStart(results); }
      while it < |vSendMsg|
        invariant 0 <= it <= |queue| && k == it && vSendMsg == queue && pushed == old(pushed)
        invariant Sends(queue[it..], nSendOffset, sent, pushed, nSendSize) && fPauseSend == (nSendSize > nSendBufferMaxSize)
        invariant old(sent) <= sent && |sent| == |old(sent)| + nSentSize
        invariant nSentSize + Taken(queue[it..], nSendOffset, From(results, it)) == total
        decreases |queue| - it
      {
        var data := vSendMsg[it];
        SendsFirst(queue[it..], nSendOffset, sent, pushed, nSendSize);
        TakenFirst(queue, it, nSendOffset, results);
        assert |data| > nSendOffset;
        var answer := if k < |results| then results[k] else 0;
        k := k + 1;
        if answer <= 0 {
          assert nSentSize == total;
          break;
        }
        var nBytes := if answer < |data| - nSendOffset then answer else |data| - nSendOffset;
        SendSome(queue[it..], nSendOffset, nBytes, sent, pushed, nSendSize);
        assert queue[it..][1..] == queue[it + 1..];
        sent := sent + data[nSendOffset..nSendOffset + nBytes];
        nSendOffset := nSendOffset + nBytes;
        nSentSize := nSentSize + nBytes;
        if nSendOffset < |data| {
          assert nSentSize == total;
          break;
        }
        nSendOffset := 0;
        nSendSize := nSendSize - |data|;
        fPauseSend := nSendSize > nSendBufferMaxSize;
        it := it + 1;
      }
      if it == |vSendMsg| {
        SendsNothing(queue[it..], nSendOffset, sent, pushed, nSendSize);
        TakenNothing(queue[it..], nSendOffset, From(results, it));
        assert nSendOffset == 0;
        assert nSendSize == 0;
      }
      vSendMsg := vSendMsg[it..];
    }

    // A header and the data after it; an empty queue is sent from at once.
    method PushMessage(header: seq<Byte>, data: seq<Byte>, results: seq<int>)
      requires Valid() && |header| == HEADER_SIZE
      modifies this
      ensures Valid() && pushed == old(pushed) + header + data && old(sent) <= sent
      ensures var entries := if data == [] then [header] else [header, data];
              |sent| == |old(sent)| + if old(vSendMsg) == [] then Taken(entries, 0, results) else 0
    {
      hide Flat, Rest;
      var optimisticSend := vSendMsg == [];
      var entries := if data == [] then [header] else [header, data];
      FlatEntries(header, data, entries);
      RestAppend(vSendMsg, entries, nSendOffset);
      FlatAppend(vSendMsg, entries);
      nSendSize := nSendSize + (|data| + HEADER_SIZE);
      if nSendSize > nSendBufferMaxSize {
        fPauseSend := true;
      }
      pushed := pushed + header + data;
      vSendMsg := vSendMsg + entries;
      assert sent + Rest(vSendMsg, nSendOffset) == pushed;
      if optimisticSend {
        assert vSendMsg == entries && nSendOffset == 0;
        var n := SocketSendData(results);
      }
    }

    // Over any run of pushes and sends, the bytes sent are a prefix of the messages pushed,
    // one after the other.
    method Run(events: seq<Event>)
      requires Valid() && forall i :: 0 <= i < |events| && events[i].Push? ==> |events[i].header| == HEADER_SIZE
      modifies this
      ensures Valid() && old(sent) <= sent <= pushed && pushed == old(pushed) + Stream(events)
    {
      hide Flat, Rest, Taken;
      var i := 0;
      while i < |events|
        invariant 0 <= i <= |events| && Valid() && old(sent) <= sent && pushed == old(pushed) + Stream(events[..i])
      {
        assert events[..i + 1][..i] == events[..i];
        match events[i] {
          case Push(header, data, answers) =>
            PushMessage(header, data, answers);
          case Send(answers) =>
            var n := SocketSendData(answers);
        }
        i := i + 1;
      }
      assert events[..i] == events;
    }
  }

  ghost function Stream(events: seq<Event>): seq<Byte> {
    if events == [] then []
    else
      var last := events[|events| - 1];
      Stream(events[..|events| - 1]) + if last.Push? then last.header + last.data else []
  }

  lemma {:induction false} TakenNothing(queue: seq<seq<Byte>>, offset: nat, results: seq<int>)
    requires queue == []
    ensures Taken(queue, offset, results) == 0
  {
  }

  lemma {:induction false} TakenFirst(queue: seq<seq<Byte>>, it: nat, offset: nat, results: seq<int>)
    requires it < |queue| && offset < |queue[it]|
    ensures var room := |queue[it]| - offset;
            Taken(queue[it..], offset, From(results, it)) ==
            if it >= |results| || results[it] <= 0 then 0
            else if results[it] < room then results[it]
            else room + Taken(queue[it + 1..], 0, From(results, it + 1))
  {
    assert queue[it..][1..] == queue[it + 1..];
    if it < |results| {
      assert results[it..][1..] == results[it + 1..];
    }
  }

  lemma {:induction false} FromStart(results: seq<int>)
    ensures From(results, 0) == results
  {
  }

  lemma {:induction false} SendsNothing(queue: seq<seq<Byte>>, offset: nat, sent: seq<Byte>, pushed: seq<Byte>, size: int)
    requires queue == [] && Sends(queue, offset, sent, pushed, size)
    ensures offset == 0 && size == 0
  {
  }

  lemma {:induction false} SendsFirst(queue: seq<seq<Byte>>, offset: nat, sent: seq<Byte>, pushed: seq<Byte>, size: int)
    requires queue != [] && Sends(queue, offset, sent, pushed, size)
    ensures offset < |queue[0]|
  {
  }

  lemma {:induction false} FlatEntries(header: seq<Byte>, data: seq<Byte>, entries: seq<seq<Byte>>)
    requires entries == if data == [] then [header] else [header, data]
    ensures Flat(entries) == header + data
  {
    if data != [] {
      assert entries[1..] == [data] && [data][1..] == [];
      assert Flat([data]) == data + [] == data;
    } else {
      assert entries[1..] == [] && header + [] == header + data;
    }
  }

  // Some bytes of the first entry move from the rest to what was sent.
  lemma {:induction false} SendSome(queue: seq<seq<Byte>>, offset: nat, n: nat, sent: seq<Byte>, pushed: seq<Byte>, size: int)
    requires queue != [] && offset + n <= |queue[0]| && Sends(queue, offset, sent, pushed, size)
    ensures offset + n < |queue[0]| ==> Sends(queue, offset + n, sent + queue[0][offset..offset + n], pushed, size)
    ensures offset + n == |queue[0]| ==>
      Sends(queue[1..], 0, sent + queue[0][offset..offset + n], pushed, size - |queue[0]|)
  {
    var a, b, c := queue[0][offset..offset + n], queue[0][offset + n..], Flat(queue[1..]);
    assert |Flat(queue)| == |queue[0]| + |c|;
    hide Flat;
    assert queue[0][offset..] == a + b;
    SameBytes(sent, a, b, c);
    if offset + n == |queue[0]| {
      assert b + c == c;
      assert Rest(queue[1..], 0) == c by { RestAll(queue[1..]); }
    }
  }

  lemma {:induction false} SameBytes(x: seq<Byte>, a: seq<Byte>, b: seq<Byte>, c: seq<Byte>)
    ensures x + a + (b + c) == x + ((a + b) + c) && a + (b + c) == (a + b) + c
  {
  }

  lemma {:induction false} RestAll(queue: seq<seq<Byte>>)
    ensures Rest(queue, 0) == Flat(queue)
  {
    if queue != [] {
      assert queue[0][0..] == queue[0];
    }
  }

  // ---- from one end to the other ----

  ghost function Pushed(events: seq<Event>): seq<NetMessage> {
    if events == [] then []
    else
      var last := events[|events| - 1];
      Pushed(events[..|events| - 1]) +
      if last.Push? then [NetMessage(true, last.header, |last.data|, last.data)] else []
  }

  // Every header announces the size of its data.
  ghost predicate Announced(events: seq<Event>, read: Reader) {
    forall i :: 0 <= i < |events| && events[i].Push? ==>
      && |events[i].header| == HEADER_SIZE && read(events[i].header) == Some(|events[i].data|)
      && |events[i].data| <= MAX_PROTOCOL_MESSAGE_LENGTH
  }

  lemma {:induction false} OneMessage(msgs: seq<NetMessage>, header: seq<Byte>, data: seq<Byte>, read: Reader)
    requires msgs == [] || Complete(msgs[|msgs| - 1])
    requires |header| == HEADER_SIZE && read(header) == Some(|data|) && |data| <= MAX_PROTOCOL_MESSAGE_LENGTH
    ensures FeedAll(msgs, header + data, read) == Outcome(true, msgs + [NetMessage(true, header, |data|, data)])
  {
    hide FeedAll, Feed;
    var open := Opened(msgs);
    var m := NetMessage(true, header, |data|, []);
    assert open == msgs + [EMPTY] && EMPTY.header + header == header;
    FeedHeader(msgs, header, read);
    assert Back(open, m) == msgs + [m];
    FeedAppend(msgs, header, data, read);
    if data == [] {
      FeedNothing(msgs + [m], read);
    } else {
      FeedData(msgs + [m], data, read);
      assert m.data + data == data;
      assert Back(msgs + [m], m.(data := data)) == msgs + [NetMessage(true, header, |data|, data)];
    }
  }

  // What was pushed is what arrives: a receiver that is fed the whole stream has exactly the
  // messages, each one complete.
  lemma {:induction false} StreamArrives(events: seq<Event>, read: Reader)
    requires Announced(events, read)
    ensures FeedAll([], Stream(events), read) == Outcome(true, Pushed(events))
    ensures forall i :: 0 <= i < |Pushed(events)| ==> Complete(Pushed(events)[i])
  {
    hide FeedAll;
    if events == [] {
      FeedNothing([], read);
    } else {
      var n := |events| - 1;
      var before, last := events[..n], events[n];
      StreamArrives(before, read);
      var piece := if last.Push? then last.header + last.data else [];
      FeedAppend([], Stream(before), piece, read);
      if last.Push? {
        OneMessage(Pushed(before), last.header, last.data, read);
      } else {
        FeedNothing(Pushed(before), read);
      }
    }
  }

  // A run at one end, and its bytes at the other, cut into any chunks: once all is sent, all
  // has arrived.
  method Deliver(sender: Sender, receiver: Receiver, events: seq<Event>, chunks: seq<seq<Byte>>) returns (ok: bool)
    requires sender.Valid() && sender.pushed == [] && receiver.vRecvMsg == [] && Announced(events, receiver.read)
    modifies sender, receiver
    ensures sender.sent == sender.pushed == Concat(chunks) ==> ok && receiver.vRecvMsg == Pushed(events)
  {
    hide Sender.Valid, FeedAll;
    sender.Run(events);
    assert MsgsOk(receiver.vRecvMsg);
    ok := receiver.ReceiveAll(chunks);
    StreamArrives(events, receiver.read);
    assert [] + Stream(events) == Stream(events);
  }
}
