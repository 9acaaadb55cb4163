/** The message nodes with their buffers, and the session that reads a header, then a body, then a header again.
    The session is tied to the reader of Framing, byte for byte. */
module FrameReader {
  import opened Wrappers
  import opened Framing

  function Zeros(n: nat): (z: seq<byte>)
    ensures |z| == n
  {
    seq(n, _ => 0)
  }

  // `part` written over `buffer` from position `at`.
  function Overwrite(buffer: seq<byte>, at: nat, part: seq<byte>): (r: seq<byte>)
    requires at + |part| <= |buffer|
    ensures |r| == |buffer|
  {
    buffer[..at] + part + buffer[at + |part|..]
  }

  // Container::resize
  function Resize(buffer: seq<byte>, n: nat): (r: seq<byte>)
    ensures |r| == n
  {
    if n <= |buffer| then buffer[..n] else buffer + Zeros(n - |buffer|)
  }

  class SendNode {
    var buffer: seq<byte>

    constructor (id: nat, body: seq<byte>, mode: Mode)
      ensures buffer == Encode(mode, Frame(id, body))
      ensures |buffer| == HeaderLength(mode) + |body| && buffer[HeaderLength(mode)..] == body
      ensures buffer[0] as nat == id / 0x100 % 0x100 && buffer[1] as nat == id % 0x100
      ensures mode == Normal ==>
                buffer[2] as nat == (|body| + 4) / 0x100 % 0x100 && buffer[3] as nat == (|body| + 4) % 0x100
      ensures mode == FileTransfer ==>
                && buffer[2] as nat == (|body| + 6) / 0x100_0000 % 0x100
                && buffer[3] as nat == (|body| + 6) / 0x1_0000 % 0x100
                && buffer[4] as nat == (|body| + 6) / 0x100 % 0x100 && buffer[5] as nat == (|body| + 6) % 0x100
    {
      EncodedHeader(mode, Frame(id, body));
      var length := |body| + HeaderLength(mode);
      var b := Resize([], length);
      b := Overwrite(b, 0, BigEndian(id, 2));
      b := Overwrite(b, 2, BigEndian(length, LengthBytes(mode)));
      b := Overwrite(b, HeaderLength(mode), body);
      buffer := b;
    }
  }

  class RecvNode {
    const mode: Mode
    var buffer: seq<byte>
    var id: nat
    var length: nat
    var curLength: nat

    constructor (mode: Mode)
      ensures this.mode == mode && id == 0 && length == HeaderLength(mode) && curLength == 0
      ensures |buffer| == HeaderLength(mode)
    {
      this.mode := mode;
      id, length, curLength := 0, HeaderLength(mode), 0;
      buffer := Zeros(HeaderLength(mode));
    }

    method UpdatePointerPos(increment: nat)
      modifies this`curLength
      ensures curLength == old(curLength) + increment
    {
      curLength := curLength + increment;
    }

    method GetId() returns (r: Option<nat>)
      requires |buffer| >= HeaderLength(mode)
      modifies this`id
      ensures curLength < HeaderLength(mode) ==> r == None && id == old(id)
      ensures curLength >= HeaderLength(mode) ==> r == Some(id) && id == FromBigEndian(buffer[..2])
      ensures curLength >= HeaderLength(mode) ==> id == buffer[0] as nat * 0x100 + buffer[1] as nat
    {
      ReadsTwoOrFour(buffer[..2]);
      if curLength < HeaderLength(mode) {
        return None;
      }
      id := FromBigEndian(buffer[..2]);
      r := Some(id);
    }

    method GetLength() returns (r: Option<nat>)
      requires |buffer| >= HeaderLength(mode)
      modifies this`buffer, this`length
      ensures curLength < HeaderLength(mode) ==> r == None && buffer == old(buffer) && length == old(length)
      ensures curLength >= HeaderLength(mode)
              ==> && length == FromBigEndian(old(buffer)[2..HeaderLength(mode)])
                  && r == Some(BodyLength(mode, length)) && buffer == Resize(old(buffer), length)
      ensures curLength >= HeaderLength(mode)
              ==> && length == (if mode == Normal then old(buffer)[2] as nat * 0x100 + old(buffer)[3] as nat
                                else old(buffer)[2] as nat * 0x100_0000 + old(buffer)[3] as nat * 0x1_0000
                                     + old(buffer)[4] as nat * 0x100 + old(buffer)[5] as nat)
                  && r == Some(if length >= HeaderLength(mode) then length - HeaderLength(mode)
                               else 0x1_0000_0000_0000_0000 - (HeaderLength(mode) - length))
                  && |buffer| == length && (forall i: nat :: i < length && i < |old(buffer)| ==> buffer[i] == old(buffer)[i])
    {
      ReadsTwoOrFour(buffer[2..HeaderLength(mode)]);
      if curLength < HeaderLength(mode) {
        return None;
      }
      length := FromBigEndian(buffer[2..HeaderLength(mode)]);
      buffer := Resize(buffer, length);
      r := Some(BodyLength(mode, length));
    }

    method GetMsgBody() returns (r: Option<seq<byte>>)
      requires HeaderLength(mode) <= length == |buffer|
      ensures r == if curLength < length then None else Some(buffer[HeaderLength(mode)..])
    {
      if curLength < length {
        return None;
      }
      assert buffer[HeaderLength(mode)..length] == buffer[HeaderLength(mode)..];
      r := Some(buffer[HeaderLength(mode)..length]);
    }
  }

  // The task queue after some frames are committed to it: a frame that finds it longer than the limit is dropped.
  function Queued(queue: seq<Frame>, frames: seq<Frame>, limit: nat): seq<Frame> {
    if frames == [] then queue
    else
      var before := Queued(queue, frames[..|frames| - 1], limit);
      if |before| > limit then before else before + [frames[|frames| - 1]]
  }

  lemma {:induction false} QueuedConcat(queue: seq<Frame>, a: seq<Frame>, b: seq<Frame>, limit: nat)
    ensures Queued(queue, a + b, limit) == Queued(Queued(queue, a, limit), b, limit)
  {
    if b == [] {
      assert a + b == a;
    } else {
      assert (a + b)[..|a + b| - 1] == a + b[..|b| - 1];
      QueuedConcat(queue, a, b[..|b| - 1], limit);
    }
  }

  /** Without a thread taking tasks the queue keeps exactly the first frames, one more than its limit. */
  lemma {:induction false} QueueKeepsFirst(frames: seq<Frame>, limit: nat)
    ensures Queued([], frames, limit) == frames[..if |frames| <= limit then |frames| else limit + 1]
  {
    if frames != [] {
      var k := |frames| - 1;
      QueueKeepsFirst(frames[..k], limit);
      assert frames == frames[..k] + [frames[k]];
    }
  }

  class SyncLogic {
    const limit: nat
    var queue: seq<Frame>

    constructor (limit: nat)
      ensures this.limit == limit && queue == []
    {
      this.limit, queue := limit, [];
    }

    method Commit(f: Frame)
      modifies this
      ensures queue == Queued(old(queue), [f], limit)
    {
      if |queue| > limit {
        return;
      }
      queue := queue + [f];
    }
  }

  /** The receiving half of a session.  `arrived` is what the composed read under way has got so far. */
  class Session {
    const limits: Limits
    const logic: SyncLogic
    var recvBuffer: RecvNode
    var readingBody: bool
    var arrived: seq<byte>
    var purged: bool
    var committed: seq<Frame>

    ghost predicate Valid()
      reads this, recvBuffer
    {
      && Sane(limits) && recvBuffer.mode == limits.mode
      && (!purged && !readingBody
          ==> && recvBuffer.curLength == 0 && |recvBuffer.buffer| == HeaderLength(limits.mode)
              && |arrived| < HeaderLength(limits.mode))
      && (!purged && readingBody
          ==> && recvBuffer.curLength == HeaderLength(limits.mode)
              && recvBuffer.length == |recvBuffer.buffer| > HeaderLength(limits.mode)
              && |arrived| < recvBuffer.length - HeaderLength(limits.mode))
    }

    ghost function View(): Reader
      reads this, recvBuffer
      requires Valid()
    {
      Reader(if purged then Purged
             else if readingBody then Body(recvBuffer.id, recvBuffer.length - HeaderLength(limits.mode), arrived)
             else Header(arrived), committed)
    }

    constructor (limits: Limits, logic: SyncLogic)
      requires Sane(limits)
      ensures Valid() && View() == FRESH && this.limits == limits && this.logic == logic && fresh(recvBuffer)
    {
      this.limits, this.logic := limits, logic;
      recvBuffer := new RecvNode(limits.mode);
      readingBody, arrived, purged, committed := false, [], false, [];
    }

    // purgeRemoveConnection, as far as reading is concerned.
    method Purge()
      modifies this
      requires Sane(limits) && recvBuffer.mode == limits.mode
      ensures Valid() && View() == Reader(Purged, old(committed)) && recvBuffer == old(recvBuffer)
    {
      purged := true;
    }

    // The composed read of a header ended with `bytes` in the buffer, or failed.
    method HandleHeader(failed: bool, bytes: seq<byte>)
      requires Sane(limits) && recvBuffer.mode == limits.mode && !purged && !readingBody
      requires recvBuffer.curLength == 0 && |recvBuffer.buffer| == HeaderLength(limits.mode) >= |bytes|
      modifies this, recvBuffer, logic
      ensures Valid() && (recvBuffer == old(recvBuffer) || fresh(recvBuffer))
      ensures View() == if failed || |bytes| < HeaderLength(limits.mode) then Reader(Purged, old(committed))
                        else OnHeader(limits, bytes, old(committed))
      ensures old(committed) <= committed
      ensures logic.queue == Queued(old(logic.queue), committed[|old(committed)|..], logic.limit)
    {
      if failed {
        Purge();
        return;
      }
      recvBuffer.buffer := Overwrite(recvBuffer.buffer, 0, bytes);
      recvBuffer.UpdatePointerPos(|bytes|);
      if recvBuffer.curLength < HeaderLength(limits.mode) {
        Purge();
        return;
      }
      assert recvBuffer.buffer == bytes;
      var length := ParseHeader(bytes);
      if length == None {
        Purge();
        return;
      }
      readingBody, arrived := true, [];
      if length.value == 0 {
        // a read of nothing completes at once
        HandleMsgBody(false, []);
      }
    }

    // The checks on a complete header: the length of the body to read, if the frame is let through.
    method ParseHeader(ghost bytes: seq<byte>) returns (length: Option<nat>)
      requires Sane(limits) && recvBuffer.mode == limits.mode && recvBuffer.curLength == HeaderLength(limits.mode)
      requires recvBuffer.buffer == bytes && |bytes| == HeaderLength(limits.mode)
      modifies recvBuffer
      ensures recvBuffer.curLength == old(recvBuffer.curLength)
      ensures var n := Narrowed(limits.mode, BodyLength(limits.mode, FromBigEndian(bytes[2..])));
              if FromBigEndian(bytes[..2]) >= limits.idLimit || n > limits.maxLength then length == None
              else && length == Some(n) && recvBuffer.id == FromBigEndian(bytes[..2])
                   && recvBuffer.length == |recvBuffer.buffer| == HeaderLength(limits.mode) + n
    {
      var id := recvBuffer.GetId();
      if id == None || id.value >= limits.idLimit {
        return None;
      }
      assert bytes[2..HeaderLength(limits.mode)] == bytes[2..];
      var full := recvBuffer.GetLength();
      if full == None || Narrowed(limits.mode, full.value) > limits.maxLength {
        return None;
      }
      DecodedLimit(limits, bytes[2..]);
      AcceptedLength(limits, recvBuffer.length);
      length := Some(Narrowed(limits.mode, full.value));
    }

    static lemma DecodedLimit(l: Limits, s: seq<byte>)
      requires |s| == LengthBytes(l.mode)
      ensures FromBigEndian(s) < Limit(l.mode)
    {
      DecodedBelow(s);
      Ranges();
    }

    // The composed read of a body ended with `bytes`, or failed; the next read is for a header again.
    method HandleMsgBody(failed: bool, bytes: seq<byte>)
      requires Sane(limits) && recvBuffer.mode == limits.mode && !purged
      requires recvBuffer.curLength == HeaderLength(limits.mode)
      requires recvBuffer.length == |recvBuffer.buffer| >= HeaderLength(limits.mode) + |bytes|
      modifies this, recvBuffer, logic
      ensures Valid() && (recvBuffer == old(recvBuffer) || fresh(recvBuffer))
      ensures View() == if failed || HeaderLength(limits.mode) + |bytes| < old(recvBuffer.length)
                        then Reader(Purged, old(committed))
                        else OnBody(old(recvBuffer.id), bytes, old(committed))
      ensures old(committed) <= committed
      ensures logic.queue == Queued(old(logic.queue), committed[|old(committed)|..], logic.limit)
    {
      if failed {
        Purge();
        return;
      }
      recvBuffer.buffer := Overwrite(recvBuffer.buffer, HeaderLength(limits.mode), bytes);
      recvBuffer.UpdatePointerPos(|bytes|);
      if recvBuffer.curLength < recvBuffer.length {
        Purge();
        return;
      }
      var body := recvBuffer.GetMsgBody();
      assert body.value == bytes;
      logic.Commit(Frame(recvBuffer.id, body.value));
      committed := committed + [Frame(recvBuffer.id, body.value)];
      recvBuffer := new RecvNode(limits.mode);
      readingBody, arrived := false, [];
    }

    // How much the composed read under way still wants.
    function Missing(): (n: nat)
      requires Valid() && !purged
      reads this, recvBuffer
      ensures n > 0
    {
      (if readingBody then recvBuffer.length - HeaderLength(limits.mode) else HeaderLength(limits.mode)) - |arrived|
    }

    // One piece for the read under way, at most what it wants.
    method Arrive(piece: seq<byte>)
      requires Valid() && !purged && |piece| <= Missing()
      modifies this, recvBuffer, logic
      ensures Valid() && (recvBuffer == old(recvBuffer) || fresh(recvBuffer))
      ensures View() == FeedAll(limits, old(View()), piece)
      ensures old(committed) <= committed
      ensures logic.queue == Queued(old(logic.queue), committed[|old(committed)|..], logic.limit)
    {
      ghost var before := View();
      if readingBody {
        CollectBody(limits, committed, recvBuffer.id, recvBuffer.length - HeaderLength(limits.mode), arrived, piece);
      } else {
        CollectHeader(limits, committed, arrived, piece);
      }
      var complete := |piece| == Missing();
      arrived := arrived + piece;
      if complete {
        if readingBody {
          HandleMsgBody(false, arrived);
        } else {
          HandleHeader(false, arrived);
        }
      }
    }

    // The read under way takes what it wants of the bytes from `taken` on.
    method TakePiece(bytes: seq<byte>, taken: nat, ghost start: Reader) returns (next: nat)
      requires Valid() && !purged && taken < |bytes| && View() == FeedAll(limits, start, bytes[..taken])
      modifies this, recvBuffer, logic
      ensures Valid() && (recvBuffer == old(recvBuffer) || fresh(recvBuffer))
      ensures taken < next <= |bytes| && View() == FeedAll(limits, start, bytes[..next])
      ensures old(committed) <= committed
      ensures logic.queue == Queued(old(logic.queue), committed[|old(committed)|..], logic.limit)
    {
      var n := if Missing() < |bytes| - taken then Missing() else |bytes| - taken;
      FeedNext(limits, start, bytes, taken, n);
      Arrive(bytes[taken..taken + n]);
      next := taken + n;
    }

    /** Bytes reach the socket in pieces of any size; the composed reads take what they want of each. */
    method Receive(bytes: seq<byte>)
      requires Valid()
      modifies this, recvBuffer, logic
      ensures Valid() && View() == FeedAll(limits, old(View()), bytes)
      ensures old(committed) <= committed
      ensures logic.queue == Queued(old(logic.queue), committed[|old(committed)|..], logic.limit)
    {
      ghost var start := View();
      var taken := 0;
      while taken < |bytes| && !purged
        invariant Valid() && taken <= |bytes| && (recvBuffer == old(recvBuffer) || fresh(recvBuffer))
        invariant View() == FeedAll(limits, start, bytes[..taken])
        invariant old(committed) <= committed
        invariant logic.queue == Queued(old(logic.queue), committed[|old(committed)|..], logic.limit)
        decreases |bytes| - taken
      {
        ghost var earlier := committed;
        taken := TakePiece(bytes, taken, start);
        CommittedConcat(old(logic.queue), old(committed), earlier, committed, logic.limit);
      }
      if purged {
        FeedNext(limits, start, bytes, taken, |bytes| - taken);
        PurgedStays(limits, View(), bytes[taken..taken + (|bytes| - taken)]);
      }
      assert bytes[..|bytes|] == bytes;
    }
  }

  lemma CommittedConcat(queue: seq<Frame>, a: seq<Frame>, b: seq<Frame>, c: seq<Frame>, limit: nat)
    requires a <= b <= c
    ensures Queued(Queued(queue, b[|a|..], limit), c[|b|..], limit) == Queued(queue, c[|a|..], limit)
  {
    QueuedConcat(queue, b[|a|..], c[|b|..], limit);
    assert b[|a|..] + c[|b|..] == c[|a|..];
  }

  lemma FeedNext(l: Limits, r: Reader, s: seq<byte>, i: nat, n: nat)
    requires i + n <= |s|
    ensures FeedAll(l, FeedAll(l, r, s[..i]), s[i..i + n]) == FeedAll(l, r, s[..i + n])
  {
    FeedConcat(l, r, s[..i], s[i..i + n]);
    assert s[..i] + s[i..i + n] == s[..i + n];
  }

  lemma {:induction false} PurgedStays(l: Limits, r: Reader, s: seq<byte>)
    requires r.stage.Purged?
    ensures FeedAll(l, r, s) == r
  {
    if s != [] {
      PurgedStays(l, r, s[..|s| - 1]);
    }
  }
}
