/** What every run of one upload keeps, and what the server holds when it ends. */
module FileUploadSafety {
  import opened Wrappers
  import opened BlockCount
  import opened FileUpload

  // The sequence number of block i, counted from 0: the client's counter comes back to 1 after 2^32 blocks.
  function SeqNo(i: nat): nat {
    i % P32 + 1
  }

  function Upto(i: nat, chunk: nat, size: nat): nat {
    Min(i * chunk, size)
  }

  function Block(content: seq<byte>, chunk: nat, i: nat): seq<byte> {
    MulMonotone(i, i + 1, chunk);
    content[Upto(i, chunk, |content|)..Upto(i + 1, chunk, |content|)]
  }

  // The first block since the server last truncated the file, when w > 0 blocks are stored.
  function WrapStart(w: nat): nat
    requires w > 0
  {
    (w - 1) / P32 * P32
  }

  lemma WrapStartBelow(w: nat)
    requires w > 0
    ensures WrapStart(w) < w
  {
  }

  function Stored(content: seq<byte>, chunk: nat, w: nat): seq<byte>
    requires w > 0
  {
    WrapStartBelow(w);
    MulMonotone(WrapStart(w), w, chunk);
    content[Upto(WrapStart(w), chunk, |content|)..Upto(w, chunk, |content|)]
  }

  // The cur_size of block i, when the sender's accumulated count was acc at the start.
  function Reported(acc: int, size: nat, chunk: nat, n: nat, i: nat): int {
    (if i == 0 then acc else ToUInt(Reported(acc, size, chunk, n, i - 1))) + BlockSize(size, chunk, n, SeqNo(i))
  }

  lemma Offsets(size: nat, chunk: nat, n: nat, i: nat)
    requires chunk > 0 && n == Blocks(size, chunk) && i <= n
    ensures i < n ==> i * chunk < size && Upto(i, chunk, size) == i * chunk
    ensures i < n ==> Upto(i, chunk, size) < Upto(i + 1, chunk, size) == Min(i * chunk + chunk, size)
    ensures i == n ==> Upto(i, chunk, size) == size
    ensures i + 1 == n ==> size - (n - 1) * chunk == size - i * chunk <= chunk
  {
    BlocksBounds(size, chunk);
    assert (i + 1) * chunk == i * chunk + chunk;
    if i < n {
      MulMonotone(i, n - 1, chunk);
      assert n * chunk == (n - 1) * chunk + chunk;
    }
  }

  lemma SeqNoFacts(i: nat)
    ensures SeqNo(i) <= i + 1
    ensures SeqNo(i + 1) == ToUInt(SeqNo(i)) + 1
    ensures i < P32 ==> SeqNo(i) == i + 1
    ensures SeqNo(i) == 1 <==> i % P32 == 0
  {
  }

  ghost predicate SentAt(r: Request, content: seq<byte>, chunk: nat, acc: int, i: nat)
    requires chunk > 0
  {
    var n := Blocks(|content|, chunk);
    r == Request(SeqNo(i), n, Reported(acc, |content|, chunk, n, i), |content|, Block(content, chunk, i), SeqNo(i) == n)
  }

  ghost predicate LogOk(sent: seq<Request>, content: seq<byte>, chunk: nat, acc: int)
    requires chunk > 0
  {
    forall i: nat :: i < |sent| ==> SentAt(sent[i], content, chunk, acc, i)
  }

  ghost predicate SenderOk(s: Sender, content: seq<byte>, chunk: nat, sent: nat)
    requires chunk > 0
  {
    && s.content == content && s.fileSize == |content| && s.fileChunk == chunk
    && s.totalBlocks == Blocks(|content|, chunk) && s.pos == Upto(sent, chunk, |content|)
    && sent <= Blocks(|content|, chunk)
  }

  ghost predicate Sending(u: Upload) {
    var i := |u.sent|;
    i >= 1 && u.sender.open && u.requests == [u.sent[i - 1]] && u.answers == [] && u.written == i - 1
  }

  ghost predicate Answered(u: Upload) {
    var i := |u.sent|;
    && i >= 1 && u.sender.open && u.requests == [] && u.written == i
    && var r := u.sent[i - 1]; u.answers == [Done(r.curSeq, r.curSize, r.fileSize, r.eof)]
  }

  // The last block was refused; the sender waits for ever.
  ghost predicate Failed(u: Upload) {
    && u.sender.open && u.requests == [] && u.written + 1 == |u.sent|
    && (u.answers == [] || u.answers == [Refused])
  }

  ghost predicate Finished(u: Upload, n: nat) {
    !u.sender.open && u.requests == [] && u.answers == [] && u.written == |u.sent| == n
  }

  // What the server holds after w blocks.
  function Expected(content: seq<byte>, chunk: nat, w: nat, previous: Option<seq<byte>>): Option<seq<byte>> {
    if w == 0 then previous else Some(Stored(content, chunk, w))
  }

  ghost predicate FileOk(u: Upload, content: seq<byte>, chunk: nat, previous: Option<seq<byte>>) {
    || u.file == Expected(content, chunk, u.written, previous)
    || (Failed(u) && u.written % P32 == 0 && u.file == Some([]))
  }

  // The client's side and the messages under way.
  ghost predicate Exchange(u: Upload, content: seq<byte>, chunk: nat, acc: int)
    requires chunk > 0
  {
    && SenderOk(u.sender, content, chunk, |u.sent|)
    && LogOk(u.sent, content, chunk, acc)
    && (Sending(u) || Answered(u) || Failed(u) || Finished(u, Blocks(|content|, chunk)))
  }

  ghost predicate Inv(u: Upload, content: seq<byte>, chunk: nat, acc: int, previous: Option<seq<byte>>)
    requires chunk > 0
  {
    Exchange(u, content, chunk, acc) && FileOk(u, content, chunk, previous)
  }

  // Storing block w of n: block 1 starts the file afresh, any other extends it.
  lemma StoredStep(content: seq<byte>, chunk: nat, w: nat)
    requires chunk > 0 && w < Blocks(|content|, chunk)
    ensures w % P32 == 0 ==> Stored(content, chunk, w + 1) == Block(content, chunk, w)
    ensures w % P32 != 0 ==> Stored(content, chunk, w + 1) == Stored(content, chunk, w) + Block(content, chunk, w)
  {
    Offsets(|content|, chunk, Blocks(|content|, chunk), w);
    if w % P32 == 0 {
      assert WrapStart(w + 1) == w;
    } else {
      assert WrapStart(w + 1) == WrapStart(w);
      MulMonotone(WrapStart(w), w, chunk);
    }
  }

  // The sender, having sent i blocks, sends block i if there is one and closes the file otherwise.
  lemma SendNextBlock(s: Sender, content: seq<byte>, chunk: nat, acc: int, i: nat)
    requires chunk > 0 && s.open && SenderOk(s, content, chunk, i) && s.curSeq == SeqNo(i)
    requires s.accumulated == if i == 0 then acc
                              else ToUInt(Reported(acc, |content|, chunk, Blocks(|content|, chunk), i - 1))
    ensures var h := SendNext(s);
            var n := Blocks(|content|, chunk);
            if i == n then h.1 == None && SenderOk(h.0, content, chunk, i) && !h.0.open
            else h.1.Some? && SentAt(h.1.value, content, chunk, acc, i) && SenderOk(h.0, content, chunk, i + 1)
                 && h.0.open
  {
    var n := Blocks(|content|, chunk);
    Offsets(|content|, chunk, n, i);
    SeqNoFacts(i);
    if i < n {
      BlocksBounds(|content|, chunk);
    }
  }

  lemma HandleKeepsFile(r: Request, disk: Disk, content: seq<byte>, chunk: nat, w: nat, previous: Option<seq<byte>>)
    requires chunk > 0 && w < Blocks(|content|, chunk) && r.curSeq == SeqNo(w) && r.block == Block(content, chunk, w)
    ensures var before := Expected(content, chunk, w, previous);
            Handle(before, r, disk).0 == match disk
                                         case Written => Expected(content, chunk, w + 1, previous)
                                         case OpenFailed => before
                                         case WriteFailed => if w % P32 == 0 then Some([]) else before
  {
    StoredStep(content, chunk, w);
    SeqNoFacts(w);
    assert [] + r.block == r.block;
  }

  lemma ServeStep(u: Upload, disk: Disk, content: seq<byte>, chunk: nat, acc: int, previous: Option<seq<byte>>)
    requires chunk > 0 && Inv(u, content, chunk, acc, previous)
    ensures Inv(Apply(u, Serve(disk)), content, chunk, acc, previous)
  {
    if Sending(u) {
      assert SentAt(u.sent[u.written], content, chunk, acc, u.written);
      HandleKeepsFile(u.requests[0], disk, content, chunk, u.written, previous);
      var v := Apply(u, Serve(disk));
      assert if disk == Written then Answered(v) else Failed(v);
    }
  }

  lemma LogGrows(sent: seq<Request>, r: Request, content: seq<byte>, chunk: nat, acc: int)
    requires chunk > 0 && LogOk(sent, content, chunk, acc) && SentAt(r, content, chunk, acc, |sent|)
    ensures LogOk(sent + [r], content, chunk, acc)
  {
  }

  // What the sender makes of the acknowledgement of block i - 1.
  lemma HeardNumbers(u: Upload, content: seq<byte>, chunk: nat, acc: int)
    requires chunk > 0 && LogOk(u.sent, content, chunk, acc) && Answered(u)
    ensures var (i, a) := (|u.sent|, u.answers[0]);
            var n := Blocks(|content|, chunk);
            && ToUInt(a.currSeq) + 1 == SeqNo(i)
            && ToUInt(a.currSize) == ToUInt(Reported(acc, |content|, chunk, n, i - 1))
            && (a.eof <==> SeqNo(i - 1) == n)
  {
    assert SentAt(u.sent[|u.sent| - 1], content, chunk, acc, |u.sent| - 1);
    SeqNoFacts(|u.sent| - 1);
  }

  // The last block was acknowledged: the file is closed.
  lemma HearLast(u: Upload, content: seq<byte>, chunk: nat, acc: int)
    requires chunk > 0 && Exchange(u, content, chunk, acc) && Answered(u) && u.answers[0].eof
    ensures Exchange(Apply(u, Hear), content, chunk, acc)
  {
    HeardNumbers(u, content, chunk, acc);
    SeqNoFacts(|u.sent| - 1);
    assert Finished(Apply(u, Hear), Blocks(|content|, chunk));
  }

  lemma HearNext(u: Upload, content: seq<byte>, chunk: nat, acc: int)
    requires chunk > 0 && Exchange(u, content, chunk, acc) && Answered(u) && !u.answers[0].eof
    ensures Exchange(Apply(u, Hear), content, chunk, acc)
  {
    var i, a, v := |u.sent|, u.answers[0], Apply(u, Hear);
    var s := u.sender.(curSeq := ToUInt(a.currSeq) + 1, accumulated := ToUInt(a.currSize));
    HeardNumbers(u, content, chunk, acc);
    SendNextBlock(s, content, chunk, acc, i);
    var h := SendNext(s);
    assert v == Post(u.(answers := []), h.0, h.1);
    if h.1.Some? {
      LogGrows(u.sent, h.1.value, content, chunk, acc);
      assert Sending(v);
    } else {
      assert Finished(v, Blocks(|content|, chunk));
    }
  }

  // Hearing an answer does not touch the server.
  lemma HearKeepsFile(u: Upload, content: seq<byte>, chunk: nat, previous: Option<seq<byte>>)
    requires FileOk(u, content, chunk, previous)
    requires Sending(u) || Answered(u) || Failed(u) || (u.requests == [] && u.answers == [])
    ensures FileOk(Apply(u, Hear), content, chunk, previous)
  {
    var v := Apply(u, Hear);
    assert v.file == u.file && v.written == u.written;
    assert Failed(u) ==> Failed(v);
  }

  lemma HearStep(u: Upload, content: seq<byte>, chunk: nat, acc: int, previous: Option<seq<byte>>)
    requires chunk > 0 && Inv(u, content, chunk, acc, previous)
    ensures Inv(Apply(u, Hear), content, chunk, acc, previous)
  {
    HearKeepsFile(u, content, chunk, previous);
    if Answered(u) && u.answers[0].eof {
      HearLast(u, content, chunk, acc);
    } else if Answered(u) {
      HearNext(u, content, chunk, acc);
    }
  }

  lemma {:induction false} InvRun(u: Upload, events: seq<Event>, content: seq<byte>, chunk: nat, acc: int,
                                  previous: Option<seq<byte>>)
    requires chunk > 0 && Inv(u, content, chunk, acc, previous)
    ensures Inv(Exec(u, events), content, chunk, acc, previous)
    decreases |events|
  {
    if events != [] {
      if events[0].Serve? {
        ServeStep(u, events[0].disk, content, chunk, acc, previous);
      } else {
        HearStep(u, content, chunk, acc, previous);
      }
      InvRun(Apply(u, events[0]), events[1..], content, chunk, acc, previous);
    }
  }

  /** One upload: the sender as it stands, the file it opens, the chunk, what the processor answered for the
      quotient of size and chunk, and what the server held under the name before. */
  datatype Transfer = Transfer(sender: Sender, content: seq<byte>, chunk: nat, quotient: real, previous: Option<seq<byte>>)

  // The blocks were counted right, as BlockCountIsExact says they are below 2^53 bytes.
  predicate Counted(t: Transfer) {
    t.chunk > 0 && Ceiling(t.quotient) == Blocks(|t.content|, t.chunk)
  }

  function Count(t: Transfer): nat
    requires Counted(t)
  {
    Blocks(|t.content|, t.chunk)
  }

  function Run(t: Transfer, events: seq<Event>): Upload {
    Exec(Begin(t.sender, t.content, t.chunk, t.quotient, t.previous), events)
  }

  lemma InvBegin(t: Transfer)
    requires Counted(t)
    ensures Inv(Run(t, []), t.content, t.chunk, t.sender.accumulated, t.previous)
  {
    BlocksBounds(|t.content|, t.chunk);
    SendNextBlock(Start(t.sender, t.content, t.chunk, t.quotient, Ready), t.content, t.chunk, t.sender.accumulated, 0);
  }

  lemma Reached(t: Transfer, events: seq<Event>)
    requires Counted(t)
    ensures Inv(Run(t, events), t.content, t.chunk, t.sender.accumulated, t.previous)
  {
    InvBegin(t);
    InvRun(Run(t, []), events, t.content, t.chunk, t.sender.accumulated, t.previous);
  }

  lemma ReachedFile(t: Transfer, events: seq<Event>)
    requires Counted(t)
    ensures var u := Run(t, events);
            && FileOk(u, t.content, t.chunk, t.previous)
            && (Sending(u) || Answered(u) || Failed(u) || Finished(u, Count(t)))
  {
    Reached(t, events);
  }

  lemma StoredFromStart(content: seq<byte>, chunk: nat, w: nat)
    requires 0 < w <= P32
    ensures Stored(content, chunk, w) == content[..Upto(w, chunk, |content|)]
  {
    FirstRound(w);
    FromZero(chunk, |content|);
  }

  lemma FirstRound(w: nat)
    requires 0 < w <= P32
    ensures WrapStart(w) == 0 && (w % P32 == 0 ==> w == P32)
  {
  }

  lemma FromZero(chunk: nat, size: nat)
    ensures Upto(0, chunk, size) == 0
  {
  }

  lemma PrefixHeld(u: Upload, content: seq<byte>, chunk: nat, previous: Option<seq<byte>>)
    requires FileOk(u, content, chunk, previous) && 0 < u.written <= P32 && !(Failed(u) && u.written == P32)
    ensures u.file == Some(content[..Upto(u.written, chunk, |content|)])
  {
    FirstRound(u.written);
    StoredFromStart(content, chunk, u.written);
  }

  /** In every state at most one block is unacknowledged, the client has its file open exactly as long as the transfer
      is not at rest, and as long as its counter has not come round the server holds the client's file up to the blocks
      written: nothing skipped, repeated or reordered. */
  lemma ServerHoldsPrefix(t: Transfer, events: seq<Event>)
    requires Counted(t)
    ensures var u := Run(t, events);
            && |u.requests| + |u.answers| <= 1 && u.written <= |u.sent| <= u.written + 1
            && (0 < u.written <= P32 && !(Failed(u) && u.written == P32)
                ==> u.file == Some(t.content[..Upto(u.written, t.chunk, |t.content|)]))
            && (u.written == 0 ==> u.file == t.previous || u.file == Some([]))
            && (u.sender.open <==> !AtRest(u))
  {
    ReachedFile(t, events);
    var u := Run(t, events);
    if 0 < u.written <= P32 && !(Failed(u) && u.written == P32) {
      PrefixHeld(u, t.content, t.chunk, t.previous);
    }
  }

  predicate AtRest(u: Upload) {
    u.requests == [] && u.answers == [] && u.written == |u.sent|
  }

  lemma WholeFileStored(content: seq<byte>, chunk: nat, n: nat)
    requires chunk > 0 && content != [] && n == Blocks(|content|, chunk)
    ensures n > 0
    ensures Stored(content, chunk, n) == content <==> n <= P32
  {
    BlocksBounds(|content|, chunk);
    Offsets(|content|, chunk, n, n);
    if n <= P32 {
      StoredFromStart(content, chunk, n);
    } else {
      MulMonotone(1, WrapStart(n), chunk);
      assert |Stored(content, chunk, n)| < |content|;
    }
  }

  /** A transfer the server never refused sends exactly ceil(size / chunk) blocks, and the server's copy equals
      the file exactly when there are at most 2^32 of them; the client has closed its file. */
  lemma FinishedCopyIsIdentical(t: Transfer, events: seq<Event>)
    requires Counted(t) && t.content != [] && AtRest(Run(t, events))
    ensures var u := Run(t, events);
            && u.written == |u.sent| == Count(t)
            && (u.file == Some(t.content) <==> Count(t) <= P32)
            && !u.sender.open
  {
    ReachedFile(t, events);
    WholeFileStored(t.content, t.chunk, Count(t));
  }

  /** An empty file is never sent: it is closed at once and the server keeps whatever it held. */
  lemma EmptyFileIsNotSent(t: Transfer, events: seq<Event>)
    requires Counted(t) && t.content == []
    ensures Run(t, events).sent == [] && Run(t, events).file == t.previous && !Run(t, events).sender.open
  {
    Reached(t, events);
    BlocksBounds(0, t.chunk);
  }

  function Remaining(u: Upload, n: nat): int {
    2 * (n - |u.sent|) + 2 * |u.requests| + |u.answers|
  }

  /** Every block handled and every answer heard brings the end nearer, so a transfer is at rest or refused
      after at most 2 * ceil(size / chunk) such steps. */
  lemma EveryStepProgresses(t: Transfer, events: seq<Event>, e: Event)
    requires Counted(t)
    requires if e.Serve? then Run(t, events).requests != [] else Run(t, events).answers != []
    ensures var u := Run(t, events); 0 <= Remaining(Apply(u, e), Count(t)) < Remaining(u, Count(t)) <= 2 * Count(t)
  {
    Reached(t, events);
    var u := Run(t, events);
    if e.Serve? {
      ServeStep(u, e.disk, t.content, t.chunk, t.sender.accumulated, t.previous);
    } else {
      HearStep(u, t.content, t.chunk, t.sender.accumulated, t.previous);
    }
  }

  lemma NextEnd(size: nat, chunk: nat, n: nat, i: nat)
    requires chunk > 0 && n == Blocks(size, chunk) && i < n
    ensures Upto(i, chunk, size) == i * chunk
    ensures i * chunk + BlockSize(size, chunk, n, i + 1) == Upto(i + 1, chunk, size)
  {
    Offsets(size, chunk, n, i);
    if i + 1 == n { Offsets(size, chunk, n, n); } else { Offsets(size, chunk, n, i + 1); }
  }

  lemma CountBelow(i: nat, chunk: nat)
    requires chunk > 0 && i * chunk < P32
    ensures SeqNo(i) == i + 1 && (i > 0 ==> (i - 1) * chunk < P32)
  {
    MulMonotone(1, chunk, i);
    assert chunk * i == i * chunk;
    if i > 0 { MulMonotone(i - 1, i, chunk); }
  }

  // While every acknowledged size fits 32 bits, cur_size is the length of the prefix sent.
  lemma {:induction false} ReportedRight(size: nat, chunk: nat, n: nat, i: nat)
    requires chunk > 0 && n == Blocks(size, chunk) && i < n && i * chunk < P32
    ensures Reported(0, size, chunk, n, i) == Upto(i + 1, chunk, size)
  {
    CountBelow(i, chunk);
    NextEnd(size, chunk, n, i);
    if i > 0 {
      ReportedRight(size, chunk, n, i - 1);
    } else {
      FromZero(chunk, size);
    }
  }

  lemma BlockSizeAtMostChunk(size: nat, chunk: nat, n: nat, number: nat)
    requires chunk > 0 && n == Blocks(size, chunk)
    ensures BlockSize(size, chunk, n, number) <= chunk
  {
    BlocksBounds(size, chunk);
    assert n * chunk == (n - 1) * chunk + chunk;
  }

  // The first acknowledgement that overflows 32 bits makes the next cur_size start over from 0.
  lemma ReportedWrong(size: nat, chunk: nat, n: nat, i: nat)
    requires chunk > 0 && n == Blocks(size, chunk) && 1 <= i < n && (i - 1) * chunk < P32 <= i * chunk
    ensures Reported(0, size, chunk, n, i) != Upto(i + 1, chunk, size)
  {
    ReportedRight(size, chunk, n, i - 1);
    Offsets(size, chunk, n, i);
    MulMonotone(1, i, chunk);
    BlockSizeAtMostChunk(size, chunk, n, SeqNo(i));
  }

  lemma {:induction false} FirstOverflow(chunk: nat, i: nat) returns (first: nat)
    requires chunk > 0 && i * chunk >= P32
    ensures 1 <= first <= i && (first - 1) * chunk < P32 <= first * chunk
  {
    if i == 0 {
      assert false;
    } else if (i - 1) * chunk < P32 {
      first := i;
    } else {
      first := FirstOverflow(chunk, i - 1);
    }
  }

  ghost predicate SizeRight(u: Upload, i: nat, chunk: nat, size: nat)
    requires i < |u.sent|
  {
    u.sent[i].curSize == Upto(i + 1, chunk, size)
  }

  lemma ReachedSizes(t: Transfer, events: seq<Event>, i: nat)
    requires Counted(t) && i < |Run(t, events).sent|
    ensures |Run(t, events).sent| <= Count(t)
    ensures SizeRight(Run(t, events), i, t.chunk, |t.content|)
            <==> Reported(t.sender.accumulated, |t.content|, t.chunk, Count(t), i) == Upto(i + 1, t.chunk, |t.content|)
  {
    Reached(t, events);
    assert SentAt(Run(t, events).sent[i], t.content, t.chunk, t.sender.accumulated, i);
  }

  // The first cur_size is off by whatever an earlier transfer left in the sender.
  lemma FirstReported(acc: int, size: nat, chunk: nat, n: nat)
    requires chunk > 0 && size > 0 && n == Blocks(size, chunk)
    ensures Reported(acc, size, chunk, n, 0) == acc + Upto(1, chunk, size)
  {
    BlocksBounds(size, chunk);
    Offsets(size, chunk, n, 0);
    if n == 1 { Offsets(size, chunk, n, 1); }
  }

  ghost predicate AllSizesRight(t: Transfer, events: seq<Event>) {
    forall i: nat :: i < |Run(t, events).sent| ==> SizeRight(Run(t, events), i, t.chunk, |t.content|)
  }

  /** Every cur_size of a finished transfer is min(seq * chunk, size) exactly when the sender was fresh and the
      sizes acknowledged before the last block fit 32 bits. */
  lemma SizesAreExact(t: Transfer, events: seq<Event>)
    requires Counted(t) && t.content != [] && AtRest(Run(t, events))
    ensures AllSizesRight(t, events) <==> t.sender.accumulated == 0 && (Count(t) - 1) * t.chunk < P32
  {
    FinishedCopyIsIdentical(t, events);
    var size, n := |t.content|, Count(t);
    BlocksBounds(size, t.chunk);
    FirstReported(t.sender.accumulated, size, t.chunk, n);
    ReachedSizes(t, events, 0);
    if t.sender.accumulated == 0 && (n - 1) * t.chunk < P32 {
      forall i: nat | i < |Run(t, events).sent| ensures SizeRight(Run(t, events), i, t.chunk, size) {
        MulMonotone(i, n - 1, t.chunk);
        ReportedRight(size, t.chunk, n, i);
        ReachedSizes(t, events, i);
      }
    } else if t.sender.accumulated == 0 {
      var i := FirstOverflow(t.chunk, n - 1);
      ReportedWrong(size, t.chunk, n, i);
      ReachedSizes(t, events, i);
    }
  }

  // FOUR_GB of filetransferdialog.h; the dialog refuses larger files.
  const FOUR_GB: nat := 4 * 1024 * 1024 * 1024

  lemma AcceptedFileFits(size: nat, chunk: nat)
    requires 0 < size <= FOUR_GB && chunk > 0
    ensures Blocks(size, chunk) <= P32 && (Blocks(size, chunk) - 1) * chunk < P32
  {
    BlocksBounds(size, chunk);
  }

  /** A file the upload dialog accepts, sent by a fresh sender, arrives intact with every size right, whatever the
      processor makes of the quotient. */
  lemma AcceptedFileArrives(t: Transfer, events: seq<Event>)
    requires 0 < |t.content| <= FOUR_GB && 0 < t.chunk < P64 && t.sender.accumulated == 0
    requires Computed(|t.content|, t.chunk, t.quotient) && AtRest(Run(t, events))
    ensures Run(t, events).file == Some(t.content) && AllSizesRight(t, events)
  {
    BlockCountIsExact(|t.content|, t.chunk, t.quotient);
    AcceptedFileFits(|t.content|, t.chunk);
    FinishedCopyIsIdentical(t, events);
    SizesAreExact(t, events);
  }
}
