/** The stop-and-wait upload: the client slices the file by sequence number, the resources server truncates on
    block 1 and appends afterwards, and every acknowledgement releases the next block. */
module FileUpload {
  import opened Wrappers
  import opened BlockCount

  const P32: nat := 0x1_0000_0000

  // QString::toUInt answers 0 for a number that does not fit 32 unsigned bits.
  function ToUInt(n: int): nat {
    if 0 <= n < P32 then n else 0
  }

  function Min(x: int, y: int): int {
    if x < y then x else y
  }

  datatype Request = Request(curSeq: nat, lastSeq: int, curSize: int, fileSize: nat, block: seq<byte>, eof: bool)

  datatype Answer = Done(currSeq: nat, currSize: int, totalSize: nat, eof: bool) | Refused

  // How the disk treats one block; a write that fails leaves nothing of the block behind.
  datatype Disk = Written | OpenFailed | WriteFailed

  /** The fields of FileTransferThread; `content` is the file its m_file refers to. */
  datatype Sender = Sender(content: seq<byte>, open: bool, pos: nat,
                           fileSize: nat, fileChunk: nat, curSeq: nat, totalBlocks: int, accumulated: int)

  // What becomes of opening the file: it cannot be read, hashing it fails part of the way, or neither.
  datatype Opening = Unreadable | Unhashed(at: nat) | Ready

  /** slot_start_file_transmission up to the signal that sends the first block; `accumulated` is kept. */
  function Start(s: Sender, content: seq<byte>, chunk: nat, quotient: real, opening: Opening): Sender {
    var t := s.(fileChunk := chunk, curSeq := 1, open := opening != Unreadable);
    if opening == Unreadable then t
    else
      t.(content := content, fileSize := |content|, totalBlocks := Ceiling(quotient),
         pos := if opening.Unhashed? then Min(opening.at, |content|) else 0)
  }

  /** slot_send_next_block.  A file that is not open counts as read to its end. */
  function SendNext(s: Sender): (Sender, Option<Request>) {
    if s.curSeq > s.totalBlocks || !s.open || s.pos >= |s.content| then (s.(open := false), None)
    else
      var bytes := BlockSize(s.fileSize, s.fileChunk, s.totalBlocks, s.curSeq);
      var end := Min(s.pos + bytes, |s.content|);
      if end <= s.pos then (s, None)
      else
        (s.(pos := end),
         Some(Request(s.curSeq, s.totalBlocks, s.accumulated + bytes, s.fileSize, s.content[s.pos..end],
                      s.curSeq == s.totalBlocks)))
  }

  /** The decoding of an answer in logicexecutor.cpp followed by the sender's flow control. */
  function OnAnswer(s: Sender, a: Answer): (Sender, Option<Request>) {
    match a
    case Refused => (s, None)
    case Done(currSeq, currSize, _, eof) =>
      if eof then (s.(open := false), None)
      else SendNext(s.(curSeq := ToUInt(currSeq) + 1, accumulated := ToUInt(currSize)))
  }

  /** handlingFileUploading on the file the request names; None is a file that does not exist. */
  function Handle(file: Option<seq<byte>>, r: Request, disk: Disk): (Option<seq<byte>>, Answer) {
    var start := if r.curSeq == 1 || file.None? then [] else file.value;
    match disk
    case OpenFailed => (file, Refused)
    case WriteFailed => (Some(start), Refused)
    case Written => (Some(start + r.block), Done(r.curSeq, r.curSize, r.fileSize, r.eof))
  }

  /** Client, server and the two directions of the connection.  `sent` lists every block ever sent and
      `written` counts the blocks the server has stored. */
  datatype Upload = Upload(sender: Sender, requests: seq<Request>, answers: seq<Answer>,
                           file: Option<seq<byte>>, sent: seq<Request>, written: nat)

  datatype Event = Serve(disk: Disk) | Hear

  function Post(u: Upload, s: Sender, r: Option<Request>): Upload {
    match r
    case None => u.(sender := s)
    case Some(q) => u.(sender := s, requests := u.requests + [q], sent := u.sent + [q])
  }

  function Apply(u: Upload, e: Event): Upload {
    match e
    case Serve(disk) =>
      if u.requests == [] then u
      else
        var h := Handle(u.file, u.requests[0], disk);
        u.(requests := u.requests[1..], file := h.0, answers := u.answers + [h.1],
           written := u.written + if disk == Written then 1 else 0)
    case Hear =>
      if u.answers == [] then u
      else
        var h := OnAnswer(u.sender, u.answers[0]);
        Post(u.(answers := u.answers[1..]), h.0, h.1)
  }

  function Exec(u: Upload, events: seq<Event>): Upload
    decreases |events|
  {
    if events == [] then u else Exec(Apply(u, events[0]), events[1..])
  }

  /** The sender opens the file and sends its first block; the server may hold an older file of that name. */
  function Begin(s: Sender, content: seq<byte>, chunk: nat, quotient: real, file: Option<seq<byte>>): Upload {
    var started := Start(s, content, chunk, quotient, Ready);
    var h := SendNext(started);
    Post(Upload(started, [], [], file, [], 0), h.0, h.1)
  }
}
