/** The two ends of an upload as they are written: FileTransferThread with its slots, and the upload handler of
    the resources server.  Each method is tied to the step of FileUpload it performs. */
module FileTransfer {
  import opened Wrappers
  import opened BlockCount
  import opened FileUpload

  class FileTransferThread {
    var content: seq<byte>
    var isOpen: bool
    var pos: nat
    var fileSize: nat
    var fileChunk: nat
    var curSeq: nat
    var totalBlocks: int
    var accumulated: int

    function View(): Sender
      reads this
    {
      Sender(content, isOpen, pos, fileSize, fileChunk, curSeq, totalBlocks, accumulated)
    }

    constructor ()
      ensures View() == Sender([], false, 0, 0, 0, 1, 0, 0)
    {
      content, isOpen, pos := [], false, 0;
      fileSize, fileChunk, curSeq, totalBlocks, accumulated := 0, 0, 1, 0, 0;
    }

    method CloseFile()
      modifies this`isOpen
      ensures !isOpen
    {
      if isOpen {
        isOpen := false;
      }
    }

    // `quotient` is what the processor answers for the division of the size by the chunk.
    static method CalculateBlockNumber(totalSize: nat, chunkSize: nat, quotient: real) returns (blocks: int)
      requires 0 < chunkSize < P64 && Computed(totalSize, chunkSize, quotient)
      ensures blocks == Ceiling(quotient)
      ensures totalSize < P53 ==> blocks == Blocks(totalSize, chunkSize)
    {
      blocks := -(-quotient).Floor;
      if totalSize < P53 {
        BlockCountIsExact(totalSize, chunkSize, quotient);
      }
    }

    // Hashing reads the whole file and leaves the position wherever it stopped.
    method HashFile(opening: Opening) returns (hashed: bool)
      requires opening != Unreadable
      modifies this`pos
      ensures hashed == opening.Ready?
      ensures opening.Unhashed? ==> pos == Min(opening.at, |content|)
    {
      pos := if opening.Unhashed? then Min(opening.at, |content|) else |content|;
      hashed := opening.Ready?;
    }

    // The answer says whether the first block is asked for.
    method StartFileTransmission(file: seq<byte>, chunk: nat, quotient: real, opening: Opening) returns (signalled: bool)
      requires 0 < chunk < P64 && Computed(|file|, chunk, quotient)
      modifies this
      ensures View() == Start(old(View()), file, chunk, quotient, opening)
      ensures signalled <==> opening == Ready
      ensures fileChunk == chunk && curSeq == 1 && accumulated == old(accumulated) && isOpen == (opening != Unreadable)
      ensures opening == Unreadable ==>
                content == old(content) && fileSize == old(fileSize) && totalBlocks == old(totalBlocks)
      ensures opening != Unreadable ==>
                && content == file && fileSize == |file| && (|file| < P53 ==> totalBlocks == Blocks(|file|, chunk))
                && pos == match opening { case Unhashed(at) => Min(at, |file|) case _ => 0 }
    {
      CloseFile();
      fileChunk := chunk;
      curSeq := 1;
      if opening == Unreadable {
        return false;
      }
      content, isOpen := file, true;
      fileSize := |file|;
      totalBlocks := CalculateBlockNumber(fileSize, fileChunk, quotient);
      var hashed := HashFile(opening);
      if !hashed {
        return false;
      }
      pos := 0;
      signalled := true;
    }

    // QFile::read: at most `count` bytes from the current position.
    method Read(count: int) returns (buffer: seq<byte>)
      requires pos <= |content|
      modifies this`pos
      ensures var end := Min(old(pos) + count, |content|);
              if end <= old(pos) then buffer == [] && pos == old(pos)
              else buffer == content[old(pos)..end] && pos == end
    {
      var end := Min(pos + count, |content|);
      if end <= pos {
        return [];
      }
      buffer := content[pos..end];
      pos := end;
    }

    method SendNextBlock() returns (request: Option<Request>)
      modifies this
      ensures (View(), request) == SendNext(old(View()))
      ensures old(curSeq > totalBlocks || !isOpen || pos >= |content|) ==> request == None && !isOpen
      ensures request.Some? ==>
                && request.value.curSeq == old(curSeq) && request.value.lastSeq == old(totalBlocks) && isOpen
                && request.value.fileSize == old(fileSize) && (request.value.eof <==> old(curSeq == totalBlocks))
                && old(pos) < pos <= |content| && request.value.block == content[old(pos)..pos]
                && request.value.curSize - old(accumulated)
                   == (if old(curSeq) != old(totalBlocks) then old(fileChunk)
                       else old(fileSize) - (old(curSeq) - 1) * old(fileChunk))
    {
      if curSeq > totalBlocks || !isOpen || pos >= |content| {
        isOpen := false;
        return None;
      }
      var bytes := if curSeq != totalBlocks then fileChunk else fileSize - (curSeq - 1) * fileChunk;
      var buffer := Read(bytes);
      if buffer == [] {
        return None;
      }
      request := Some(Request(curSeq, totalBlocks, accumulated + bytes, fileSize, buffer, curSeq == totalBlocks));
    }

    // The decoded answer, handed on by signal_data_transmission_status.
    method OnTransmissionStatus(answer: Answer) returns (request: Option<Request>)
      modifies this
      ensures (View(), request) == OnAnswer(old(View()), answer)
      ensures answer.Refused? ==> request == None && View() == old(View())
      ensures answer.Done? && answer.eof ==> request == None && View() == old(View()).(open := false)
      ensures answer.Done? && !answer.eof ==>
                && curSeq == (if answer.currSeq < 0x1_0000_0000 then answer.currSeq + 1 else 1)
                && accumulated == (if 0 <= answer.currSize < 0x1_0000_0000 then answer.currSize else 0)
    {
      if answer.Refused? {
        return None;
      }
      if answer.eof {
        CloseFile();
        return None;
      }
      curSeq := ToUInt(answer.currSeq) + 1;
      accumulated := ToUInt(answer.currSize);
      request := SendNextBlock();
    }
  }

  function Lookup(files: map<string, seq<byte>>, name: string): Option<seq<byte>> {
    if name in files then Some(files[name]) else None
  }

  class ResourcesServer {
    var files: map<string, seq<byte>>

    method HandleFileUploading(name: string, request: Request, disk: Disk) returns (answer: Answer)
      modifies this
      ensures (Lookup(files, name), answer) == Handle(Lookup(old(files), name), request, disk)
      ensures files - {name} == old(files) - {name}
      ensures disk == OpenFailed ==> files == old(files) && answer == Refused
      ensures disk != OpenFailed ==>
                var start := if request.curSeq == 1 || name !in old(files) then [] else old(files)[name];
                && name in files && files[name] == (if disk == Written then start + request.block else start)
                && answer == if disk == Written then Done(request.curSeq, request.curSize, request.fileSize, request.eof)
                             else Refused
    {
      var isFirstPackage := request.curSeq == 1;
      if disk == OpenFailed {
        return Refused;
      }
      // opening truncates or creates the file
      if isFirstPackage || name !in files {
        files := files[name := []];
      }
      if disk == WriteFailed {
        return Refused;
      }
      files := files[name := files[name] + request.block];
      answer := Done(request.curSeq, request.curSize, request.fileSize, request.eof);
    }
  }
}
