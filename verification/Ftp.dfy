/**
 The data connection of an FTP transfer: one buffer between the connection, which moves some bytes or none
 per call, and the reader or writer of the file.
 */
module Ftp {
  import opened Diagnostics

  const DATA_BUF_SIZE: nat := 4096

  datatype CloseReason = NotClosed | Success | Failure

  /** The result of a write to the connection: nothing for now, an error, or at least one byte was sent. */
  datatype SendResult = SendBlocked | SendFailed | Sent(more: nat)

  /** The result of a read from the connection; data is not empty. */
  datatype ReceiveResult = ReceiveBlocked | PeerClosed | ReceiveFailed | Received(data: string)

  lemma MoveOver(sent: string, pending: string, n: nat, rest: string)
    requires n <= |pending|
    ensures sent + pending[..n] + (pending[n..] + rest) == sent + (pending + rest)
  {
    assert pending == pending[..n] + pending[n..];
  }

  /** How many of the calls send something. */
  function SentCount(results: seq<SendResult>): nat {
    if results == [] then 0
    else SentCount(results[..|results| - 1]) + if results[|results| - 1].Sent? then 1 else 0
  }

  /** No call fails, and more calls send something than the document has bytes; the others are blocked. */
  ghost predicate EnoughProgress(results: seq<SendResult>, document: string) {
    (forall k :: 0 <= k < |results| ==> !results[k].SendFailed?) && SentCount(results) > |document|
  }

  /** An upload of a diagnostics document. sent is what the server has got. */
  class Upload {
    const dataBuf: array<char>
    const reader: DiagnosticsReader
    var dataBufAvail: nat
    var dataBufOffs: nat
    var closed: CloseReason
    ghost var sent: string

    ghost predicate Valid()
      reads this, reader
    {
      && dataBufOffs + dataBufAvail <= dataBuf.Length == DATA_BUF_SIZE
      && reader.Valid() && HEADING_ROOM + reader.disk.maxPath <= DATA_BUF_SIZE
    }

    /** What the server has not got yet. */
    ghost function Remaining(): string
      requires Valid()
      reads this, reader, dataBuf
    {
      dataBuf[dataBufOffs..dataBufOffs + dataBufAvail] + reader.Rest()
    }

    constructor (reader: DiagnosticsReader)
      requires reader.Valid() && HEADING_ROOM + reader.disk.maxPath <= DATA_BUF_SIZE
      ensures Valid() && this.reader == reader && fresh(dataBuf) && sent == "" && closed == NotClosed
      ensures Remaining() == reader.Rest()
    {
      dataBuf := new char[DATA_BUF_SIZE](_ => '\0');
      this.reader := reader;
      dataBufAvail, dataBufOffs, closed, sent := 0, 0, NotClosed, "";
    }

    method Refill(chunk: nat -> nat)
      requires Valid() && dataBufAvail == 0
      modifies this`dataBufAvail, this`dataBufOffs, dataBuf, reader
      ensures Valid() && Remaining() == old(Remaining())
      ensures dataBufAvail == 0 <==> Remaining() == ""
    {
      dataBufOffs := 0;
      dataBufAvail := reader.Read(dataBuf, DATA_BUF_SIZE, chunk);
    }

    method Send(n: nat)
      requires Valid() && 0 < n <= dataBufAvail
      modifies this`dataBufAvail, this`dataBufOffs, this`sent
      ensures Valid() && sent + Remaining() == old(sent + Remaining())
      ensures old(sent) <= sent && |sent| > |old(sent)|
    {
      ghost var pending, rest := dataBuf[dataBufOffs..dataBufOffs + dataBufAvail], reader.Rest();
      dataBufAvail := dataBufAvail - n;
      dataBufOffs := dataBufOffs + n;
      MoveOver(sent, pending, n, rest);
      sent := sent + pending[..n];
    }

    /**
     process_data for an upload. No byte is lost or sent twice; the transfer is closed as a success exactly
     when nothing remains. secure: the connection meets the TLS policy.
     */
    method ProcessData(secure: bool, result: SendResult, chunk: nat -> nat)
      requires Valid() && closed == NotClosed
      modifies this, dataBuf, reader
      ensures Valid()
      ensures sent + Remaining() == old(sent + Remaining())
      ensures closed == Success <==> secure && old(Remaining()) == ""
      ensures closed == Failure <==> !secure || (old(Remaining()) != "" && result.SendFailed?)
      ensures old(sent) <= sent
      ensures secure && result.Sent? && closed == NotClosed ==> |sent| > |old(sent)|
      ensures closed != NotClosed ==> sent == old(sent) && Remaining() == old(Remaining())
    {
      if !secure {
        closed := Failure;
        return;
      }
      if dataBufAvail == 0 {
        Refill(chunk);
      }
      if dataBufAvail > 0 {
        match result
        case SendBlocked => return;
        case SendFailed => closed := Failure;
        case Sent(more) => Send(Min(1 + more, dataBufAvail));
      } else {
        closed := Success;
      }
    }

    /**
     A whole upload, one call of process_data after the other. The server always has a prefix of the document,
     and all of it if the upload is a success; and the upload is a success if no call fails and more calls send
     something than there are bytes, however many others are blocked in between.
     */
    method Run(results: seq<SendResult>, chunk: nat -> nat)
      requires Valid() && closed == NotClosed && sent == ""
      modifies this, dataBuf, reader
      ensures Valid() && sent + Remaining() == old(Remaining())
      ensures closed == Success ==> sent == old(Remaining())
      ensures closed == Failure ==> sent != old(Remaining())
      ensures EnoughProgress(results, old(Remaining())) ==> closed == Success
    {
      ghost var document := Remaining();
      var i := 0;
      while i < |results| && closed == NotClosed
        invariant 0 <= i <= |results| && Valid()
        invariant sent + Remaining() == document
        invariant closed == Success ==> Remaining() == ""
        invariant closed == Failure ==> Remaining() != "" && exists k :: 0 <= k < i && results[k].SendFailed?
        invariant closed == NotClosed ==> |sent| >= SentCount(results[..i])
      {
        assert results[..i + 1][..i] == results[..i];
        ProcessData(true, results[i], chunk);
        i := i + 1;
      }
      assert results[..|results|] == results;
    }
  }

  /**
   A diagnostics upload from start to end, with any user reader, any files, and any pattern of partial or
   blocked sends: if it is a success, the server has the preamble, the output of the reader, the postamble,
   and every readable file with its heading, last file first.
   */
  method UploadDiagnostics(preamble: string, readerOutput: string, hasReader: bool, postamble: string, disk: Disk,
                           names: seq<string>, results: seq<SendResult>, chunk: nat -> nat) returns (upload: Upload)
    requires !hasReader ==> readerOutput == ""
    requires HEADING_ROOM + disk.maxPath <= DATA_BUF_SIZE
    ensures upload.Valid()
    ensures var document := preamble + readerOutput + postamble + FilesInOrder(disk, Reversed(names));
            && upload.sent + upload.Remaining() == document
            && (upload.closed == Success ==> upload.sent == document)
            && (upload.closed == Failure ==> upload.sent != document)
            && (EnoughProgress(results, document) ==> upload.closed == Success)
  {
    var reader := new DiagnosticsReader(preamble, readerOutput, hasReader, postamble, disk, names);
    upload := new Upload(reader);
    upload.Run(results, chunk);
  }

  /** A download. received came from the server; consumed was handed to the writer of the file. */
  class Download {
    const dataBuf: array<char>
    var dataBufAvail: nat
    var dataBufOffs: nat
    var closed: CloseReason
    ghost var received: string
    ghost var consumed: string

    /** Nothing is lost or handed over twice. */
    ghost predicate Valid()
      reads this, dataBuf
    {
      && dataBufOffs + dataBufAvail <= dataBuf.Length == DATA_BUF_SIZE
      && received == consumed + dataBuf[dataBufOffs..dataBufOffs + dataBufAvail]
      && (closed == Success ==> consumed == received)
    }

    constructor ()
      ensures Valid() && fresh(dataBuf) && received == "" && closed == NotClosed
    {
      dataBuf := new char[DATA_BUF_SIZE](_ => '\0');
      dataBufAvail, dataBufOffs, closed, received, consumed := 0, 0, NotClosed, "", "";
    }

    method Load(data: string)
      requires Valid() && closed == NotClosed && dataBufAvail == 0 && |data| < DATA_BUF_SIZE
      modifies this`dataBufAvail, this`dataBufOffs, this`received, dataBuf
      ensures Valid() && received == old(received) + data && dataBufAvail == |data|
    {
      dataBufOffs := 0;
      dataBufAvail := Append(dataBuf, 0, data);
      received := consumed + dataBuf[..dataBufAvail];
    }

    method Consume(n: nat)
      requires Valid() && closed == NotClosed && 0 < n <= dataBufAvail
      modifies this`dataBufAvail, this`dataBufOffs, this`consumed
      ensures Valid() && |consumed| == |old(consumed)| + n && old(consumed) == consumed[..|old(consumed)|]
    {
      ghost var pending := dataBuf[dataBufOffs..dataBufOffs + dataBufAvail];
      MoveOver(consumed, pending, n, "");
      assert pending[n..] + "" == pending[n..] && pending + "" == pending;
      consumed := consumed + pending[..n];
      dataBufAvail := dataBufAvail - n;
      dataBufOffs := dataBufOffs + n;
    }

    /**
     process_data for a download: the writer gets the buffered bytes and takes the first of them. Taking none
     or more than there are aborts the transfer. It is a success exactly if the server closes the connection
     while the buffer is empty, and then the writer has taken everything.
     */
    method ProcessData(secure: bool, result: ReceiveResult, taken: nat)
      requires Valid() && closed == NotClosed
      requires result.Received? ==> 0 < |result.data| < DATA_BUF_SIZE
      modifies this, dataBuf
      ensures Valid()
      ensures |consumed| >= |old(consumed)| && old(consumed) == consumed[..|old(consumed)|]
      ensures var loads := secure && old(dataBufAvail) == 0 && result.Received?;
              received == old(received) + if loads then result.data else ""
      ensures closed == Success <==> secure && old(dataBufAvail) == 0 && result == PeerClosed
      ensures closed == Success ==> consumed == received
      ensures closed == NotClosed && dataBufAvail > 0 ==> consumed != old(consumed)
    {
      if !secure {
        closed := Failure;
        return;
      }
      if dataBufAvail == 0 {
        dataBufOffs := 0;
        match result
        case ReceiveBlocked => return;
        case PeerClosed => closed := Success; return;
        case ReceiveFailed => closed := Failure; return;
        case Received(data) => Load(data);
      }
      if taken == 0 || taken > dataBufAvail {
        closed := Failure;
        return;
      }
      Consume(taken);
    }
  }
}
