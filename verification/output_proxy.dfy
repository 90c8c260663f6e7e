/** The output proxy of an external process (OutputProxy): reads the
    process's output stream into a growing buffer and hands each
    delimiter-terminated record to a deque as a stdout or stderr event.

    The input stream is a scripted sequence of read outcomes, and the deque
    is the sequence of events this proxy put into it. */
module ExtProcOutput {

  /** Initial data buffer size, 64 KiB. */
  const INIT_DATA_SIZE: int := 0x10000
  /** Data buffer size increment, 512 KiB. */
  const DATA_SIZE_INC: int := 0x80000
  /** Maximum data size, 4 MiB. */
  const MAX_DATA_SIZE: int := 0x400000
  const EOF: int := -1

  /** A Java byte. */
  newtype Byte = b: int | -128 <= b < 128

  datatype ProxyException = IoError | MaxBufferSizeReached

  datatype Event =
    | StdOutEvent(data: seq<Byte>)
    | StdErrEvent(data: seq<Byte>)
    | ExceptionEvent(exc: ProxyException)

  /** What the input stream does on the next read: deliver bytes (as many as
      fit), report the end of the stream, or throw an IOException. */
  datatype ReadStep = Bytes(bytes: seq<Byte>) | EndOfStream | IoFailure

  /** The outcome of InputStream.read: a byte count, EOF (-1), or an
      IOException. */
  datatype ReadResult = Count(n: nat) | Eof | Failed

  /** The bytes a stream delivers before its end. */
  function StreamBytes(input: seq<ReadStep>): seq<Byte> {
    if input == [] then []
    else match input[0]
      case Bytes(bs) => bs + StreamBytes(input[1..])
      case EndOfStream => []
      case IoFailure => StreamBytes(input[1..])
  }

  datatype ReadOutcome = ReadOutcome(result: ReadResult, bytes: seq<Byte>, rest: seq<ReadStep>)

  /** read(buffer, off, len): a read of length 0 returns 0 without touching
      the stream; otherwise at most len bytes are delivered. No byte is lost
      or delivered twice. */
  function ReadOf(input: seq<ReadStep>, len: nat): (r: ReadOutcome)
    ensures r.bytes + StreamBytes(r.rest) == StreamBytes(input)
    ensures r.result.Count? ==> r.result.n == |r.bytes| <= len
    ensures !r.result.Count? ==> r.bytes == []
    ensures r.result.Eof? ==> StreamBytes(input) == [] && r.rest == input
    ensures len == 0 ==> r == ReadOutcome(Count(0), [], input)
  {
    if len == 0 || input == [] then
      ReadOutcome(if len == 0 then Count(0) else Eof, [], input)
    else match input[0]
      case EndOfStream => ReadOutcome(Eof, [], input)
      case IoFailure => ReadOutcome(Failed, [], input[1..])
      case Bytes(bs) =>
        var n := if |bs| < len then |bs| else len;
        var rest := if n == |bs| then input[1..] else [Bytes(bs[n..])] + input[1..];
        assert n < |bs| ==> rest[1..] == input[1..];
        assert bs[..n] + bs[n..] == bs;
        ReadOutcome(Count(n), bs[..n], rest)
  }

  // ---------------------------------------------------------------------
  // Records

  /** The event addToDeque builds for a record. */
  function DataEvent(useOut: bool, record: seq<Byte>): (e: Event)
    ensures e.StdOutEvent? <==> useOut
    ensures e.StdErrEvent? <==> !useOut
    ensures !e.ExceptionEvent? && e.data == record
  {
    if useOut then StdOutEvent(record) else StdErrEvent(record)
  }

  /** The records carried by the data events, in order. */
  function Records(events: seq<Event>): seq<seq<Byte>> {
    if events == [] then []
    else
      var last := events[|events| - 1];
      Records(events[..|events| - 1]) + (if last.ExceptionEvent? then [] else [last.data])
  }

  /** Data events are stdout events exactly for a proxy of the standard
      output. */
  predicate KindsMatch(events: seq<Event>, useOut: bool) {
    forall i :: 0 <= i < |events| ==> (events[i].StdOutEvent? ==> useOut) && (events[i].StdErrEvent? ==> !useOut)
  }

  predicate NoDelimiter(records: seq<seq<Byte>>, delimiter: Byte) {
    forall i :: 0 <= i < |records| ==> delimiter !in records[i]
  }

  /** Each record followed by the delimiter. */
  function JoinDelimited(records: seq<seq<Byte>>, delimiter: Byte): seq<Byte> {
    if records == [] then [] else records[0] + [delimiter] + JoinDelimited(records[1..], delimiter)
  }

  lemma {:induction false} JoinDelimitedSnoc(records: seq<seq<Byte>>, record: seq<Byte>, delimiter: Byte)
    ensures JoinDelimited(records + [record], delimiter) == JoinDelimited(records, delimiter) + record + [delimiter]
  {
    if records != [] {
      assert (records + [record])[1..] == records[1..] + [record];
      JoinDelimitedSnoc(records[1..], record, delimiter);
    }
  }

  function FirstIndex(bytes: seq<Byte>, b: Byte): (i: nat)
    requires b in bytes
    ensures i < |bytes| && bytes[i] == b && b !in bytes[..i]
  {
    if bytes[0] == b then 0
    else
      var i := FirstIndex(bytes[1..], b);
      assert bytes[..i + 1] == [bytes[0]] + bytes[1..][..i];
      i + 1
  }

  /** The complete records of a byte stream and the trailing bytes after the
      last delimiter. */
  function SplitRecords(bytes: seq<Byte>, delimiter: Byte): (seq<seq<Byte>>, seq<Byte>)
    decreases |bytes|
  {
    if delimiter !in bytes then ([], bytes)
    else
      var i := FirstIndex(bytes, delimiter);
      var next := SplitRecords(bytes[i + 1..], delimiter);
      ([bytes[..i]] + next.0, next.1)
  }

  lemma JoinDelimitedCons(record: seq<Byte>, records: seq<seq<Byte>>, delimiter: Byte)
    ensures JoinDelimited([record] + records, delimiter) == record + [delimiter] + JoinDelimited(records, delimiter)
  {
    assert ([record] + records)[1..] == records;
  }

  /** Cutting a stream at the first delimiter. */
  lemma CutAtFirst(bytes: seq<Byte>, delimiter: Byte)
    requires delimiter in bytes
    ensures bytes == bytes[..FirstIndex(bytes, delimiter)] + [delimiter] + bytes[FirstIndex(bytes, delimiter) + 1..]
  {
  }

  /** Splitting rebuilds the stream: the records joined and the tail give
      the bytes back. */
  lemma {:induction false} SplitRecordsJoin(bytes: seq<Byte>, delimiter: Byte)
    ensures JoinDelimited(SplitRecords(bytes, delimiter).0, delimiter) + SplitRecords(bytes, delimiter).1 == bytes
    decreases |bytes|
  {
    if delimiter in bytes {
      var i := FirstIndex(bytes, delimiter);
      var next := SplitRecords(bytes[i + 1..], delimiter);
      SplitRecordsJoin(bytes[i + 1..], delimiter);
      JoinDelimitedCons(bytes[..i], next.0, delimiter);
      CutAtFirst(bytes, delimiter);
      assert SplitRecords(bytes, delimiter) == ([bytes[..i]] + next.0, next.1);
    }
  }

  /** Neither the records nor the tail of a split hold the delimiter. */
  lemma {:induction false} SplitRecordsClean(bytes: seq<Byte>, delimiter: Byte)
    ensures NoDelimiter(SplitRecords(bytes, delimiter).0, delimiter) && delimiter !in SplitRecords(bytes, delimiter).1
    decreases |bytes|
  {
    if delimiter in bytes {
      var i := FirstIndex(bytes, delimiter);
      var next := SplitRecords(bytes[i + 1..], delimiter);
      SplitRecordsClean(bytes[i + 1..], delimiter);
      var all := [bytes[..i]] + next.0;
      forall k | 0 <= k < |all|
        ensures delimiter !in all[k]
      {
        if k > 0 {
          assert all[k] == next.0[k - 1];
        }
      }
    }
  }

  /** Joining undoes splitting: delimiter-free records followed by a
      delimiter-free tail split back into exactly those records and tail. */
  lemma {:induction false} JoinSplitRecords(records: seq<seq<Byte>>, tail: seq<Byte>, delimiter: Byte)
    requires NoDelimiter(records, delimiter) && delimiter !in tail
    ensures SplitRecords(JoinDelimited(records, delimiter) + tail, delimiter) == (records, tail)
  {
    if records != [] {
      var bytes := JoinDelimited(records, delimiter) + tail;
      var rest := JoinDelimited(records[1..], delimiter) + tail;
      assert bytes == records[0] + [delimiter] + rest;
      assert bytes[|records[0]|] == delimiter;
      assert bytes[..|records[0]|] == records[0];
      assert delimiter in bytes;
      var i := FirstIndex(bytes, delimiter);
      assert i == |records[0]|;
      assert bytes[i + 1..] == rest;
      JoinSplitRecords(records[1..], tail, delimiter);
      assert SplitRecords(bytes, delimiter) == ([records[0]] + records[1..], tail);
      assert [records[0]] + records[1..] == records;
    } else {
      assert JoinDelimited(records, delimiter) + tail == tail;
    }
  }

  /** Emitting a record keeps the stream accounted for: the record and its
      delimiter move from the buffer to the records. */
  lemma RecordAccounted(records: seq<seq<Byte>>, record: seq<Byte>, after: seq<Byte>, rest: seq<Byte>, delimiter: Byte, total: seq<Byte>)
    requires JoinDelimited(records, delimiter) + (record + [delimiter] + after) + rest == total
    requires NoDelimiter(records, delimiter) && delimiter !in record
    ensures JoinDelimited(records + [record], delimiter) + after + rest == total
    ensures NoDelimiter(records + [record], delimiter)
  {
    JoinDelimitedSnoc(records, record, delimiter);
  }

  /** Sizes the buffer can have: the initial size plus whole increments,
      below the maximum plus one increment. */
  predicate BufferSize(n: int) {
    INIT_DATA_SIZE <= n < MAX_DATA_SIZE + DATA_SIZE_INC && (n - INIT_DATA_SIZE) % DATA_SIZE_INC == 0
  }

  /** The bytes of a read stored into the array from index at on. */
  method CopyInto(a: array<Byte>, at: nat, bytes: seq<Byte>)
    requires at + |bytes| <= a.Length
    modifies a
    ensures a[..at + |bytes|] == old(a[..at]) + bytes
  {
    forall i | 0 <= i < |bytes| {
      a[at + i] := bytes[i];
    }
    assert a[..at + |bytes|] == old(a[..at]) + bytes;
  }

  /** System.arraycopy(a, from, a, 0, to - from): the bytes between from
      and to move to the start of the array. */
  method MoveToFront(a: array<Byte>, from: nat, to: nat)
    requires 0 < from <= to <= a.Length
    modifies a
    ensures a[..to - from] == old(a[from..to])
    ensures a[to - from..] == old(a[to - from..])
  {
    var i := 0;
    while i < to - from
      invariant 0 <= i <= to - from
      invariant forall j :: 0 <= j < i ==> a[j] == old(a[from + j])
      invariant forall j :: i <= j < a.Length ==> a[j] == old(a[j])
    {
      a[i] := a[from + i];
      i := i + 1;
    }
    assert a[..to - from] == old(a[from..to]);
    assert a[to - from..] == old(a[to - from..]);
  }

  class OutputProxy {
    const delimiter: Byte
    const useOut: bool
    /** The bytes the input stream delivers before its end. */
    ghost const total: seq<Byte>
    /** What the input stream will do on its next reads. */
    var input: seq<ReadStep>
    var data: array<Byte>
    var dataPos: int
    var dataLimit: int
    var shutdown: bool
    /** The events this proxy put into the deque, in order. */
    var deque: seq<Event>

    /** Nothing read is lost: the emitted records, each with its delimiter,
        then the buffered bytes and the bytes still in the stream make up
        the whole stream. The scanned part of the buffer and the records are
        free of the delimiter. */
    ghost predicate Accounted()
      reads this, data
    {
      0 <= dataPos <= dataLimit <= data.Length &&
      delimiter !in data[..dataPos] &&
      NoDelimiter(Records(deque), delimiter) && KindsMatch(deque, useOut) &&
      JoinDelimited(Records(deque), delimiter) + data[..dataLimit] + StreamBytes(input) == total
    }

    /** Between passes of the read loop the whole buffer is scanned. */
    ghost predicate Valid()
      reads this, data
    {
      Accounted() && dataPos == dataLimit && BufferSize(data.Length)
    }

    constructor (stream: seq<ReadStep>, delimiterPrm: Byte, useOutPrm: bool)
      ensures Valid() && fresh(data)
      ensures input == stream && total == StreamBytes(stream) && delimiter == delimiterPrm && useOut == useOutPrm
      ensures data.Length == INIT_DATA_SIZE && dataPos == 0 && dataLimit == 0 && !shutdown && deque == []
    {
      input := stream;
      total := StreamBytes(stream);
      delimiter := delimiterPrm;
      useOut := useOutPrm;
      data := new Byte[INIT_DATA_SIZE](_ => 0);
      dataPos := 0;
      dataLimit := 0;
      shutdown := false;
      deque := [];
    }

    method ExpectShutdown()
      requires Valid()
      modifies this`shutdown
      ensures Valid() && shutdown
    {
      shutdown := true;
    }

    /** The delimited records emitted so far and the buffered bytes are the
        split of everything read so far. */
    lemma RecordsAreSplit()
      requires Valid()
      ensures SplitRecords(JoinDelimited(Records(deque), delimiter) + data[..dataLimit], delimiter) == (Records(deque), data[..dataLimit])
    {
      JoinSplitRecords(Records(deque), data[..dataLimit], delimiter);
    }

    /** run: passes of the read loop until EOF or shutdown. The loop of the
        source is unbounded; at most `passes` passes are made here. At EOF
        the emitted records are exactly the complete records of the whole
        stream, and the trailing bytes stay in the buffer. */
    method Run(passes: nat) returns (read: int)
      requires Valid()
      modifies this, data
      ensures Valid()
      ensures old(deque) <= deque
      ensures read == EOF ==> SplitRecords(total, delimiter) == (Records(deque), data[..dataLimit])
    {
      read := 0;
      var pass := 0;
      while read != EOF && !shutdown && pass < passes
        invariant Valid()
        invariant data == old(data) || fresh(data)
        invariant old(deque) <= deque
        invariant read == EOF ==> StreamBytes(input) == []
        decreases passes - pass
      {
        var result := Pass();
        match result {
          case Eof => read := EOF;
          case Count(n) => read := n;
          case Failed =>
        }
        pass := pass + 1;
      }
      if read == EOF {
        assert JoinDelimited(Records(deque), delimiter) + data[..dataLimit] == total;
        RecordsAreSplit();
      }
    }

    /** One pass of the read loop: read into the free part of the buffer,
        emit every complete record, then grow a full buffer by one
        increment below the maximum or report MaxBufferSizeReached at it. An
        IOException is reported unless shut down. */
    method Pass() returns (result: ReadResult)
      requires Valid()
      modifies this, data
      ensures Valid()
      ensures data == old(data) || fresh(data)
      ensures old(deque) <= deque
      ensures result == ReadOf(old(input), old(data.Length) - old(dataPos)).result
      ensures result.Eof? ==> deque == old(deque) && StreamBytes(input) == []
      ensures result.Failed? ==> deque == old(deque) + (if shutdown then [] else [ExceptionEvent(IoError)])
      ensures data.Length != old(data.Length) ==>
        old(data.Length) < MAX_DATA_SIZE && data.Length == old(data.Length) + DATA_SIZE_INC && dataLimit == old(data.Length)
      ensures result.Count? && dataLimit == data.Length ==>
        data.Length >= MAX_DATA_SIZE && |deque| > 0 && deque[|deque| - 1] == ExceptionEvent(MaxBufferSizeReached)
      ensures old(dataLimit) == old(data.Length) >= MAX_DATA_SIZE ==>
        result == Count(0) && dataLimit == old(dataLimit) && deque == old(deque) + [ExceptionEvent(MaxBufferSizeReached)]
    {
      var r := ReadOf(input, data.Length - dataPos);
      result := r.result;
      match result {
        case Eof =>
        case Failed =>
          ReadFailed(r.rest);
        case Count(n) =>
          Absorb(r.bytes, r.rest);
      }
    }

    /** The IOException handler of a pass. */
    method ReadFailed(rest: seq<ReadStep>)
      requires Valid() && StreamBytes(rest) == StreamBytes(input)
      modifies this`input, this`deque
      ensures Valid() && input == rest
      ensures deque == old(deque) + (if shutdown then [] else [ExceptionEvent(IoError)])
    {
      input := rest;
      if !shutdown {
        AddException(IoError);
      }
    }

    /** The part of a pass after a successful read. */
    method Absorb(bytes: seq<Byte>, rest: seq<ReadStep>)
      requires Valid() && dataLimit + |bytes| <= data.Length
      requires bytes + StreamBytes(rest) == StreamBytes(input)
      modifies this, data
      ensures Valid()
      ensures data == old(data) || fresh(data)
      ensures old(deque) <= deque
      ensures data.Length != old(data.Length) ==>
        old(data.Length) < MAX_DATA_SIZE && data.Length == old(data.Length) + DATA_SIZE_INC && dataLimit == old(data.Length)
      ensures dataLimit == data.Length ==>
        data.Length >= MAX_DATA_SIZE && |deque| > 0 && deque[|deque| - 1] == ExceptionEvent(MaxBufferSizeReached)
      ensures old(dataLimit) == old(data.Length) >= MAX_DATA_SIZE && bytes == [] ==>
        dataLimit == old(dataLimit) && deque == old(deque) + [ExceptionEvent(MaxBufferSizeReached)]
    {
      Fill(bytes, rest);
      Scan();
      if dataLimit == data.Length {
        if dataLimit < MAX_DATA_SIZE {
          Grow();
        } else {
          AddException(MaxBufferSizeReached);
        }
      }
    }

    /** The bytes of a read land at dataPos and extend the buffered data. */
    method Fill(bytes: seq<Byte>, rest: seq<ReadStep>)
      requires Valid() && dataLimit + |bytes| <= data.Length
      requires bytes + StreamBytes(rest) == StreamBytes(input)
      modifies this`input, this`dataLimit, data
      ensures Accounted() && dataPos == old(dataPos) && input == rest
      ensures dataLimit == old(dataLimit) + |bytes|
    {
      ghost var records := JoinDelimited(Records(deque), delimiter);
      ghost var buffered := data[..dataLimit];
      CopyInto(data, dataLimit, bytes);
      input := rest;
      dataLimit := dataLimit + |bytes|;
      assert data[..dataPos] == buffered;
      assert records + data[..dataLimit] + StreamBytes(input) == records + buffered + (bytes + StreamBytes(rest));
    }

    /** The delimiter search: each delimiter found ends a record, which is
        emitted, and the remaining bytes move to the start of the buffer. */
    method Scan()
      requires Accounted()
      modifies this`deque, this`dataPos, this`dataLimit, data
      ensures Accounted() && dataPos == dataLimit
      ensures old(deque) <= deque
      ensures forall i :: |old(deque)| <= i < |deque| ==> !deque[i].ExceptionEvent?
      ensures old(dataPos) == old(dataLimit) ==> dataLimit == old(dataLimit) && deque == old(deque)
    {
      while dataPos < dataLimit
        invariant Accounted()
        invariant old(deque) <= deque
        invariant forall i :: |old(deque)| <= i < |deque| ==> !deque[i].ExceptionEvent?
        invariant old(dataPos) == old(dataLimit) ==> dataPos == dataLimit == old(dataLimit) && deque == old(deque)
        decreases dataLimit - dataPos
      {
        if data[dataPos] == delimiter {
          EmitRecord();
        } else {
          assert data[..dataPos + 1] == data[..dataPos] + [data[dataPos]];
          dataPos := dataPos + 1;
        }
      }
    }

    /** A delimiter at dataPos: the bytes before it become a record and the
        bytes after it move to the front. */
    method EmitRecord()
      requires Accounted() && dataPos < dataLimit && data[dataPos] == delimiter
      modifies this`deque, this`dataPos, this`dataLimit, data
      ensures Accounted() && dataPos == 0
      ensures dataLimit == old(dataLimit) - old(dataPos) - 1
      ensures deque == old(deque) + [DataEvent(useOut, old(data[..dataPos]))]
    {
      var delimitedData := data[..dataPos];
      ghost var records := Records(deque);
      ghost var after := data[dataPos + 1..dataLimit];
      ghost var rest := StreamBytes(input);
      assert data[..dataLimit] == delimitedData + [delimiter] + after;
      AddData(delimitedData);
      dataPos := dataPos + 1;
      Compact();
      assert data[..dataLimit] == after;
      RecordAccounted(records, delimitedData, after, rest, delimiter, total);
      assert data[..dataPos] == [];
    }

    /** The bytes after dataPos move to the start of the buffer and the scan
        restarts there. */
    method Compact()
      requires 0 < dataPos <= dataLimit <= data.Length
      modifies this`dataPos, this`dataLimit, data
      ensures dataPos == 0 && dataLimit == old(dataLimit - dataPos)
      ensures data[..dataLimit] == old(data[dataPos..dataLimit])
    {
      if dataPos == dataLimit {
        dataLimit := 0;
      } else {
        MoveToFront(data, dataPos, dataLimit);
        dataLimit := dataLimit - dataPos;
      }
      dataPos := 0;
    }

    /** addToDeque(byte[]): a stdout or stderr event. */
    method AddData(record: seq<Byte>)
      requires KindsMatch(deque, useOut)
      modifies this`deque
      ensures deque == old(deque) + [DataEvent(useOut, record)]
      ensures Records(deque) == Records(old(deque)) + [record] && KindsMatch(deque, useOut)
    {
      deque := deque + [DataEvent(useOut, record)];
      assert deque[..|deque| - 1] == old(deque);
      assert Records(deque) == Records(old(deque)) + [record];
    }

    /** addToDeque(Exception): an exception event. */
    method AddException(exc: ProxyException)
      requires KindsMatch(deque, useOut)
      modifies this`deque
      ensures deque == old(deque) + [ExceptionEvent(exc)]
      ensures Records(deque) == Records(old(deque)) && KindsMatch(deque, useOut)
    {
      deque := deque + [ExceptionEvent(exc)];
      assert deque[..|deque| - 1] == old(deque);
      assert Records(deque) == Records(old(deque));
    }

    /** A full buffer below the maximum grows by one increment, keeping its
        contents. */
    method Grow()
      requires Accounted() && dataPos == dataLimit == data.Length && BufferSize(data.Length) && data.Length < MAX_DATA_SIZE
      modifies this`data
      ensures Valid() && fresh(data)
      ensures data.Length == old(data.Length) + DATA_SIZE_INC && dataLimit == old(dataLimit)
    {
      var enlarged := new Byte[data.Length + DATA_SIZE_INC](_ => 0);
      forall i | 0 <= i < data.Length {
        enlarged[i] := data[i];
      }
      assert enlarged[..dataLimit] == data[..dataLimit];
      data := enlarged;
    }
  }
}
