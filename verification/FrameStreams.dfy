/** The two frame readers as they run, byte by byte over a stream. */
module FrameStreams {
  import opened Options
  import opened Decimal
  import opened Framing

  /** A byte stream; a read may return fewer bytes than asked for, and none only at the end. */
  class ByteStream {
    var data: Bytes

    constructor (data: Bytes)
      ensures this.data == data
    {
      this.data := data;
    }

    method Read(n: nat) returns (chunk: Bytes)
      modifies this
      ensures |chunk| <= n && old(data) == chunk + data
      ensures chunk == [] <==> n == 0 || old(data) == []
    {
      var most := if n < |data| then n else |data|;
      var k :| 0 <= k <= most && (k == 0 <==> most == 0);
      chunk, data := data[..k], data[k..];
    }

    method Write(bytes: Bytes)
      modifies this
      ensures data == old(data) + bytes
    {
      data := data + bytes;
    }
  }

  method WriteFrame(stream: ByteStream, payload: Bytes)
    modifies stream
    ensures stream.data == old(stream.data) + Encode(payload)
  {
    stream.Write(PREFIX + Print(|payload|) + END);
    stream.Write(payload);
    assert old(stream.data) + (PREFIX + Print(|payload|) + END) + payload == old(stream.data) + Encode(payload);
  }

  /** One frame off the stream, as the codec reads it; what follows stays on the stream. */
  method ReadOne(codec: Codec, stream: ByteStream) returns (r: Read)
    modifies stream
    ensures r == ReadFrame(codec, old(stream.data))
    ensures r.Payload? ==> stream.data == r.rest
  {
    ghost var input := stream.data;
    var header, fault := ReadHeader(stream);
    if fault.Some? {
      return fault.value;
    }
    assert header[..|header| - 4] == input[..|header| - 4];
    var length := FindLength(codec, header[..|header| - 4]);
    r := ReadBody(stream, length);
  }

  method ReadBody(stream: ByteStream, length: Option<nat>) returns (r: Read)
    modifies stream
    ensures r == AfterHeader(old(stream.data), length)
    ensures r.Payload? ==> stream.data == r.rest
  {
    if length.None? {
      return Broken(BadHeader);
    }
    var payload := ReadPayload(stream, length.value);
    r := if payload.None? then Broken(EofInPayload) else Payload(payload.value, stream.data);
  }

  /** Exactly `n` bytes, in as many reads as it takes; None if the stream ends first. */
  method ReadPayload(stream: ByteStream, n: nat) returns (payload: Option<Bytes>)
    modifies stream
    ensures var input := old(stream.data);
            if n > |input| then payload == None else payload == Some(input[..n]) && stream.data == input[n..]
  {
    ghost var input := stream.data;
    var got := [];
    while |got| < n
      invariant |got| <= n && input == got + stream.data
      decreases n - |got|
    {
      var chunk := stream.Read(n - |got|);
      if chunk == [] {
        return None;
      }
      assert input == (got + chunk) + stream.data;
      got := got + chunk;
    }
    assert got == input[..n] && stream.data == input[n..];
    payload := Some(got);
  }

  /** The header up to and with its terminator, or how the read ends before one. */
  method ReadHeader(stream: ByteStream) returns (header: Bytes, fault: Option<Read>)
    modifies stream
    ensures var input := old(stream.data);
            var e := HeaderEnd(input, 0);
            if e > MAX_HEADER_BYTES && |input| > MAX_HEADER_BYTES then fault == Some(Broken(HeaderTooLong))
            else if input == [] then fault == Some(CleanEof)
            else if e > |input| then fault == Some(Broken(EofInHeader))
            else fault == None && header == input[..e] && stream.data == input[e..]
  {
    ghost var input := stream.data;
    header := [];
    while !EndsAt(header, |header|)
      invariant |header| <= MAX_HEADER_BYTES && input == header + stream.data
      invariant NoEndBefore(input, |header|)
      decreases |stream.data|
    {
      var byte := stream.Read(1);
      NotYet(input, header);
      EndLater(input, |header| + 1);
      if byte == [] {
        assert header == input;
        return header, Some(if header == [] then CleanEof else Broken(EofInHeader));
      }
      header := header + byte;
      if |header| > MAX_HEADER_BYTES {
        return header, Some(Broken(HeaderTooLong));
      }
    }
    EndHere(input, header);
    fault := None;
  }

  ghost predicate NoEndBefore(input: Bytes, n: nat) {
    forall i: nat :: i < n ==> !EndsAt(input, i)
  }

  lemma EndLater(input: Bytes, n: nat)
    requires n <= |input| + 1 && NoEndBefore(input, n)
    ensures n <= HeaderEnd(input, 0)
  {
  }

  lemma EndHere(input: Bytes, header: Bytes)
    requires header <= input && NoEndBefore(input, |header|) && EndsAt(header, |header|)
    ensures HeaderEnd(input, 0) == |header| && header == input[..|header|]
  {
    assert forall k :: 0 <= k < |header| ==> input[k] == header[k];
    assert EndsAt(input, |header|);
  }

  lemma NotYet(input: Bytes, header: Bytes)
    requires header <= input && !EndsAt(header, |header|)
    ensures !EndsAt(input, |header|)
  {
    assert forall k :: 0 <= k < |header| ==> input[k] == header[k];
  }

  /** The length the header lines give: the last one, unless one is bad. */
  method FindLength(codec: Codec, header: Bytes) returns (length: Option<nat>)
    ensures length == HeaderLength(codec, header)
  {
    var lines := LinesOf(codec, header);
    var found := LastField(codec, lines);
    length := if found.Length? && 0 <= found.value <= MAX_FRAME_BYTES then Some(found.value) else None;
  }

  /** Line by line: a bad length ends the search, else the last one counts. */
  method LastField(codec: Codec, lines: seq<Bytes>) returns (found: Field)
    ensures found == LastLength(FieldsOf(codec, lines), |lines|)
  {
    ghost var fields := FieldsOf(codec, lines);
    found := NotLength;
    for i := 0 to |lines|
      invariant found == LastLength(fields, i) && !found.BadLength?
    {
      var field := ReadField(codec, lines, i);
      NextLength(fields, i);
      if field.BadLength? {
        BadStays(fields, i + 1, |fields|);
        return field;
      }
      if field.Length? {
        found := field;
      }
    }
  }

  lemma NextLength(fields: seq<Field>, i: nat)
    requires i < |fields|
    ensures LastLength(fields, i + 1) ==
            if LastLength(fields, i).BadLength? || fields[i].NotLength? then LastLength(fields, i) else fields[i]
  {
  }

  method ReadField(codec: Codec, lines: seq<Bytes>, i: nat) returns (field: Field)
    requires i < |lines|
    ensures field == FieldsOf(codec, lines)[i]
  {
    FieldAt(codec, lines, i);
    field := FieldOf(codec, lines[i]);
  }

  lemma {:induction false} FieldAt(codec: Codec, lines: seq<Bytes>, i: nat)
    requires i < |lines|
    ensures FieldsOf(codec, lines)[i] == FieldOf(codec, lines[i])
  {
    if i > 0 {
      FieldAt(codec, lines[1..], i - 1);
    }
  }

  lemma {:induction false} BadStays(fields: seq<Field>, i: nat, n: nat)
    requires 0 < i <= n <= |fields| && LastLength(fields, i).BadLength?
    ensures LastLength(fields, n) == BadLength
  {
    if i < n {
      BadStays(fields, i, n - 1);
    }
  }
}
