/** Length-prefixed frames between the desktop host and the engine, and the two readers of them. A
    byte is written as the character with its code. */
module Framing {
  import opened Decimal
  import opened Options

  type Bytes = string

  /** The engine's reader and the host's. */
  datatype Codec = Engine | HostSide

  datatype Fault = EofInHeader | HeaderTooLong | BadHeader | EofInPayload

  datatype Read = Payload(payload: Bytes, rest: Bytes) | CleanEof | Broken(fault: Fault)

  const MAX_FRAME_BYTES: nat := 64 * 1024 * 1024
  const MAX_HEADER_BYTES: nat := 8192
  const USIZE_MAX: nat := 0xFFFF_FFFF_FFFF_FFFF
  /** More digits than this the engine's integer parser refuses. */
  const INT_DIGITS: nat := 4300

  const PREFIX := "Content-Length: "
  const END := "\r\n\r\n"

  function Encode(payload: Bytes): Bytes {
    PREFIX + Print(|payload|) + END + payload
  }

  function EncodeAll(payloads: seq<Bytes>): Bytes {
    if payloads == [] then [] else Encode(payloads[0]) + EncodeAll(payloads[1..])
  }

  // ---- the header block ------------------------------------------------------------------

  /** The first `k` bytes end in the terminator. */
  predicate EndsAt(input: Bytes, k: nat) {
    && 4 <= k <= |input|
    && input[k - 4] == '\r' && input[k - 3] == '\n' && input[k - 2] == '\r' && input[k - 1] == '\n'
  }

  /** The shortest prefix of at least `k` bytes that ends the header; past the input if none does. */
  function HeaderEnd(input: Bytes, k: nat): (e: nat)
    requires k <= |input| + 1
    ensures k <= e <= |input| + 1
    ensures e <= |input| ==> EndsAt(input, e)
    ensures forall i: nat :: k <= i < e ==> !EndsAt(input, i)
    decreases |input| + 1 - k
  {
    if k > |input| || EndsAt(input, k) then k else HeaderEnd(input, k + 1)
  }

  predicate IsSpace(c: char) {
    c == ' ' || '\t' <= c <= '\r'
  }

  function Lower(c: char): char {
    if 'A' <= c <= 'Z' then (c as int + 32) as char else c
  }

  predicate Ascii(s: Bytes) {
    forall i :: 0 <= i < |s| ==> s[i] as nat < 0x80
  }

  predicate IsLengthName(name: string) {
    |name| == 14 && forall i :: 0 <= i < 14 ==> Lower(name[i]) == "content-length"[i]
  }

  /** The number of bytes before the first colon. */
  function ColonAt(line: Bytes): (k: nat)
    ensures k <= |line| && (k < |line| ==> line[k] == ':') && forall i :: 0 <= i < k ==> line[i] != ':'
  {
    if line == [] || line[0] == ':' then 0 else 1 + ColonAt(line[1..])
  }

  /** What one header line says about the length. */
  datatype Field = NotLength | Length(value: int) | BadLength

  /** The line up to its first colon, and after it. */
  function NamePart(line: Bytes): Bytes {
    line[..ColonAt(line)]
  }

  function ValuePart(line: Bytes): Bytes {
    if ColonAt(line) < |line| then line[ColonAt(line) + 1..] else []
  }

  function FieldFor(name: string, length: Option<int>): Field {
    if IsLengthName(name) then AsField(length) else NotLength
  }

  function AsField(n: Option<int>): Field {
    if n.None? then BadLength else Length(n.value)
  }

  // The engine: lines end in CR LF, whitespace is ASCII, lengths are integer literals.

  function CrLfLines(s: Bytes, i: nat): (lines: seq<Bytes>)
    requires i <= |s|
    ensures lines != []
    decreases |s|, |s| - i
  {
    if i + 2 > |s| then [s]
    else if s[i] == '\r' && s[i + 1] == '\n' then [s[..i]] + CrLfLines(s[i + 2..], 0)
    else CrLfLines(s, i + 1)
  }

  function StripLeft(s: Bytes): (t: Bytes)
    ensures |t| <= |s| && (t != [] ==> !IsSpace(t[0]))
  {
    if s != [] && IsSpace(s[0]) then StripLeft(s[1..]) else s
  }

  function StripRight(s: Bytes): (t: Bytes)
    ensures |t| <= |s| && (t != [] ==> !IsSpace(t[|t| - 1]))
  {
    if s != [] && IsSpace(s[|s| - 1]) then StripRight(s[..|s| - 1]) else s
  }

  function Strip(s: Bytes): Bytes {
    StripRight(StripLeft(s))
  }

  predicate GroupedDigits(s: string) {
    && s != [] && IsDigit(s[0]) && IsDigit(s[|s| - 1])
    && (forall i :: 0 <= i < |s| ==> IsDigit(s[i]) || s[i] == '_')
    && (forall i :: 0 <= i < |s| - 1 ==> s[i] != '_' || s[i + 1] != '_')
  }

  function DigitsOf(s: string): (d: string)
    ensures AllDigits(d)
  {
    if s == [] then []
    else DigitsOf(s[..|s| - 1]) + (if IsDigit(s[|s| - 1]) then [s[|s| - 1]] else [])
  }

  predicate Signed(s: string) {
    s != [] && (s[0] == '+' || s[0] == '-')
  }

  function Unsigned(s: string): string {
    if Signed(s) then s[1..] else s
  }

  function EngineInt(s: string): Option<int> {
    if !GroupedDigits(Unsigned(s)) || |DigitsOf(s)| > INT_DIGITS then None
    else Some(WithSign(s, Parse(DigitsOf(s))))
  }

  function WithSign(s: string, n: nat): int {
    if s != [] && s[0] == '-' then 0 - n else n
  }

  function EngineField(line: Bytes): Field {
    FieldFor(Strip(NamePart(line)), EngineInt(Strip(ValuePart(line))))
  }

  // The host: lines end in CR, a leading LF is dropped, lines must be UTF-8, whitespace is
  // Unicode's, lengths are machine words.

  function CrLines(s: Bytes, i: nat): (lines: seq<Bytes>)
    requires i <= |s|
    ensures lines != []
    decreases |s|, |s| - i
  {
    if i == |s| then [s]
    else if s[i] == '\r' then [s[..i]] + CrLines(s[i + 1..], 0)
    else CrLines(s, i + 1)
  }

  function DropLf(line: Bytes): Bytes {
    if line != [] && line[0] == '\n' then line[1..] else line
  }

  function DropLfs(lines: seq<Bytes>): (dropped: seq<Bytes>)
    ensures |dropped| == |lines| && forall i :: 0 <= i < |lines| ==> dropped[i] == DropLf(lines[i])
  {
    if lines == [] then [] else [DropLf(lines[0])] + DropLfs(lines[1..])
  }

  predicate Between(c: char, lo: nat, hi: nat) {
    lo <= c as nat <= hi
  }

  /** The length of the well-formed UTF-8 sequence a text starts with; 0 if there is none. */
  function Utf8Width(s: Bytes): (n: nat)
    ensures n <= |s|
  {
    if s == [] then 0
    else if Between(s[0], 0, 0x7F) then 1
    else if |s| >= 2 && Between(s[0], 0xC2, 0xDF) && Between(s[1], 0x80, 0xBF) then 2
    else if |s| >= 3 && Between(s[2], 0x80, 0xBF) &&
            ((s[0] as nat == 0xE0 && Between(s[1], 0xA0, 0xBF)) ||
             ((Between(s[0], 0xE1, 0xEC) || Between(s[0], 0xEE, 0xEF)) && Between(s[1], 0x80, 0xBF)) ||
             (s[0] as nat == 0xED && Between(s[1], 0x80, 0x9F))) then 3
    else if |s| >= 4 && Between(s[2], 0x80, 0xBF) && Between(s[3], 0x80, 0xBF) &&
            ((s[0] as nat == 0xF0 && Between(s[1], 0x90, 0xBF)) ||
             (Between(s[0], 0xF1, 0xF3) && Between(s[1], 0x80, 0xBF)) ||
             (s[0] as nat == 0xF4 && Between(s[1], 0x80, 0x8F))) then 4
    else 0
  }

  predicate IsUtf8(s: Bytes)
    decreases |s|
  {
    s == [] || (Utf8Width(s) > 0 && IsUtf8(s[Utf8Width(s)..]))
  }

  /** The `w` bytes at `i` are one white-space character in UTF-8. */
  predicate WhiteAt(s: Bytes, i: nat, w: nat)
    requires i + w <= |s|
  {
    if w == 1 then IsSpace(s[i])
    else if w == 2 then s[i] as nat == 0xC2 && s[i + 1] as nat in {0x85, 0xA0}
    else
      w == 3 &&
      ((s[i] as nat == 0xE1 && s[i + 1] as nat == 0x9A && s[i + 2] as nat == 0x80) ||
       (s[i] as nat == 0xE2 && s[i + 1] as nat == 0x80 &&
        (Between(s[i + 2], 0x80, 0x8A) || s[i + 2] as nat in {0xA8, 0xA9, 0xAF})) ||
       (s[i] as nat == 0xE2 && s[i + 1] as nat == 0x81 && s[i + 2] as nat == 0x9F) ||
       (s[i] as nat == 0xE3 && s[i + 1] as nat == 0x80 && s[i + 2] as nat == 0x80))
  }

  function TrimLeft(s: Bytes): Bytes
    decreases |s|
  {
    if |s| >= 1 && WhiteAt(s, 0, 1) then TrimLeft(s[1..])
    else if |s| >= 2 && WhiteAt(s, 0, 2) then TrimLeft(s[2..])
    else if |s| >= 3 && WhiteAt(s, 0, 3) then TrimLeft(s[3..])
    else s
  }

  function TrimRight(s: Bytes): Bytes
    decreases |s|
  {
    var n := |s|;
    if n >= 1 && WhiteAt(s, n - 1, 1) then TrimRight(s[..n - 1])
    else if n >= 2 && WhiteAt(s, n - 2, 2) then TrimRight(s[..n - 2])
    else if n >= 3 && WhiteAt(s, n - 3, 3) then TrimRight(s[..n - 3])
    else s
  }

  function Trim(s: Bytes): Bytes {
    TrimRight(TrimLeft(s))
  }

  function HostInt(s: string): Option<int> {
    var digits := if s != [] && s[0] == '+' then s[1..] else s;
    if digits == [] || !AllDigits(digits) || Parse(digits) > USIZE_MAX then None else Some(Parse(digits))
  }

  function HostField(line: Bytes): Field {
    if IsUtf8(line) then HostText(line) else NotLength
  }

  function HostText(line: string): Field {
    if ColonAt(line) == |line| then NotLength else FieldFor(Trim(NamePart(line)), HostInt(Trim(ValuePart(line))))
  }

  // Both: any bad length breaks the header, else the last length counts.

  function LinesOf(codec: Codec, header: Bytes): seq<Bytes> {
    if codec.Engine? then CrLfLines(header, 0) else DropLfs(CrLines(header, 0))
  }

  function FieldOf(codec: Codec, line: Bytes): Field {
    if codec.Engine? then EngineField(line) else HostField(line)
  }

  function FieldsOf(codec: Codec, lines: seq<Bytes>): (fields: seq<Field>)
    ensures |fields| == |lines|
  {
    if lines == [] then [] else [FieldOf(codec, lines[0])] + FieldsOf(codec, lines[1..])
  }

  function LastLength(fields: seq<Field>, n: nat): Field
    requires n <= |fields|
  {
    if n == 0 then NotLength
    else
      var init, f := LastLength(fields, n - 1), fields[n - 1];
      if init.BadLength? || f.NotLength? then init else f
  }

  /** A bad length anywhere is the header's; otherwise the last line that gives a length gives it. */
  lemma {:induction false} LastCounts(fields: seq<Field>, n: nat)
    requires n <= |fields|
    ensures LastLength(fields, n).BadLength? <==> exists i :: 0 <= i < n && fields[i].BadLength?
    ensures LastLength(fields, n).Length? ==>
              exists i :: 0 <= i < n && fields[i] == LastLength(fields, n) && NoneBetween(fields, i, n)
    ensures LastLength(fields, n).NotLength? ==> forall i :: 0 <= i < n ==> fields[i].NotLength?
  {
    if n > 0 {
      LastCounts(fields, n - 1);
    }
  }

  predicate NoneBetween(fields: seq<Field>, i: nat, n: nat)
    requires n <= |fields|
  {
    forall k :: i < k < n ==> fields[k].NotLength?
  }

  function HeaderLength(codec: Codec, header: Bytes): Option<nat> {
    var fields := FieldsOf(codec, LinesOf(codec, header));
    var f := LastLength(fields, |fields|);
    if f.Length? && 0 <= f.value <= MAX_FRAME_BYTES then Some(f.value) else None
  }

  // ---- reading ---------------------------------------------------------------------------

  function ReadFrame(codec: Codec, input: Bytes): (r: Read)
    ensures r.Payload? ==> |r.rest| < |input|
  {
    var e := HeaderEnd(input, 0);
    if e > MAX_HEADER_BYTES && |input| > MAX_HEADER_BYTES then Broken(HeaderTooLong)
    else if input == [] then CleanEof
    else if e > |input| then Broken(EofInHeader)
    else AfterHeader(input[e..], HeaderLength(codec, input[..e - 4]))
  }

  /** The frame whose header has been read. */
  function AfterHeader(input: Bytes, length: Option<nat>): (r: Read)
    ensures r.Payload? ==> |r.rest| <= |input|
  {
    if length.None? then Broken(BadHeader)
    else if length.value > |input| then Broken(EofInPayload)
    else Payload(input[..length.value], input[length.value..])
  }

  /** Everything a reader gets before the stream ends, and how it ends. */
  function ReadAll(codec: Codec, input: Bytes): (seq<Bytes>, Read)
    decreases |input|
  {
    var r := ReadFrame(codec, input);
    if r.Payload? then
      var (more, end) := ReadAll(codec, r.rest);
      ([r.payload] + more, end)
    else ([], r)
  }

  // ---- what is written is read back ------------------------------------------------------

  /** A header holds no terminator before its end, whatever payload follows. */
  lemma FirstTerminator(digits: string, tail: Bytes)
    requires AllDigits(digits)
    ensures HeaderEnd(PREFIX + digits + END + tail, 0) == |PREFIX| + |digits| + 4
  {
    forall i | 0 <= i < |PREFIX + digits| ensures (PREFIX + digits)[i] != '\r' {
      NoReturn(digits, i);
    }
    LineEnd(PREFIX + digits, tail);
  }

  /** Bytes without CR hold no terminator. */
  lemma LineEnd(line: Bytes, tail: Bytes)
    requires forall k :: 0 <= k < |line| ==> line[k] != '\r'
    ensures HeaderEnd(line + END + tail, 0) == |line| + 4
  {
    var input := line + END + tail;
    assert forall k :: 0 <= k < |line| ==> input[k] == line[k];
    assert forall k :: 0 <= k < 4 ==> input[|line| + k] == END[k];
    assert EndsAt(input, |line| + 4);
    assert forall i: nat :: i < |line| + 4 ==> !EndsAt(input, i);
  }

  lemma NoReturn(digits: string, i: nat)
    requires AllDigits(digits) && i < |PREFIX| + |digits|
    ensures (PREFIX + digits)[i] !in {'\r', '\n'}
  {
    if i >= |PREFIX| {
      assert IsDigit(digits[i - |PREFIX|]);
    }
  }

  lemma {:induction false} OneCrLfLine(s: Bytes, i: nat)
    requires i <= |s| && forall k :: 0 <= k < |s| ==> s[k] != '\r'
    ensures CrLfLines(s, i) == [s]
    decreases |s| - i
  {
    if i + 2 <= |s| {
      OneCrLfLine(s, i + 1);
    }
  }

  lemma {:induction false} OneCrLine(s: Bytes, i: nat)
    requires i <= |s| && forall k :: 0 <= k < |s| ==> s[k] != '\r'
    ensures CrLines(s, i) == [s]
    decreases |s| - i
  {
    if i < |s| {
      OneCrLine(s, i + 1);
    }
  }

  lemma {:induction false} DigitsOfDigits(s: string)
    requires AllDigits(s)
    ensures DigitsOf(s) == s
  {
    if s != [] {
      var init, last := s[..|s| - 1], s[|s| - 1];
      assert IsDigit(last) && s == init + [last];
      DigitsOfDigits(init);
    }
  }

  lemma {:induction false} AsciiIsUtf8(s: Bytes)
    requires forall i :: 0 <= i < |s| ==> s[i] as nat < 0x80
    ensures IsUtf8(s)
    decreases |s|
  {
    if s != [] {
      AsciiIsUtf8(s[1..]);
    }
  }

  lemma {:induction false} TrimIsStripLeft(s: Bytes)
    requires forall i :: 0 <= i < |s| ==> s[i] as nat < 0x80
    ensures TrimLeft(s) == StripLeft(s)
    decreases |s|
  {
    if s != [] && IsSpace(s[0]) {
      TrimIsStripLeft(s[1..]);
    }
  }

  lemma {:induction false} TrimIsStripRight(s: Bytes)
    requires forall i :: 0 <= i < |s| ==> s[i] as nat < 0x80
    ensures TrimRight(s) == StripRight(s)
    decreases |s|
  {
    if s != [] && IsSpace(s[|s| - 1]) {
      TrimIsStripRight(s[..|s| - 1]);
    }
  }

  lemma {:induction false} StripLeftAscii(s: Bytes)
    requires forall i :: 0 <= i < |s| ==> s[i] as nat < 0x80
    ensures forall i :: 0 <= i < |StripLeft(s)| ==> StripLeft(s)[i] as nat < 0x80
  {
    if s != [] && IsSpace(s[0]) {
      StripLeftAscii(s[1..]);
    }
  }

  lemma TrimIsStrip(s: Bytes)
    requires forall i :: 0 <= i < |s| ==> s[i] as nat < 0x80
    ensures Trim(s) == Strip(s)
  {
    TrimIsStripLeft(s);
    StripLeftAscii(s);
    TrimIsStripRight(StripLeft(s));
  }

  lemma {:induction false} ColonIs(line: Bytes, c: nat)
    requires c < |line| && line[c] == ':' && forall i :: 0 <= i < c ==> line[i] != ':'
    ensures ColonAt(line) == c
  {
  }

  lemma WrittenDigits(n: nat)
    requires n <= MAX_FRAME_BYTES
    ensures |Print(n)| <= 8
  {
    assert Power(8) == 100000000 by {
      assert Power(4) == 10000;
    }
    PrintLength(n, Power(8), 8);
  }

  lemma DigitsStripped(d: string)
    requires d != [] && AllDigits(d)
    ensures Strip(" " + d) == d
  {
    assert (" " + d)[1..] == d;
    assert IsDigit(d[0]) && IsDigit(d[|d| - 1]);
    assert StripLeft(" " + d) == StripLeft(d) == d;
  }

  lemma NameStripped()
    ensures Strip("Content-Length") == "Content-Length" && IsLengthName("Content-Length")
  {
    assert StripLeft("Content-Length") == "Content-Length";
  }

  lemma EngineReadsDigits(d: string)
    requires d != [] && AllDigits(d) && |d| <= 8
    ensures EngineInt(d) == Some(Parse(d))
  {
    assert IsDigit(d[0]);
    DigitsAreGrouped(d);
    DigitsOfDigits(d);
    EngineIntIs(d, d);
  }

  lemma ReadsField(line: Bytes, d: string, n: nat)
    requires ColonAt(line) == 14 < |line| && line[..14] == "Content-Length" && line[15..] == " " + d
    requires forall i :: 0 <= i < |line| ==> line[i] as nat < 0x80
    requires d != [] && AllDigits(d) && |d| <= 8 && Parse(d) == n <= MAX_FRAME_BYTES
    ensures EngineField(line) == Length(n) && HostField(line) == Length(n)
  {
    FieldsOfDigits(line, d);
    EngineReadsDigits(d);
    assert IsDigit(d[0]);
    assert HostInt(d) == Some(n);
  }

  lemma FieldsOfDigits(line: Bytes, d: string)
    requires ColonAt(line) == 14 < |line| && line[..14] == "Content-Length" && line[15..] == " " + d
    requires forall i :: 0 <= i < |line| ==> line[i] as nat < 0x80
    requires d != [] && AllDigits(d)
    ensures EngineField(line) == AsField(EngineInt(d)) && HostField(line) == AsField(HostInt(d))
  {
    var name, v := line[..14], line[15..];
    DigitsStripped(d);
    NameStripped();
    EngineFieldIs(line, name, v);
    AsciiIsUtf8(line);
    HostFieldIs(line);
    HostReadsDigits(line, name, v, d);
  }

  lemma HostFieldIs(line: Bytes)
    requires IsUtf8(line)
    ensures HostField(line) == HostText(line)
  {
  }

  lemma HostReadsDigits(line: Bytes, name: Bytes, v: Bytes, d: string)
    requires ColonAt(line) < |line| && NamePart(line) == name && ValuePart(line) == v
    requires Ascii(name) && Ascii(v) && IsLengthName(Strip(name)) && Strip(v) == d
    ensures HostText(line) == AsField(HostInt(d))
  {
    TrimIsStrip(name);
    TrimIsStrip(v);
    HostTextIs(line, name, v);
  }

  lemma EngineFieldIs(line: Bytes, name: Bytes, v: Bytes)
    requires NamePart(line) == name && ValuePart(line) == v && IsLengthName(Strip(name))
    ensures EngineField(line) == AsField(EngineInt(Strip(v)))
  {
  }

  lemma HostTextIs(line: Bytes, name: Bytes, v: Bytes)
    requires NamePart(line) == name && ValuePart(line) == v && ColonAt(line) < |line| && IsLengthName(Trim(name))
    ensures HostText(line) == AsField(HostInt(Trim(v)))
  {
  }

  /** Either reader finds in a written header the length that was written. */
  lemma WrittenHeader(codec: Codec, n: nat)
    requires n <= MAX_FRAME_BYTES
    ensures HeaderLength(codec, PREFIX + Print(n)) == Some(n)
  {
    var line := PREFIX + Print(n);
    WrittenDigits(n);
    HeaderLine(Print(n));
    OneCrLfLine(line, 0);
    OneCrLine(line, 0);
    assert LinesOf(codec, line) == [line];
    ParsePrint(n);
    ReadsField(line, Print(n), n);
    OneLine(codec, line);
  }

  /** One written frame, followed by anything, is read back by either reader and leaves the rest. */
  lemma FrameReadBack(codec: Codec, payload: Bytes, rest: Bytes)
    requires |payload| <= MAX_FRAME_BYTES
    ensures ReadFrame(codec, Encode(payload) + rest) == Payload(payload, rest)
  {
    var digits := Print(|payload|);
    var input := Encode(payload) + rest;
    assert input == PREFIX + digits + END + (payload + rest);
    FirstTerminator(digits, payload + rest);
    var e := |PREFIX| + |digits| + 4;
    WrittenDigits(|payload|);
    assert input[..e - 4] == PREFIX + digits;
    WrittenHeader(codec, |payload|);
    assert input[e..e + |payload|] == payload && input[e + |payload|..] == rest;
  }

  /** A frame past the cap is written all the same and refused by both readers: exactly the payloads
      within the cap are read back. */
  lemma ReadBackExactly(codec: Codec, payload: Bytes, rest: Bytes)
    ensures ReadFrame(codec, Encode(payload) + rest) == Payload(payload, rest) <==> |payload| <= MAX_FRAME_BYTES
    ensures |payload| > MAX_FRAME_BYTES ==> ReadFrame(codec, Encode(payload) + rest).Broken?
  {
    if |payload| <= MAX_FRAME_BYTES {
      FrameReadBack(codec, payload, rest);
    } else {
      var digits := Print(|payload|);
      var input := Encode(payload) + rest;
      assert input == PREFIX + digits + END + (payload + rest);
      FirstTerminator(digits, payload + rest);
      assert input[..|PREFIX| + |digits|] == PREFIX + digits;
      OversizeHeader(codec, |payload|);
    }
  }

  lemma OversizeHeader(codec: Codec, n: nat)
    requires n > MAX_FRAME_BYTES
    ensures HeaderLength(codec, PREFIX + Print(n)) == None
  {
    var digits := Print(n);
    var line := PREFIX + digits;
    HeaderLine(digits);
    OneCrLfLine(line, 0);
    OneCrLine(line, 0);
    assert LinesOf(codec, line) == [line];
    OneLine(codec, line);
    ParsePrint(n);
    OversizeField(line, digits);
  }

  lemma HeaderLine(digits: string)
    requires AllDigits(digits)
    ensures var line := PREFIX + digits;
            && ColonAt(line) == 14 < |line| && line[..14] == "Content-Length" && line[15..] == " " + digits
            && forall i :: 0 <= i < |line| ==> line[i] as nat < 0x80 && line[i] != '\r' && line[i] != '\n'
  {
    var line := PREFIX + digits;
    forall i | 0 <= i < |line| ensures line[i] as nat < 0x80 && line[i] != '\r' && line[i] != '\n' {
      NoReturn(digits, i);
      assert i >= |PREFIX| ==> IsDigit(digits[i - |PREFIX|]);
    }
    ColonIs(line, 14);
  }

  lemma OneLine(codec: Codec, line: Bytes)
    ensures FieldsOf(codec, [line]) == [FieldOf(codec, line)]
    ensures LastLength([FieldOf(codec, line)], 1) == FieldOf(codec, line)
  {
    assert [line][1..] == [];
    OneField(FieldOf(codec, line));
  }

  lemma OneField(f: Field)
    ensures LastLength([f], 1) == f
  {
    assert LastLength([f], 0) == NotLength;
  }

  lemma OversizeField(line: Bytes, d: string)
    requires ColonAt(line) == 14 < |line| && line[..14] == "Content-Length" && line[15..] == " " + d
    requires forall i :: 0 <= i < |line| ==> line[i] as nat < 0x80
    requires d != [] && AllDigits(d)
    ensures EngineField(line) in {BadLength, Length(Parse(d))}
    ensures HostField(line) in {BadLength, Length(Parse(d))}
  {
    FieldsOfDigits(line, d);
    ReadsDigits(d);
  }

  lemma ReadsDigits(d: string)
    requires d != [] && AllDigits(d)
    ensures EngineInt(d) in {None, Some(Parse(d))} && HostInt(d) in {None, Some(Parse(d))}
  {
    DigitsOfDigits(d);
    assert IsDigit(d[0]) && !Signed(d);
  }

  ghost predicate InBounds(payloads: seq<Bytes>) {
    forall i :: 0 <= i < |payloads| ==> |payloads[i]| <= MAX_FRAME_BYTES
  }

  /** Every written list of in-bound payloads is read back whole, then the stream ends cleanly. */
  lemma {:induction false} RoundTrip(codec: Codec, payloads: seq<Bytes>)
    requires InBounds(payloads)
    ensures ReadAll(codec, EncodeAll(payloads)) == (payloads, CleanEof)
    decreases |payloads|
  {
    if payloads != [] {
      RoundTrip(codec, payloads[1..]);
      ReadOneMore(codec, payloads[0], payloads[1..], EncodeAll(payloads[1..]));
      assert payloads == [payloads[0]] + payloads[1..];
    }
  }

  lemma ReadOneMore(codec: Codec, payload: Bytes, more: seq<Bytes>, rest: Bytes)
    requires |payload| <= MAX_FRAME_BYTES && ReadAll(codec, rest) == (more, CleanEof)
    ensures ReadAll(codec, Encode(payload) + rest) == ([payload] + more, CleanEof)
  {
    ReadAllOne(codec, payload, rest);
  }

  // ---- a stream that is cut --------------------------------------------------------------

  /** How many whole frames the first `cut` bytes hold. */
  function WholeFrames(payloads: seq<Bytes>, cut: nat): (k: nat)
    ensures k <= |payloads|
  {
    if payloads == [] || cut < |Encode(payloads[0])| then 0
    else 1 + WholeFrames(payloads[1..], cut - |Encode(payloads[0])|)
  }

  predicate AtBoundary(payloads: seq<Bytes>, cut: nat) {
    exists k :: 0 <= k <= |payloads| && cut == |EncodeAll(payloads[..k])|
  }

  lemma CutFrame(codec: Codec, payload: Bytes, cut: nat)
    requires |payload| <= MAX_FRAME_BYTES && 0 < cut < |Encode(payload)|
    ensures ReadFrame(codec, Encode(payload)[..cut]) ==
            Broken(if cut < |Encode(payload)| - |payload| then EofInHeader else EofInPayload)
  {
    var digits := Print(|payload|);
    var input := Encode(payload)[..cut];
    var e := |PREFIX| + |digits| + 4;
    CutTerminator(payload, cut);
    WrittenDigits(|payload|);
    if cut >= e {
      assert input[..e - 4] == PREFIX + digits;
      WrittenHeader(codec, |payload|);
    }
  }

  lemma CutTerminator(payload: Bytes, cut: nat)
    requires cut < |Encode(payload)|
    ensures var e := |Encode(payload)| - |payload|;
            HeaderEnd(Encode(payload)[..cut], 0) == if e <= cut then e else cut + 1
  {
    var all, input, e := Encode(payload), Encode(payload)[..cut], |Encode(payload)| - |payload|;
    assert all == PREFIX + Print(|payload|) + END + payload;
    FirstTerminator(Print(|payload|), payload);
    assert forall k :: 0 <= k < cut ==> input[k] == all[k];
    forall i: nat | EndsAt(input, i) ensures i >= e {
      assert EndsAt(all, i);
    }
    if e <= cut {
      assert EndsAt(all, e);
      assert EndsAt(input, e);
    }
  }

  lemma {:induction false} BoundaryTail(payloads: seq<Bytes>, cut: nat)
    requires payloads != [] && cut >= |Encode(payloads[0])|
    ensures AtBoundary(payloads, cut) <==> AtBoundary(payloads[1..], cut - |Encode(payloads[0])|)
  {
    var tail, n := payloads[1..], |Encode(payloads[0])|;
    if AtBoundary(payloads, cut) {
      var k :| 0 <= k <= |payloads| && cut == |EncodeAll(payloads[..k])|;
      assert k > 0 && payloads[..k][1..] == tail[..k - 1];
      assert AtBoundary(tail, cut - n);
    }
    if AtBoundary(tail, cut - n) {
      var k :| 0 <= k <= |tail| && cut - n == |EncodeAll(tail[..k])|;
      assert payloads[..k + 1][1..] == tail[..k];
      assert AtBoundary(payloads, cut);
    }
  }

  /** The first `cut` bytes yield exactly their whole frames; the end is clean if and only if the cut
      is at a frame boundary, and a protocol error otherwise. */
  ghost predicate ReadsCut(codec: Codec, payloads: seq<Bytes>, cut: nat)
    requires cut <= |EncodeAll(payloads)|
  {
    var r := ReadAll(codec, EncodeAll(payloads)[..cut]);
    && r.0 == payloads[..WholeFrames(payloads, cut)]
    && (r.1 == CleanEof <==> AtBoundary(payloads, cut))
    && (r.1 != CleanEof ==> r.1 in {Broken(EofInHeader), Broken(EofInPayload)})
  }

  /** A written stream may be cut anywhere. */
  lemma {:induction false} CutStream(codec: Codec, payloads: seq<Bytes>, cut: nat)
    requires InBounds(payloads) && cut <= |EncodeAll(payloads)|
    ensures ReadsCut(codec, payloads, cut)
    decreases |payloads|
  {
    if payloads == [] {
      assert AtBoundary(payloads, 0) by {
        assert payloads[..0] == [];
      }
    } else if cut >= |Encode(payloads[0])| {
      CutStream(codec, payloads[1..], cut - |Encode(payloads[0])|);
      CutLater(codec, payloads, cut);
    } else {
      CutFirst(codec, payloads, cut);
    }
  }

  lemma CutLater(codec: Codec, payloads: seq<Bytes>, cut: nat)
    requires InBounds(payloads) && payloads != [] && |Encode(payloads[0])| <= cut <= |EncodeAll(payloads)|
    requires ReadsCut(codec, payloads[1..], cut - |Encode(payloads[0])|)
    ensures ReadsCut(codec, payloads, cut)
  {
    CutLaterReads(codec, payloads, cut);
    CutLaterWhole(payloads, cut);
    BoundaryTail(payloads, cut);
  }

  lemma CutLaterReads(codec: Codec, payloads: seq<Bytes>, cut: nat)
    requires InBounds(payloads) && payloads != [] && |Encode(payloads[0])| <= cut <= |EncodeAll(payloads)|
    ensures cut - |Encode(payloads[0])| <= |EncodeAll(payloads[1..])|
    ensures var left := EncodeAll(payloads[1..])[..cut - |Encode(payloads[0])|];
            && ReadAll(codec, EncodeAll(payloads)[..cut]).0 == [payloads[0]] + ReadAll(codec, left).0
            && ReadAll(codec, EncodeAll(payloads)[..cut]).1 == ReadAll(codec, left).1
  {
    CutBytes(payloads, cut);
    ReadAllOne(codec, payloads[0], EncodeAll(payloads[1..])[..cut - |Encode(payloads[0])|]);
  }

  lemma CutLaterWhole(payloads: seq<Bytes>, cut: nat)
    requires payloads != [] && |Encode(payloads[0])| <= cut
    ensures payloads[..WholeFrames(payloads, cut)] ==
            [payloads[0]] + payloads[1..][..WholeFrames(payloads[1..], cut - |Encode(payloads[0])|)]
  {
  }

  lemma CutBytes(payloads: seq<Bytes>, cut: nat)
    requires payloads != [] && |Encode(payloads[0])| <= cut <= |EncodeAll(payloads)|
    ensures EncodeAll(payloads)[..cut] == Encode(payloads[0]) + EncodeAll(payloads[1..])[..cut - |Encode(payloads[0])|]
  {
    var first, more := Encode(payloads[0]), EncodeAll(payloads[1..]);
    assert (first + more)[..cut] == first + more[..cut - |first|];
  }

  lemma ReadAllOne(codec: Codec, payload: Bytes, rest: Bytes)
    requires |payload| <= MAX_FRAME_BYTES
    ensures ReadAll(codec, Encode(payload) + rest).0 == [payload] + ReadAll(codec, rest).0
    ensures ReadAll(codec, Encode(payload) + rest).1 == ReadAll(codec, rest).1
  {
    FrameReadBack(codec, payload, rest);
  }

  lemma CutFirst(codec: Codec, payloads: seq<Bytes>, cut: nat)
    requires InBounds(payloads) && payloads != [] && cut < |Encode(payloads[0])|
    ensures cut <= |EncodeAll(payloads)| && ReadsCut(codec, payloads, cut)
  {
    NoBoundaryInside(payloads, cut);
    assert EncodeAll(payloads)[..cut] == Encode(payloads[0])[..cut];
    if cut > 0 {
      CutFrame(codec, payloads[0], cut);
    }
  }

  lemma NoBoundaryInside(payloads: seq<Bytes>, cut: nat)
    requires payloads != [] && cut < |Encode(payloads[0])|
    ensures AtBoundary(payloads, cut) <==> cut == 0
  {
    forall k | 0 < k <= |payloads| ensures |EncodeAll(payloads[..k])| >= |Encode(payloads[0])| {
      assert payloads[..k][0] == payloads[0];
    }
    assert payloads[..0] == [];
  }

  // ---- where the two readers agree -------------------------------------------------------

  /** A number both integer parsers read. */
  predicate PlainNumber(v: string) {
    var d := if v != [] && v[0] == '+' then v[1..] else v;
    d != [] && AllDigits(d) && |d| <= INT_DIGITS && Parse(d) <= USIZE_MAX
  }

  lemma {:induction false} DigitsOfSigned(v: string)
    requires Signed(v)
    ensures DigitsOf(v) == DigitsOf(v[1..])
  {
    if |v| > 1 {
      DigitsOfSigned(v[..|v| - 1]);
      assert v[..|v| - 1][1..] == v[1..][..|v| - 2];
    }
  }

  /** The two parsers read the same number exactly from the plain ones: the engine also takes
      underscores and a minus sign, the host any number of digits. */
  lemma IntsAgree(v: string)
    ensures EngineInt(v).Some? && EngineInt(v) == HostInt(v) <==> PlainNumber(v)
  {
    if v != [] && v[0] == '-' {
      assert !AllDigits(v);
    } else {
      var d := Unsigned(v);
      if d != [] && AllDigits(d) {
        EngineReads(v);
      }
    }
  }

  lemma EngineReads(v: string)
    requires Unsigned(v) != [] && AllDigits(Unsigned(v)) && v[0] != '-'
    ensures EngineInt(v) == if |Unsigned(v)| > INT_DIGITS then None else Some(Parse(Unsigned(v)))
  {
    var d := Unsigned(v);
    DigitsOfUnsigned(v);
    DigitsOfDigits(d);
    DigitsAreGrouped(d);
    if |d| <= INT_DIGITS {
      EngineIntIs(v, d);
    }
  }

  lemma DigitsOfUnsigned(v: string)
    ensures DigitsOf(v) == DigitsOf(Unsigned(v))
  {
    if Signed(v) {
      DigitsOfSigned(v);
    }
  }

  /** A line that names the length in ASCII also gives it there, after a colon and as a plain
      number. */
  predicate SoundLine(line: Bytes) {
    IsLengthName(Strip(NamePart(line))) ==>
      Ascii(line) && ColonAt(line) < |line| && PlainNumber(Strip(ValuePart(line)))
  }

  predicate SoundLines(lines: seq<Bytes>) {
    forall i :: 0 <= i < |lines| ==> SoundLine(lines[i])
  }

  /** The host finds the length's name inside white space outside ASCII, which the engine keeps. */
  predicate OddName(line: Bytes) {
    !Ascii(NamePart(line)) && HostField(line) != NotLength
  }

  function PlainlyNamed(lines: seq<Bytes>): seq<Bytes> {
    if lines == [] then []
    else
      var last := lines[|lines| - 1];
      PlainlyNamed(lines[..|lines| - 1]) + (if OddName(last) then [] else [last])
  }

  lemma NameIsAscii(name: Bytes)
    requires IsLengthName(Strip(name))
    ensures Ascii(name)
  {
    forall i | 0 <= i < |name| ensures name[i] as nat < 0x80 {
      if name[i] as nat >= 0x80 {
        StripLeftKeeps(name, name[i]);
        StripRightKeeps(StripLeft(name), name[i]);
      }
    }
  }

  lemma ColonSplits(line: Bytes)
    ensures Ascii(NamePart(line)) && Ascii(ValuePart(line)) ==> Ascii(line)
    ensures Ascii(line) ==> Ascii(NamePart(line)) && Ascii(ValuePart(line))
  {
    var c := ColonAt(line);
    forall i | 0 <= i < |line|
      ensures if i < c then line[i] == NamePart(line)[i] else i == c || line[i] == ValuePart(line)[i - c - 1]
    {
    }
  }

  /** On the value of an ASCII line the two never read different numbers. */
  lemma AsciiLineFields(line: Bytes)
    requires Ascii(line) && ColonAt(line) < |line| && IsLengthName(Strip(NamePart(line)))
    ensures var v := Strip(ValuePart(line));
            EngineField(line) == AsField(EngineInt(v)) && HostField(line) == AsField(HostInt(v))
  {
    ColonSplits(line);
    AsciiIsUtf8(line);
    TrimIsStrip(NamePart(line));
    TrimIsStrip(ValuePart(line));
    EngineFieldIs(line, NamePart(line), ValuePart(line));
    HostTextIs(line, NamePart(line), ValuePart(line));
  }

  lemma UnsoundLine(line: Bytes)
    requires !SoundLine(line)
    ensures EngineField(line).BadLength? || HostField(line).BadLength?
  {
    var v := Strip(ValuePart(line));
    EngineFieldIs(line, NamePart(line), ValuePart(line));
    NameIsAscii(NamePart(line));
    if EngineInt(v).Some? {
      EngineIsAscii(ValuePart(line));
      ColonSplits(line);
      AsciiLineFields(line);
      IntsAgree(v);
      if HostInt(v).Some? {
        HostIsPlain(v);
      }
    }
  }

  /** What the two readers make of one line. */
  lemma LineFields(line: Bytes)
    ensures OddName(line) ==> EngineField(line).NotLength? && SoundLine(line)
    ensures SoundLine(line) && !OddName(line) ==> EngineField(line) == HostField(line)
    ensures !SoundLine(line) ==> EngineField(line).BadLength? || HostField(line).BadLength?
  {
    if IsLengthName(Strip(NamePart(line))) {
      NameIsAscii(NamePart(line));
      if SoundLine(line) {
        AsciiLineFields(line);
        IntsAgree(Strip(ValuePart(line)));
      } else {
        UnsoundLine(line);
      }
    } else if Ascii(NamePart(line)) {
      TrimIsStrip(NamePart(line));
    }
  }

  /** What a reader makes of all the lines. */
  function Verdict(codec: Codec, lines: seq<Bytes>): Field {
    LastLength(FieldsOf(codec, lines), |lines|)
  }

  lemma {:induction false} FieldsAt(codec: Codec, lines: seq<Bytes>, i: nat)
    requires i < |lines|
    ensures FieldsOf(codec, lines)[i] == FieldOf(codec, lines[i])
  {
    if i > 0 {
      FieldsAt(codec, lines[1..], i - 1);
    }
  }

  lemma {:induction false} SameLastLength(a: seq<Field>, b: seq<Field>, n: nat)
    requires n <= |a| && n <= |b| && forall i :: 0 <= i < n ==> a[i] == b[i]
    ensures LastLength(a, n) == LastLength(b, n)
  {
    if n > 0 {
      SameLastLength(a, b, n - 1);
    }
  }

  lemma OneMoreLine(codec: Codec, lines: seq<Bytes>, line: Bytes)
    ensures Verdict(codec, lines + [line]) ==
            var v, f := Verdict(codec, lines), FieldOf(codec, line);
            if v.BadLength? || f.NotLength? then v else f
  {
    var all := lines + [line];
    forall i | 0 <= i < |lines| ensures FieldsOf(codec, all)[i] == FieldsOf(codec, lines)[i] {
      FieldsAt(codec, all, i);
      FieldsAt(codec, lines, i);
    }
    FieldsAt(codec, all, |lines|);
    SameLastLength(FieldsOf(codec, all), FieldsOf(codec, lines), |lines|);
  }

  lemma OneSoundLine(init: seq<Bytes>, named: seq<Bytes>, last: Bytes)
    requires Verdict(Engine, init) == Verdict(HostSide, named) && SoundLine(last)
    ensures OddName(last) ==> Verdict(Engine, init + [last]) == Verdict(HostSide, named)
    ensures !OddName(last) ==> Verdict(Engine, init + [last]) == Verdict(HostSide, named + [last])
  {
    LineFields(last);
    OneMoreLine(Engine, init, last);
    OneMoreLine(HostSide, named, last);
  }

  lemma NamedMore(init: seq<Bytes>, last: Bytes)
    ensures PlainlyNamed(init + [last]) == if OddName(last) then PlainlyNamed(init) else PlainlyNamed(init) + [last]
  {
    assert (init + [last])[..|init|] == init;
  }

  lemma SoundMore(init: seq<Bytes>, last: Bytes)
    requires Verdict(Engine, init) == Verdict(HostSide, PlainlyNamed(init)) && SoundLine(last)
    ensures Verdict(Engine, init + [last]) == Verdict(HostSide, PlainlyNamed(init + [last]))
  {
    NamedMore(init, last);
    OneSoundLine(init, PlainlyNamed(init), last);
  }

  lemma NoVerdict()
    ensures Verdict(Engine, []) == Verdict(HostSide, PlainlyNamed([]))
  {
  }

  /** On sound lines the engine reads what the host reads in those without the oddly named ones. */
  lemma {:induction false} SoundVerdict(lines: seq<Bytes>)
    requires SoundLines(lines)
    ensures Verdict(Engine, lines) == Verdict(HostSide, PlainlyNamed(lines))
  {
    if lines == [] {
      NoVerdict();
    } else {
      var init, last := lines[..|lines| - 1], lines[|lines| - 1];
      assert lines == init + [last];
      SoundVerdict(init);
      SoundMore(init, last);
    }
  }

  /** An unsound line breaks the header for one of the two. */
  lemma {:induction false} UnsoundVerdict(lines: seq<Bytes>)
    requires !SoundLines(lines)
    ensures Verdict(Engine, lines).BadLength? || Verdict(HostSide, lines).BadLength?
  {
    var init, last := lines[..|lines| - 1], lines[|lines| - 1];
    assert lines == init + [last];
    OneMoreLine(Engine, init, last);
    OneMoreLine(HostSide, init, last);
    if SoundLine(last) {
      assert !SoundLines(init) by {
        var i :| 0 <= i < |lines| && !SoundLine(lines[i]);
        assert init[i] == lines[i];
      }
      UnsoundVerdict(init);
    } else {
      LineFields(last);
    }
  }

  /** Every CR is followed by LF. */
  predicate Paired(s: Bytes) {
    forall i :: 0 <= i < |s| && s[i] == '\r' ==> i + 1 < |s| && s[i + 1] == '\n'
  }

  lemma {:induction false} LinesAfterLf(t: Bytes, i: nat)
    requires Paired(t) && i <= |t| && forall k :: 0 <= k < i ==> t[k] != '\r'
    ensures DropLfs(CrLines("\n" + t, i + 1)) == CrLfLines(t, i)
    decreases |t|, |t| - i
  {
    var s := "\n" + t;
    if i < |t| {
      assert s[i + 1] == t[i];
      if t[i] == '\r' {
        var u := t[i + 2..];
        assert s[i + 2..] == "\n" + u && s[..i + 1] == "\n" + t[..i];
        assert CrLines("\n" + u, 0) == CrLines("\n" + u, 1);
        LinesAfterLf(u, 0);
        assert DropLfs([s[..i + 1]] + CrLines("\n" + u, 0)) == [t[..i]] + DropLfs(CrLines("\n" + u, 0));
      } else {
        LinesAfterLf(t, i + 1);
      }
    }
  }

  lemma {:induction false} LeadingLf(s: Bytes, i: nat)
    requires i <= |s| && (s == [] || s[0] != '\n')
    ensures DropLfs(CrLines("\n" + s, i + 1)) == DropLfs(CrLines(s, i))
    decreases |s| - i
  {
    if i < |s| {
      assert ("\n" + s)[i + 1] == s[i];
      if s[i] == '\r' {
        assert ("\n" + s)[..i + 1] == "\n" + s[..i] && ("\n" + s)[i + 2..] == s[i + 1..];
      } else {
        LeadingLf(s, i + 1);
      }
    }
  }

  /** A LF in front stays with the engine's first line, where it is white space. */
  lemma {:induction false} FirstLineLf(t: Bytes, i: nat)
    requires i <= |t|
    ensures CrLfLines("\n" + t, i + 1) == ["\n" + CrLfLines(t, i)[0]] + CrLfLines(t, i)[1..]
    decreases |t| - i
  {
    var s := "\n" + t;
    if i + 2 <= |t| {
      assert s[i + 1] == t[i] && s[i + 2] == t[i + 1];
      if t[i] == '\r' && t[i + 1] == '\n' {
        assert s[..i + 1] == "\n" + t[..i] && s[i + 3..] == t[i + 2..];
      } else {
        FirstLineLf(t, i + 1);
      }
    }
  }

  lemma LfIsSpace(line: Bytes)
    ensures EngineField("\n" + line) == EngineField(line)
  {
    var long := "\n" + line;
    assert long[1..] == line;
    assert NamePart(long) == "\n" + NamePart(line);
    assert ("\n" + NamePart(line))[1..] == NamePart(line);
    assert ValuePart(long) == ValuePart(line);
  }

  lemma LinesAgree(header: Bytes)
    requires Paired(header) && (header == [] || header[0] != '\n')
    ensures LinesOf(Engine, header) == LinesOf(HostSide, header)
  {
    LinesAfterLf(header, 0);
    LeadingLf(header, 0);
  }

  lemma VerdictTail(codec: Codec, a: Bytes, b: Bytes, more: seq<Bytes>)
    requires FieldOf(codec, a) == FieldOf(codec, b)
    ensures Verdict(codec, [a] + more) == Verdict(codec, [b] + more)
  {
    assert ([a] + more)[1..] == more == ([b] + more)[1..];
  }

  lemma LeadingLfLines(t: Bytes)
    requires Paired(t)
    ensures LinesOf(HostSide, "\n" + t) == CrLfLines(t, 0)
    ensures LinesOf(Engine, "\n" + t) == ["\n" + CrLfLines(t, 0)[0]] + CrLfLines(t, 0)[1..]
  {
    LinesAfterLf(t, 0);
    assert CrLines("\n" + t, 0) == CrLines("\n" + t, 1);
    FirstLineLf(t, 0);
    assert CrLfLines("\n" + t, 0) == CrLfLines("\n" + t, 1);
  }

  lemma LeadingLfVerdict(t: Bytes)
    requires Paired(t)
    ensures Verdict(Engine, LinesOf(Engine, "\n" + t)) == Verdict(Engine, LinesOf(HostSide, "\n" + t))
  {
    LeadingLfLines(t);
    var lines := CrLfLines(t, 0);
    LfIsSpace(lines[0]);
    VerdictTail(Engine, "\n" + lines[0], lines[0], lines[1..]);
    assert lines == [lines[0]] + lines[1..];
  }

  /** The engine finds in its lines of a paired header what it would find in the host's. */
  lemma EngineVerdict(header: Bytes)
    requires Paired(header)
    ensures Verdict(Engine, LinesOf(Engine, header)) == Verdict(Engine, LinesOf(HostSide, header))
  {
    if header == [] || header[0] != '\n' {
      LinesAgree(header);
    } else {
      var t := header[1..];
      assert header == "\n" + t;
      assert Paired(t) by {
        assert forall i :: 0 <= i < |t| ==> t[i] == header[i + 1];
      }
      LeadingLfVerdict(t);
    }
  }

  /** Leaving out the oddly named lines changes nothing for the host. */
  predicate OddNamesIdle(lines: seq<Bytes>) {
    FieldLength(Verdict(HostSide, lines)) == FieldLength(Verdict(HostSide, PlainlyNamed(lines)))
  }

  /** Neither serves a frame of the header, for the same fault: both refuse it, or both promise more
      than the bytes left. */
  predicate StopAlike(header: Bytes, left: nat) {
    var m, n := HeaderLength(Engine, header), HeaderLength(HostSide, header);
    (m.None? && n.None?) || (m.Some? && n.Some? && m.value > left && n.value > left)
  }

  lemma HeadersAgree(header: Bytes)
    requires Paired(header)
    ensures var lines := LinesOf(HostSide, header);
            var m, n := HeaderLength(Engine, header), HeaderLength(HostSide, header);
            && (SoundLines(lines) ==> (m == n <==> OddNamesIdle(lines)))
            && (!SoundLines(lines) ==> m.None? || n.None?)
  {
    var lines := LinesOf(HostSide, header);
    EngineVerdict(header);
    assert HeaderLength(Engine, header) == FieldLength(Verdict(Engine, LinesOf(Engine, header)));
    assert HeaderLength(HostSide, header) == FieldLength(Verdict(HostSide, lines));
    if SoundLines(lines) {
      SoundVerdict(lines);
    } else {
      UnsoundVerdict(lines);
    }
  }

  /** The header's lines are sound and the oddly named ones idle, or both stop at it alike. */
  predicate ReadAlike(header: Bytes, left: nat) {
    var lines := LinesOf(HostSide, header);
    (SoundLines(lines) && OddNamesIdle(lines)) || StopAlike(header, left)
  }

  lemma BlocksAgree(header: Bytes, body: Bytes)
    requires Paired(header)
    ensures AfterHeader(body, HeaderLength(Engine, header)) == AfterHeader(body, HeaderLength(HostSide, header)) <==>
              ReadAlike(header, |body|)
  {
    HeadersAgree(header);
    FramesAgree(body, HeaderLength(Engine, header), HeaderLength(HostSide, header));
  }

  lemma SameFault(a: Read, b: Read, long: bool, x: Read, y: Read, alike: bool)
    requires a == (if long then Broken(HeaderTooLong) else x) && b == (if long then Broken(HeaderTooLong) else y)
    requires x == y <==> alike
    ensures a == b <==> long || alike
  {
  }

  /** What stands before the first terminator, if there is one. */
  function HeaderBlock(input: Bytes): (header: Option<Bytes>)
    ensures header.Some? ==> |header.value| + 4 <= |input|
  {
    var e := HeaderEnd(input, 0);
    if e <= |input| then Some(input[..e - 4]) else None
  }

  lemma BlockReads(codec: Codec, input: Bytes, header: Bytes)
    requires HeaderBlock(input) == Some(header)
    ensures |header| + 4 <= |input|
    ensures ReadFrame(codec, input) ==
            if |header| + 4 > MAX_HEADER_BYTES then Broken(HeaderTooLong)
            else AfterHeader(input[|header| + 4..], HeaderLength(codec, header))
  {
    ReadsAfter(codec, input, HeaderEnd(input, 0));
  }

  lemma HeadersReadAlike(input: Bytes, header: Bytes)
    requires HeaderBlock(input) == Some(header) && Paired(header)
    ensures |header| + 4 <= |input|
    ensures ReadFrame(Engine, input) == ReadFrame(HostSide, input) <==>
              |header| + 4 > MAX_HEADER_BYTES || ReadAlike(header, |input| - |header| - 4)
  {
    BlockReads(Engine, input, header);
    BlockReads(HostSide, input, header);
    var body := input[|header| + 4..];
    BlocksAgree(header, body);
    SameFault(ReadFrame(Engine, input), ReadFrame(HostSide, input), |header| + 4 > MAX_HEADER_BYTES,
              AfterHeader(body, HeaderLength(Engine, header)), AfterHeader(body, HeaderLength(HostSide, header)),
              ReadAlike(header, |body|));
  }

  /** On every stream whose header block has no bare CR, the two readers do the same if and only if
      the header is too long or unfinished or they read its lines alike. */
  lemma ReadersAgree(input: Bytes)
    requires HeaderBlock(input).Some? ==> Paired(HeaderBlock(input).value)
    ensures ReadFrame(Engine, input) == ReadFrame(HostSide, input) <==>
              || HeaderBlock(input).None? || |HeaderBlock(input).value| + 4 > MAX_HEADER_BYTES
              || ReadAlike(HeaderBlock(input).value, |input| - |HeaderBlock(input).value| - 4)
  {
    if HeaderBlock(input).None? {
      NoHeaderAgrees(input);
    } else {
      HeadersReadAlike(input, HeaderBlock(input).value);
    }
  }

  lemma FramesAgree(body: Bytes, m: Option<nat>, n: Option<nat>)
    ensures AfterHeader(body, m) == AfterHeader(body, n) <==>
              m == n || (m.Some? && n.Some? && m.value > |body| && n.value > |body|)
  {
    if m.Some? && n.Some? && m.value <= |body| && n.value <= |body| {
      assert |body[..m.value]| == m.value && |body[..n.value]| == n.value;
    }
  }

  lemma NoHeaderAgrees(input: Bytes)
    requires HeaderEnd(input, 0) > |input|
    ensures ReadFrame(Engine, input) == ReadFrame(HostSide, input)
  {
    NoHeader(Engine, input);
    NoHeader(HostSide, input);
  }

  lemma NoHeader(codec: Codec, input: Bytes)
    requires HeaderEnd(input, 0) > |input|
    ensures ReadFrame(codec, input) ==
            if |input| > MAX_HEADER_BYTES then Broken(HeaderTooLong)
            else if input == [] then CleanEof else Broken(EofInHeader)
  {
  }

  lemma {:induction false} NoCrLf(s: Bytes, i: nat)
    requires i <= |s| && forall k :: 0 <= k < |s| - 1 ==> s[k] != '\r' || s[k + 1] != '\n'
    ensures CrLfLines(s, i) == [s]
    decreases |s| - i
  {
    if i + 2 <= |s| {
      NoCrLf(s, i + 1);
    }
  }

  lemma {:induction false} BareReturn(a: Bytes, b: Bytes, i: nat)
    requires i <= |a| && (forall k :: 0 <= k < |a| ==> a[k] != '\r') && (forall k :: 0 <= k < |b| ==> b[k] != '\r')
    ensures CrLines(a + "\r" + b, i) == [a, b]
    decreases |a| - i
  {
    var s := a + "\r" + b;
    if i < |a| {
      BareReturn(a, b, i + 1);
    } else {
      assert s[..i] == a && s[i + 1..] == b;
      OneCrLine(b, 0);
    }
  }

  /** They are not mirrors of each other on every stream: a bare CR ends a line for the host only. */
  lemma BareReturnsDiffer(a: Bytes, b: Bytes)
    requires (forall k :: 0 <= k < |a| ==> a[k] != '\r') && (forall k :: 0 <= k < |b| ==> b[k] != '\r')
    requires (a == [] || a[0] != '\n') && (b == [] || b[0] != '\n')
    ensures LinesOf(Engine, a + "\r" + b) == [a + "\r" + b] && LinesOf(HostSide, a + "\r" + b) == [a, b]
  {
    NoCrLf(a + "\r" + b, 0);
    BareReturn(a, b, 0);
    assert DropLfs([a, b]) == [a, b];
  }

  // ---- headers of one line: exactly where they agree -------------------------------------

  function InRange(n: Option<int>): Option<nat> {
    if n.Some? && 0 <= n.value <= MAX_FRAME_BYTES then Some(n.value) else None
  }

  /** The engine reads a length the host refuses: grouped digits, or a minus sign before zero. */
  predicate EngineOnly(v: Bytes) {
    var s := Strip(v);
    InRange(EngineInt(s)).Some? && ('_' in s || s[0] == '-')
  }

  /** The host reads a length the engine refuses: more digits than the engine's integers take, or
      space outside ASCII around them. */
  predicate HostOnly(v: Bytes) {
    var s := Trim(v);
    && IsUtf8(PREFIX + v) && InRange(HostInt(s)).Some?
    && (|Unsigned(s)| > INT_DIGITS || exists i :: 0 <= i < |v| && v[i] as nat >= 0x80)
  }

  lemma {:induction false} StripLeftKeeps(s: Bytes, c: char)
    requires !IsSpace(c) && c in s
    ensures c in StripLeft(s)
  {
    if IsSpace(s[0]) {
      assert s == [s[0]] + s[1..];
      StripLeftKeeps(s[1..], c);
    }
  }

  lemma {:induction false} StripRightKeeps(s: Bytes, c: char)
    requires !IsSpace(c) && c in s
    ensures c in StripRight(s)
  {
    if IsSpace(s[|s| - 1]) {
      assert s == s[..|s| - 1] + [s[|s| - 1]];
      StripRightKeeps(s[..|s| - 1], c);
    }
  }

  lemma EngineChars(s: string)
    requires EngineInt(s).Some?
    ensures Ascii(s)
  {
    var d := Unsigned(s);
    assert Signed(s) ==> forall i :: 1 <= i < |s| ==> s[i] == d[i - 1];
  }

  lemma EngineIsAscii(v: Bytes)
    requires EngineInt(Strip(v)).Some?
    ensures Ascii(v)
  {
    EngineChars(Strip(v));
    forall i | 0 <= i < |v| && v[i] as nat >= 0x80 ensures v[i] in Strip(v) {
      StripLeftKeeps(v, v[i]);
      StripRightKeeps(StripLeft(v), v[i]);
    }
  }

  /** The name of the length is known by its letters, whatever their case. */
  lemma NameInAnyCase(name: string)
    ensures IsLengthName(name) <==>
              && |name| == 14
              && forall i :: 0 <= i < 14 ==>
                   name[i] == "content-length"[i] || (i != 7 && name[i] == "CONTENT-LENGTH"[i])
  {
    if |name| == 14 {
      forall i | 0 <= i < 14
        ensures Lower(name[i]) == "content-length"[i] <==>
                  name[i] == "content-length"[i] || (i != 7 && name[i] == "CONTENT-LENGTH"[i])
      {
        CaseOfLetter(name[i], "content-length"[i], "CONTENT-LENGTH"[i], i != 7);
      }
    }
  }

  lemma CaseOfLetter(c: char, small: char, large: char, letter: bool)
    requires if letter then 'a' <= small <= 'z' && large as int + 32 == small as int else small == '-'
    ensures Lower(c) == small <==> c == small || (letter && c == large)
  {
  }

  /** What the two parsers make of one stripped ASCII value. */
  lemma ValuesAgree(s: string)
    ensures InRange(EngineInt(s)) == InRange(HostInt(s)) <==>
              && !(InRange(EngineInt(s)).Some? && ('_' in s || s[0] == '-'))
              && !(InRange(HostInt(s)).Some? && |Unsigned(s)| > INT_DIGITS)
  {
    IntsAgree(s);
    if HostInt(s).Some? {
      HostIsPlain(s);
    }
    if EngineInt(s).Some? && !('_' in s || s[0] == '-') {
      EngineIsPlain(s);
    }
  }

  lemma HostIsPlain(s: string)
    requires HostInt(s).Some?
    ensures s[0] != '-' && '_' !in s
    ensures EngineInt(s) == if |Unsigned(s)| > INT_DIGITS then None else HostInt(s)
  {
    assert s[0] != '-' by {
      assert !IsDigit('-');
    }
    assert Unsigned(s) == if s[0] == '+' then s[1..] else s;
    EngineReads(s);
    assert !IsDigit('_') && forall i :: 1 <= i < |s| ==> s[i] == s[1..][i - 1];
  }

  lemma EngineIsPlain(s: string)
    requires EngineInt(s).Some? && '_' !in s && s[0] != '-'
    ensures AllDigits(Unsigned(s)) && Unsigned(s) != [] && |Unsigned(s)| <= INT_DIGITS
    ensures EngineInt(s) == Some(Parse(Unsigned(s)))
  {
    var d := Unsigned(s);
    assert forall i :: 0 <= i < |d| ==> d[i] in s;
    EngineReads(s);
  }

  lemma EngineIntIs(s: string, digits: string)
    requires GroupedDigits(Unsigned(s)) && DigitsOf(s) == digits && AllDigits(digits) && |digits| <= INT_DIGITS
    ensures EngineInt(s) == Some(WithSign(s, Parse(digits)))
  {
  }

  lemma DigitsAreGrouped(d: string)
    requires d != [] && AllDigits(d)
    ensures GroupedDigits(d)
  {
    assert IsDigit(d[0]) && IsDigit(d[|d| - 1]);
  }

  /** The engine reads a minus sign as one: of the negative lengths only zero is in range. */
  lemma EngineReadsMinus(d: string, n: nat)
    requires d != [] && AllDigits(d) && |d| <= INT_DIGITS && n == Parse(d)
    ensures EngineInt("-" + d) == Some(0 - n)
    ensures InRange(EngineInt("-" + d)) == if n == 0 then Some(0) else None
  {
    MinusDigits(d);
    DigitsAreGrouped(d);
    MinusReads("-" + d, d, n);
  }

  lemma MinusReads(s: string, d: string, n: nat)
    requires s != [] && s[0] == '-' && Unsigned(s) == d && DigitsOf(s) == d && GroupedDigits(d)
    requires AllDigits(d) && |d| <= INT_DIGITS && n == Parse(d)
    ensures EngineInt(s) == Some(0 - n) && InRange(Some(0 - n)) == if n == 0 then Some(0) else None
  {
    EngineIntIs(s, d);
  }

  lemma MinusDigits(d: string)
    requires AllDigits(d)
    ensures Unsigned("-" + d) == d && DigitsOf("-" + d) == d
  {
    assert Unsigned("-" + d) == d;
    DigitsOfUnsigned("-" + d);
    DigitsOfDigits(d);
  }

  lemma GroupsAreGrouped(a: string, b: string)
    requires a != [] && b != [] && AllDigits(a) && AllDigits(b)
    ensures GroupedDigits(a + "_" + b) && !Signed(a + "_" + b)
  {
    var v := a + "_" + b;
    assert IsDigit(a[0]) && IsDigit(b[|b| - 1]) && v[0] == a[0] && v[|v| - 1] == b[|b| - 1];
    forall i | 0 <= i < |v| ensures if i == |a| then v[i] == '_' else IsDigit(v[i]) && v[i] != '_' {
      assert i < |a| ==> v[i] == a[i];
      assert i > |a| ==> v[i] == b[i - |a| - 1];
    }
  }

  /** And an underscore between two digits as nothing; the host refuses it. */
  lemma EngineReadsGroups(a: string, b: string)
    requires a != [] && b != [] && AllDigits(a) && AllDigits(b) && |a| + |b| <= INT_DIGITS
    ensures AllDigits(a + b)
    ensures var n: int := Parse(a + b); EngineInt(a + "_" + b) == Some(n)
    ensures HostInt(a + "_" + b) == None
  {
    var v := a + "_" + b;
    GroupsAreGrouped(a, b);
    DigitsOfGroups(a, b);
    EngineIntIs(v, a + b);
    assert v[|a|] == '_' && !IsDigit('_') && v[0] != '+';
  }

  /** An underscore at either end, or two together, it refuses. */
  lemma EngineRefusesGroups(a: string, b: string)
    requires AllDigits(a) && AllDigits(b)
    ensures EngineInt("_" + a) == None && EngineInt(a + "_") == None && EngineInt(a + "__" + b) == None
  {
    var front, back, twice := "_" + a, a + "_", a + "__" + b;
    assert front[0] == '_' && back[|back| - 1] == '_' && !IsDigit('_');
    assert twice[|a|] == '_' && twice[|a| + 1] == '_';
    assert a != [] ==> back[0] == a[0] && twice[0] == a[0] && IsDigit(a[0]);
  }

  lemma {:induction false} DigitsOfGroups(a: string, b: string)
    requires AllDigits(a) && AllDigits(b)
    ensures DigitsOf(a + "_" + b) == a + b
  {
    var v := a + "_" + b;
    if b == [] {
      assert v[..|v| - 1] == a && v[|v| - 1] == '_' && a + b == a;
      DigitsOfDigits(a);
      assert DigitsOf(a) + [] == DigitsOf(a);
    } else {
      var init, last := b[..|b| - 1], b[|b| - 1];
      assert IsDigit(last) && v[..|v| - 1] == a + "_" + init && v[|v| - 1] == last;
      DigitsOfGroups(a, init);
      assert (a + init) + [last] == a + b;
    }
  }

  // The header `PREFIX + v` for a value without CR.

  lemma ValueLine(v: Bytes)
    ensures var line := PREFIX + v;
            && ColonAt(line) == 14 < |line| && line[..14] == "Content-Length" && line[15..] == " " + v
            && (Ascii(v) ==> Ascii(line)) && (Ascii(v) ==> Ascii(" " + v))
  {
    ColonIs(PREFIX + v, 14);
  }

  lemma ValueStripped(v: Bytes)
    ensures Strip(" " + v) == Strip(v) && Trim(" " + v) == Trim(v)
  {
    assert (" " + v)[1..] == v;
  }

  function FieldLength(f: Field): Option<nat> {
    if f.Length? then InRange(Some(f.value)) else None
  }

  lemma EngineValue(v: Bytes)
    ensures FieldLength(EngineField(PREFIX + v)) == InRange(EngineInt(Strip(v)))
  {
    ValueLine(v);
    ValueStripped(v);
    NameStripped();
    EngineFieldIs(PREFIX + v, "Content-Length", " " + v);
  }

  lemma NameTrimmed()
    ensures Trim("Content-Length") == "Content-Length"
  {
    NameStripped();
    TrimIsStrip("Content-Length");
  }

  lemma HostValue(v: Bytes)
    ensures FieldLength(HostField(PREFIX + v)) == if IsUtf8(PREFIX + v) then InRange(HostInt(Trim(v))) else None
  {
    ValueLine(v);
    ValueStripped(v);
    NameStripped();
    NameTrimmed();
    if IsUtf8(PREFIX + v) {
      HostTextIs(PREFIX + v, "Content-Length", " " + v);
    }
  }

  lemma LengthOfOne(codec: Codec, line: Bytes)
    requires forall k :: 0 <= k < |line| ==> line[k] != '\r'
    requires line != [] && line[0] != '\n'
    ensures HeaderLength(codec, line) == FieldLength(FieldOf(codec, line))
  {
    OneCrLfLine(line, 0);
    OneCrLine(line, 0);
    assert LinesOf(codec, line) == [line];
    OneLine(codec, line);
  }

  /** The two values of the header agree exactly when neither is only one side's. */
  lemma OneValue(v: Bytes)
    ensures FieldLength(EngineField(PREFIX + v)) == FieldLength(HostField(PREFIX + v)) <==>
              !EngineOnly(v) && !HostOnly(v)
  {
    EngineValue(v);
    HostValue(v);
    if Ascii(v) {
      ValueLine(v);
      AsciiIsUtf8(PREFIX + v);
      TrimIsStrip(v);
      ValuesAgree(Strip(v));
    } else if EngineInt(Strip(v)).Some? {
      EngineIsAscii(v);
    }
  }

  /** A stream that starts with a one-line header `PREFIX + v`, whatever follows: the two readers do
      the same if and only if the header is too long for both or its value is neither the engine's
      alone nor the host's alone. */
  lemma OneLineHeadersAgree(v: Bytes, body: Bytes)
    requires forall k :: 0 <= k < |v| ==> v[k] != '\r'
    ensures var input := PREFIX + v + END + body;
            ReadFrame(Engine, input) == ReadFrame(HostSide, input) <==>
              |PREFIX| + |v| + 4 > MAX_HEADER_BYTES || (!EngineOnly(v) && !HostOnly(v))
  {
    var line := PREFIX + v;
    assert forall k :: 0 <= k < |line| ==> line[k] != '\r';
    OneLineReads(Engine, line, body);
    OneLineReads(HostSide, line, body);
    var e, h := FieldLength(EngineField(line)), FieldLength(HostField(line));
    OneValue(v);
    NotBoth(v);
    SameReads(ReadFrame(Engine, line + END + body), ReadFrame(HostSide, line + END + body), e, h, body,
              |line| + 4 > MAX_HEADER_BYTES, !EngineOnly(v) && !HostOnly(v));
  }

  lemma SameReads(a: Read, b: Read, m: Option<nat>, n: Option<nat>, body: Bytes, long: bool, agree: bool)
    requires a == (if long then Broken(HeaderTooLong) else AfterHeader(body, m))
    requires b == (if long then Broken(HeaderTooLong) else AfterHeader(body, n))
    requires (m == n <==> agree) && (m.None? || n.None? || m == n)
    ensures a == b <==> long || agree
  {
    BodiesAgree(body, m, n);
  }

  lemma OneLineReads(codec: Codec, line: Bytes, body: Bytes)
    requires forall k :: 0 <= k < |line| ==> line[k] != '\r'
    requires line != [] && line[0] != '\n'
    ensures ReadFrame(codec, line + END + body) ==
            if |line| + 4 > MAX_HEADER_BYTES then Broken(HeaderTooLong)
            else AfterHeader(body, FieldLength(FieldOf(codec, line)))
  {
    LengthOfOne(codec, line);
    OneLineReadsAs(codec, line, body, FieldLength(FieldOf(codec, line)));
  }

  lemma OneLineReadsAs(codec: Codec, line: Bytes, body: Bytes, length: Option<nat>)
    requires forall k :: 0 <= k < |line| ==> line[k] != '\r'
    requires HeaderLength(codec, line) == length
    ensures ReadFrame(codec, line + END + body) ==
            if |line| + 4 > MAX_HEADER_BYTES then Broken(HeaderTooLong) else AfterHeader(body, length)
  {
    LineEnd(line, body);
    Parted(line, body);
    ReadsParted(codec, line + END + body, line, body, length);
  }

  lemma ReadsParted(codec: Codec, input: Bytes, header: Bytes, body: Bytes, length: Option<nat>)
    requires HeaderEnd(input, 0) == |header| + 4 <= |input|
    requires input[..|header|] == header && input[|header| + 4..] == body && HeaderLength(codec, header) == length
    ensures ReadFrame(codec, input) ==
            if |header| + 4 > MAX_HEADER_BYTES then Broken(HeaderTooLong) else AfterHeader(body, length)
  {
    ReadsAfter(codec, input, |header| + 4);
  }

  lemma Parted(line: Bytes, body: Bytes)
    ensures var input := line + END + body;
            input[..|line| + 4 - 4] == line && input[|line| + 4..] == body
  {
    var input := line + END + body;
    assert input[..|line|] == line;
  }

  /** Lengths that both read are the same. */
  lemma NotBoth(v: Bytes)
    ensures var e, h := FieldLength(EngineField(PREFIX + v)), FieldLength(HostField(PREFIX + v));
            e.None? || h.None? || e == h
  {
    EngineValue(v);
    HostValue(v);
    if EngineInt(Strip(v)).Some? {
      EngineIsAscii(v);
      TrimIsStrip(v);
      if HostInt(Strip(v)).Some? {
        HostIsPlain(Strip(v));
      }
    }
  }

  lemma ReadsAfter(codec: Codec, input: Bytes, e: nat)
    requires 4 <= e <= |input| && HeaderEnd(input, 0) == e
    ensures ReadFrame(codec, input) ==
            if e > MAX_HEADER_BYTES then Broken(HeaderTooLong)
            else AfterHeader(input[e..], HeaderLength(codec, input[..e - 4]))
  {
  }

  /** After a header the frames are the same only for the same length; lengths are refused as bad. */
  lemma BodiesAgree(body: Bytes, m: Option<nat>, n: Option<nat>)
    requires m.None? || n.None? || m == n
    ensures AfterHeader(body, m) == AfterHeader(body, n) <==> m == n
  {
  }

  /** A stream on which they differ: the length minus zero is an empty frame for the engine and a bad
      header for the host. */
  lemma MinusZeroDiffers()
    ensures ReadFrame(Engine, PREFIX + "-0" + END) == Payload("", "")
    ensures ReadFrame(HostSide, PREFIX + "-0" + END) == Broken(BadHeader)
  {
    var line := PREFIX + "-0";
    assert line + END + "" == line + END;
    MinusZeroLengths(line);
    OneLineReadsAs(Engine, line, "", Some(0));
    OneLineReadsAs(HostSide, line, "", None);
  }

  lemma MinusZeroLengths(line: Bytes)
    requires line == PREFIX + "-0"
    ensures HeaderLength(Engine, line) == Some(0) && HeaderLength(HostSide, line) == None
    ensures forall k :: 0 <= k < |line| ==> line[k] != '\r'
  {
    LengthOfOne(Engine, line);
    LengthOfOne(HostSide, line);
    MinusZero();
    EngineValue("-0");
    HostValue("-0");
  }

  lemma MinusZero()
    ensures Strip("-0") == "-0" && Trim("-0") == "-0"
    ensures EngineInt("-0") == Some(0) && HostInt("-0") == None
  {
    TrimIsStrip("-0");
    assert StripLeft("-0") == "-0" == StripRight("-0");
    ZeroParses();
    EngineReadsMinus("0", 0);
    assert "-" + "0" == "-0";
    assert "-0"[0] == '-' && !IsDigit('-');
  }

  lemma ZeroParses()
    ensures AllDigits("0") && Parse("0") == 0
  {
    assert "0"[..0] == "";
  }

  /** And one with a bare CR: the host finds the length the engine takes for the end of a name. */
  lemma BareReturnFound(payload: Bytes)
    requires |payload| <= MAX_FRAME_BYTES
    ensures var input := ("X\r" + (PREFIX + Print(|payload|))) + END + payload;
            ReadFrame(Engine, input) == Broken(BadHeader) && ReadFrame(HostSide, input) == Payload(payload, "")
  {
    var second := PREFIX + Print(|payload|);
    var line := "X\r" + second;
    BareReturnEnds(|payload|, line, payload);
    BareReturnLines(|payload|, line, second);
    BareReturnLengths(line, second, |payload|);
    BareReturnReads(line, payload);
  }

  lemma BareReturnEnds(n: nat, line: Bytes, payload: Bytes)
    requires n <= MAX_FRAME_BYTES && line == "X\r" + (PREFIX + Print(n))
    ensures HeaderEnd(line + END + payload, 0) == |line| + 4 <= MAX_HEADER_BYTES
  {
    WrittenDigits(n);
    HeaderLine(Print(n));
    assert forall k :: 2 <= k < |line| ==> line[k] == (PREFIX + Print(n))[k - 2];
    BareReturnEnd(line, payload);
  }

  lemma BareReturnLines(n: nat, line: Bytes, second: Bytes)
    requires second == PREFIX + Print(n) && line == "X\r" + second
    ensures LinesOf(Engine, line) == [line] && LinesOf(HostSide, line) == ["X", second]
  {
    HeaderLine(Print(n));
    assert line == "X" + "\r" + second;
    BareReturnsDiffer("X", second);
  }

  lemma BareReturnReads(line: Bytes, payload: Bytes)
    requires HeaderEnd(line + END + payload, 0) == |line| + 4 <= MAX_HEADER_BYTES
    requires HeaderLength(Engine, line) == None && HeaderLength(HostSide, line) == Some(|payload|)
    ensures ReadFrame(Engine, line + END + payload) == Broken(BadHeader)
    ensures ReadFrame(HostSide, line + END + payload) == Payload(payload, "")
  {
    var input, e := line + END + payload, |line| + 4;
    assert input[..e - 4] == line && input[e..] == payload;
    ReadsAfter(Engine, input, e);
    ReadsAfter(HostSide, input, e);
  }

  lemma BareReturnEnd(line: Bytes, tail: Bytes)
    requires |line| > 2 && line[0] == 'X' && line[1] == '\r' && forall k :: 2 <= k < |line| ==> line[k] != '\r'
    requires line[2] != '\n'
    ensures HeaderEnd(line + END + tail, 0) == |line| + 4
  {
    var input := line + END + tail;
    assert forall k :: 0 <= k < |line| ==> input[k] == line[k];
    assert forall k :: 0 <= k < 4 ==> input[|line| + k] == END[k];
    assert EndsAt(input, |line| + 4);
    assert forall i: nat :: i < |line| + 4 ==> !EndsAt(input, i);
  }

  lemma BareReturnLengths(line: Bytes, second: Bytes, n: nat)
    requires n <= MAX_FRAME_BYTES && second == PREFIX + Print(n) && line == "X\r" + second
    requires LinesOf(Engine, line) == [line] && LinesOf(HostSide, line) == ["X", second]
    ensures HeaderLength(Engine, line) == None && HeaderLength(HostSide, line) == Some(n)
  {
    HeaderLine(Print(n));
    NoName(line, second);
    OneLine(Engine, line);
    WrittenDigits(n);
    ParsePrint(n);
    ReadsField(second, Print(n), n);
    TwoLines(second, n);
  }

  lemma TwoLines(second: Bytes, n: nat)
    requires HostField(second) == Length(n)
    ensures FieldsOf(HostSide, ["X", second]) == [NotLength, Length(n)] && LastLength([NotLength, Length(n)], 2) ==
              Length(n)
  {
    assert HostField("X") == NotLength by {
      assert ColonAt("X") == 1;
    }
    assert ["X", second][1..] == [second];
    OneLine(HostSide, second);
    assert LastLength([NotLength, Length(n)], 1) == NotLength;
  }

  lemma NoName(line: Bytes, second: Bytes)
    requires line == "X\r" + second && ColonAt(second) == 14 < |second| && second[..14] == "Content-Length"
    ensures EngineField(line) == NotLength
  {
    assert second[14] == ':' && forall i :: 0 <= i < 14 ==> second[i] != ':';
    assert forall i :: 2 <= i < 16 ==> line[i] == second[i - 2];
    ColonIs(line, 16);
    var name := line[..16];
    assert second[13] == second[..14][13] == 'h';
    assert name[0] == 'X' && name[15] == second[13];
    assert StripLeft(name) == name == StripRight(name);
  }
}
