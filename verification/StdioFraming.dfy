/**
  The stdio transport of the MCP client: `Content-Length` frames read from a byte
  stream that arrives in arbitrary chunks, and the table of pending requests.
 */
module StdioFraming {
  import opened Prelude
  import Decimal

  newtype Byte = x: int | 0 <= x < 256

  const CR: Byte := 0x0d
  const LF: Byte := 0x0a

  datatype Id = Number(n: int) | Text(s: string)

  datatype Outcome = Resolved(result: string) | Rejected(error: string)

  /** A parsed JSON-RPC message, as far as the client looks at it. */
  datatype Rpc = NotAnObject(json: string) | WithoutId(json: string) | WithId(id: Id, outcome: Outcome)

  /** UTF-8 decoding and JSON parsing, as the program finds them in its platform. */
  datatype Platform = Platform(decode: seq<Byte> -> string, parse: string -> Option<Rpc>)

  /** `message` is None when the body is not JSON. */
  datatype Frame = Frame(message: Option<Rpc>, rest: seq<Byte>)

  predicate HeaderEndAt(buffer: seq<Byte>, i: nat) {
    i + 4 <= |buffer| && buffer[i] == CR && buffer[i + 1] == LF && buffer[i + 2] == CR && buffer[i + 3] == LF
  }

  function HeaderEnd(buffer: seq<Byte>, from: nat := 0): (r: Option<nat>)
    ensures r.Some? ==> from <= r.value && HeaderEndAt(buffer, r.value)
    ensures forall j: nat :: from <= j && (r.Some? ==> j < r.value) ==> !HeaderEndAt(buffer, j)
    decreases |buffer| - from
  {
    if from + 4 > |buffer| then None
    else if HeaderEndAt(buffer, from) then Some(from)
    else HeaderEnd(buffer, from + 1)
  }

  method IndexOfHeaderEnd(buffer: seq<Byte>) returns (index: int)
    ensures index == match HeaderEnd(buffer) case None => -1 case Some(i) => i
  {
    var i := 0;
    while i < |buffer| - 3
      invariant 0 <= i
      invariant HeaderEnd(buffer) == HeaderEnd(buffer, i)
    {
      if buffer[i] == CR && buffer[i + 1] == LF && buffer[i + 2] == CR && buffer[i + 3] == LF {
        return i;
      }
      i := i + 1;
    }
    return -1;
  }

  // ---------------------------------------------------------------- the length pattern

  function Lower(c: char): char {
    if 'A' <= c <= 'Z' then c + 32 as char else c
  }

  function LowerAll(s: string): (r: string)
    ensures |r| == |s|
  {
    seq(|s|, i requires 0 <= i < |s| => Lower(s[i]))
  }

  function SkipSpace(s: string): string {
    if s != [] && IsSpace(s[0]) then SkipSpace(s[1..]) else s
  }

  function LeadingDigits(s: string): (r: string)
    ensures forall c :: c in r ==> Decimal.IsDigit(c)
  {
    if s != [] && Decimal.IsDigit(s[0]) then [s[0]] + LeadingDigits(s[1..]) else []
  }

  const LABEL := "content-length:"

  /** The match of `Content-Length:\s*(\d+)`, ignoring case, at the start of the text. */
  function LengthHere(text: string): Option<nat> {
    if |text| < |LABEL| || LowerAll(text[..|LABEL|]) != LABEL then None
    else
      var digits := LeadingDigits(SkipSpace(text[|LABEL|..]));
      if digits == [] then None else Some(Decimal.Read(digits))
  }

  /** The leftmost match anywhere in the text. */
  function ContentLength(text: string): Option<nat> {
    match LengthHere(text)
    case Some(n) => Some(n)
    case None => if text == [] then None else ContentLength(text[1..])
  }

  // ---------------------------------------------------------------- reading frames

  function IndexOf(buffer: seq<Byte>, b: Byte): (r: Option<nat>)
    ensures r.Some? ==> r.value < |buffer| && buffer[r.value] == b && b !in buffer[..r.value]
    ensures r.None? ==> b !in buffer
  {
    if buffer == [] then None
    else if buffer[0] == b then Some(0)
    else match IndexOf(buffer[1..], b) case None => None case Some(i) => Some(i + 1)
  }

  /** The body of this length, if all of it has arrived. */
  function BodyAt(p: Platform, buffer: seq<Byte>, start: nat, length: nat): (r: Option<Frame>)
    ensures r.Some? ==> start + length <= |buffer| && |r.value.rest| == |buffer| - start - length
  {
    if |buffer| < start + length then None
    else Some(Frame(p.parse(p.decode(buffer[start..start + length])), buffer[start + length..]))
  }

  function TryReadFramedMessage(p: Platform, buffer: seq<Byte>): (r: Option<Frame>)
    ensures r.Some? ==> |r.value.rest| < |buffer|
    decreases |buffer|
  {
    match HeaderEnd(buffer)
    case None => None
    case Some(end) =>
      match ContentLength(p.decode(buffer[..end]))
      case None => (
        match IndexOf(buffer, LF)
        case None => None
        case Some(nl) => TryReadFramedMessage(p, buffer[nl + 1..])
      )
      case Some(length) => BodyAt(p, buffer, end + 4, length)
  }

  type Reader = seq<Byte> -> Option<Frame>

  function FrameReader(p: Platform): Reader {
    buffer => TryReadFramedMessage(p, buffer)
  }

  ghost predicate Shrinks(read: Reader) {
    forall b :: read(b).Some? ==> |read(b).value.rest| < |b|
  }

  /** A frame read from a prefix of the stream is the frame read from every extension of it. */
  ghost predicate PrefixStable(read: Reader) {
    forall b, c :: read(b).Some? ==> read(b + c) == Some(Frame(read(b).value.message, read(b).value.rest + c))
  }

  datatype Drained = Drained(messages: seq<Option<Rpc>>, rest: seq<Byte>)

  /** All the frames at the front of the buffer. */
  function Drain(read: Reader, buffer: seq<Byte>): Drained
    requires Shrinks(read)
    decreases |buffer|
  {
    match read(buffer)
    case None => Drained([], buffer)
    case Some(frame) =>
      var d := Drain(read, frame.rest);
      Drained([frame.message] + d.messages, d.rest)
  }

  /** What a client that keeps the leftover reads from a sequence of chunks. */
  function Receive(read: Reader, buffer: seq<Byte>, chunks: seq<seq<Byte>>): Drained
    requires Shrinks(read)
    decreases |chunks|
  {
    if chunks == [] then Drained([], buffer)
    else
      var first := Drain(read, buffer + chunks[0]);
      var later := Receive(read, first.rest, chunks[1..]);
      Drained(first.messages + later.messages, later.rest)
  }

  lemma HeaderEndExtends(b: seq<Byte>, c: seq<Byte>)
    requires HeaderEnd(b).Some?
    ensures HeaderEnd(b + c) == HeaderEnd(b)
  {
    var end := HeaderEnd(b).value;
    assert HeaderEndAt(b + c, end);
    forall j: nat | j < end ensures !HeaderEndAt(b + c, j) {
      assert !HeaderEndAt(b, j);
    }
  }

  lemma {:induction false} IndexOfExtends(b: seq<Byte>, c: seq<Byte>, x: Byte)
    requires x in b
    ensures IndexOf(b + c, x) == IndexOf(b, x)
  {
    if b[0] != x {
      assert (b + c)[1..] == b[1..] + c;
      IndexOfExtends(b[1..], c, x);
    }
  }

  lemma ReadsBehindLine(p: Platform, b: seq<Byte>, end: nat, nl: nat)
    requires HeaderEnd(b) == Some(end) && ContentLength(p.decode(b[..end])).None? && IndexOf(b, LF) == Some(nl)
    ensures TryReadFramedMessage(p, b) == TryReadFramedMessage(p, b[nl + 1..])
  {
  }

  lemma ReadsBodyHere(p: Platform, b: seq<Byte>, end: nat, length: nat)
    requires HeaderEnd(b) == Some(end) && ContentLength(p.decode(b[..end])) == Some(length)
    ensures TryReadFramedMessage(p, b) == BodyAt(p, b, end + 4, length)
  {
  }

  lemma {:induction false} FrameOfPrefix(p: Platform, b: seq<Byte>, c: seq<Byte>)
    requires TryReadFramedMessage(p, b).Some?
    ensures TryReadFramedMessage(p, b + c) == Some(TryReadFramedMessage(p, b).value.(rest := TryReadFramedMessage(p, b).value.rest + c))
    decreases |b|
  {
    HeaderEndExtends(b, c);
    var end := HeaderEnd(b).value;
    assert (b + c)[..end] == b[..end];
    match ContentLength(p.decode(b[..end]))
    case None =>
      assert b[end + 1] == LF;
      IndexOfExtends(b, c, LF);
      var nl := IndexOf(b, LF).value;
      DropExtends(b, c, nl + 1);
      ReadsBehindLine(p, b, end, nl);
      ReadsBehindLine(p, b + c, end, nl);
      FrameOfPrefix(p, b[nl + 1..], c);
    case Some(length) =>
      var start := end + 4;
      ReadsBodyHere(p, b, end, length);
      ReadsBodyHere(p, b + c, end, length);
      assert (b + c)[start..start + length] == b[start..start + length];
      DropExtends(b, c, start + length);
  }

  lemma DropExtends(b: seq<Byte>, c: seq<Byte>, n: nat)
    requires n <= |b|
    ensures (b + c)[n..] == b[n..] + c
  {
  }

  lemma ReaderIsStable(p: Platform)
    ensures Shrinks(FrameReader(p)) && PrefixStable(FrameReader(p))
  {
    forall b, c | FrameReader(p)(b).Some?
      ensures FrameReader(p)(b + c)
           == Some(Frame(FrameReader(p)(b).value.message, FrameReader(p)(b).value.rest + c))
    {
      FrameOfPrefix(p, b, c);
    }
  }

  lemma {:induction false} DrainExtends(read: Reader, b: seq<Byte>, c: seq<Byte>)
    requires Shrinks(read) && PrefixStable(read)
    ensures Drain(read, b + c).messages == Drain(read, b).messages + Drain(read, Drain(read, b).rest + c).messages
    ensures Drain(read, b + c).rest == Drain(read, Drain(read, b).rest + c).rest
    decreases |b|
  {
    match read(b)
    case None =>
    case Some(frame) =>
      DrainExtends(read, frame.rest, c);
      Associative([frame.message], Drain(read, frame.rest).messages, Drain(read, Drain(read, b).rest + c).messages);
  }

  lemma {:induction false} DrainIsExhaustive(read: Reader, b: seq<Byte>)
    requires Shrinks(read)
    ensures read(Drain(read, b).rest).None?
    decreases |b|
  {
    match read(b)
    case None =>
    case Some(frame) => DrainIsExhaustive(read, frame.rest);
  }

  lemma {:induction false} ReceiveIsDrain(read: Reader, buffer: seq<Byte>, chunks: seq<seq<Byte>>)
    requires Shrinks(read) && PrefixStable(read) && read(buffer).None?
    ensures Receive(read, buffer, chunks) == Drain(read, buffer + Flatten(chunks))
    decreases |chunks|
  {
    if chunks == [] {
      assert buffer + Flatten(chunks) == buffer;
    } else {
      var first := Drain(read, buffer + chunks[0]);
      DrainIsExhaustive(read, buffer + chunks[0]);
      ReceiveIsDrain(read, first.rest, chunks[1..]);
      DrainExtends(read, buffer + chunks[0], Flatten(chunks[1..]));
      assert buffer + Flatten(chunks) == buffer + chunks[0] + Flatten(chunks[1..]);
    }
  }

  /** However a stream is cut into chunks, the messages and the leftover are those of the whole stream. */
  lemma ChunksDoNotMatter(p: Platform, chunks: seq<seq<Byte>>)
    ensures Shrinks(FrameReader(p))
    ensures Receive(FrameReader(p), [], chunks) == Drain(FrameReader(p), Flatten(chunks))
  {
    ReaderIsStable(p);
    ReceiveIsDrain(FrameReader(p), [], chunks);
    assert [] + Flatten(chunks) == Flatten(chunks);
  }

  // ---------------------------------------------------------------- writing frames

  predicate IsAscii(s: string) {
    forall c :: c in s ==> c < 128 as char
  }

  function Ascii(s: string): (b: seq<Byte>)
    requires IsAscii(s)
    ensures |b| == |s|
  {
    seq(|s|, i requires 0 <= i < |s| => (assert s[i] in s; (s[i] as int) as Byte))
  }

  /** UTF-8 decodes ASCII bytes to the characters with those codes. */
  ghost predicate DecodesAscii(decode: seq<Byte> -> string) {
    forall s :: IsAscii(s) ==> decode(Ascii(s)) == s
  }

  function HeaderText(length: nat): (s: string)
    ensures IsAscii(s)
  {
    "Content-Length: " + Decimal.Print(length)
  }

  /** The bytes `writeMessage` sends for a message whose JSON text is `body`. */
  function Framed(body: seq<Byte>): seq<Byte> {
    Ascii(HeaderText(|body|)) + [CR, LF, CR, LF] + body
  }

  /** The text is the label in any spelling of its letters, white space, and digits that end there. */
  ghost predicate Announces(text: string, head: string, space: string, digits: string, after: string) {
    && text == head + space + digits + after
    && |head| == |LABEL| && (forall i :: 0 <= i < |head| ==> SameLetter(head[i], LABEL[i]))
    && (forall c :: c in space ==> IsSpace(c))
    && digits != [] && (forall c :: c in digits ==> Decimal.IsDigit(c))
    && (after == [] || !Decimal.IsDigit(after[0]))
  }

  predicate SameLetter(c: char, small: char) {
    c == small || ('a' <= small <= 'z' && c as int == small as int - 32)
  }

  /** White space, code point by code point. */
  lemma SpaceCodes(c: char)
    ensures IsSpace(c)
            <==> c as int in {9, 10, 11, 12, 13, 32, 0xA0, 0x1680, 0x2000, 0x2001, 0x2002, 0x2003, 0x2004, 0x2005, 0x2006, 0x2007,
                              0x2008, 0x2009, 0x200A, 0x2028, 0x2029, 0x202F, 0x205F, 0x3000, 0xFEFF}
  {
  }

  lemma {:induction false} SkipsAllSpace(space: string, rest: string)
    requires (forall c :: c in space ==> IsSpace(c)) && (rest == [] || !IsSpace(rest[0]))
    ensures SkipSpace(space + rest) == rest
  {
    if space == [] {
      assert space + rest == rest;
    } else {
      SkipsAllSpace(space[1..], rest);
      assert (space + rest)[1..] == space[1..] + rest;
    }
  }

  lemma {:induction false} TakesAllDigits(digits: string, after: string)
    requires (forall c :: c in digits ==> Decimal.IsDigit(c)) && (after == [] || !Decimal.IsDigit(after[0]))
    ensures LeadingDigits(digits + after) == digits
  {
    if digits == [] {
      assert digits + after == after;
    } else {
      TakesAllDigits(digits[1..], after);
      assert (digits + after)[1..] == digits[1..] + after;
    }
  }

  lemma LabelInAnyCase(head: string)
    requires |head| == |LABEL|
    ensures LowerAll(head) == LABEL <==> forall i :: 0 <= i < |head| ==> SameLetter(head[i], LABEL[i])
  {
    forall i | 0 <= i < |head| ensures Lower(head[i]) == LABEL[i] <==> SameLetter(head[i], LABEL[i]) {
      assert !('A' <= LABEL[i] <= 'Z');
    }
    assert LowerAll(head) == LABEL <==> forall i :: 0 <= i < |head| ==> Lower(head[i]) == LABEL[i];
  }

  /** The length that stands behind the label is read, whatever its spelling and spacing. */
  lemma LengthIsRead(text: string, head: string, space: string, digits: string, after: string)
    requires Announces(text, head, space, digits, after)
    ensures LengthHere(text) == Some(Decimal.Read(digits))
  {
    LabelInAnyCase(head);
    assert text[..|LABEL|] == head;
    assert text[|LABEL|..] == space + (digits + after);
    assert Decimal.IsDigit(digits[0]);
    SkipsAllSpace(space, digits + after);
    TakesAllDigits(digits, after);
  }

  lemma {:induction false} SpaceBefore(s: string) returns (space: string)
    ensures s == space + SkipSpace(s) && forall c :: c in space ==> IsSpace(c)
  {
    space := [];
    if s != [] && IsSpace(s[0]) {
      var rest := SpaceBefore(s[1..]);
      space := [s[0]] + rest;
    }
  }

  lemma {:induction false} AfterDigits(s: string) returns (after: string)
    ensures s == LeadingDigits(s) + after && (after == [] || !Decimal.IsDigit(after[0]))
  {
    after := s;
    if s != [] && Decimal.IsDigit(s[0]) {
      after := AfterDigits(s[1..]);
    }
  }

  /** And nothing else is. */
  lemma OnlyLengthsAreRead(text: string) returns (head: string, space: string, digits: string, after: string)
    ensures LengthHere(text).Some? ==> Announces(text, head, space, digits, after)
  {
    head, space, digits, after := [], [], [], [];
    if LengthHere(text).Some? {
      head := text[..|LABEL|];
      LabelInAnyCase(head);
      space := SpaceBefore(text[|LABEL|..]);
      digits := LeadingDigits(SkipSpace(text[|LABEL|..]));
      after := AfterDigits(SkipSpace(text[|LABEL|..]));
      assert text == head + text[|LABEL|..];
    }
  }

  /** The length of a header is that of the first place that announces one. */
  lemma {:induction false} FirstLengthCounts(text: string)
    ensures ContentLength(text).None? <==> forall i :: 0 <= i <= |text| ==> LengthHere(text[i..]).None?
    ensures forall i :: 0 <= i <= |text| && LengthHere(text[i..]).Some? && (forall j :: 0 <= j < i ==> LengthHere(text[j..]).None?) ==>
              ContentLength(text) == LengthHere(text[i..])
  {
    assert text[0..] == text;
    if text != [] {
      FirstLengthCounts(text[1..]);
      forall i | 0 < i <= |text| ensures text[i..] == text[1..][i - 1..] {
      }
    }
  }

  lemma LengthOfHeader(n: nat)
    ensures ContentLength(HeaderText(n)) == Some(n)
  {
    var text := HeaderText(n);
    var written := "Content-Length:";
    assert text[..|LABEL|] == written;
    assert LowerAll(written) == LABEL;
    var after := text[|LABEL|..];
    assert after == " " + Decimal.Print(n);
    assert after[1..] == Decimal.Print(n);
    assert Decimal.Print(n)[0] in Decimal.Print(n);
    assert SkipSpace(after) == SkipSpace(Decimal.Print(n)) == Decimal.Print(n);
    AllDigits(Decimal.Print(n));
    Decimal.ReadPrinted(n);
  }

  lemma {:induction false} AllDigits(s: string)
    requires forall c :: c in s ==> Decimal.IsDigit(c)
    ensures LeadingDigits(s) == s
  {
    if s != [] {
      AllDigits(s[1..]);
    }
  }

  lemma FramedHeaderEnd(body: seq<Byte>, tail: seq<Byte>)
    ensures HeaderEnd(Framed(body) + tail) == Some(|HeaderText(|body|)|)
  {
    var text := HeaderText(|body|);
    var b := Framed(body) + tail;
    assert HeaderEndAt(b, |text|);
    forall j: nat | j < |text| ensures !HeaderEndAt(b, j) {
      assert text[j] in text && text[j] != 13 as char;
      assert b[j] == Ascii(text)[j] != CR;
    }
  }

  /** A written frame reads back as its body and nothing else, whatever follows it. */
  lemma ReadsWrittenFrame(p: Platform, body: seq<Byte>, tail: seq<Byte>)
    requires DecodesAscii(p.decode)
    ensures TryReadFramedMessage(p, Framed(body) + tail) == Some(Frame(p.parse(p.decode(body)), tail))
  {
    var text := HeaderText(|body|);
    var b := Framed(body) + tail;
    FramedHeaderEnd(body, tail);
    assert b[..|text|] == Ascii(text);
    LengthOfHeader(|body|);
    assert b[|text| + 4..|text| + 4 + |body|] == body;
    assert b[|text| + 4 + |body|..] == tail;
  }

  // ---------------------------------------------------------------- what is no frame

  lemma {:induction false} LeadingDigitsExtends(s: string, more: string)
    requires LeadingDigits(s) != []
    ensures LeadingDigits(s + more) != []
  {
    assert (s + more)[0] == s[0];
  }

  lemma {:induction false} SkipSpaceExtends(s: string, more: string)
    requires LeadingDigits(SkipSpace(s)) != []
    ensures LeadingDigits(SkipSpace(s + more)) != []
  {
    assert s != [] && (s + more)[0] == s[0];
    if IsSpace(s[0]) {
      assert (s + more)[1..] == s[1..] + more;
      SkipSpaceExtends(s[1..], more);
    } else {
      LeadingDigitsExtends(s, more);
    }
  }

  lemma LengthHereExtends(s: string, more: string)
    requires LengthHere(s).Some?
    ensures LengthHere(s + more).Some?
  {
    assert (s + more)[..|LABEL|] == s[..|LABEL|];
    assert (s + more)[|LABEL|..] == s[|LABEL|..] + more;
    SkipSpaceExtends(s[|LABEL|..], more);
  }

  /** A text without a length has none in its beginning, and none in its end. */
  lemma {:induction false} NoLengthInside(s: string, more: string)
    requires ContentLength(s + more).None?
    ensures ContentLength(s).None? && ContentLength(more).None?
  {
    if LengthHere(s).Some? {
      LengthHereExtends(s, more);
    }
    if s == [] {
      assert s + more == more;
    } else {
      assert (s + more)[1..] == s[1..] + more;
      NoLengthInside(s[1..], more);
    }
  }

  /** Lines of ASCII text with no length in them, up to an empty line. */
  predicate IsNoise(text: string) {
    && IsAscii(text) && ContentLength(text).None?
    && |text| >= 4 && text[|text| - 4..] == "\r\n\r\n"
  }

  const EMPTY_LINE: seq<Byte> := [CR, LF]

  lemma NoiseEnds(text: string, x: seq<Byte>)
    requires IsNoise(text)
    ensures var end := HeaderEnd(Ascii(text) + x);
            end.Some? && end.value <= |text| - 4 && IsAscii(text[..end.value]) && (Ascii(text) + x)[..end.value] == Ascii(text[..end.value])
  {
    var n := |text| - 4;
    assert text[n] == text[n..][0] && text[n + 1] == text[n..][1] && text[n + 2] == text[n..][2] && text[n + 3] == text[n..][3];
    assert HeaderEndAt(Ascii(text) + x, n);
    var end := HeaderEnd(Ascii(text) + x).value;
    assert forall c :: c in text[..end] ==> c in text;
  }

  lemma AsciiRest(text: string, x: seq<Byte>, k: nat)
    requires IsAscii(text) && k <= |text|
    ensures IsAscii(text[k..]) && (Ascii(text) + x)[k..] == Ascii(text[k..]) + x
  {
    assert forall c :: c in text[k..] ==> c in text;
  }

  /** What the first line of noise leaves: more noise, or only the empty line. */
  lemma NoiseRest(text: string, nl: nat)
    requires IsNoise(text) && nl <= |text| - 3 && nl != |text| - 4
    ensures if nl == |text| - 3 then text[nl + 1..] == "\r\n" else IsNoise(text[nl + 1..])
  {
    var rest := text[nl + 1..];
    assert text == text[..nl + 1] + rest;
    NoLengthInside(text[..nl + 1], rest);
    if nl < |text| - 3 {
      AsciiRest(text, [], nl + 1);
      assert rest[|rest| - 4..] == text[|text| - 4..];
    } else {
      assert rest == text[|text| - 4..][2..];
    }
  }

  lemma NoiseLine(text: string, x: seq<Byte>)
    requires IsNoise(text)
    ensures var nl := IndexOf(Ascii(text) + x, LF);
            nl.Some? && nl.value <= |text| - 3 && nl.value != |text| - 4
  {
    var n, b := |text| - 4, Ascii(text) + x;
    assert text[n] == text[n..][0] && text[n + 1] == text[n..][1];
    assert b[n] == CR && b[n + 1] == LF;
  }

  /** One line of noise is dropped. */
  lemma NoiseStep(p: Platform, text: string, x: seq<Byte>) returns (nl: nat)
    requires DecodesAscii(p.decode) && IsNoise(text)
    ensures nl <= |text| - 3 && nl != |text| - 4 && IsAscii(text[nl + 1..])
    ensures TryReadFramedMessage(p, Ascii(text) + x) == TryReadFramedMessage(p, Ascii(text[nl + 1..]) + x)
  {
    NoiseEnds(text, x);
    NoiseLine(text, x);
    var b := Ascii(text) + x;
    var end := HeaderEnd(b).value;
    nl := IndexOf(b, LF).value;
    assert text == text[..end] + text[end..];
    NoLengthInside(text[..end], text[end..]);
    AsciiRest(text, x, nl + 1);
    ReadsBehindLine(p, b, end, nl);
  }

  /** Noise is skipped: what follows it is read as if only its last, empty line stood before it. */
  lemma {:induction false} NoiseIsSkipped(p: Platform, text: string, x: seq<Byte>)
    requires DecodesAscii(p.decode) && IsNoise(text)
    ensures TryReadFramedMessage(p, Ascii(text) + x) == TryReadFramedMessage(p, EMPTY_LINE + x)
    decreases |text|
  {
    var nl := NoiseStep(p, text, x);
    NoiseRest(text, nl);
    if nl < |text| - 3 {
      NoiseIsSkipped(p, text[nl + 1..], x);
    } else {
      assert Ascii(text[nl + 1..]) == EMPTY_LINE;
    }
  }

  lemma EmptyLineHeaderEnd(body: seq<Byte>, tail: seq<Byte>)
    ensures HeaderEnd(EMPTY_LINE + (Framed(body) + tail)) == Some(2 + |HeaderText(|body|)|)
  {
    var text := HeaderText(|body|);
    var b := EMPTY_LINE + (Framed(body) + tail);
    NoCarriageReturn(|body|);
    assert forall j :: 0 <= j < |text| ==> b[j + 2] == Ascii(text)[j];
    assert forall j :: 2 <= j < 2 + |text| ==> b[j] == Ascii(text)[j - 2];
    FirstHeaderEnd(b, 2 + |text|);
  }

  lemma FirstHeaderEnd(b: seq<Byte>, n: nat)
    requires n > 2 && HeaderEndAt(b, n) && forall j :: 1 <= j < n ==> b[j] != CR
    ensures HeaderEnd(b) == Some(n)
  {
  }

  lemma NoCarriageReturn(n: nat)
    ensures HeaderText(n) != "" && forall j :: 0 <= j < |HeaderText(n)| ==> Ascii(HeaderText(n))[j] != CR
  {
    forall j | 0 <= j < |HeaderText(n)| ensures Ascii(HeaderText(n))[j] != CR {
      assert HeaderText(n)[j] in HeaderText(n) && HeaderText(n)[j] != 13 as char;
    }
  }

  lemma LengthAfterEmptyLine(n: nat)
    ensures IsAscii("\r\n" + HeaderText(n)) && ContentLength("\r\n" + HeaderText(n)) == Some(n)
  {
    var text := "\r\n" + HeaderText(n);
    LengthOfHeader(n);
    assert text[1..] == "\n" + HeaderText(n) && text[1..][1..] == HeaderText(n);
    assert LowerAll(text[..|LABEL|])[0] != LABEL[0];
    assert LowerAll(text[1..][..|LABEL|])[0] != LABEL[0];
  }

  lemma EmptyLineParts(b: seq<Byte>, text: string, body: seq<Byte>, tail: seq<Byte>)
    requires text == "\r\n" + HeaderText(|body|) && b == EMPTY_LINE + (Framed(body) + tail)
    ensures |text| + 4 <= |b| && b[..|text|] == Ascii(text) && b == b[..|text| + 4] + body + tail
  {
  }

  lemma ReadsFrameAfterEmptyLine(p: Platform, body: seq<Byte>, tail: seq<Byte>)
    requires DecodesAscii(p.decode)
    ensures TryReadFramedMessage(p, EMPTY_LINE + (Framed(body) + tail)) == Some(Frame(p.parse(p.decode(body)), tail))
  {
    var text := "\r\n" + HeaderText(|body|);
    var b := EMPTY_LINE + (Framed(body) + tail);
    EmptyLineHeaderEnd(body, tail);
    LengthAfterEmptyLine(|body|);
    EmptyLineParts(b, text, body, tail);
    ReadsBody(p, b, |text|, body, tail);
  }

  lemma ReadsBody(p: Platform, b: seq<Byte>, end: nat, body: seq<Byte>, tail: seq<Byte>)
    requires HeaderEnd(b) == Some(end) && ContentLength(p.decode(b[..end])) == Some(|body|)
    requires b == b[..end + 4] + body + tail
    ensures TryReadFramedMessage(p, b) == Some(Frame(p.parse(p.decode(body)), tail))
  {
    assert b[end + 4..end + 4 + |body|] == body && b[end + 4 + |body|..] == tail;
  }

  /** A frame behind noise is read as if it stood at the front. */
  lemma ReadsFrameBehindNoise(p: Platform, text: string, body: seq<Byte>, tail: seq<Byte>)
    requires DecodesAscii(p.decode) && IsNoise(text)
    ensures TryReadFramedMessage(p, Ascii(text) + (Framed(body) + tail)) == Some(Frame(p.parse(p.decode(body)), tail))
  {
    NoiseIsSkipped(p, text, Framed(body) + tail);
    ReadsFrameAfterEmptyLine(p, body, tail);
  }

  function FrameWriter(encode: Rpc -> seq<Byte>): Rpc -> seq<Byte> {
    m => Framed(encode(m))
  }

  function WriteAll(write: Rpc -> seq<Byte>, messages: seq<Rpc>): seq<Byte> {
    if messages == [] then [] else write(messages[0]) + WriteAll(write, messages[1..])
  }

  function Somes(messages: seq<Rpc>): seq<Option<Rpc>> {
    if messages == [] then [] else [Some(messages[0])] + Somes(messages[1..])
  }

  /** The reader takes a written message off the front of the buffer, whatever follows. */
  ghost predicate ReadsBack(read: Reader, write: Rpc -> seq<Byte>, m: Rpc) {
    forall tail :: read(write(m) + tail) == Some(Frame(Some(m), tail))
  }

  lemma DrainFront(read: Reader, front: seq<Byte>, message: Option<Rpc>, rest: seq<Byte>)
    requires Shrinks(read) && read(front + rest) == Some(Frame(message, rest))
    ensures Drain(read, front + rest) == Drained([message] + Drain(read, rest).messages, Drain(read, rest).rest)
  {
  }

  lemma {:induction false} DrainWritten(read: Reader, write: Rpc -> seq<Byte>, messages: seq<Rpc>, tail: seq<Byte>)
    requires Shrinks(read) && forall m :: m in messages ==> ReadsBack(read, write, m)
    ensures Drain(read, WriteAll(write, messages) + tail)
         == Drained(Somes(messages) + Drain(read, tail).messages, Drain(read, tail).rest)
  {
    if messages == [] {
      assert WriteAll(write, messages) + tail == tail;
    } else {
      var m, later := messages[0], messages[1..];
      DrainWritten(read, write, later, tail);
      assert ReadsBack(read, write, m);
      DrainFront(read, write(m), Some(m), WriteAll(write, later) + tail);
      Associative(write(m), WriteAll(write, later), tail);
      Associative([Some(m)], Somes(later), Drain(read, tail).messages);
    }
  }

  /**
    The messages written are the messages read, in order, and what follows them in the
    stream is read as if it stood alone.
   */
  lemma RoundTrip(p: Platform, encode: Rpc -> seq<Byte>, messages: seq<Rpc>, tail: seq<Byte>)
    requires DecodesAscii(p.decode)
    requires forall m :: m in messages ==> p.parse(p.decode(encode(m))) == Some(m)
    ensures Shrinks(FrameReader(p))
    ensures Drain(FrameReader(p), WriteAll(FrameWriter(encode), messages) + tail)
         == Drained(Somes(messages) + Drain(FrameReader(p), tail).messages, Drain(FrameReader(p), tail).rest)
  {
    ReaderIsStable(p);
    forall m | m in messages ensures ReadsBack(FrameReader(p), FrameWriter(encode), m) {
      forall t ensures FrameReader(p)(FrameWriter(encode)(m) + t) == Some(Frame(Some(m), t)) {
        ReadsWrittenFrame(p, encode(m), t);
      }
    }
    DrainWritten(FrameReader(p), FrameWriter(encode), messages, tail);
  }

  /** Any chunking of a written stream delivers exactly the messages sent, in order, and leaves nothing over. */
  lemma ChunkedRoundTrip(p: Platform, encode: Rpc -> seq<Byte>, messages: seq<Rpc>, chunks: seq<seq<Byte>>)
    requires DecodesAscii(p.decode)
    requires forall m :: m in messages ==> p.parse(p.decode(encode(m))) == Some(m)
    requires Flatten(chunks) == WriteAll(FrameWriter(encode), messages)
    ensures Shrinks(FrameReader(p))
    ensures Receive(FrameReader(p), [], chunks) == Drained(Somes(messages), [])
  {
    ChunksDoNotMatter(p, chunks);
    assert Flatten(chunks) == WriteAll(FrameWriter(encode), messages) + [];
    RoundTrip(p, encode, messages, []);
  }

  /** Messages behind noise are delivered, all of them and nothing else, and so is what follows them. */
  lemma DeliversBehindNoise(p: Platform, encode: Rpc -> seq<Byte>, text: string, messages: seq<Rpc>, tail: seq<Byte>)
    requires DecodesAscii(p.decode) && IsNoise(text) && messages != []
    requires forall m :: m in messages ==> p.parse(p.decode(encode(m))) == Some(m)
    ensures Shrinks(FrameReader(p))
    ensures Drain(FrameReader(p), Ascii(text) + (WriteAll(FrameWriter(encode), messages) + tail))
         == Drained(Somes(messages) + Drain(FrameReader(p), tail).messages, Drain(FrameReader(p), tail).rest)
  {
    var read, first, later := FrameReader(p), encode(messages[0]), WriteAll(FrameWriter(encode), messages[1..]);
    ReaderIsStable(p);
    RoundTrip(p, encode, messages[1..], tail);
    ReadsFrameBehindNoise(p, text, first, later + tail);
    Associative(Framed(first), later, tail);
    var stream := Ascii(text) + (Framed(first) + (later + tail));
    assert read(stream) == Some(Frame(Some(messages[0]), later + tail));
    Associative([Some(messages[0])], Somes(messages[1..]), Drain(read, tail).messages);
  }

  /** Noise alone delivers nothing, and waits. */
  lemma NoiseWaits(p: Platform, text: string)
    requires DecodesAscii(p.decode) && IsNoise(text)
    ensures Shrinks(FrameReader(p)) && Drain(FrameReader(p), Ascii(text)) == Drained([], Ascii(text))
  {
    ReaderIsStable(p);
    NoiseIsSkipped(p, text, []);
    assert Ascii(text) + [] == Ascii(text) && EMPTY_LINE + [] == EMPTY_LINE;
  }

  /** The same over any chunks. */
  lemma ChunkedDeliveryBehindNoise(p: Platform, encode: Rpc -> seq<Byte>, text: string, messages: seq<Rpc>, chunks: seq<seq<Byte>>)
    requires DecodesAscii(p.decode) && IsNoise(text) && messages != []
    requires forall m :: m in messages ==> p.parse(p.decode(encode(m))) == Some(m)
    requires Flatten(chunks) == Ascii(text) + WriteAll(FrameWriter(encode), messages)
    ensures Shrinks(FrameReader(p))
    ensures Receive(FrameReader(p), [], chunks) == Drained(Somes(messages), [])
  {
    ChunksDoNotMatter(p, chunks);
    assert Flatten(chunks) == Ascii(text) + (WriteAll(FrameWriter(encode), messages) + []);
    DeliversBehindNoise(p, encode, text, messages, []);
  }
}
