/**
 * The RESP wire decoder, parseRedisDatatype: one value from a byte stream,
 * arrays recursively. The bufio.Reader is an immutable byte sequence with a
 * cursor; end of the sequence is the connection having been closed.
 */
module Resp {
  import opened Wire
  import opened Decimal

  /**
   * A decoded value. Go's redisData is a struct with one field per kind; the
   * decoder fills at most one of them, so here it is a tagged union, and
   * Empty is the struct's zero value.
   */
  datatype RedisData =
    | Empty
    | SimpleString(simple: Bytes)
    | ErrorString(message: Bytes)
    | Integer(integer: int)
    | BulkString(bulk: Bytes)
    | Array(elements: seq<RedisData>)
  {
    /** The struct's `bulkString` field: None is Go's nil slice. */
    function BulkField(): Option<Bytes>
    {
      if BulkString? then Some(bulk) else None
    }

    /** `string(bulkString)`: the bulk string's bytes, empty for a nil slice. */
    function BulkText(): Bytes
    {
      if BulkString? then bulk else []
    }

    /** The struct's `array` field; a nil slice has no elements. */
    function ArrayField(): seq<RedisData>
    {
      if Array? then elements else []
    }
  }

  /** Why a decode stopped. */
  datatype DecodeError =
    | EndOfInput   // io.EOF: the stream ended
    | Malformed    // a non-nil error other than io.EOF
    | DecodePanic  // a Go runtime panic (slice bounds, make with a negative length)

  datatype Result<T> = Ok(value: T) | Err(error: DecodeError)

  /** A decoded value and the cursor just after it. */
  datatype Decoded = Decoded(value: RedisData, next: nat)

  /** The decoded elements of an array and the cursor after the last separator line. */
  datatype Elements = Elements(items: seq<RedisData>, next: nat)

  /** The first line feed at or after c, or |s| when there is none. */
  function NextNewline(s: Bytes, c: nat): (j: nat)
    requires c <= |s|
    ensures c <= j <= |s|
    ensures j < |s| ==> s[j] == LF
    decreases |s| - c
  {
    if c == |s| then |s| else if s[c] == LF then c else NextNewline(s, c + 1)
  }

  /** What bufio.Reader.ReadBytes('\n') returns, and where it leaves the cursor. */
  datatype Line = Line(bytes: Bytes, next: nat, eof: bool)

  /**
   * ReadBytes('\n') at c: the bytes up to and including the next line feed; with
   * no line feed left, everything up to the end together with io.EOF.
   */
  function ReadLine(s: Bytes, c: nat): (l: Line)
    requires c <= |s|
    ensures c <= l.next <= |s| && l.bytes == s[c..l.next]
    ensures !l.eof ==> c < l.next && s[l.next - 1] == LF
    ensures l.eof ==> l.next == |s|
  {
    var j := NextNewline(s, c);
    if j < |s| then Line(s[c..j + 1], j + 1, false) else Line(s[c..], |s|, true)
  }

  /** A payload buffer filled by one reader.Read, and the cursor after it. */
  datatype Payload = Payload(bytes: Bytes, next: nat)

  /**
   * `msg = make([]byte, n); reader.Read(msg)`: the next n bytes, or as many as
   * the stream still holds, the rest of the buffer left zero; the error of Read
   * is ignored by the caller.
   */
  function ReadPayload(s: Bytes, c: nat, n: nat): (p: Payload)
    requires c <= |s|
    ensures c <= p.next <= |s| && |p.bytes| == n
    ensures c + n <= |s| ==> p == Payload(s[c..c + n], c + n)
    ensures c + n > |s| ==> p == Payload(s[c..] + Zeros(c + n - |s|), |s|)
  {
    var take := if c + n <= |s| then n else |s| - c;
    assert c + n > |s| ==> s[c..c + take] == s[c..];
    Payload(s[c..c + take] + Zeros(n - take), c + take)
  }

  /** A length or integer line without its last two bytes (normally "\r\n"). */
  function Trimmed(line: Bytes): Bytes
    requires |line| >= 2
  {
    line[..|line| - 2]
  }

  /**
   * The specification of parseRedisDatatype on the stream s from cursor c: one
   * marker byte, then the branch for that marker. Every success consumes at
   * least the marker byte.
   */
  function Parse(s: Bytes, c: nat): (r: Result<Decoded>)
    requires c <= |s|
    ensures r.Ok? ==> c < r.value.next <= |s|
    decreases |s| - c, 0, 0
  {
    if c == |s| then Err(EndOfInput)
    else
      var marker := s[c];
      if marker == PLUS || marker == MINUS then ParseLineValue(s, c + 1, marker == PLUS)
      else if marker == COLON then ParseInteger(s, c + 1)
      else if marker == DOLLAR then ParseBulk(s, c + 1)
      else if marker == STAR then ParseArray(s, c + 1)
      else if marker == CR || marker == LF then Ok(Decoded(Empty, c + 1))
      else Err(Malformed)
  }

  /** The '+' and '-' branches: the whole line, line feed included, is the value. */
  function ParseLineValue(s: Bytes, p: nat, simple: bool): (r: Result<Decoded>)
    requires p <= |s|
  {
    var line := ReadLine(s, p);
    if line.eof then Err(EndOfInput)
    else if simple then Ok(Decoded(SimpleString(line.bytes), line.next))
    else Ok(Decoded(ErrorString(line.bytes), line.next))
  }

  /**
   * The ':' branch. The number is parsed before io.EOF is looked at, because
   * the EOF of ReadBytes is kept in the outer `err` while Atoi's goes to a
   * shadowing one.
   */
  function ParseInteger(s: Bytes, p: nat): (r: Result<Decoded>)
    requires p <= |s|
  {
    var line := ReadLine(s, p);
    if |line.bytes| < 2 then Err(DecodePanic)
    else
      var n := ParseDecimal(Trimmed(line.bytes));
      if !n.ok then Err(Malformed)
      else if line.eof then Err(EndOfInput)
      else Ok(Decoded(Integer(n.value), line.next))
  }

  /** A length announced in the lines of '$' and '*', and the cursor after its line. */
  datatype Length = Length(n: nat, next: nat)

  /**
   * The length line of '$' and '*'. Atoi's error overwrites that of ReadBytes,
   * so io.EOF on this line is never reported; a negative length makes `make`
   * panic.
   */
  function ParseLength(s: Bytes, p: nat): (r: Result<Length>)
    requires p <= |s|
    ensures r.Ok? ==> p <= r.value.next <= |s|
  {
    var line := ReadLine(s, p);
    if |line.bytes| < 2 then Err(DecodePanic)
    else
      var n := ParseDecimal(Trimmed(line.bytes));
      if !n.ok then Err(Malformed)
      else if n.value < 0 then Err(DecodePanic)
      else Ok(Length(n.value, line.next))
  }

  /** The '$' branch: exactly the announced number of raw bytes, whatever they are. */
  function ParseBulk(s: Bytes, p: nat): (r: Result<Decoded>)
    requires p <= |s|
    ensures r.Ok? ==> p <= r.value.next <= |s|
  {
    match ParseLength(s, p)
    case Err(e) => Err(e)
    case Ok(len) =>
      var payload := ReadPayload(s, len.next, len.n);
      Ok(Decoded(BulkString(payload.bytes), payload.next))
  }

  /** The '*' branch: the announced number of elements. */
  function ParseArray(s: Bytes, p: nat): (r: Result<Decoded>)
    requires p <= |s|
    ensures r.Ok? ==> p <= r.value.next <= |s|
    decreases |s| - p, 2, 0
  {
    match ParseLength(s, p)
    case Err(e) => Err(e)
    case Ok(len) =>
      match ParseElements(s, len.next, len.n, [])
      case Err(e) => Err(e)
      case Ok(elems) => Ok(Decoded(Array(elems.items), elems.next))
  }

  /**
   * The array loop: `remaining` more elements after those in acc, each decoded
   * in turn and followed by one skipped line; the first failing element ends the
   * loop with its error.
   */
  function ParseElements(s: Bytes, c: nat, remaining: nat, acc: seq<RedisData>): (r: Result<Elements>)
    requires c <= |s|
    ensures r.Ok? ==> c <= r.value.next <= |s| && |r.value.items| == |acc| + remaining
    decreases |s| - c, 1, remaining
  {
    if remaining == 0 then Ok(Elements(acc, c))
    else
      match Parse(s, c)
      case Err(e) => Err(e)
      case Ok(d) =>
        ParseElements(s, ReadLine(s, d.next).next, remaining - 1, acc + [d.value])
  }

  /** One turn of the array loop: an element decoded at c, then its line skipped. */
  lemma ParseElementsStep(s: Bytes, c: nat, remaining: nat, acc: seq<RedisData>, v: RedisData, mid: nat)
    requires c <= |s| && remaining > 0
    requires Parse(s, c) == Ok(Decoded(v, mid))
    ensures ParseElements(s, c, remaining, acc) ==
            ParseElements(s, ReadLine(s, mid).next, remaining - 1, acc + [v])
  {
  }

  /** The array loop ends with the first element that fails. */
  lemma ParseElementsFail(s: Bytes, c: nat, remaining: nat, acc: seq<RedisData>, e: DecodeError)
    requires c <= |s| && remaining > 0 && Parse(s, c) == Err(e)
    ensures ParseElements(s, c, remaining, acc) == Err(e)
  {
  }

  /** The bufio.Reader over one connection: the bytes the client sends and a cursor. */
  class Reader {
    const data: Bytes
    var pos: nat

    ghost predicate Valid()
      reads this
    {
      pos <= |data|
    }

    constructor (input: Bytes)
      ensures Valid() && data == input && pos == 0
    {
      data, pos := input, 0;
    }

    /** ReadByte: the next byte, or io.EOF without moving. */
    method ReadByte() returns (b: byte, eof: bool)
      requires Valid()
      modifies this
      ensures Valid() && eof == (old(pos) == |data|)
      ensures !eof ==> b == data[old(pos)] && pos == old(pos) + 1
      ensures eof ==> pos == old(pos)
    {
      if pos == |data| {
        b, eof := 0, true;
      } else {
        b, eof := data[pos], false;
        pos := pos + 1;
      }
    }

    /** ReadBytes('\n'). */
    method ReadBytes() returns (line: Bytes, eof: bool)
      requires Valid()
      modifies this
      ensures Valid() && ReadLine(data, old(pos)) == Line(line, pos, eof)
    {
      var l := ReadLine(data, pos);
      line, eof, pos := l.bytes, l.eof, l.next;
    }

    /** `msg := make([]byte, n); reader.Read(msg)`. */
    method Read(n: nat) returns (msg: Bytes)
      requires Valid()
      modifies this
      ensures Valid() && ReadPayload(data, old(pos), n) == Payload(msg, pos)
    {
      var p := ReadPayload(data, pos, n);
      msg, pos := p.bytes, p.next;
    }
  }

  /** The method's result and the reader's new cursor are those the specification gives. */
  ghost predicate Agrees(r: Result<RedisData>, spec: Result<Decoded>, pos: nat)
  {
    match spec
    case Ok(d) => r == Ok(d.value) && pos == d.next
    case Err(e) => r == Err(e)
  }

  /**
   * parseRedisDatatype: reads one value from the reader. The length line shared
   * by '$' and '*' and the loop of '*' are the two methods after this one.
   */
  method ParseDatatype(reader: Reader) returns (r: Result<RedisData>)
    requires reader.Valid()
    modifies reader
    ensures reader.Valid()
    ensures Agrees(r, Parse(reader.data, old(reader.pos)), reader.pos)
    decreases |reader.data| - reader.pos, 0
  {
    ghost var s, start := reader.data, reader.pos;
    var dataType, eof := reader.ReadByte();
    if eof {
      return Err(EndOfInput);
    }
    if dataType == PLUS || dataType == MINUS {
      var msg, lineEof := reader.ReadBytes();
      if lineEof {
        r := Err(EndOfInput);
      } else if dataType == PLUS {
        r := Ok(SimpleString(msg));
      } else {
        r := Ok(ErrorString(msg));
      }
    } else if dataType == COLON {
      var msg, lineEof := reader.ReadBytes();
      if |msg| < 2 {
        return Err(DecodePanic);
      }
      var parsedInt := ParseDecimal(Trimmed(msg));
      if !parsedInt.ok {
        r := Err(Malformed);
      } else if lineEof {
        r := Err(EndOfInput);
      } else {
        r := Ok(Integer(parsedInt.value));
      }
    } else if dataType == DOLLAR {
      var stringByteLength := ReadLength(reader);
      if stringByteLength.Err? {
        return Err(stringByteLength.error);
      }
      var msg := reader.Read(stringByteLength.value);
      r := Ok(BulkString(msg));
    } else if dataType == STAR {
      var length := ReadLength(reader);
      if length.Err? {
        return Err(length.error);
      }
      var elements := ReadElements(reader, length.value);
      if elements.Err? {
        return Err(elements.error);
      }
      r := Ok(Array(elements.value));
    } else if dataType == CR || dataType == LF {
      r := Ok(Empty);
    } else {
      r := Err(Malformed);
    }
  }

  /** The length line of '$' and '*': read it, trim "\r\n", Atoi, and `make`'s check. */
  method ReadLength(reader: Reader) returns (r: Result<nat>)
    requires reader.Valid()
    modifies reader
    ensures reader.Valid()
    ensures match ParseLength(reader.data, old(reader.pos))
            case Ok(len) => r == Ok(len.n) && reader.pos == len.next
            case Err(e) => r == Err(e)
  {
    var l, lineEof := reader.ReadBytes();
    if |l| < 2 {
      return Err(DecodePanic);
    }
    var parsed := ParseDecimal(Trimmed(l));
    if !parsed.ok {
      return Err(Malformed);
    }
    if parsed.value < 0 {
      return Err(DecodePanic);
    }
    r := Ok(parsed.value);
  }

  /**
   * The loop of '*': `resultArray := make([]redisData, length)`, then for each
   * index decode an element into it and skip the rest of its line.
   */
  method ReadElements(reader: Reader, length: nat) returns (r: Result<seq<RedisData>>)
    requires reader.Valid()
    modifies reader
    ensures reader.Valid()
    ensures match ParseElements(reader.data, old(reader.pos), length, [])
            case Ok(elems) => r == Ok(elems.items) && reader.pos == elems.next
            case Err(e) => r == Err(e)
    decreases |reader.data| - reader.pos, 2
  {
    ghost var s, first := reader.data, reader.pos;
    ghost var spec := ParseElements(s, first, length, []);
    var resultArray := new RedisData[length];
    ghost var done: seq<RedisData> := [];
    var i := 0;
    while i < length
      invariant 0 <= i <= length
      invariant reader.Valid() && first <= reader.pos
      invariant done == resultArray[..i]
      invariant spec == ParseElements(s, reader.pos, length - i, done)
    {
      var element := ReadElement(reader, length - i, done);
      if element.Err? {
        return Err(element.error);
      }
      resultArray[i] := element.value;
      done := done + [element.value];
      i := i + 1;
    }
    assert resultArray[..] == done;
    r := Ok(resultArray[..]);
  }

  /**
   * One turn of that loop: decode an element, then skip the rest of its line
   * with ReadBytes('\n'), whose result is discarded.
   */
  method ReadElement(reader: Reader, ghost remaining: nat, ghost done: seq<RedisData>)
    returns (r: Result<RedisData>)
    requires reader.Valid() && remaining > 0
    modifies reader
    ensures reader.Valid()
    ensures r.Err? ==> ParseElements(reader.data, old(reader.pos), remaining, done) == Err(r.error)
    ensures r.Ok? ==> old(reader.pos) < reader.pos
    ensures r.Ok? ==> ParseElements(reader.data, old(reader.pos), remaining, done) ==
                      ParseElements(reader.data, reader.pos, remaining - 1, done + [r.value])
    decreases |reader.data| - reader.pos, 1
  {
    ghost var s, p := reader.data, reader.pos;
    r := ParseDatatype(reader);
    if r.Err? {
      ParseElementsFail(s, p, remaining, done, r.error);
      return;
    }
    ParseElementsStep(s, p, remaining, done, r.value, reader.pos);
    var skipped, skipEof := reader.ReadBytes();
  }
}
