/** The bytes written back to the client: serialize and the PING and ECHO replies. */
module Replies {
  import opened Wire
  import opened Decimal
  import opened Resp
  import opened RespProperties

  /** What handling a command does to the connection: write these bytes, or panic. */
  datatype Reply = Wrote(bytes: Bytes) | Panicked

  const NULL_BULK: Bytes := [DOLLAR, MINUS, 49, CR, LF]  // "$-1\r\n"
  const PONG: Bytes := [PLUS, 80, 79, 78, 71, CR, LF]     // "+PONG\r\n"
  const OK: Bytes := [PLUS, 79, 75, CR, LF]               // "+OK\r\n"

  /** serialize: a nil slice is the NULL bulk string, any other a bulk string. */
  function Serialize(str: Option<Bytes>): Bytes
  {
    match str
    case None => NULL_BULK
    case Some(b) => Header(DOLLAR, |b|) + b + CRLF
  }

  /** A marker, a length in decimal and "\r\n": `"$" + strconv.Itoa(len(str)) + "\r\n"`. */
  function Header(marker: byte, n: nat): Bytes
  {
    [marker] + FormatDecimal(n) + CRLF
  }

  /** ping: "+PONG\r\n", whatever the arguments; a client decodes it whole as a simple string. */
  function PingReply(args: seq<RedisData>): (r: Reply)
    ensures r.Wrote? && |r.bytes| > 0 && Parse(r.bytes, 0) == Ok(Decoded(SimpleString(r.bytes[1..]), |r.bytes|))
  {
    assert LineEndsAt(PONG, 1, 6);
    LineValue(PONG, 0, 6);
    assert PONG[1..7] == PONG[1..];
    Wrote(PONG)
  }

  /**
   * echo: the first argument's bulk string, serialized; no argument is an index
   * panic. A bulk-string argument decodes back from the reply; any other kind
   * of argument has a nil bulkString field and is echoed as NULL.
   */
  function EchoReply(args: seq<RedisData>): (r: Reply)
    ensures r.Panicked? <==> |args| == 0
    ensures |args| > 0 && args[0].BulkString? && |args[0].bulk| <= MAX_INT64 ==>
              r.Wrote? && |r.bytes| >= 2 && Parse(r.bytes, 0) == Ok(Decoded(args[0], |r.bytes| - 2))
    ensures |args| > 0 && !args[0].BulkString? ==> r == Wrote(NULL_BULK)
  {
    if |args| == 0 then Panicked
    else
      var reply := Serialize(args[0].BulkField());
      if args[0].BulkString? && |args[0].bulk| <= MAX_INT64 then
        SerializeRoundTrip(args[0].bulk, []);
        assert reply + [] == reply;
        Wrote(reply)
      else Wrote(reply)
  }

  /** The stream s holds w at p. */
  predicate HoldsAt(s: Bytes, p: nat, w: Bytes)
  {
    p + |w| <= |s| && s[p..p + |w|] == w
  }

  lemma HoldsSlice(s: Bytes, p: nat, w: Bytes, i: nat, j: nat)
    requires HoldsAt(s, p, w) && i <= j <= |w|
    ensures s[p + i..p + j] == w[i..j]
  {
    forall k | 0 <= k < j - i ensures s[p + i..p + j][k] == w[i..j][k] {
      assert s[p..p + |w|][i + k] == s[p + i + k];
    }
  }

  lemma HeaderParts(marker: byte, n: nat)
    ensures var h, k := Header(marker, n), |FormatDecimal(n)|;
            && |h| == k + 3 && h[..1] == [marker] && h[1..k + 1] == FormatDecimal(n) && h[k + 1..] == CRLF
  {
  }

  /** The bytes of a header at p, one part at a time. */
  lemma HeaderBytesAt(s: Bytes, p: nat, marker: byte, n: nat)
    requires HoldsAt(s, p, Header(marker, n))
    ensures var k := |FormatDecimal(n)|;
            && p + k + 3 <= |s| && s[p] == marker && s[p + 1..p + k + 1] == FormatDecimal(n)
            && s[p + k + 1] == CR && s[p + k + 2] == LF
  {
    var h := Header(marker, n);
    var k := |FormatDecimal(n)|;
    HeaderParts(marker, n);
    HoldsSlice(s, p, h, 0, 1);
    HoldsSlice(s, p, h, 1, k + 1);
    HoldsSlice(s, p, h, k + 1, k + 3);
    assert s[p] == s[p..p + 1][0];
    assert s[p + k + 1] == s[p + k + 1..p + k + 3][0];
    assert s[p + k + 2] == s[p + k + 1..p + k + 3][1];
  }

  /** A header at p is a marker and a length line that Atoi reads back. */
  lemma HeaderAt(s: Bytes, p: nat, marker: byte, n: nat)
    requires n <= MAX_INT64 && HoldsAt(s, p, Header(marker, n))
    ensures var j := p + |Header(marker, n)| - 1;
            && s[p] == marker && LineEndsAt(s, p + 1, j) && j >= p + 2
            && ParseDecimal(s[p + 1..j - 1]) == ParsedInt(n, true)
  {
    HeaderParts(marker, n);
    HeaderBytesAt(s, p, marker, n);
    HeaderLineAt(s, p, n);
    FormatDecimalRoundTrip(n);
  }

  /** No line feed among the digits, so the header's line ends at its own "\n". */
  lemma HeaderLineAt(s: Bytes, p: nat, n: nat)
    requires var k := |FormatDecimal(n)|;
             && p + k + 3 <= |s| && s[p + 1..p + k + 1] == FormatDecimal(n)
             && s[p + k + 1] == CR && s[p + k + 2] == LF
    ensures LineEndsAt(s, p + 1, p + |FormatDecimal(n)| + 2)
  {
    var d := FormatDecimal(n);
    var k := |d|;
    FormatDecimalDigits(n);
    forall i | p + 1 <= i < p + k + 2 ensures s[i] != LF {
      if i < p + k + 1 {
        assert s[i] == s[p + 1..p + k + 1][i - p - 1];
      }
    }
  }

  /** The header "$<len>\r\n" of a serialized bulk string at p. */
  lemma SerializedHeader(s: Bytes, p: nat, b: Bytes)
    requires |b| <= MAX_INT64 && HoldsAt(s, p, Serialize(Some(b)))
    ensures var j := p + |Header(DOLLAR, |b|)| - 1;
            && s[p] == DOLLAR && LineEndsAt(s, p + 1, j) && j >= p + 2
            && ParseDecimal(s[p + 1..j - 1]) == ParsedInt(|b|, true)
  {
    HeaderHeld(s, p, b);
    HeaderAt(s, p, DOLLAR, |b|);
  }

  lemma HeaderHeld(s: Bytes, p: nat, b: Bytes)
    requires HoldsAt(s, p, Serialize(Some(b)))
    ensures HoldsAt(s, p, Header(DOLLAR, |b|))
  {
    var h := Header(DOLLAR, |b|);
    var w := Serialize(Some(b));
    assert w[..|h|] == h;
    HoldsSlice(s, p, w, 0, |h|);
  }

  /** After the header come the payload bytes and a closing "\r\n". */
  lemma SerializedPayload(s: Bytes, p: nat, b: Bytes)
    requires HoldsAt(s, p, Serialize(Some(b)))
    ensures var j := p + |Header(DOLLAR, |b|)| - 1;
            var e := p + |Serialize(Some(b))|;
            && e == j + 1 + |b| + 2
            && s[j + 1..j + 1 + |b|] == b
            && LineEndsAt(s, e - 2, e - 1)
  {
    var h := Header(DOLLAR, |b|);
    var w := Serialize(Some(b));
    var m := |h|;
    assert w[m..m + |b|] == b;
    assert w[m + |b|..] == CRLF;
    HoldsSlice(s, p, w, m, m + |b|);
    HoldsSlice(s, p, w, m + |b|, |w|);
    var e := p + |w|;
    assert s[e - 2] == s[e - 2..e][0];
    assert s[e - 1] == s[e - 2..e][1];
  }

  /** Header and payload of a serialized bulk string at p, as the decoder sees them. */
  lemma SerializedLayout(s: Bytes, p: nat, b: Bytes)
    requires |b| <= MAX_INT64 && HoldsAt(s, p, Serialize(Some(b)))
    ensures var j := p + |Header(DOLLAR, |b|)| - 1;
            && BulkLayout(s, p, j, b)
            && p + |Serialize(Some(b))| == j + |b| + 3
            && LineEndsAt(s, j + 1 + |b|, j + 2 + |b|)
  {
    SerializedHeader(s, p, b);
    SerializedPayload(s, p, b);
  }

  /**
   * A serialized bulk string anywhere in a stream decodes, through the '$'
   * branch, to the same bytes; the decoder stops before the closing "\r\n",
   * and the line skipped after it (inside an array) is exactly that "\r\n".
   */
  lemma SerializedAt(s: Bytes, p: nat, b: Bytes)
    requires |b| <= MAX_INT64 && HoldsAt(s, p, Serialize(Some(b)))
    ensures Parse(s, p) == Ok(Decoded(BulkString(b), p + |Serialize(Some(b))| - 2))
    ensures ReadLine(s, p + |Serialize(Some(b))| - 2).next == p + |Serialize(Some(b))|
  {
    SerializedParses(s, p, b);
    SerializedTrailer(s, p, b);
  }

  lemma SerializedParses(s: Bytes, p: nat, b: Bytes)
    requires |b| <= MAX_INT64 && HoldsAt(s, p, Serialize(Some(b)))
    ensures Parse(s, p) == Ok(Decoded(BulkString(b), p + |Serialize(Some(b))| - 2))
  {
    var j := p + |Header(DOLLAR, |b|)| - 1;
    SerializedLayout(s, p, b);
    LayoutParses(s, p, j, b, p + |Serialize(Some(b))|);
  }

  /** The decoder stops two bytes before the end e of the serialized form. */
  lemma LayoutParses(s: Bytes, p: nat, j: nat, b: Bytes, e: nat)
    requires BulkLayout(s, p, j, b) && e == j + |b| + 3
    ensures Parse(s, p) == Ok(Decoded(BulkString(b), e - 2))
  {
    BulkLayoutParses(s, p, j, b);
  }

  /** The line after the payload is the closing "\r\n" alone. */
  lemma SerializedTrailer(s: Bytes, p: nat, b: Bytes)
    requires |b| <= MAX_INT64 && HoldsAt(s, p, Serialize(Some(b)))
    ensures ReadLine(s, p + |Serialize(Some(b))| - 2).next == p + |Serialize(Some(b))|
  {
    var e := p + |Serialize(Some(b))|;
    SerializedPayload(s, p, b);
    ReadLineAt(s, e - 2, e - 1);
  }

  /** Decoding serialize(B) through the '$' branch gives back B, leaving its final "\r\n" unread. */
  lemma SerializeRoundTrip(b: Bytes, tail: Bytes)
    requires |b| <= MAX_INT64
    ensures Parse(Serialize(Some(b)) + tail, 0) == Ok(Decoded(BulkString(b), |Serialize(Some(b))| - 2))
  {
    var s := Serialize(Some(b)) + tail;
    assert HoldsAt(s, 0, Serialize(Some(b)));
    SerializedAt(s, 0, b);
  }

  /** The server's own NULL reply is not decoded as NULL: `make([]byte, -1)` panics. */
  lemma NullBulkPanics(tail: Bytes)
    ensures Parse(Serialize(None) + tail, 0) == Err(DecodePanic)
  {
    var s := NULL_BULK + tail;
    ReadLineAt(s, 1, 4);
    assert s[1..3] == [MINUS, 49];
    ParseDecimalMeaning([MINUS, 49]);
    assert DigitsValue([49]) == 1 by {
      assert [49 as byte][..0] == [];
    }
    LengthLineAt(s, 0, 4);
    LengthErrorBranch(s, 0);
  }

  /** Different slices serialize differently (slices are at most MAX_INT64 long in Go). */
  lemma SerializeInjective(x: Option<Bytes>, y: Option<Bytes>)
    requires x.Some? ==> |x.value| <= MAX_INT64
    requires y.Some? ==> |y.value| <= MAX_INT64
    requires Serialize(x) == Serialize(y)
    ensures x == y
  {
    if x.Some? && y.Some? {
      SerializeRoundTrip(x.value, []);
      SerializeRoundTrip(y.value, []);
      assert Serialize(x) + [] == Serialize(y) + [];
    }
  }
}
