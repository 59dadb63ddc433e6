/** What parseRedisDatatype does with each kind of input, stated over its specification. */
module RespProperties {
  import opened Wire
  import opened Decimal
  import opened Resp

  /** The next line feed after c is at j. */
  predicate LineEndsAt(s: Bytes, c: nat, j: nat)
  {
    c <= j < |s| && s[j] == LF && forall i :: c <= i < j ==> s[i] != LF
  }

  /** The line feed NextNewline finds is the first one. */
  lemma {:induction false} NextNewlineAt(s: Bytes, c: nat, j: nat)
    requires LineEndsAt(s, c, j)
    ensures NextNewline(s, c) == j
    decreases j - c
  {
    if c < j {
      NextNewlineAt(s, c + 1, j);
    }
  }

  /** With no line feed left, NextNewline runs to the end. */
  lemma {:induction false} NoNewline(s: Bytes, c: nat)
    requires c <= |s| && forall i :: c <= i < |s| ==> s[i] != LF
    ensures NextNewline(s, c) == |s|
    decreases |s| - c
  {
    if c < |s| {
      NoNewline(s, c + 1);
    }
  }

  /** No line feed lies before the one NextNewline finds. */
  lemma {:induction false} NextNewlineFirst(s: Bytes, c: nat)
    requires c <= |s|
    ensures forall i :: c <= i < NextNewline(s, c) ==> s[i] != LF
    decreases |s| - c
  {
    if c < |s| && s[c] != LF {
      NextNewlineFirst(s, c + 1);
    }
  }

  /**
   * ReadBytes('\n') stops at the first line feed at or after c, and reports
   * io.EOF exactly when no line feed is left.
   */
  lemma ReadLineFirstNewline(s: Bytes, c: nat)
    requires c <= |s|
    ensures !ReadLine(s, c).eof ==> LineEndsAt(s, c, ReadLine(s, c).next - 1)
    ensures ReadLine(s, c).eof <==> forall i :: c <= i < |s| ==> s[i] != LF
  {
    NextNewlineFirst(s, c);
  }

  lemma ReadLineAt(s: Bytes, c: nat, j: nat)
    requires LineEndsAt(s, c, j)
    ensures ReadLine(s, c) == Line(s[c..j + 1], j + 1, false)
  {
    NextNewlineAt(s, c, j);
  }

  /** The '$' marker selects the bulk-string branch. */
  lemma BulkBranch(s: Bytes, c: nat)
    requires c < |s| && s[c] == DOLLAR
    ensures Parse(s, c) == ParseBulk(s, c + 1)
  {
  }

  /** The '*' marker selects the array branch. */
  lemma ArrayBranch(s: Bytes, c: nat)
    requires c < |s| && s[c] == STAR
    ensures Parse(s, c) == ParseArray(s, c + 1)
  {
  }

  /** After a length line announcing n, the array branch is the array loop over n elements. */
  lemma ArrayAfterLength(s: Bytes, p: nat, n: nat, q: nat, e: Elements)
    requires p <= |s| && ParseLength(s, p) == Ok(Length(n, q))
    requires ParseElements(s, q, n, []) == Ok(e)
    ensures ParseArray(s, p) == Ok(Decoded(Array(e.items), e.next))
  {
  }

  /** After a length line announcing |b|, a stream holding b next makes the bulk string b. */
  lemma BulkPayload(s: Bytes, p: nat, q: nat, b: Bytes)
    requires p <= |s| && ParseLength(s, p) == Ok(Length(|b|, q))
    requires q + |b| <= |s| && s[q..q + |b|] == b
    ensures ParseBulk(s, p) == Ok(Decoded(BulkString(b), q + |b|))
  {
  }

  /** After '$' and a length line announcing |b|, a stream holding b next decodes to b. */
  lemma BulkAfterLength(s: Bytes, c: nat, q: nat, b: Bytes)
    requires c < |s| && s[c] == DOLLAR && ParseLength(s, c + 1) == Ok(Length(|b|, q))
    requires q + |b| <= |s| && s[q..q + |b|] == b
    ensures Parse(s, c) == Ok(Decoded(BulkString(b), q + |b|))
  {
    BulkBranch(s, c);
    BulkPayload(s, c + 1, q, b);
  }

  /** After a length line announcing len, with fewer than len bytes left. */
  lemma ShortBulkPayload(s: Bytes, p: nat, q: nat, len: nat)
    requires p <= |s| && ParseLength(s, p) == Ok(Length(len, q))
    requires q + len > |s|
    ensures ParseBulk(s, p) == Ok(Decoded(BulkString(s[q..] + Zeros(q + len - |s|)), |s|))
  {
  }

  /** After '$' or '*', a bad length line ends the decode with its error. */
  lemma LengthErrorBranch(s: Bytes, c: nat)
    requires c < |s| && (s[c] == DOLLAR || s[c] == STAR) && ParseLength(s, c + 1).Err?
    ensures Parse(s, c) == Err(ParseLength(s, c + 1).error)
  {
    if s[c] == DOLLAR {
      BulkBranch(s, c);
    } else {
      ArrayBranch(s, c);
    }
  }

  /** The marker byte alone: end of input, a lone CR or LF, or an unknown type. */
  lemma MarkerCases(s: Bytes, c: nat)
    requires c <= |s|
    ensures c == |s| ==> Parse(s, c) == Err(EndOfInput)
    ensures c < |s| && (s[c] == CR || s[c] == LF) ==> Parse(s, c) == Ok(Decoded(Empty, c + 1))
    ensures c < |s| && s[c] !in {PLUS, MINUS, COLON, DOLLAR, STAR, CR, LF} ==>
              Parse(s, c) == Err(Malformed)
  {
  }

  /** The '+' and '-' markers select the line branch. */
  lemma LineBranch(s: Bytes, c: nat)
    requires c < |s| && (s[c] == PLUS || s[c] == MINUS)
    ensures Parse(s, c) == ParseLineValue(s, c + 1, s[c] == PLUS)
  {
  }

  /**
   * '+' and '-' keep the whole line, its "\r\n" included, and stop right after
   * the line feed.
   */
  lemma LineValue(s: Bytes, c: nat, j: nat)
    requires c < |s| && (s[c] == PLUS || s[c] == MINUS) && LineEndsAt(s, c + 1, j)
    ensures Parse(s, c) ==
              if s[c] == PLUS then Ok(Decoded(SimpleString(s[c + 1..j + 1]), j + 1))
              else Ok(Decoded(ErrorString(s[c + 1..j + 1]), j + 1))
  {
    LineBranch(s, c);
    ReadLineAt(s, c + 1, j);
  }

  /** '+' or '-' with no line feed left: the decode ends with end of input. */
  lemma LineWithoutEnd(s: Bytes, c: nat)
    requires c < |s| && (s[c] == PLUS || s[c] == MINUS)
    requires forall i :: c + 1 <= i < |s| ==> s[i] != LF
    ensures Parse(s, c) == Err(EndOfInput)
  {
    LineBranch(s, c);
    NoNewline(s, c + 1);
  }

  /**
   * ':' parses its line minus the last two bytes; text that is not a numeral,
   * or a numeral outside the int64 range, fails.
   */
  lemma IntegerLine(s: Bytes, c: nat, j: nat)
    requires c < |s| && s[c] == COLON && LineEndsAt(s, c + 1, j) && j >= c + 2
    ensures var text := s[c + 1..j - 1];
            && (!(IsDecimalText(text) && MIN_INT64 <= DecimalValue(text) <= MAX_INT64) ==>
                  Parse(s, c) == Err(Malformed))
            && (IsDecimalText(text) && MIN_INT64 <= DecimalValue(text) <= MAX_INT64 ==>
                  Parse(s, c) == Ok(Decoded(Integer(DecimalValue(text)), j + 1)))
  {
    IntegerBranch(s, c);
    IntegerLineText(s, c, j);
    ParseDecimalMeaning(s[c + 1..j - 1]);
  }

  /** After ':' comes the integer branch. */
  lemma IntegerBranch(s: Bytes, c: nat)
    requires c < |s| && s[c] == COLON
    ensures Parse(s, c) == ParseInteger(s, c + 1)
  {
  }

  /** The integer branch on a line ending at j: Atoi of the text before its last two bytes. */
  lemma IntegerLineText(s: Bytes, c: nat, j: nat)
    requires c < |s| && LineEndsAt(s, c + 1, j) && j >= c + 2
    ensures var n := ParseDecimal(s[c + 1..j - 1]);
            ParseInteger(s, c + 1) == if !n.ok then Err(Malformed) else Ok(Decoded(Integer(n.value), j + 1))
  {
    ReadLineAt(s, c + 1, j);
    assert Trimmed(s[c + 1..j + 1]) == s[c + 1..j - 1];
  }

  /**
   * '$': with a length line announcing L and at least L further bytes, the bulk
   * string is exactly those L bytes, whatever they contain (CR and LF
   * included), and the cursor stops right after them: the "\r\n" that follows
   * is not consumed.
   */
  lemma BulkStringExact(s: Bytes, c: nat, j: nat, len: nat)
    requires c < |s| && s[c] == DOLLAR && LineEndsAt(s, c + 1, j) && j >= c + 2
    requires ParseDecimal(s[c + 1..j - 1]) == ParsedInt(len, true)
    requires j + 1 + len <= |s|
    ensures Parse(s, c) == Ok(Decoded(BulkString(s[j + 1..j + 1 + len]), j + 1 + len))
  {
    LengthLineOk(s, c, j, len);
    BulkAfterLength(s, c, j + 1, s[j + 1..j + 1 + len]);
  }

  /**
   * '$' with fewer than L bytes left: the one Read gets what is left, the rest of
   * the buffer stays zero, and no error is reported.
   */
  lemma BulkStringShort(s: Bytes, c: nat, j: nat, len: nat)
    requires c < |s| && s[c] == DOLLAR && LineEndsAt(s, c + 1, j) && j >= c + 2
    requires ParseDecimal(s[c + 1..j - 1]) == ParsedInt(len, true)
    requires j + 1 + len > |s|
    ensures Parse(s, c) == Ok(Decoded(BulkString(s[j + 1..] + Zeros(j + 1 + len - |s|)), |s|))
  {
    LengthLineOk(s, c, j, len);
    BulkBranch(s, c);
    ShortBulkPayload(s, c + 1, j + 1, len);
  }

  /** At c: '$', a length line ending at j that announces |b|, then the bytes b. */
  predicate BulkLayout(s: Bytes, c: nat, j: nat, b: Bytes)
  {
    && c < |s| && s[c] == DOLLAR && LineEndsAt(s, c + 1, j) && j >= c + 2
    && ParseDecimal(s[c + 1..j - 1]) == ParsedInt(|b|, true)
    && j + 1 + |b| <= |s| && s[j + 1..j + 1 + |b|] == b
  }

  /** The layout of a bulk string decodes to its bytes, stopping right after them. */
  lemma BulkLayoutParses(s: Bytes, c: nat, j: nat, b: Bytes)
    requires BulkLayout(s, c, j, b)
    ensures Parse(s, c) == Ok(Decoded(BulkString(b), j + 1 + |b|))
  {
    LengthLineOk(s, c, j, |b|);
    BulkAfterLength(s, c, j + 1, b);
  }

  /** The length line of '$' or '*' ending at j. */
  lemma LengthLineAt(s: Bytes, c: nat, j: nat)
    requires c < |s| && LineEndsAt(s, c + 1, j) && j >= c + 2
    ensures ParseLength(s, c + 1) ==
            var n := ParseDecimal(s[c + 1..j - 1]);
            if !n.ok then Err(Malformed)
            else if n.value < 0 then Err(DecodePanic)
            else Ok(Length(n.value, j + 1))
  {
    ReadLineAt(s, c + 1, j);
    assert Trimmed(s[c + 1..j + 1]) == s[c + 1..j - 1];
  }

  /** A length line announcing len. */
  lemma LengthLineOk(s: Bytes, c: nat, j: nat, len: nat)
    requires c < |s| && LineEndsAt(s, c + 1, j) && j >= c + 2
    requires ParseDecimal(s[c + 1..j - 1]) == ParsedInt(len, true)
    ensures ParseLength(s, c + 1) == Ok(Length(len, j + 1))
  {
    LengthLineAt(s, c, j);
  }

  /**
   * A length line that is not a numeral, or a numeral outside the int64 range,
   * fails '$' and '*'; a negative length panics.
   */
  lemma LengthLineErrors(s: Bytes, c: nat, j: nat)
    requires c < |s| && (s[c] == DOLLAR || s[c] == STAR) && LineEndsAt(s, c + 1, j) && j >= c + 2
    ensures var text := s[c + 1..j - 1];
            !(IsDecimalText(text) && MIN_INT64 <= DecimalValue(text) <= MAX_INT64) ==>
              Parse(s, c) == Err(Malformed)
    ensures ParseDecimal(s[c + 1..j - 1]).ok && ParseDecimal(s[c + 1..j - 1]).value < 0 ==>
              Parse(s, c) == Err(DecodePanic)
  {
    LengthLineAt(s, c, j);
    ParseDecimalMeaning(s[c + 1..j - 1]);
    if ParseLength(s, c + 1).Err? {
      LengthErrorBranch(s, c);
    }
  }

  /** A line of fewer than two bytes after ':', '$' or '*' is sliced out of range. */
  lemma ShortLinePanics(s: Bytes, c: nat)
    requires c < |s| && (s[c] == COLON || s[c] == DOLLAR || s[c] == STAR)
    requires |ReadLine(s, c + 1).bytes| < 2
    ensures Parse(s, c) == Err(DecodePanic)
  {
  }

  /** '*' announcing N yields, when it succeeds, an array of exactly N elements. */
  lemma ArrayHasAnnouncedLength(s: Bytes, c: nat)
    requires c < |s| && s[c] == STAR && Parse(s, c).Ok?
    ensures ParseLength(s, c + 1).Ok?
    ensures Parse(s, c).value.value.Array?
    ensures |Parse(s, c).value.value.elements| == ParseLength(s, c + 1).value.n
  {
  }

  /**
   * Element k decodes in order: it starts at starts[k], decodes to vs[k] and
   * ends at ends[k], and the line skipped after it ends at starts[k + 1].
   */
  predicate ElementAt(s: Bytes, starts: seq<nat>, ends: seq<nat>, vs: seq<RedisData>, k: nat)
    requires |starts| == |vs| + 1 && |ends| == |vs| && k < |vs| && starts[k] <= |s|
  {
    Parse(s, starts[k]) == Ok(Decoded(vs[k], ends[k])) && starts[k + 1] == ReadLine(s, ends[k]).next
  }

  /** The elements vs decode in order, one after another, each as ElementAt says. */
  predicate ElementsAt(s: Bytes, starts: seq<nat>, ends: seq<nat>, vs: seq<RedisData>)
  {
    && |starts| == |vs| + 1 && |ends| == |vs|
    && (forall k :: 0 <= k < |starts| ==> starts[k] <= |s|)
    && (forall k :: 0 <= k < |vs| ==> ElementAt(s, starts, ends, vs, k))
  }

  /** One turn of the loop over such elements, with n >= |vs| elements announced in all. */
  lemma ElementsAtStep(s: Bytes, starts: seq<nat>, ends: seq<nat>, vs: seq<RedisData>, k: nat, n: nat)
    requires ElementsAt(s, starts, ends, vs) && k < |vs| <= n
    ensures ParseElements(s, starts[k], n - k, vs[..k]) ==
            ParseElements(s, starts[k + 1], n - (k + 1), vs[..k + 1])
  {
    assert ElementAt(s, starts, ends, vs, k);
    assert vs[..k] + [vs[k]] == vs[..k + 1];
    ParseElementsStep(s, starts[k], n - k, vs[..k], vs[k], ends[k]);
  }

  /**
   * Over elements that decode in order, the loop from element k, with n - k of
   * the n announced still to go, reaches element |vs| with all of vs collected.
   */
  lemma {:induction false} ElementsSkip(s: Bytes, starts: seq<nat>, ends: seq<nat>, vs: seq<RedisData>, k: nat, n: nat)
    requires ElementsAt(s, starts, ends, vs) && k <= |vs| <= n
    ensures ParseElements(s, starts[k], n - k, vs[..k]) == ParseElements(s, starts[|vs|], n - |vs|, vs)
    decreases |vs| - k
  {
    if k < |vs| {
      ElementsSkip(s, starts, ends, vs, k + 1, n);
      ElementsAtStep(s, starts, ends, vs, k, n);
    } else {
      assert vs[..k] == vs;
    }
  }

  /**
   * The array loop over elements that each decode, one line skipped after each,
   * collects exactly those elements in order and stops after the last skipped line.
   */
  lemma ParseElementsInOrder(s: Bytes, starts: seq<nat>, ends: seq<nat>, vs: seq<RedisData>)
    requires ElementsAt(s, starts, ends, vs)
    ensures ParseElements(s, starts[0], |vs|, []) == Ok(Elements(vs, starts[|vs|]))
  {
    assert vs[..0] == [];
    ElementsSkip(s, starts, ends, vs, 0, |vs|);
  }

  /** '*' with a length line announcing N, followed by N elements that decode: the array of them. */
  lemma ArrayOfElements(s: Bytes, c: nat, starts: seq<nat>, ends: seq<nat>, vs: seq<RedisData>)
    requires ElementsAt(s, starts, ends, vs)
    requires c < |s| && s[c] == STAR && ParseLength(s, c + 1) == Ok(Length(|vs|, starts[0]))
    ensures Parse(s, c) == Ok(Decoded(Array(vs), starts[|vs|]))
  {
    ParseElementsInOrder(s, starts, ends, vs);
    ArrayBranch(s, c);
    ArrayAfterLength(s, c + 1, |vs|, starts[0], Elements(vs, starts[|vs|]));
  }

  /**
   * The array loop over n elements, of which only the first |vs| decode: it ends
   * with the error of element |vs|, whatever comes after it.
   */
  lemma ElementsFailInOrder(s: Bytes, starts: seq<nat>, ends: seq<nat>, vs: seq<RedisData>, n: nat, e: DecodeError)
    requires ElementsAt(s, starts, ends, vs) && |vs| < n
    requires Parse(s, starts[|vs|]) == Err(e)
    ensures ParseElements(s, starts[0], n, []) == Err(e)
  {
    assert vs[..0] == [];
    ElementsSkip(s, starts, ends, vs, 0, n);
    ParseElementsFail(s, starts[|vs|], n - |vs|, vs, e);
  }

  /** After a length line, a failing array loop is the array branch's error. */
  lemma ArrayAfterLengthErr(s: Bytes, p: nat, n: nat, q: nat, e: DecodeError)
    requires p <= |s| && ParseLength(s, p) == Ok(Length(n, q))
    requires ParseElements(s, q, n, []) == Err(e)
    ensures ParseArray(s, p) == Err(e)
  {
  }

  /** '*' and a length line announcing n, then a failing array loop: the value's error. */
  lemma ArrayFromLengthErr(s: Bytes, c: nat, n: nat, q: nat, e: DecodeError)
    requires c < |s| && s[c] == STAR && ParseLength(s, c + 1) == Ok(Length(n, q))
    requires ParseElements(s, q, n, []) == Err(e)
    ensures Parse(s, c) == Err(e)
  {
    ArrayBranch(s, c);
    ArrayAfterLengthErr(s, c + 1, n, q, e);
  }

  /**
   * An error in any element aborts the whole array: after '*' and a length line
   * announcing n, when the elements before index |vs| < n decode and element
   * |vs| fails with e, the array decodes to that same error e.
   */
  lemma ArrayElementFails(s: Bytes, c: nat, starts: seq<nat>, ends: seq<nat>, vs: seq<RedisData>,
                          n: nat, e: DecodeError)
    requires ElementsAt(s, starts, ends, vs) && |vs| < n
    requires c < |s| && s[c] == STAR && ParseLength(s, c + 1) == Ok(Length(n, starts[0]))
    requires Parse(s, starts[|vs|]) == Err(e)
    ensures Parse(s, c) == Err(e)
  {
    ElementsFailInOrder(s, starts, ends, vs, n, e);
    ArrayFromLengthErr(s, c, n, starts[0], e);
  }
}
