/** What SET followed by GET does, stated over the store's specification functions. */
module StoreProperties {
  import opened Wire
  import opened Decimal
  import opened Resp
  import opened Replies
  import opened Database

  /** A GET whose first argument names the same key as the SET's first argument. */
  predicate SameKey(setArgs: seq<RedisData>, getArgs: seq<RedisData>)
  {
    |setArgs| > 0 && |getArgs| > 0 && setArgs[0].BulkText() == getArgs[0].BulkText()
  }

  /** Without a time to live, GET returns what SET stored, at any later time, and changes nothing. */
  lemma SetThenGet(db: Db, args: seq<RedisData>, getArgs: seq<RedisData>, now: int, later: int)
    requires |args| >= 2 && |args| != 4 && SameKey(args, getArgs)
    ensures var stored := SetOutcome(db, args, now).db;
            GetOutcome(stored, getArgs, later) == Outcome(Wrote(Serialize(args[1].BulkField())), stored)
  {
  }

  /** A TTL small enough for time.Duration: the entry expires ttl milliseconds after the SET. */
  lemma ExpiryInstant(args: seq<RedisData>, now: int)
    requires |args| == 4
    requires var ms := ParseDecimal(args[3].BulkText()).value;
             MIN_INT64 <= ms * NANOS_PER_MS <= MAX_INT64
    ensures var ms := ParseDecimal(args[3].BulkText()).value;
            NewEntry(args, now).expiry == Some(Instant(now + ms))
  {
    var ms := ParseDecimal(args[3].BulkText()).value;
    assert Instant(now) + ms * NANOS_PER_MS == Instant(now + ms);
  }

  /**
   * With a TTL of ttl milliseconds, GET up to and including now + ttl still
   * returns the value; later GETs reply NULL, the first of them deleting the
   * key, and the store is then the one from before SET without that key.
   */
  lemma ExpiryBoundary(db: Db, args: seq<RedisData>, getArgs: seq<RedisData>, now: int, later: int)
    requires |args| == 4 && SameKey(args, getArgs)
    requires var ms := ParseDecimal(args[3].BulkText()).value;
             MIN_INT64 <= ms * NANOS_PER_MS <= MAX_INT64
    ensures var ms := ParseDecimal(args[3].BulkText()).value;
            var stored := SetOutcome(db, args, now).db;
            var got := GetOutcome(stored, getArgs, later);
            && (later <= now + ms ==> got == Outcome(Wrote(Serialize(args[1].BulkField())), stored))
            && (later > now + ms ==>
                  && got.reply == Wrote(NULL_BULK)
                  && got.db == db - {args[0].BulkText()}
                  && GetOutcome(got.db, getArgs, later) == Outcome(Wrote(NULL_BULK), got.db))
  {
    var ms := ParseDecimal(args[3].BulkText()).value;
    var key := args[0].BulkText();
    ExpiryInstant(args, now);
    var stored := SetOutcome(db, args, now).db;
    assert Expired(stored[key], later) <==> later > now + ms;
    if later > now + ms {
      var got := GetOutcome(stored, getArgs, later);
      assert got.db == db - {key};
    }
  }

  /**
   * time.Millisecond * time.Duration(ms) wraps around: a TTL whose nanosecond
   * count lies between 2^63 and 2^64 (from about 292 to about 584 years) gives
   * an expiry instant before the SET itself, so the very next GET deletes it.
   */
  lemma LongTtlWrapsToPast(db: Db, args: seq<RedisData>, getArgs: seq<RedisData>, now: int)
    requires |args| == 4 && SameKey(args, getArgs)
    requires var ms := ParseDecimal(args[3].BulkText()).value;
             MAX_INT64 < ms * NANOS_PER_MS < TWO_TO_64
    ensures var ms := ParseDecimal(args[3].BulkText()).value;
            NewEntry(args, now).expiry == Some(Instant(now) + ms * NANOS_PER_MS - TWO_TO_64)
    ensures GetOutcome(SetOutcome(db, args, now).db, getArgs, now).reply == Wrote(NULL_BULK)
  {
    var ms := ParseDecimal(args[3].BulkText()).value;
    var x := ms * NANOS_PER_MS;
    WrapOnce(x);
  }

  /** Between 2^63 and 2^64 the int64 wrap subtracts 2^64 exactly once. */
  lemma WrapOnce(x: int)
    requires MAX_INT64 < x < TWO_TO_64
    ensures Wrap64(x) == x - TWO_TO_64
  {
    var r := Wrap64(x);
    var q := (x - r) / TWO_TO_64;
    assert x - r == q * TWO_TO_64;
    assert 0 < x - r < 2 * TWO_TO_64;
  }

  /**
   * A TTL text that Atoi rejects with a syntax error ("", "abc", "50ms", "1.5":
   * its unsigned part is empty or has a non-digit at some index i below 20) is
   * read as 0: the entry expires at the very instant of the SET, so a GET at
   * that same instant still sees it and one a millisecond later does not.
   */
  lemma UnparsableTtlIsZero(db: Db, args: seq<RedisData>, getArgs: seq<RedisData>, now: int, i: nat)
    requires |args| == 4 && SameKey(args, getArgs)
    requires var u := Unsigned(args[3].BulkText()); |u| == 0 || (i < |u| && i <= 19 && !IsDigit(u[i]))
    ensures NewEntry(args, now).expiry == Some(Instant(now))
    ensures var stored := SetOutcome(db, args, now).db;
            && GetOutcome(stored, getArgs, now).reply == Wrote(Serialize(args[1].BulkField()))
            && GetOutcome(stored, getArgs, now + 1).reply == Wrote(NULL_BULK)
  {
    SyntaxErrorIsZero(args[3].BulkText(), i);
  }

  /** The third argument, the option token (PX, EX, anything), is never looked at. */
  lemma OptionTokenIgnored(db: Db, key: RedisData, value: RedisData, token: RedisData, other: RedisData,
                           ttl: RedisData, now: int)
    ensures SetOutcome(db, [key, value, token, ttl], now) == SetOutcome(db, [key, value, other, ttl], now)
  {
  }

  /** A second SET of the same key replaces the first entirely: nothing of it survives. */
  lemma SetOverwrites(db: Db, first: seq<RedisData>, second: seq<RedisData>, now1: int, now2: int)
    requires |first| >= 2 && |second| >= 2 && first[0].BulkText() == second[0].BulkText()
    ensures SetOutcome(SetOutcome(db, first, now1).db, second, now2) == SetOutcome(db, second, now2)
  {
    var key := first[0].BulkText();
    assert db[key := NewEntry(first, now1)][key := NewEntry(second, now2)] == db[key := NewEntry(second, now2)];
  }

  /** SET and GET of one key reply for another key exactly as before. */
  lemma OtherKeysUnaffected(db: Db, args: seq<RedisData>, getArgs: seq<RedisData>, now: int, later: int)
    requires |args| > 0 && |getArgs| > 0 && args[0].BulkText() != getArgs[0].BulkText()
    ensures GetOutcome(SetOutcome(db, args, now).db, getArgs, later).reply == GetOutcome(db, getArgs, later).reply
    ensures GetOutcome(GetOutcome(db, args, now).db, getArgs, later).reply == GetOutcome(db, getArgs, later).reply
  {
  }

  /** A GET repeated at the same instant replies the same and leaves the store as the first one left it. */
  lemma GetTwice(db: Db, args: seq<RedisData>, now: int)
    ensures var first := GetOutcome(db, args, now);
            GetOutcome(first.db, args, now) == first
  {
  }

  /** Expiry is monotone: an entry expired now is expired at every later time. */
  lemma ExpiredStaysExpired(e: Entry, now: int, later: int)
    requires Expired(e, now) && now <= later
    ensures Expired(e, later)
  {
  }
}
