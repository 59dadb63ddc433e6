/**
 * The key-value store behind SET and GET: the package-level DATABASE map of
 * entries, with expiry checked lazily on GET, and the dispatch of a resolved
 * command to its handler. The clock is a parameter `now`, in milliseconds.
 */
module Database {
  import opened Wire
  import opened Decimal
  import opened Resp
  import opened Commands
  import opened Replies

  const NANOS_PER_MS: int := 1_000_000
  const TWO_TO_64: int := 0x1_0000_0000_0000_0000

  /** Go int64 arithmetic: the mathematical result reduced into the int64 range. */
  function Wrap64(x: int): (r: int)
    ensures MIN_INT64 <= r <= MAX_INT64
    ensures (x - r) % TWO_TO_64 == 0
    ensures MIN_INT64 <= x <= MAX_INT64 ==> r == x
  {
    var r := (x - MIN_INT64) % TWO_TO_64 + MIN_INT64;
    assert x - r == ((x - MIN_INT64) / TWO_TO_64) * TWO_TO_64;
    r
  }

  /** `time.Millisecond * time.Duration(ms)`: a duration in nanoseconds, an int64 that wraps. */
  function TtlNanos(ms: int): (d: int)
    ensures MIN_INT64 <= d <= MAX_INT64
    ensures (ms * NANOS_PER_MS - d) % TWO_TO_64 == 0
    ensures MIN_INT64 <= ms * NANOS_PER_MS <= MAX_INT64 ==> d == ms * NANOS_PER_MS
  {
    Wrap64(ms * NANOS_PER_MS)
  }

  /** An instant of the millisecond clock, on the nanosecond scale of time.Time. */
  function Instant(now: int): int
  {
    now * NANOS_PER_MS
  }

  /**
   * entry: the stored slice (None is a nil slice) and, when hasExpiry holds,
   * the expiry instant in nanoseconds.
   */
  datatype Entry = Entry(data: Option<Bytes>, expiry: Option<int>)

  /** DATABASE, keyed by `string(key)`. */
  type Db = map<Bytes, Entry>

  /** What a map lookup of a missing key gives: the zero entry. */
  const ZERO_ENTRY: Entry := Entry(None, None)

  /**
   * The entry set stores: the second argument's bulk string, and an expiry
   * exactly when there are four arguments, the fourth giving the time to live
   * in milliseconds as strconv.Atoi reads it (its error is ignored). The third
   * argument is never looked at.
   */
  function NewEntry(args: seq<RedisData>, now: int): (e: Entry)
    requires |args| >= 2
    ensures e.data == args[1].BulkField()
    ensures e.expiry.Some? <==> |args| == 4
    ensures |args| == 4 ==>
              var ms := ParseDecimal(args[3].BulkText()).value;
              e.expiry.value == Instant(now) + TtlNanos(ms)
  {
    var hasExpiry := |args| == 4;
    if hasExpiry then
      var ms := ParseDecimal(args[3].BulkText()).value;
      Entry(args[1].BulkField(), Some(now * NANOS_PER_MS + Wrap64(ms * NANOS_PER_MS)))
    else Entry(args[1].BulkField(), None)
  }

  /** `entry.hasExpiry && entry.expiryTime.Before(now)`: strictly past its deadline. */
  predicate Expired(e: Entry, now: int)
  {
    e.expiry.Some? && e.expiry.value < Instant(now)
  }

  /** The reply a handler writes and the store it leaves. */
  datatype Outcome = Outcome(reply: Reply, db: Db)

  /**
   * set: fewer than two arguments is an index panic and changes nothing;
   * otherwise the key's entry is replaced outright, every other key keeps its
   * entry, and the reply is +OK.
   */
  function SetOutcome(db: Db, args: seq<RedisData>, now: int): (o: Outcome)
    ensures |args| < 2 <==> o.reply == Panicked
    ensures |args| < 2 ==> o.db == db
    ensures |args| >= 2 ==>
              var key := args[0].BulkText();
              && o.reply == Wrote(OK)
              && o.db.Keys == db.Keys + {key}
              && o.db[key] == NewEntry(args, now)
              && (forall k :: k in db && k != key ==> o.db[k] == db[k])
  {
    if |args| < 2 then Outcome(Panicked, db)
    else Outcome(Wrote(OK), db[args[0].BulkText() := NewEntry(args, now)])
  }

  /**
   * get: no argument is an index panic. A missing key reads as the zero entry
   * and replies NULL; an entry past its expiry replies NULL and is deleted,
   * and no other key is touched; any other entry replies its data serialized
   * (NULL again for a nil slice) and the store is unchanged.
   */
  function GetOutcome(db: Db, args: seq<RedisData>, now: int): (o: Outcome)
    ensures |args| == 0 ==> o == Outcome(Panicked, db)
    ensures |args| > 0 ==>
              var key := args[0].BulkText();
              && (key !in db ==> o == Outcome(Wrote(NULL_BULK), db))
              && (key in db && Expired(db[key], now) ==>
                    && o.reply == Wrote(NULL_BULK)
                    && o.db.Keys == db.Keys - {key}
                    && (forall k :: k in o.db ==> o.db[k] == db[k]))
              && (key in db && !Expired(db[key], now) ==>
                    o == Outcome(Wrote(Serialize(db[key].data)), db))
  {
    if |args| == 0 then Outcome(Panicked, db)
    else
      var key := args[0].BulkText();
      var entry := if key in db then db[key] else ZERO_ENTRY;
      if entry.expiry.Some? && entry.expiry.value < now * NANOS_PER_MS then
        Outcome(Wrote(Serialize(None)), map k | k in db && k != key :: db[k])
      else Outcome(Wrote(Serialize(entry.data)), db)
  }

  /**
   * command.run: each id goes to its handler; PING and ECHO leave the store
   * as it is.
   */
  function Dispatch(db: Db, cmd: Command, now: int): (o: Outcome)
    ensures cmd.id == Ping ==> o == Outcome(Wrote(PONG), db)
    ensures cmd.id == Echo ==> o.db == db && (o.reply == Panicked <==> |cmd.args| == 0)
    ensures cmd.id == Echo && |cmd.args| > 0 ==>
              o.reply == Wrote(Serialize(cmd.args[0].BulkField()))
    ensures cmd.id == Set ==> o == SetOutcome(db, cmd.args, now)
    ensures cmd.id == Get ==> o == GetOutcome(db, cmd.args, now)
  {
    match cmd.id
    case Ping => Outcome(PingReply(cmd.args), db)
    case Echo => Outcome(EchoReply(cmd.args), db)
    case Set => SetOutcome(db, cmd.args, now)
    case Get => GetOutcome(db, cmd.args, now)
  }

  /** The DATABASE map, updated in place by set and get. */
  class Store {
    var db: Db

    /** `DATABASE = make(map[string]entry)`. */
    constructor()
      ensures db == map[]
    {
      db := map[];
    }

    /** set: `DATABASE[string(key)] = entry`, then +OK. */
    method Set(args: seq<RedisData>, now: int) returns (reply: Reply)
      modifies this
      ensures Outcome(reply, db) == SetOutcome(old(db), args, now)
    {
      if |args| < 2 {
        return Panicked;
      }
      var key := args[0].BulkText();
      var value := args[1].BulkField();
      var hasExpiry := |args| == 4;
      var entry := Entry(value, None);
      if hasExpiry {
        var parsed := ParseDecimal(args[3].BulkText());
        entry := entry.(expiry := Some(now * NANOS_PER_MS + Wrap64(parsed.value * NANOS_PER_MS)));
      }
      db := db[key := entry];
      reply := Wrote(OK);
    }

    /** get: look the key up, delete it when it has expired, write the value serialized. */
    method Get(args: seq<RedisData>, now: int) returns (reply: Reply)
      modifies this
      ensures Outcome(reply, db) == GetOutcome(old(db), args, now)
    {
      if |args| == 0 {
        return Panicked;
      }
      var key := args[0].BulkText();
      var entry := if key in db then db[key] else ZERO_ENTRY;
      var value := entry.data;
      if entry.expiry.Some? {
        if entry.expiry.value < now * NANOS_PER_MS {
          value := None;
          db := db - {key};
        }
      }
      reply := Wrote(Serialize(value));
    }

    /** command.run: the handler the command's id selects. */
    method Run(cmd: Command, now: int) returns (reply: Reply)
      modifies this
      ensures Outcome(reply, db) == Dispatch(old(db), cmd, now)
    {
      if cmd.id.Echo? {
        reply := EchoReply(cmd.args);
      }
      if cmd.id.Ping? {
        reply := PingReply(cmd.args);
      }
      if cmd.id.Set? {
        reply := Set(cmd.args, now);
      }
      if cmd.id.Get? {
        reply := Get(cmd.args, now);
      }
    }
  }
}
