/**
 * One request from decoded value to reply, as handleRequest chains them:
 * parseRedisCommand, then command.run against the store.
 */
module Requests {
  import opened Wire
  import opened Decimal
  import opened Resp
  import opened Commands
  import opened Replies
  import opened Database

  /** What a client such as redis-cli sends for a command line: an array of bulk strings. */
  function Request(words: seq<Bytes>): (raw: RedisData)
    ensures raw.Array? && |raw.elements| == |words|
    ensures forall i :: 0 <= i < |words| ==> raw.elements[i] == BulkString(words[i])
  {
    Array(seq(|words|, i requires 0 <= i < |words| => BulkString(words[i])))
  }

  /**
   * Resolve the decoded value to a command and run it. Only SET and GET, in
   * any letter case, can change the store; an absent or empty array is PING.
   */
  function Handle(db: Db, raw: RedisData, now: int): (o: Outcome)
    ensures |raw.ArrayField()| == 0 ==> o == Outcome(Wrote(PONG), db)
    ensures o.db != db ==>
              |raw.ArrayField()| > 0 && (EqualFold(VerbOf(raw), SET_VERB) || EqualFold(VerbOf(raw), GET_VERB))
  {
    Dispatch(db, ParseCommand(raw), now)
  }

  /**
   * ECHO in any letter case writes its first argument back as a bulk string,
   * which the decoder reads back as that argument; later arguments are ignored
   * and the store is untouched.
   */
  lemma EchoRequest(db: Db, verb: Bytes, msg: Bytes, rest: seq<Bytes>, now: int)
    requires EqualFold(verb, ECHO_VERB) && |msg| <= MAX_INT64
    ensures var o := Handle(db, Request([verb, msg] + rest), now);
            && o.db == db
            && o.reply == Wrote(Serialize(Some(msg)))
            && Parse(o.reply.bytes, 0) == Ok(Decoded(BulkString(msg), |o.reply.bytes| - 2))
  {
    var raw := Request([verb, msg] + rest);
    assert VerbOf(raw) == verb;
    assert ParseCommand(raw).args[0] == raw.elements[1];
    SerializeRoundTrip(msg, []);
    assert Serialize(Some(msg)) + [] == Serialize(Some(msg));
  }

  /** ECHO with nothing after it indexes past the arguments. */
  lemma BareEchoPanics(db: Db, verb: Bytes, now: int)
    requires EqualFold(verb, ECHO_VERB)
    ensures Handle(db, Request([verb]), now) == Outcome(Panicked, db)
  {
    var raw := Request([verb]);
    assert VerbOf(raw) == verb;
    assert raw.elements[1..] == [];
  }

  /**
   * The reply is +PONG and the store is untouched for an empty array, for
   * anything that is not an array, for PING in any letter case with any
   * arguments, and for a verb the server does not know.
   */
  lemma PongRequest(db: Db, raw: RedisData, now: int)
    requires || |raw.ArrayField()| == 0
             || EqualFold(VerbOf(raw), PING_VERB)
             || !IsKnownVerb(VerbOf(raw))
    ensures Handle(db, raw, now) == Outcome(Wrote(PONG), db)
  {
    if |raw.ArrayField()| > 0 && EqualFold(VerbOf(raw), PING_VERB) {
      VerbsAreUpperWords();
      ToUpperMatches(VerbOf(raw), PING_VERB);
      ToUpperMatches(VerbOf(raw), ECHO_VERB);
      ToUpperMatches(VerbOf(raw), SET_VERB);
      ToUpperMatches(VerbOf(raw), GET_VERB);
    }
  }

  /**
   * A SET without a time to live followed by a GET of the same key, verbs in
   * any letter case: SET replies +OK and GET, at any time, replies the value
   * as a bulk string.
   */
  lemma SetThenGetRequests(db: Db, setVerb: Bytes, getVerb: Bytes, key: Bytes, value: Bytes, now: int, later: int)
    requires EqualFold(setVerb, SET_VERB) && EqualFold(getVerb, GET_VERB)
    ensures var first := Handle(db, Request([setVerb, key, value]), now);
            && first.reply == Wrote(OK)
            && Handle(first.db, Request([getVerb, key]), later) == Outcome(Wrote(Serialize(Some(value))), first.db)
  {
    var setRaw := Request([setVerb, key, value]);
    var getRaw := Request([getVerb, key]);
    assert VerbOf(setRaw) == setVerb;
    assert VerbOf(getRaw) == getVerb;
    var setArgs := ParseCommand(setRaw).args;
    var getArgs := ParseCommand(getRaw).args;
    assert setArgs[0] == BulkString(key) && setArgs[1] == BulkString(value);
    assert getArgs[0] == BulkString(key);
    var stored := SetOutcome(db, setArgs, now).db;
    assert stored[key] == NewEntry(setArgs, now);
  }
}
