/** parseRedisCommand: from a decoded value to a command and its arguments. */
module Commands {
  import opened Wire
  import opened Resp

  /** COMMAND_ID; PING is its zero value. */
  datatype CommandId = Ping | Echo | Set | Get

  /** The command struct: an id and the array elements after the verb. */
  datatype Command = Command(id: CommandId, args: seq<RedisData>)

  const PING_VERB: Bytes := [80, 73, 78, 71]  // "PING"
  const ECHO_VERB: Bytes := [69, 67, 72, 79]  // "ECHO"
  const SET_VERB: Bytes := [83, 69, 84]       // "SET"
  const GET_VERB: Bytes := [71, 69, 84]       // "GET"

  /** bytes.ToUpper on one ASCII byte. */
  function UpperByte(b: byte): byte
  {
    if 97 <= b <= 122 then b - 32 else b
  }

  /** bytes.ToUpper, for ASCII text: a to z become A to Z, every other byte stays. */
  function ToUpper(v: Bytes): (u: Bytes)
    ensures |u| == |v|
    ensures forall i :: 0 <= i < |v| ==> !(97 <= u[i] <= 122)
    ensures forall i :: 0 <= i < |v| ==>
              if 97 <= v[i] <= 122 then u[i] as int == v[i] as int - 32 else u[i] == v[i]
  {
    seq(|v|, i requires 0 <= i < |v| => UpperByte(v[i]))
  }

  /** w consists of upper-case ASCII letters only. */
  predicate IsUpperWord(w: Bytes)
  {
    forall i :: 0 <= i < |w| ==> 65 <= w[i] <= 90
  }

  /** v spells the upper-case word w with each letter in either case. */
  predicate EqualFold(v: Bytes, w: Bytes)
  {
    |v| == |w| && forall i :: 0 <= i < |v| ==> v[i] == w[i] || v[i] as int == w[i] as int + 32
  }

  /** Upper-casing gives an upper-case word exactly when the text spells it in any case. */
  lemma ToUpperMatches(v: Bytes, w: Bytes)
    requires IsUpperWord(w)
    ensures ToUpper(v) == w <==> EqualFold(v, w)
  {
    if EqualFold(v, w) {
      assert forall i :: 0 <= i < |v| ==> ToUpper(v)[i] == w[i];
    }
    if ToUpper(v) == w {
      forall i | 0 <= i < |v| ensures v[i] == w[i] || v[i] as int == w[i] as int + 32 {
        assert UpperByte(v[i]) == w[i];
      }
    }
  }

  lemma VerbsAreUpperWords()
    ensures IsUpperWord(PING_VERB) && IsUpperWord(ECHO_VERB)
    ensures IsUpperWord(SET_VERB) && IsUpperWord(GET_VERB)
    ensures SET_VERB != GET_VERB
  {
  }

  /** `string(rawRedisData.array[0].bulkString)`: the verb's bytes, empty for a nil slice. */
  function VerbOf(raw: RedisData): Bytes
    requires |raw.ArrayField()| > 0
  {
    raw.ArrayField()[0].BulkText()
  }

  /** The verb is one of the four the server knows, in any letter case. */
  predicate IsKnownVerb(v: Bytes)
  {
    EqualFold(v, PING_VERB) || EqualFold(v, ECHO_VERB) || EqualFold(v, SET_VERB) || EqualFold(v, GET_VERB)
  }

  /**
   * parseRedisCommand. An absent or empty array is PING without arguments; the
   * verb picks the id case-insensitively and the arguments are the elements
   * after it; an unknown verb gives the zero command, which is PING without
   * arguments.
   */
  function ParseCommand(raw: RedisData): (cmd: Command)
    ensures |raw.ArrayField()| == 0 ==> cmd == Command(Ping, [])
    ensures cmd.id == Echo <==> |raw.ArrayField()| > 0 && EqualFold(VerbOf(raw), ECHO_VERB)
    ensures cmd.id == Set <==> |raw.ArrayField()| > 0 && EqualFold(VerbOf(raw), SET_VERB)
    ensures cmd.id == Get <==> |raw.ArrayField()| > 0 && EqualFold(VerbOf(raw), GET_VERB)
    ensures |raw.ArrayField()| > 0 && IsKnownVerb(VerbOf(raw)) ==> cmd.args == raw.ArrayField()[1..]
    ensures |raw.ArrayField()| > 0 && !IsKnownVerb(VerbOf(raw)) ==> cmd == Command(Ping, [])
  {
    var items := raw.ArrayField();
    if |items| < 1 then Command(Ping, [])
    else
      var verb := VerbOf(raw);
      var upper := ToUpper(verb);
      var args := items[1..];
      VerbsAreUpperWords();
      ToUpperMatches(verb, PING_VERB);
      ToUpperMatches(verb, ECHO_VERB);
      ToUpperMatches(verb, SET_VERB);
      ToUpperMatches(verb, GET_VERB);
      if upper == ECHO_VERB then Command(Echo, args)
      else if upper == SET_VERB then Command(Set, args)
      else if upper == GET_VERB then Command(Get, args)
      else if upper == PING_VERB then Command(Ping, args)
      else Command(Ping, [])
  }
}
