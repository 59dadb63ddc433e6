# A verified model of a small Redis-compatible server

This project models the core of a small in-memory key-value server (`app/server.go`). The server speaks a subset of RESP, the Redis serialization protocol. The model has three parts:

- **The decoder.** `parseRedisDatatype` turns bytes from a `bufio.Reader` into a `redisData` value: simple strings, error strings, integers, bulk strings and arrays, with arrays decoded recursively.
- **The resolver.** `parseRedisCommand` turns a decoded value into a command: `PING`, `ECHO`, `SET` or `GET`, plus its arguments.
- **Dispatch, the replies and the store.** `command.run`, `ping`, `echo`, `serialize`, `set` and `get` work over the package-level `DATABASE` map, with expiry checked lazily when a key is read.

The model takes the form of the code:

- The decoder is specified by pure functions over an immutable byte sequence and a cursor (`Resp.Parse` and its branches). The Go code that moves the reader's cursor step by step, including the `for` loop that fills `resultArray`, is written as imperative methods over a `Reader` class (`Resp.ParseDatatype`, `Resp.ReadLength`, `Resp.ReadElements`). Each method is proved to return what the function gives and to leave the cursor where the function says.
- `serialize`, the ping and echo replies and the resolver are pure functions.
- `set` and `get` mutate a map. They are written as methods of a `Store` class whose `db` field is that map, and are proved against the specification functions `SetOutcome` and `GetOutcome`.
- The clock is a parameter `now`, in milliseconds.

Go behaviour the model follows exactly:

- **`strconv.Atoi`** (`Decimal.ParseDecimal`). 64-bit range errors clamp the value to the bound on the sign's side, and a syntax error gives 0. ParseUint's loop order is kept: an overflow seen before a later bad byte is a range error.
- **The `:=` scoping in the `$` and `*` cases.** An end of input while reading the length line is dropped.
- **A short bulk payload.** `make` and one `Read` give a payload zero-padded to the announced length.
- **The `:` case** parses the number before it looks at end of input.
- **Go panics** are explicit results: `DecodePanic` in the decoder and `Panicked` in a reply. These are `make([]byte, -1)`, the `len(msg)-2` slice on a line shorter than two bytes, and `args[i]` out of range in `echo`, `set` and `get`.
- **`time.Millisecond * time.Duration(ms)`** wraps around as a 64-bit integer (`Database.Wrap64`).

Where the code and standard RESP and Redis behaviour differ, the model follows the code:

- A simple or error string keeps its terminating `\r\n`.
- An unknown verb resolves to the zero `command{}`, which is `PING` with no arguments; there is no separate "unknown" command.
- `GET` treats an entry as expired only when its expiry is strictly before the current time (`time.Time.Before`). An entry whose expiry is exactly now is still returned.
- `$-1` is not decoded as a NULL bulk string: it reaches `make([]byte, -1)` and panics. `*-1` does the same through `make([]redisData, -1)` (`Replies.NullBulkPanics`, `RespProperties.LengthLineErrors`).
- A decoded bulk string leaves its final `\r\n` unread. Only inside an array does the decoder skip that line, after each element.

## Model

| member | source | states |
|---|---|---|
| `Wire.Zeros` | app/server.go:164 | `make([]byte, n)`: a slice of length n whose every byte is zero |
| `Decimal.FormatDecimalDigits` | app/server.go:205 | `strconv.Itoa` of a length is a nonempty run of digits, with no leading zero, whose decimal value is that length |
| `Decimal.FormatDecimalRoundTrip` | app/server.go:205 | Atoi reads back every length that fits an int64, with no error: `Atoi(Itoa(n)) = (n, nil)` |
| `Decimal.ParseDecimalMeaning` | app/server.go:149 | Atoi succeeds iff the text is an optional sign and at least one digit with a value inside int64, and then returns that value; valid but out-of-range text gives the bound on its sign's side; any failure gives 0 or a bound |
| `Decimal.SyntaxErrorIsZero` | app/server.go:227 | text whose unsigned part is empty, or has a non-digit among its first 20 bytes, is a syntax error, and Atoi then returns 0 |
| `Decimal.ShortNonNumeralIsZero` | app/server.go:227 | every text that is not an optionally signed numeral and has at most 19 bytes after its sign is read by Atoi as 0 with an error |
| `Decimal.ScanMeetsNonDigit` | app/server.go:149 | ParseUint's digit loop that meets a non-digit before it can pass 2^64 - 1 ends in a syntax error, not a range error |
| `Decimal.ScanDigits` | app/server.go:149 | ParseUint's digit loop: a value it returns is at least the value it started from, and never exceeds 2^64 - 1 when the start does not |
| `Decimal.ScanDigitsAppend` | app/server.go:149 | ParseUint's digit loop over `p + q` is the loop over p, then over q from p's value; an error in p ends it |
| `Decimal.ScanDigitsOfNumeral` | app/server.go:149 | over a run of digits the loop gives the numeral's value, or a range error when the value exceeds 2^64 - 1 |
| `Decimal.ScanDigitsValueOnlyOnDigits` | app/server.go:149 | the loop returns a value only when every byte it saw is a digit |
| `Resp.NextNewline` | app/server.go:142 | the cursor it returns is at or after c, and when it is inside the stream it points at a `\n` |
| `Resp.ReadLine` | app/server.go:142 | `ReadBytes('\n')`: the bytes from the cursor up to the returned cursor, ending in `\n` unless the stream ran out, in which case they are the rest of the stream |
| `RespProperties.ReadLineFirstNewline` | app/server.go:142 | the line stops at the first `\n` after the cursor, and end of input is reported exactly when no `\n` remains |
| `Resp.ReadPayload` | app/server.go:164-165 | `make` then one `Read`: exactly n bytes; the next n bytes when they are there, otherwise the rest of the stream zero-padded, with the cursor at the end |
| `Resp.Parse` | app/server.go:129-198 | parseRedisDatatype: a success consumes at least the marker byte and stays inside the stream |
| `Resp.ParseLength` | app/server.go:156-176 | the length line of `$` and `*`; a success leaves the cursor inside the stream |
| `Resp.ParseBulk` | app/server.go:155-166 | the `$` branch; a success leaves the cursor inside the stream |
| `Resp.ParseArray` | app/server.go:167-187 | the `*` branch; a success leaves the cursor inside the stream |
| `Resp.ParseElements` | app/server.go:176-186 | the array loop; a success has exactly as many elements as announced, after those already collected |
| `Resp.Reader.constructor` | app/server.go:91 | a reader over the connection's bytes, at their start |
| `Resp.Reader.ReadByte` | app/server.go:130 | returns the byte at the cursor and advances by one; at the end of the stream it reports end of input and does not move |
| `Resp.Reader.ReadBytes` | app/server.go:142 | returns the line `ReadLine` gives and moves the cursor past it |
| `Resp.Reader.Read` | app/server.go:165 | returns the payload `ReadPayload` gives and moves the cursor past it |
| `Resp.ParseDatatype` | app/server.go:129-198 | the imperative decoder returns exactly the value or error of `Parse` and leaves the cursor where `Parse` says |
| `Resp.ReadLength` | app/server.go:156-174 | reads the length line; its result and the new cursor are those of `ParseLength` |
| `Resp.ReadElements` | app/server.go:176-187 | the `for` loop filling `resultArray`: its elements and final cursor are those of `ParseElements`, and so is its first error |
| `Resp.ReadElement` | app/server.go:178-185 | one turn of the loop: an element's error is the loop's error; otherwise the cursor advances and the rest of the loop, with that element appended, gives the same result as the whole |
| `RespProperties.NextNewlineAt` | app/server.go:142 | when the stream has no `\n` from c to just before j and a `\n` at j, the line ends at j |
| `RespProperties.NoNewline` | app/server.go:142 | with no `\n` after c, the search runs to the end of the stream |
| `RespProperties.ReadLineAt` | app/server.go:142 | a line ending at j reads as the bytes from c to j inclusive, without end of input, and the cursor moves to j + 1 |
| `RespProperties.MarkerCases` | app/server.go:130-193 | end of input on the marker byte is an end-of-input error; a lone `\r` or `\n` gives the empty value and no error; any other unknown marker is an error |
| `RespProperties.LineValue` | app/server.go:141-146 | the value of `+` or `-` is the whole line including its `\n`, and the cursor moves past that `\n` |
| `RespProperties.LineWithoutEnd` | app/server.go:141-146 | a `+` or `-` line that never ends is an end-of-input error |
| `RespProperties.IntegerLine` | app/server.go:147-154 | `:` holds the value of the line without its last two bytes when that text is a decimal inside int64; a text that is not a numeral, or is one outside int64, fails to decode |
| `RespProperties.IntegerLineText` | app/server.go:147-154 | the `:` branch in terms of Atoi's pair: an Atoi error is a decode error, otherwise the integer with the cursor after the line |
| `RespProperties.ShortLinePanics` | app/server.go:147-170 | a `:`, `$` or `*` line shorter than two bytes panics on the `len-2` slice |
| `RespProperties.LengthLineAt` | app/server.go:156-176 | the length line gives Atoi's value with the cursor after the line; Atoi's error is a decode error, and a negative length panics in `make` |
| `RespProperties.LengthLineOk` | app/server.go:156-164 | a length line that Atoi reads as len gives len, with the cursor after the line |
| `RespProperties.LengthLineErrors` | app/server.go:158-176 | for `$` and `*`, a length text that is not a numeral, or is one outside int64, fails the decode, and a negative length panics |
| `RespProperties.BulkPayload` | app/server.go:164-166 | after a length line for \|b\|, when the next \|b\| bytes are b, the bulk string is b and the cursor stops right after it |
| `RespProperties.BulkAfterLength` | app/server.go:155-166 | the same, from the `$` marker |
| `RespProperties.ShortBulkPayload` | app/server.go:164-165 | a payload cut short by the end of the stream is the rest of the stream, zero-padded, with the cursor at the end |
| `RespProperties.BulkStringExact` | app/server.go:155-166 | `$L\r\n` followed by at least L bytes decodes to exactly those L bytes, CR and LF included, and the trailing `\r\n` is not consumed |
| `RespProperties.BulkStringShort` | app/server.go:155-166 | `$L\r\n` with fewer than L bytes left decodes to the rest of the stream, zero-padded to L, with the cursor at the end |
| `RespProperties.BulkLayoutParses` | app/server.go:155-166 | a `$` marker, a length line for \|b\| and then b decode to b, with the cursor after b |
| `RespProperties.ArrayHasAnnouncedLength` | app/server.go:167-187 | a successful `*N` decode is an array of exactly N elements |
| `RespProperties.ParseElementsInOrder` | app/server.go:176-186 | when element k decodes at its start to v_k and the next element starts after the line that follows it, the loop from the first start collects exactly v_0 … v_(n-1) and stops after the last line |
| `RespProperties.ArrayOfElements` | app/server.go:167-187 | a `*` whose length line announces n, followed by n elements laid out that way, decodes to the array of exactly those elements |
| `RespProperties.ElementsFailInOrder` | app/server.go:176-181 | when the loop announces n elements and only the first k < n decode in order, it ends with the error of element k, whatever follows |
| `RespProperties.ArrayElementFails` | app/server.go:167-187 | an error in any element aborts the whole `*` value: after a length line announcing n, elements 0 … k-1 decoding in order and element k < n failing with e, the array decodes to that same error e |
| `Replies.PingReply` | app/server.go:214-216 | ping writes `+PONG\r\n`, whatever the arguments, and a client decodes the whole reply as a simple string |
| `Replies.EchoReply` | app/server.go:210-212 | echo panics exactly when there is no argument; a bulk-string argument is written so that the decoder reads it back; any other argument is written as NULL |
| `Replies.HeaderAt` | app/server.go:205 | a `<marker><Itoa(n)>\r\n` header is a marker and a line that ends at its own `\n` and that Atoi reads back as n |
| `Replies.SerializedAt` | app/server.go:200-208 | `serialize(B)` anywhere in a stream decodes to B through the `$` branch, stopping before the closing `\r\n`; the line the array loop skips next is exactly that `\r\n` |
| `Replies.SerializeRoundTrip` | app/server.go:200-208 | decoding `serialize(B)` followed by any bytes gives back B and leaves exactly the final `\r\n` unread |
| `Replies.NullBulkPanics` | app/server.go:155-166 | the server's own NULL reply `$-1\r\n` is not read as NULL by its decoder: `make([]byte, -1)` panics |
| `Replies.SerializeInjective` | app/server.go:200-208 | distinct slices (nil included) serialize to distinct bytes |
| `Commands.ToUpper` | app/server.go:105 | ASCII `bytes.ToUpper`: same length, no lower-case letter left, a to z become A to Z and every other byte stays |
| `Commands.ToUpperMatches` | app/server.go:105 | ASCII `bytes.ToUpper(v)` equals an upper-case verb exactly when v matches it ignoring letter case |
| `Commands.VerbsAreUpperWords` | app/server.go:106-113 | the four verbs are upper-case words, and SET and GET differ |
| `Commands.ParseCommand` | app/server.go:96-119 | an absent or empty array is PING with no arguments; the id is ECHO, SET or GET exactly when the verb equals that word ignoring letter case; a known verb takes all elements after it as its arguments; an unknown verb is PING with no arguments |
| `Database.Wrap64` | app/server.go:228 | int64 arithmetic: the result is in int64 range, congruent to the exact value modulo 2^64, and equal to it when the exact value fits |
| `Database.TtlNanos` | app/server.go:228 | `time.Millisecond * time.Duration(ms)` is an int64 congruent to ms·10^6 modulo 2^64, and exactly ms·10^6 when that fits |
| `Database.NewEntry` | app/server.go:219-232 | the entry holds the second argument's slice; it has an expiry exactly when there are four arguments; the expiry is now plus the wrapped nanosecond count of Atoi of the fourth argument |
| `Database.SetOutcome` | app/server.go:218-236 | with fewer than two arguments it panics and changes nothing; otherwise it replies `+OK`, adds the key, replaces its entry, and keeps every other key's entry |
| `Database.GetOutcome` | app/server.go:238-252 | no argument panics; a missing key replies NULL and changes nothing; an expired entry replies NULL and is the only key removed; any other entry replies its data serialized and changes nothing |
| `Database.Dispatch` | app/server.go:56-69 | PING replies `+PONG`; ECHO replies its first argument serialized, or panics without one; SET and GET are their handlers; PING and ECHO leave the store unchanged |
| `Database.Store.constructor` | app/server.go:23 | the store starts as the empty map |
| `Database.Store.Set` | app/server.go:218-236 | the reply and the new map are those of `SetOutcome` on the old map |
| `Database.Store.Get` | app/server.go:238-252 | the reply and the new map are those of `GetOutcome` on the old map |
| `Database.Store.Run` | app/server.go:56-69 | the reply and the new map are those of `Dispatch` on the old map |
| `StoreProperties.SetThenGet` | app/server.go:218-252 | after a SET without expiry, a GET of the same key at any time returns the stored value and changes nothing |
| `StoreProperties.ExpiryInstant` | app/server.go:226-228 | when the TTL fits a `time.Duration`, the expiry is exactly TTL milliseconds after the SET |
| `StoreProperties.ExpiryBoundary` | app/server.go:226-249 | with a TTL of ms, a GET up to and including now + ms returns the value; a later one replies NULL, leaves the store from before the SET without that key, and the next GET also replies NULL |
| `StoreProperties.LongTtlWrapsToPast` | app/server.go:228 | a TTL whose nanosecond count is between 2^63 and 2^64 wraps, so the expiry falls before the SET and a GET at the same instant already replies NULL |
| `StoreProperties.WrapOnce` | app/server.go:228 | between 2^63 and 2^64 the int64 wrap subtracts 2^64 exactly once |
| `StoreProperties.UnparsableTtlIsZero` | app/server.go:227 | a TTL whose unsigned part is empty or has a non-digit among its first 20 bytes (such as "", "abc", "50ms" or "1.5") counts as 0: the expiry is the instant of the SET, a GET at that instant still returns the value, and a GET one millisecond later replies NULL |
| `StoreProperties.OptionTokenIgnored` | app/server.go:221-227 | the third SET argument is never looked at |
| `StoreProperties.SetOverwrites` | app/server.go:233 | a second SET of a key replaces the first entirely |
| `StoreProperties.OtherKeysUnaffected` | app/server.go:233-248 | a SET or GET of one key does not change any GET reply for another key |
| `StoreProperties.GetTwice` | app/server.go:238-252 | a GET repeated at the same instant replies as the first and leaves the store as the first left it |
| `StoreProperties.ExpiredStaysExpired` | app/server.go:246 | an entry expired at some time stays expired at every later time |
| `Requests.Handle` | app/server.go:86 | one request: an absent or empty array replies `+PONG` and leaves the store as it is; only SET and GET, in any letter case, can change the store |
| `Requests.EchoRequest` | app/server.go:210-212 | ECHO in any letter case replies its first argument serialized, which the decoder reads back as that argument; later arguments are ignored and the store is unchanged |
| `Requests.BareEchoPanics` | app/server.go:211 | ECHO without an argument panics on `args[0]` and changes nothing |
| `Requests.PongRequest` | app/server.go:96-119 | an absent or empty array, PING in any case with any arguments, and an unknown verb all reply `+PONG` and leave the store unchanged |
| `Requests.SetThenGetRequests` | app/server.go:218-252 | `SET k v` then `GET k`, verbs in any letter case: SET replies `+OK` and the GET, at any later time, replies v as a bulk string |

## Left out

- The listen and accept loop, the goroutine per connection, and writes to `net.Conn` (app/server.go:22-40, 71-88). These are socket I/O. Replies are returned as byte sequences instead.
- Concurrent, unsynchronised access to `DATABASE` from many connections. The store is modelled for one thread.
- `parseConnection` makes a fresh `bufio.Reader` for every request (app/server.go:90-94), so bytes it read ahead can be lost. The model uses one continuous cursor over the connection's bytes.
- A `Read` that returns fewer bytes than are available. The model's `Read` delivers every announced byte that the stream holds.
- Resp.ParseBulk: `make([]byte, n)` with a length too large to allocate panics or runs out of memory in Go. The model allocates every non-negative length and zero-pads the payload.
- Resp.ParseArray: allocation failure of `make([]redisData, length)` for a huge length is not modelled either.
- Logging with `fmt.Println`.
- Decimal.ParseDecimal: Go's `int` is taken to be 64 bits, as on a 64-bit build. This sets the range of `strconv.Atoi`, of `len` and of `redisData.integer`; a 32-bit build would reject numerals outside int32.
- `time.Now()`: the clock is a parameter in milliseconds, and `time.Time` is an integer count of nanoseconds. Overflow of `time.Time.Add` itself is not modelled; the wrap-around of the duration product is.
- Resp.Parse: a failed decode returns only its error. Go also returns a partial value (for an array, the failing element's), but its only caller discards both when the error is not nil.
- Resp.Parse: the error kinds are end of input, other error and panic. The text of the error messages is not modelled.
- Commands.ParseCommand: `bytes.ToUpper` is modelled for ASCII letters only. Unicode case mappings of non-ASCII bytes are not modelled.
- Commands.ToUpper: only ASCII letters are mapped. Go's `bytes.ToUpper` decodes UTF-8 and applies `unicode.ToUpper`, so `ſ` (U+017F) becomes `S` and an invalid UTF-8 byte becomes U+FFFD; the model leaves every non-ASCII byte unchanged.
- Requests.Request: the concrete bytes of a whole request, `*N` followed by N serialized bulk strings, are not proved to decode into its array in one lemma. What is proved is each element in place (`Replies.SerializedAt`, which also covers the skipped `\r\n`) and an array of elements laid out one after another (`RespProperties.ArrayOfElements`). The end-to-end lemmas start from the decoded array.
- Database.Expired: expiry is compared at millisecond granularity, because the clock is a parameter in whole milliseconds. Go compares nanosecond instants, so within one millisecond Go can see an entry as expired that the model still returns.
