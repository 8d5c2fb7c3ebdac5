# 0x0FF5E7DB server skeleton, modelled in Dafny

This project models the core of the 0x0FF5E7DB database server skeleton, a
Java program. It covers:

- **Binary utilities.** `Codec.Binary.BigEndian` writes and reads 16-, 32- and
  64-bit two's-complement integers in a caller's byte array.
  `Hash.ModifiedBernstein` hashes a byte array, in an `Int32` variant and an
  `Uint32` variant.
- **Configuration and contexts.** `Property` keys and defaults,
  `Configuration.get`, the `CtxBinding` ids, and the hierarchical
  `Context.Tree` that `Servant`, `Server` and `NetworkInterface` wrap around
  their parent's context. The root context of `Main.newServerContext` holds the
  configuration and reports faults to the main thread.
- **Components.** `NetworkInterface.initialize` opens the listening socket,
  three selectors and three handlers, and binds them in its context.
  `NetworkInterface.run` is a reactor that polls the write, read and accept
  selectors in that order, with the accept, request and response handlers.
  The request handler closes its channel, and the next `selectNow` of each
  selector drops the cancelled keys, so a closed channel is never dispatched
  again.
  `Server.run` and `Servant.run` run their start-up steps in order and report
  the first fault.
- **Start-up.** Both `Main` classes parse the command line, load the
  configuration, build the root context, start the server and wait for its
  fault.
- **Support code.** `Assert` checks arguments. `Log` normalises logger names,
  composes the "cause" text and sets levels by name.
  `Specification.Version` packs the version numbers.

The model follows the Java source's own form:

- Pure code is Dafny functions.
- Code that changes state step by step is methods. Examples are the codec
  writes, the hash loop, `isEquivalent`, the context's `bind`,
  `initialize`, the reactor pass, `run` and `parseArgs`.
- Objects whose fields change are classes: contexts, the network interface,
  the server, the servant and loggers.

Each method is proved against a specification function. The properties are
proved about that function. Java `byte`, `short`, `int` and `long` are
subset types of `int`, with explicit two's-complement wrapping. A `null`
reference is `None`. A call that may throw returns `Ok(value)` or
`Throws(throwable)`.

I/O is modelled by parameters:

- Socket and selector calls that can fail are flags in an `InitEnv`.
- Selector readiness is a `PassEnv` per pass of the reactor.
- Configuration files are a map from path to properties.
- The timing of the server thread's interrupt is a boolean, `early`.

Paths in the table below are relative to the repository root.

## Model

| member | source | states |
|---|---|---|
| Codec.Check | server/src/main/java/ove/x0ff5e7db/util/binary/Codec.java:72-75 | a null buffer throws NullPointerException("b"); for a non-negative off the check passes iff `off + width <= b.length`, the difference `b.length - off` being taken in 32-bit int arithmetic |
| Codec.Access | server/src/main/java/ove/x0ff5e7db/util/binary/Codec.java:72-83 | the whole operation succeeds iff b is non-null and `0 <= off && off + width <= b.length`; a negative off that passes the check then fails with ArrayIndexOutOfBoundsException |
| Codec.WriteLongAt | server/src/main/java/ove/x0ff5e7db/util/binary/Codec.java:71-85 | on success returns LONG_BYTES (8) and the array becomes the old contents with the 8 big-endian bytes of v spliced in at off, every other element unchanged; on failure the error of the checks and the array unchanged |
| Codec.WriteLong | server/src/main/java/ove/x0ff5e7db/util/binary/Codec.java:67-69 | the offset-0 form: succeeds iff b is non-null with at least 8 elements; the array becomes the 8 bytes of v followed by its old tail |
| Codec.ReadLongAt | server/src/main/java/ove/x0ff5e7db/util/binary/Codec.java:91-106 | as written: succeeds iff b is non-null, has 8 elements and passes the check for off; otherwise throws the check's error, else ArrayIndexOutOfBoundsException; the value decoded is that of `b[0..8)`, whatever off is |
| Codec.ReadLong | server/src/main/java/ove/x0ff5e7db/util/binary/Codec.java:87-89 | the offset-0 form: succeeds iff b is non-null with at least 8 elements and yields the signed value of `b[0..8)`; a null b throws NullPointerException "b" and a shorter b the check's IllegalArgumentException |
| Codec.IntendedReadLongAt | server/src/main/java/ove/x0ff5e7db/util/binary/Codec.java:91-106 | corrected read: succeeds under the same conditions as the other reads, else throws their error, and yields the signed value of `b[off..off+8)` |
| Codec.WriteIntAt | server/src/main/java/ove/x0ff5e7db/util/binary/Codec.java:113-122 | result is exactly the bounds outcome; on success the 4 big-endian bytes of v are spliced in at off and nothing else changes; on failure nothing changes |
| Codec.WriteInt | server/src/main/java/ove/x0ff5e7db/util/binary/Codec.java:109-111 | the offset-0 form of writeInt |
| Codec.ReadIntAt | server/src/main/java/ove/x0ff5e7db/util/binary/Codec.java:129-139 | succeeds iff the bounds hold, else throws their error; yields the signed value of `b[off..off+4)` |
| Codec.ReadInt | server/src/main/java/ove/x0ff5e7db/util/binary/Codec.java:125-127 | the offset-0 form: succeeds iff b is non-null with at least 4 elements and yields the signed value of `b[0..4)`; a null b throws NullPointerException "b" and a shorter b the check's IllegalArgumentException |
| Codec.WriteShortAt | server/src/main/java/ove/x0ff5e7db/util/binary/Codec.java:146-154 | result is exactly the bounds outcome; on success the 2 big-endian bytes of v are spliced in at off and nothing else changes |
| Codec.WriteShort | server/src/main/java/ove/x0ff5e7db/util/binary/Codec.java:142-144 | the offset-0 form of writeShort |
| Codec.ReadShortAt | server/src/main/java/ove/x0ff5e7db/util/binary/Codec.java:160-169 | succeeds iff the bounds hold; yields the signed value of `b[off..off+2)`, truncated to a short |
| Codec.ReadShort | server/src/main/java/ove/x0ff5e7db/util/binary/Codec.java:156-158 | the offset-0 form: succeeds iff b is non-null with at least 2 elements and yields the signed value of `b[0..2)`; a null b throws NullPointerException "b" and a shorter b the check's IllegalArgumentException |
| Codec.LongRoundTrip | server/src/main/java/ove/x0ff5e7db/util/binary/Codec.java:76-104 | decoding the 8 bytes writeLong stores for any long v gives back v |
| Codec.LongBytesOfDecode | server/src/main/java/ove/x0ff5e7db/util/binary/Codec.java:76-104 | encoding the decoded value of any 8 bytes gives back those bytes, so the encoding is a bijection |
| Codec.IntRoundTrip | server/src/main/java/ove/x0ff5e7db/util/binary/Codec.java:118-138 | decoding the 4 bytes writeInt stores for any int v gives back v |
| Codec.IntBytesOfDecode | server/src/main/java/ove/x0ff5e7db/util/binary/Codec.java:118-138 | encoding the decoded value of any 4 bytes gives back those bytes |
| Codec.ShortRoundTrip | server/src/main/java/ove/x0ff5e7db/util/binary/Codec.java:152-168 | decoding the 2 bytes writeShort stores for any short v gives back v |
| Codec.ShortBytesOfDecode | server/src/main/java/ove/x0ff5e7db/util/binary/Codec.java:152-168 | encoding the decoded value of any 2 bytes gives back those bytes |
| Codec.ReadIntAfterWrite | server/src/main/java/ove/x0ff5e7db/util/binary/Codec.java:113-139 | after a successful writeInt(v, b, off), readInt(b, off) returns v, for every valid off |
| Codec.ReadShortAfterWrite | server/src/main/java/ove/x0ff5e7db/util/binary/Codec.java:146-169 | after a successful writeShort(v, b, off), readShort(b, off) returns v, for every valid off |
| Codec.ReadLongAtIgnoresOffset | server/src/main/java/ove/x0ff5e7db/util/binary/Codec.java:87-105 | whenever readLong(b, off) succeeds it equals readLong(b) |
| Codec.ReadLongAtStart | server/src/main/java/ove/x0ff5e7db/util/binary/Codec.java:91-105 | at offset 0 the read as written and the corrected read agree, so the long round trip holds there |
| Codec.IntendedReadLongAfterWrite | server/src/main/java/ove/x0ff5e7db/util/binary/Codec.java:71-105 | the corrected readLong returns v after writeLong(v, b, off), for every valid off |
| Codec.ReadLongAtMissesWrite | server/src/main/java/ove/x0ff5e7db/util/binary/Codec.java:96-105 | in a zeroed 16-byte array after writeLong(1, b, 8), readLong(b, 8) as written yields 0 where the corrected read yields 1 |
| Hash.Int32Hash | server/src/main/java/ove/x0ff5e7db/util/binary/Hash.java:64-70 | a null buffer throws NullPointerException; otherwise the loop `h = (h << 5) - h + b[i]` from 5381 returns the wrapped fold of the contents |
| Hash.Uint32Hash | server/src/main/java/ove/x0ff5e7db/util/binary/Hash.java:75-77 | a null buffer throws; otherwise the Int32 hash of the contents masked with Integer.MAX_VALUE |
| Hash.Masked | server/src/main/java/ove/x0ff5e7db/util/binary/Hash.java:76 | `h & 0x7fffffff` lies in [0, 2^31 - 1]; it is h for a non-negative h and h + 2^31 otherwise |
| Hash.ProviderHash | server/src/main/java/ove/x0ff5e7db/util/binary/Hash.java:49-51 | each provider's hash depends only on the buffer's contents: NullPointerException for null, else the provider's hash of `b[..]` |
| Hash.EmptyHash | server/src/main/java/ove/x0ff5e7db/util/binary/Hash.java:65-69 | the empty buffer hashes to 5381 |
| Hash.FoldSnoc | server/src/main/java/ove/x0ff5e7db/util/binary/Hash.java:66-68 | incremental fold: hash(b + [x]) is `31 * hash(b) + x` wrapped to 32 bits |
| Hash.ShiftStep | server/src/main/java/ove/x0ff5e7db/util/binary/Hash.java:67 | one step of the loop in wrapping int arithmetic, `((h << 5) - h) + b`, is `31 * h + b` wrapped |
| Hash.FoldIsPoly | server/src/main/java/ove/x0ff5e7db/util/binary/Hash.java:64-70 | the hash is the polynomial `5381 * 31^n + sum of b[i] * 31^(n-1-i)` reduced to a signed 32-bit int |
| Hash.PolyAppend | server/src/main/java/ove/x0ff5e7db/util/binary/Hash.java:66-68 | the unwrapped polynomial of a concatenation is that of the prefix times 31^len(suffix) plus that of the suffix |
| Hash.HashFitsBitsize | server/src/main/java/ove/x0ff5e7db/util/binary/Hash.java:73-77 | a provider of bitsize 31 (Uint32) always yields a value whose high bit is clear, `0 <= h < 2^31` |
| Hash.Bitsize | server/src/main/java/ove/x0ff5e7db/util/binary/Hash.java:63-74 | `bitsize()` is 31 or 32, and it is 31 exactly for the provider whose every hash is non-negative (Uint32); Int32 reports 32 and can set the sign bit |
| Hash.Int32HighBitSet | server/src/test/java/ove/x0ff5e7db/util/binary/TestHash.java:50 | five zero bytes hash under Int32 to -565361125, whose high bit is set, so the test's high-bit assertion cannot hold for Int32 |
| Specification.Release | server/src/main/java/ove/x0ff5e7db/Specification.java:34-36 | release() is serialVersionUID() OR patch: major 0x0A in the top byte, the patch in the low 32 bits and the version in the high 32 bits |
| Specification.SerialVersionUID | server/src/main/java/ove/x0ff5e7db/Specification.java:37-39 | serialVersionUID() has major 0x0A in its top byte and no patch bits |
| Specification.PatchDate | server/src/main/java/ove/x0ff5e7db/Specification.java:33 | the patch packs day 5, month 5 and year 2012 |
| Assert.NotNull | server/src/main/java/ove/x0ff5e7db/util/Assert.java:89-96 | returns its argument unchanged iff it is non-null, else throws the given class with "null reference" |
| Assert.NotNullInfo | server/src/main/java/ove/x0ff5e7db/util/Assert.java:112-119 | returns its argument iff non-null; the message it throws names the argument, and the name can be read back from it |
| Assert.NotNullIdx | server/src/main/java/ove/x0ff5e7db/util/Assert.java:122-129 | returns its argument iff non-null; the position in the message parses back to idx |
| Assert.IsTrue | server/src/main/java/ove/x0ff5e7db/util/Assert.java:143-149 | throws `its not true that "claim"` iff fact is false |
| Assert.IsFact | server/src/main/java/ove/x0ff5e7db/util/Assert.java:162-168 | throws "Factual error " iff fact is false |
| Assert.InRangeLong | server/src/main/java/ove/x0ff5e7db/util/Assert.java:180-187 | returns n iff `from <= n <= to`, both ends inclusive, else throws "exceeds valid range" |
| Assert.InRangeInt | server/src/main/java/ove/x0ff5e7db/util/Assert.java:199-206 | the int overload: returns n iff `from <= n <= to` |
| Assert.InRangeWidens | server/src/main/java/ove/x0ff5e7db/util/Assert.java:180-206 | the int overload agrees with the long one on the widened arguments, outcome and message |
| Assert.FirstDifferenceUnique | server/src/main/java/ove/x0ff5e7db/util/Assert.java:70-74 | the first differing index of two arrays is unique |
| Assert.IsEquivalent | server/src/main/java/ove/x0ff5e7db/util/Assert.java:63-75 | null a, then null b, then unequal lengths throw their messages; otherwise succeeds iff the contents are equal, and a failure names the first differing index |
| Assert.IsEquivalentDefault | server/src/main/java/ove/x0ff5e7db/util/Assert.java:52-55 | succeeds iff both arrays are non-null with equal contents, else throws RuntimeException |
| Log.NormalisedName | server/src/main/java/ove/x0FF5E3DB/util/Log.java:51 | the effective name has 8 characters: a short name right-justified with leading spaces, a long one cut to its first 8 |
| Log.LoggerName | server/src/main/java/ove/x0FF5E3DB/util/Log.java:47-51 | succeeds iff the name is non-null and non-empty, with "name is null" / "name is blank" otherwise; the name is normalised (the copy of Log under source/ makes the same checks) |
| Log.NormalisedIdempotent | server/src/main/java/ove/x0FF5E3DB/util/Log.java:51 | normalising an effective name changes nothing |
| Log.LongNamesCollide | server/src/main/java/ove/x0FF5E3DB/util/Log.java:51-52 | names agreeing in their first 8 characters reach the same logger |
| Log.ShortNameRecovered | server/src/main/java/ove/x0FF5E3DB/util/Log.java:51 | a short name not starting with a space is recovered by trimming the padding |
| Log.ParseLevel | server/src/main/java/ove/x0FF5E3DB/util/Log.java:213-236 | a level is chosen iff the name equals some level's name ignoring case; null, empty and unknown names throw IllegalArgumentException |
| Log.NoLevelMatches | server/src/main/java/ove/x0FF5E3DB/util/Log.java:235-236 | when none of the nine comparisons matches, no level's name matches |
| Log.ParseLevelMatching | server/src/main/java/ove/x0FF5E3DB/util/Log.java:217-234 | a name that matches a level's name ignoring case selects exactly that level |
| Log.ParseLevelName | server/src/main/java/ove/x0FF5E3DB/util/Log.java:217-234 | every level is found by its own name and by its name in lower case |
| Log.MatchUnique | server/src/main/java/ove/x0FF5E3DB/util/Log.java:217-234 | no name matches two levels, so the order of the comparisons does not matter |
| Log.Registry.Lookup | server/src/main/java/ove/x0FF5E3DB/util/Log.java:52 | the JDK logger of a name: the registered one, or a fresh one with no level and no handler that is then registered |
| Log.GetLogger | server/src/main/java/ove/x0FF5E3DB/util/Log.java:45-60 | rejects bad names without touching the registry; otherwise returns a fresh wrapper of the registry's logger for the normalised name, with one more handler than before and its level untouched |
| Log.GetLoggerDumping | server/src/main/java/ove/x0FF5E3DB/util/Log.java:41-43 | getLogger(name) is getLogger(name, true) |
| Log.RequestedTwice | server/src/main/java/ove/x0FF5E3DB/util/Log.java:54-59 | asking twice for "testlog" leaves its JDK logger with two handlers |
| Log.IntendedGetLogger | server/src/main/java/ove/x0FF5E3DB/util/Log.java:54-55 | corrected: a handler is added only when the logger is created, so every logger keeps exactly one handler |
| Log.IntendedRequestedTwice | server/src/main/java/ove/x0FF5E3DB/util/Log.java:54-55 | with the corrected lookup, asking twice leaves one handler |
| Log.Logger.SetLevel | server/src/main/java/ove/x0FF5E3DB/util/Log.java:128-131 | sets the JDK logger's level, leaves its handlers, and returns the same logger |
| Log.SetLogLevel | server/src/main/java/ove/x0FF5E3DB/util/Log.java:213-239 | sets the level the name selects; a null, empty or unknown name throws and leaves the level unchanged; a null logger fails only after the name is accepted |
| Log.CauseText | server/src/main/java/ove/x0FF5E3DB/util/Log.java:79-84 | "- cause: T" exactly when t's message is null or empty, else "- cause: T - m" |
| Log.CauseTextInjective | server/src/main/java/ove/x0FF5E3DB/util/Log.java:79-84 | for one exception class, the cause text determines the message shown |
| Log.ErrorRecord | server/src/main/java/ove/x0FF5E3DB/util/Log.java:78-89 | error(msg, t) logs at SEVERE the text msg, a space and the cause text; a null t throws NullPointerException (the copy of Log under source/ composes the same record) |
| Log.WarningRecord | server/src/main/java/ove/x0FF5E3DB/util/Log.java:97-107 | warning(msg, t) logs the same text at WARNING |
| Log.InfoRecord | server/src/main/java/ove/x0FF5E3DB/util/Log.java:116-125 | info(msg, t) logs the same text at INFO |
| Log.DriverRejectsNames | source/src/main/java/ove/x0FF5E3DB/util/Log.java:211-220 | the driver's getLogger(null) and getLogger("") both throw, and the records it logs for them read "oops - cause: IllegalArgumentException - name is null" and "... - name is blank" |
| Config.KeyShape | server/src/main/java/ove/x0ff5e7db/Servant.java:303 | a key has no underscore and no upper-case letter; its dots stand exactly where the name had an underscore or a dot |
| Config.KeyOfInjective | server/src/main/java/ove/x0ff5e7db/Servant.java:303 | constant names written in one case map to distinct keys |
| Config.KeysDistinct | server/src/main/java/ove/x0ff5e7db/Server.java:266-278 | distinct properties have distinct keys |
| Config.LogLevelKey | server/src/main/java/ove/x0ff5e7db/Server.java:273 | LOG_LEVEL's key is "log.level" |
| Config.Key | server/src/main/java/ove/x0ff5e7db/Servant.java:303-307 | `key()` is as long as the constant's name, has no underscore and no upper-case letter, and has a dot exactly where the name has an underscore |
| Config.Default | server/src/main/java/ove/x0ff5e7db/Servant.java:297-308 | `defval()` is never empty, and the port and block-size defaults are decimal numerals |
| Config.NumericDefaults | server/src/main/java/ove/x0ff5e7db/Servant.java:297-300 | the default port "7727" and block size "4096" parse as ints 7727 and 4096 |
| Config.Configuration.Get | server/src/main/java/ove/x0ff5e7db/Servant.java:318-321 | the user's value for the property's key if present, else its default; a null property throws IllegalArgumentException "null reference:{key}" (Server's copy is the same) |
| Config.Load | server/src/main/java/ove/x0ff5e7db/Server.java:293-310 | succeeds iff the file exists, and then every property reads the file's value or its default; otherwise throws Exception |
| Config.GetIsolated | server/src/main/java/ove/x0ff5e7db/Server.java:288-291 | a property's value depends only on the user entry under its own key |
| Config.SetOneProperty | server/src/main/java/ove/x0ff5e7db/Server.java:288-291 | setting one property's key changes that property's value and no other |
| Config.EmptyConfiguration | server/src/main/java/ove/x0ff5e7db/Server.java:288-291 | with no user properties every property has its default |
| Config.IdsDistinct | server/src/main/java/ove/x0ff5e7db/NetworkInterface.java:174-186 | distinct context bindings have distinct ids, so no bind overwrites another binding |
| Config.IdShape | server/src/main/java/ove/x0ff5e7db/Server.java:171-173 | an id is as long as its name and starts with the same letter |
| Config.Id | server/src/main/java/ove/x0ff5e7db/Servant.java:196-200 | `id()` is as long as the binding's name, has no underscore, and has a dot exactly where the name has an underscore or a dot |
| Contexts.Context.ServerContext | server/src/main/java/ove/x0ff5e7db/Main.java:141-166 | the root context: no parent, an empty map, the loaded configuration and the main thread's fault slot |
| Contexts.Context.Tree | server/src/main/java/ove/x0ff5e7db/Servant.java:218-222 | a child context with an empty map that shares its parent's root, configuration and fault slot |
| Contexts.Context.Root | server/src/main/java/ove/x0ff5e7db/Server.java:192-194 | every chain of parents ends in a root holding the same configuration and fault slot |
| Contexts.Context.Get | server/src/main/java/ove/x0ff5e7db/Servant.java:240-245 | a non-null local value shadows the parents; a missing or null one is answered by exactly the parent's `get(k)`; the root looks only in its own map (Server's copy delegates the same way) |
| Contexts.Context.GetNearest | server/src/main/java/ove/x0ff5e7db/Servant.java:240-245 | `get(k)` answers with the first context on the chain from this one to the root that holds a non-null value for k, and with null iff none does |
| Contexts.Context.Bind | server/src/main/java/ove/x0ff5e7db/Servant.java:234-237 | stores v in the local map only and returns the previous local value; every other key and every ancestor's lookups are unchanged |
| Contexts.Context.GetProperty | server/src/main/java/ove/x0ff5e7db/Servant.java:228-231 | every context answers with the root's configuration |
| Contexts.Context.OnError | server/src/main/java/ove/x0ff5e7db/Servant.java:223-227 | the fault is passed up to the root, which overwrites the fault slot (last one wins) and interrupts the main thread, once per report |
| Contexts.ShadowingExample | server/src/main/java/ove/x0ff5e7db/Server.java:207-218 | a key bound to null in a child shows the parent's value; a non-null binding shadows it |
| Network.Rank | server/src/main/java/ove/x0ff5e7db/NetworkInterface.java:137 | the selector order is write, read, accept |
| Network.AcceptHandle | server/src/main/java/ove/x0ff5e7db/NetworkInterface.java:202-219 | a non-acceptable key throws the isTrue message; otherwise the accepted channel is registered for OP_READ with the request handler attached, never for write, and the handler succeeds iff that registration happens |
| Network.RequestHandle | server/src/main/java/ove/x0ff5e7db/NetworkInterface.java:227-234 | always throws; a readable key has its channel closed first |
| Network.ResponseHandle | server/src/main/java/ove/x0ff5e7db/NetworkInterface.java:242-244 | always throws and touches nothing |
| Network.Handle | server/src/main/java/ove/x0ff5e7db/NetworkInterface.java:150-151 | a key with no attachment fails with NullPointerException; only the accept handler can return normally or register a channel, and then only for reads |
| Network.Apply | server/src/main/java/ove/x0ff5e7db/NetworkInterface.java:215-231 | a handler's effects touch only the read selector's registrations and the closed channels; every selected-key set is left as it was |
| Network.Live | server/src/main/java/ove/x0ff5e7db/NetworkInterface.java:144 | the keys kept are exactly those whose channel is not closed, and there are no more of them |
| Network.LiveRegistrations | server/src/main/java/ove/x0ff5e7db/NetworkInterface.java:144 | the registrations kept are exactly those whose channel is not closed |
| Network.LiveIdempotent | server/src/main/java/ove/x0ff5e7db/NetworkInterface.java:144 | filtering twice by the same closed channels is filtering once |
| Network.Purge | server/src/main/java/ove/x0ff5e7db/NetworkInterface.java:144 | selectNow drops from the selected-key set exactly the keys of closed channels and deregisters exactly those channels |
| Network.PurgeIdempotent | server/src/main/java/ove/x0ff5e7db/NetworkInterface.java:144 | a second selectNow with nothing newly closed drops nothing |
| Network.Visit | server/src/main/java/ove/x0ff5e7db/NetworkInterface.java:143-157 | a selector that is null or whose selectNow fails is skipped untouched; otherwise its cancelled keys go first, and one with no fresh ready key is skipped; an active one hands its first selected key, among those not cancelled followed by the fresh ones, to the handler, removes it only if the handler returns, and completes iff the handler returned and no further key makes the iterator fail |
| Network.Selected | server/src/main/java/ove/x0ff5e7db/NetworkInterface.java:144-147 | after a positive `selectNow()` the selected-key set is non-empty, holds no key of a closed channel, and holds exactly the still-live keys left selected and the fresh ready keys |
| Network.VisitFrame | server/src/main/java/ove/x0ff5e7db/NetworkInterface.java:143-157 | a visit changes no selector but its own and the read selector; its own registrations, unless it is the read selector, lose exactly those of closed channels |
| Network.VisitSkipsClosed | server/src/main/java/ove/x0ff5e7db/NetworkInterface.java:143-157 | a visit never hands a key of a channel closed before it to a handler, and a readable key handed to the request handler ends with its channel closed |
| Network.PassOver | server/src/main/java/ove/x0ff5e7db/NetworkInterface.java:141-158 | a pass over selectors keeps the set of opened selectors and the bound handlers, and closes channels without ever reopening one |
| Network.RunSpec | server/src/main/java/ove/x0ff5e7db/NetworkInterface.java:139-168 | a run of passes reports one sleep flag per pass and never reopens a closed channel |
| Network.PassOverRoles | server/src/main/java/ove/x0ff5e7db/NetworkInterface.java:141 | every handler run in a pass over some selectors belongs to one of them |
| Network.PassOverOrdered | server/src/main/java/ove/x0ff5e7db/NetworkInterface.java:137-141 | handlers run for selectors in strictly increasing rank within any ordered list |
| Network.PassOrder | server/src/main/java/ove/x0ff5e7db/NetworkInterface.java:137-141 | within one pass, handlers run in the fixed order write, read, accept |
| Network.PassOverVisitsActive | server/src/main/java/ove/x0ff5e7db/NetworkInterface.java:144-146 | among distinct selectors, each runs one handler exactly when it is active in the state the earlier visits leave |
| Network.PassVisitsActive | server/src/main/java/ove/x0ff5e7db/NetworkInterface.java:144-146 | a selector runs a handler in a pass iff it is open and selectNow reports a ready key of an open channel when the pass reaches it; for the write selector, in the state the pass starts from |
| Network.PassOverBusy | server/src/main/java/ove/x0ff5e7db/NetworkInterface.java:154 | a pass that is not idle ran some handler that returned normally |
| Network.QuietPassOver | server/src/main/java/ove/x0ff5e7db/NetworkInterface.java:144-146 | with no active selector a pass runs nothing, is idle, closes nothing, and only drops each polled selector's cancelled keys |
| Network.PassIdle | server/src/main/java/ove/x0ff5e7db/NetworkInterface.java:160-163 | run sleeps after a pass in which no selector is active, which changes nothing but the cancelled keys; a pass after which it does not sleep ran a handler that returned normally |
| Network.PassOverKeepsWrites | server/src/main/java/ove/x0ff5e7db/NetworkInterface.java:218 | no handler registers anything with the write selector: its registrations after a pass are among those before, and the ones dropped belong to closed channels |
| Network.NoWriteRegistration | server/src/main/java/ove/x0ff5e7db/NetworkInterface.java:218 | a whole pass leaves the write selector's registrations as they were, minus those of channels closed before the pass |
| Network.PassOverSkipsClosed | server/src/main/java/ove/x0ff5e7db/NetworkInterface.java:141-158 | within a pass no handler runs for a channel closed before the pass, and every readable key handed to the request handler has its channel closed by the end of the pass |
| Network.RunClosedGrows | server/src/main/java/ove/x0ff5e7db/NetworkInterface.java:139-168 | the channels closed during a run only accumulate from pass to pass |
| Network.ClosedNeverDispatched | server/src/main/java/ove/x0ff5e7db/NetworkInterface.java:139-158 | a channel closed by one pass of run is never handed to a handler in any later pass |
| Network.RequestKeyNotRedispatched | server/src/main/java/ove/x0ff5e7db/NetworkInterface.java:227-234 | a readable key the request handler ran for, which threw and left the key selected, is never dispatched again in a later pass |
| Network.InitSelectorsShape | server/src/main/java/ove/x0ff5e7db/NetworkInterface.java:77-123 | the selectors opened before a failure are new and empty, except the accept selector, which holds the server channel's OP_ACCEPT registration when all three open and registration succeeds; the others are untouched |
| Network.AcceptAttachment | server/src/main/java/ove/x0ff5e7db/NetworkInterface.java:94-120 | the listening channel is registered with a null attachment exactly when `new AcceptHandler()` failed, else with the accept handler |
| Network.DefaultPortBinds | server/src/main/java/ove/x0ff5e7db/NetworkInterface.java:60-68 | without a port entry the socket binds port 7727 unless opening or binding fails |
| Network.PortOutOfRange | server/src/main/java/ove/x0ff5e7db/NetworkInterface.java:64-67 | a configured port outside 0..65535 fails with IllegalArgumentException "port out of range:" and the port, after the socket was opened and left open |
| Network.BindAllHit | server/src/main/java/ove/x0ff5e7db/NetworkInterface.java:68-110 | after a sequence of binds, each bound id holds its resource |
| Network.BindAllMiss | server/src/main/java/ove/x0ff5e7db/NetworkInterface.java:68-110 | ids not bound by the sequence keep their previous entries |
| Network.HandlersSetUpIndex | server/src/main/java/ove/x0ff5e7db/NetworkInterface.java:93-115 | a handler is set up iff it comes before the first failing setup |
| Network.InitBindingsShape | server/src/main/java/ove/x0ff5e7db/NetworkInterface.java:68-110 | a successful socket bind always binds the channel; a selector or handler is bound iff it was opened or set up; the network interface itself is never bound here |
| Network.NetworkInterface.constructor | server/src/main/java/ove/x0ff5e7db/NetworkInterface.java:55-57 | a fresh child context of the given one, nothing opened |
| Network.NetworkInterface.Dispatch | server/src/main/java/ove/x0ff5e7db/NetworkInterface.java:143-157 | the in-place visit of one selector, cancelled-key step included, equals the value-level Visit |
| Network.NetworkInterface.Pass | server/src/main/java/ove/x0ff5e7db/NetworkInterface.java:139-158 | one pass of the outer loop, in place, equals PassSpec: new state, idle flag and handlers run |
| Network.NetworkInterface.Run | server/src/main/java/ove/x0ff5e7db/NetworkInterface.java:128-169 | a run of passes, in place, equals RunSpec, including after which passes it sleeps |
| Network.NetworkInterface.Initialize | server/src/main/java/ove/x0ff5e7db/NetworkInterface.java:59-125 | returns this iff the port parses and lies in range, the socket opens and binds, and all three selectors open; those failures propagate and a failed selector leaves the socket open; handler and OP_ACCEPT failures are swallowed; the bindings, handlers and selectors are those of the steps reached |
| Network.NetworkInterface.OpenSocket | server/src/main/java/ove/x0ff5e7db/NetworkInterface.java:60-75 | parse the port, open, bind and record the channel: the outcome and socket state given by SocketOutcome and SocketAfter |
| Network.NetworkInterface.OpenSelectors | server/src/main/java/ove/x0ff5e7db/NetworkInterface.java:77-91 | opens and binds accept, read and write selectors in turn up to the first failure, which throws IOException |
| Network.NetworkInterface.SetUpHandlers | server/src/main/java/ove/x0ff5e7db/NetworkInterface.java:93-115 | sets up and binds the accept, request and response handlers up to the first failure, which is swallowed |
| Network.NetworkInterface.RegisterAccept | server/src/main/java/ove/x0ff5e7db/NetworkInterface.java:117-123 | registers the server channel with the accept selector for OP_ACCEPT, attaching the accept handler or null when its construction failed, or changes nothing when registration fails |
| Servers.FirstFaultIsFirst | server/src/main/java/ove/x0ff5e7db/Server.java:104-129 | no fault is reported iff every step passes; a reported fault is that of a step all of whose predecessors passed |
| Servers.FirstFault | server/src/main/java/ove/x0ff5e7db/Server.java:104-129 | the fault `run` reports comes from one of its steps, and none is reported only when every step passes |
| Servers.FirstFaultIgnoresRest | server/src/main/java/ove/x0ff5e7db/Servant.java:98-140 | steps after the first faulting one do not matter |
| Servers.ServerRunFault | server/src/main/java/ove/x0ff5e7db/Server.java:96-132 | Server.run reports nothing iff initialization succeeds and the executor starts; a failed initialize is reported as "failed to initialize netcomp", a failed executor with the thread id |
| Servers.ComponentBase.SetContext | server/src/main/java/ove/x0ff5e7db/Server.java:233-235 | replaces the context field and nothing else |
| Servers.ComponentBase.Initialize | server/src/main/java/ove/x0ff5e7db/Server.java:238 | returns the component itself |
| Servers.Server.constructor | server/src/main/java/ove/x0ff5e7db/Server.java:57-62 | the server's own context is a fresh child of the given one |
| Servers.Server.Create | server/src/main/java/ove/x0ff5e7db/Server.java:57-59 | a null context throws IllegalArgumentException "null reference:{context}"; otherwise a server over a fresh child context |
| Servers.Server.InitializeComponents | server/src/main/java/ove/x0ff5e7db/Server.java:136-154 | creates the network interface; binds it under "network.interface" only when initialize succeeds, else returns the fault and binds nothing |
| Servers.Server.Bootup | server/src/main/java/ove/x0ff5e7db/Server.java:155-158 | always throws RuntimeException "Server#bootup is not implemented!" |
| Servers.Server.Run | server/src/main/java/ove/x0ff5e7db/Server.java:96-132 | the executor starts iff no step faults; otherwise exactly one fault, the first, reaches the root's slot and the main thread is interrupted |
| Servants.ServantRunFault | server/src/main/java/ove/x0ff5e7db/Servant.java:90-169 | Servant.run always reports exactly one fault: assembly's if it failed, else bootup's exception with the thread id, so serve is never reached |
| Servants.Servant.constructor | server/src/main/java/ove/x0ff5e7db/Servant.java:57-62 | the servant's own context is a fresh child of the given one |
| Servants.Servant.Assemble | server/src/main/java/ove/x0ff5e7db/Servant.java:147-163 | creates the network interface; binds it under "network.interface" only when initialize succeeds, else returns the fault and binds nothing |
| Servants.Servant.Bootup | server/src/main/java/ove/x0ff5e7db/Servant.java:165-169 | always throws RuntimeException "Server#bootup is not implemented!" |
| Servants.Servant.Serve | server/src/main/java/ove/x0ff5e7db/Servant.java:171-184 | returns a fault noted "servant" iff starting the executor fails |
| Servants.Servant.Run | server/src/main/java/ove/x0ff5e7db/Servant.java:90-143 | never starts serving; exactly one fault, the first, reaches the root's slot and the main thread is interrupted |
| CommandLine.CheckedName | server/src/main/java/ove/x0ff5e7db/Main.java:198-201 | accepts iff the flag starts with '-', has at least 2 characters and the value is non-null and non-empty; the name is the flag without its dash; failures are IllegalStateException |
| CommandLine.ParseArgs | server/src/main/java/ove/x0ff5e7db/Main.java:177-194 | the index loop equals ParseFrom: "--" directives skipped, a flag consumes the next argument (out of bounds when last), anything else is a usage error (the second Main's loop is the same) |
| CommandLine.ParseShift | server/src/main/java/ove/x0ff5e7db/Main.java:180-192 | parsing the arguments after a prefix is parsing them on their own |
| CommandLine.ParseAppend | server/src/main/java/ove/x0ff5e7db/Main.java:180-192 | parsing xs + ys, when xs parses cleanly, is parsing ys over the options xs set |
| CommandLine.HandleFault | server/src/main/java/ove/x0ff5e7db/Main.java:138-140 | no fault is ever handled |
| CommandLine.EarlyFaultLost | server/src/main/java/ove/x0ff5e7db/Main.java:110-132 | as written, a fault whose interrupt reaches the main thread before its first test leaves main waiting for ever |
| CommandLine.AwaitAsWritten | server/src/main/java/ove/x0ff5e7db/Main.java:110-132 | as written, the wait loop exits iff a fault is in the slot and the interrupt was not consumed by the early test, and then with -5 and the fault's info |
| CommandLine.AwaitIntendedExits | server/src/main/java/ove/x0ff5e7db/Main.java:118-126 | corrected: main exits with -5 and the fault's info iff a fault was reported, whenever the interrupt arrives |
| ServantMain.OptionValueOf | server/src/main/java/ove/x0ff5e7db/Main.java:52-53 | only "conf" names an Option; any other name throws IllegalArgumentException |
| ServantMain.ParseArg | server/src/main/java/ove/x0ff5e7db/Main.java:196-206 | stores the value under Option.conf iff the flag is "-conf" and the value is non-empty; the checks' errors come first |
| ServantMain.ConfFlagSets | server/src/main/java/ove/x0ff5e7db/Main.java:203-204 | a trailing "-conf v" sets the configuration path to v, so a repeated flag keeps its last value |
| ServantMain.NoConfFlag | server/src/main/java/ove/x0ff5e7db/Main.java:83-85 | without a "-conf" argument the path is "./server.conf" |
| ServantMain.MainExits | server/src/main/java/ove/x0ff5e7db/Main.java:68-134 | main exits only with -2 or -5; it stops waiting iff parsing fails, loading fails or the interrupt is not early; once loaded, with the interrupt not early, it exits -5 with "failed to initialize netcomp" when initialize fails and with the thread tag of bootup's fault otherwise |
| ServantMain.Start | server/src/main/java/ove/x0ff5e7db/Main.java:68-134 | main's stages (parse, load, root context, servant, run, wait) end as MainOutcome states |
| ServerMain.ParseArg | server/src/main/java/ove/x0FF5E3DB/Main.java:181-189 | a null map throws IllegalStateException "null reference:{clargs}"; otherwise stores the value under the flag without its dash iff the flag and value checks pass |
| ServerMain.KeysUndashed | server/src/main/java/ove/x0FF5E3DB/Main.java:188 | no key stored by parseArgs starts with '-' |
| ServerMain.ConfLookupMisses | server/src/main/java/ove/x0FF5E3DB/Main.java:65 | as written, the configuration path is always "./server.conf", whatever the arguments |
| ServerMain.ConfFlagIgnored | server/src/main/java/ove/x0FF5E3DB/Main.java:65 | "-conf my.conf" is stored under "conf", missed by the lookup, and found by the corrected lookup |
| ServerMain.ConfFlagHonoured | server/src/main/java/ove/x0FF5E3DB/Main.java:188 | corrected: a trailing "-conf v" makes the path v |
| ServerMain.MainExits | server/src/main/java/ove/x0FF5E3DB/Main.java:49-115 | main exits only with -2 or -5; it exits -2 iff "./server.conf" is missing; after loading, it waits iff the server starts cleanly, and a failed initialize exits -5 "failed to initialize netcomp" |
| ServerMain.Start | server/src/main/java/ove/x0FF5E3DB/Main.java:49-115 | main's stages with a Server end as MainOutcome states |

## Left out

- Socket, selector and channel I/O (`ServerSocketChannel`, `Selector.open`, `selectNow`, `accept`, `register`, `close`) is not performed. Each call of `initialize` that can fail is a flag of `InitEnv`, and a failing `selectNow` is a `PassEnv` outcome. Readiness is a `PassEnv` per pass. Channels are numbers.
- Threads, executors, `Thread.sleep`, `yield`, `join` and `interrupt` are left out. Starting the executor is a step that may fail (`execFails`). The server thread runs to completion before main waits. Whether its interrupt reaches main before the first `Thread.interrupted()` test is the flag `early`.
- The reactor's endless loop is modelled as a finite sequence of passes.
- Network.AcceptHandle, Network.RequestHandle: the I/O exceptions of the handlers are not modelled. `accept()`, `configureBlocking(false)` and `register` in the accept handler can throw IOException or ClosedChannelException, and `close()` in the request handler can throw IOException before its RuntimeException. A failed accept is folded into `accepted == None`, so AcceptHandle's NullPointerException stands for every failure of an acceptable key. The reactor's `catch (Exception e)` treats every class alike, and the class only reaches the log.
- Network.Visit: a selector with two or more selected keys is modelled as the fail-fast iterator makes it. The first key is handled and removed, and the next step of the iteration throws ConcurrentModificationException, which the catch absorbs. Only one handler runs per selector per pass.
- Network.Selected: the selected-key set is a sequence. Keys left selected come before the fresh ones, and a key already selected that is reported ready again appears twice. The JDK's selected-key set is an unordered set without duplicates, so which key its iterator returns first is not fixed by the source. The model picks one order.
- Network.Purge: channel ids stand for channel objects. An accepted connection whose id equals a closed channel's is treated as that closed channel, so it is never dispatched. The JDK never reuses a channel object.
- `Configuration.Load` does no file I/O. The file system is a map from path to properties, and `Properties.load` is not modelled.
- Config.Load: the message of the exception for a missing file names the absolute path and is not modelled. Only its class is.
- `Assert.throwIt` filters the stack trace, logs at SEVERE and constructs the exception reflectively. This is modelled as throwing the named class. Every class the code passes has a (String) constructor, so the fallback to `IllegalArgumentException` is never taken.
- Assert.NotNull, Assert.NotNullInfo, Assert.NotNullIdx, Assert.IsTrue, Assert.IsFact, Assert.InRangeLong, Assert.InRangeInt, Assert.IsEquivalent: the message stated is the `msg` that `throwIt` receives. The real message appends " in method C.m() [file: F line:N - package: P]", built from the caller's stack frame, and that suffix is not modelled. The same holds for every message these checks produce elsewhere: Config.Configuration.Get, Servers.Server.Create, ServerMain.ParseArg, CommandLine.CheckedName, Network.AcceptHandle and Network.RequestHandle.
- `Assert.cast` is left out because it relies on a run-time class check.
- `Log.Handler`, `Log.Formatter`, `Logger.trace`, the varargs `error`/`warning`/`info` and the stack dumps write to stdout or stderr and are left out. `Log.main`'s own output is left out.
- `Servant.configure` and `Server.configure` call a logger-level setter that is not shown. `Main.temptest` only logs. Both are left out.
- `Global.java` and `Specification.logger` only build loggers and are not part of this model.
- `TestBase.java` and the benchmarks in `TestHash.java` are timing and float arithmetic. Only the high-bit assertion is used.
- `Main.usage` is unimplemented and always throws. It is modelled as the exception escaping `main`, so `exit(-1)` is never reached.
- `exit(-3)` is unreachable: `new Servant(context)` and `new Server(context)` get a non-null context.
- The `catch (Throwable)` around `assemble` and `initializeComponents` is not modelled separately. Those steps return their fault and do not throw.
- `Fault.source` and `Fault.toString` are left out. A fault is its throwable and its note.
- `NetworkInterface` inherits `Component.Base.context` and also keeps its own `context` field. Only the field it uses, a `Context.Tree` over the server's context, is modelled.
- `Servant` uses `Servant.Context`, and `NetworkInterface` uses `Server.Context`. Both are modelled as the one `Contexts.Context`.
- `ove.x0FF5E3DB.Main` uses an `ove.x0FF5E3DB.Server` and `ove.x0FF5E3DB.util.Assert`, which are not part of this model. They are modelled with the `ove.x0ff5e7db.Server` and the `ove.x0ff5e7db.util.Assert`.
- `Servant.assemble` calls `initialize(NetworkInterface.class)`, which `NetworkInterface` does not declare. It is modelled as `initialize()`.
- Decimal.ParseInt: `Integer.parseInt` is modelled on optional-sign decimal digits. Only its exception class is stated, not its message.
- Decimal.ParseInt: `Integer.parseInt` reads a digit through `Character.digit`, so it also accepts the decimal digits of other scripts (for example Arabic-Indic and full-width digits). The model accepts only '0' to '9' and throws NumberFormatException for the others.
- Config.KeyOf: `toLowerCase()` uses the JVM's default locale. The model lower-cases as the root locale does. Under a Turkish locale `DB_IMAGE_ROOT` and `DB_CACHE_BLOCK_SIZE` would get the keys "db.ımage.root" and "db.cache.block.sıze" with a dotless ı, and Config.Key, Config.Id and Config.KeysDistinct assume the root-locale mapping.
- Log.NormalisedName: `%8s` and `substring(0, 8)` count UTF-16 code units. The model counts `char`s. The two agree unless the name holds a character outside the Basic Multilingual Plane, and then Java may cut a surrogate pair in half.
- Log.Registry: the JDK `LogManager` holds its loggers by weak reference. The model keeps every registered logger for ever, so "the same name gives the same logger" (and the handler pile-up in the Log finding) holds in Java only while some reference to that logger is alive.
- Java `String.equalsIgnoreCase` is modelled exactly for ASCII names. Beyond ASCII, only the characters whose case mapping reaches an ASCII letter are modelled.
- The hash of `Provider.id` strings and the `Provider` enum's reflection are reduced to constant strings.

## Findings

| source | as written | input that shows it | evidently intended | confidence | as-written member | corrected member |
|---|---|---|---|---|---|---|
| server/src/main/java/ove/x0ff5e7db/util/binary/Codec.java:96-105 | `readLong(b, off)` checks off but decodes `b[0..8)` | a zeroed 16-byte array after `writeLong(1, b, 8)`: `readLong(b, 8)` returns 0 | decode `b[off..off+8)`, so that the read returns what writeLong stored | high, not executed | Codec.ReadLongAtMissesWrite | Codec.IntendedReadLongAfterWrite |
| server/src/test/java/ove/x0ff5e7db/util/binary/TestHash.java:50 | the test asserts that the high bit is clear for both providers | five zero bytes under `MBInt32` hash to -565361125 | only the 31-bit provider promises a clear high bit | high, not executed | Hash.Int32HighBitSet | Hash.HashFitsBitsize |
| server/src/main/java/ove/x0FF5E3DB/Main.java:65 | the path is looked up under "-conf", but parseArg stores it under "conf" | arguments `-conf my.conf`: the default "./server.conf" is loaded | look up "conf", so the flag names the file | high, not executed | ServerMain.ConfFlagIgnored | ServerMain.ConfFlagHonoured |
| server/src/main/java/ove/x0FF5E3DB/util/Log.java:54-59 | every getLogger call adds one more handler to the shared JDK logger | getLogger("testlog") twice: its logger has two handlers and publishes each record twice | add the handler once per named logger | high, not executed | Log.RequestedTwice | Log.IntendedRequestedTwice |
| server/src/main/java/ove/x0ff5e7db/Main.java:110-117 | an interrupt seen by the `Thread.interrupted()` test is cleared and ignored | the servant reports its bootup fault before main's first test: main loops for ever and never exits -5 | treat that interrupt like the one that ends `join()` | medium, not executed | CommandLine.EarlyFaultLost | CommandLine.AwaitIntendedExits |
