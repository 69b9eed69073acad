# Verified model of the OMI-Lite device firmware

This project models the parts of the firmware whose correctness is a matter of logic and
not of hardware, and proves what they promise. Text and byte strings are sequences, a Rust
`String` is a Dafny `string` (a sequence of Unicode scalar values), a BTreeMap is a finite
map walked in key order, an `f64` is its 64-bit pattern, and an object whose methods change
its fields is a class whose methods are proved against a function of the old state.

What each group of files shows:

- **JSON codec** (`JsonLexis`, `Lexer`, `JsonGrammar`, `JsonMeaning`, `JsonParser`, `JsonSpelling`,
  `JsonPrint`, `JsonWriter`, `JsonDocs`, `ToJson`, `RoundTripOdf`, `RoundTrip`, `RoundTripText`, `JsonOrder`,
  `JsonText`, `JsonAlike`, `JsonBytes`, `JsonByName`, `ReadResults`, `Shelling`).
  The lexer, the depth-limited parser and the event-style writer are classes. The parser is
  proved to compute a reading of the token stream: recursive descent over the grammar of RFC 8259,
  followed by a meaning of the JSON tree; over bytes, with any white space and spelling, it accepts exactly
  the texts of the trees that mean a message, and what each kind of object needs and gives is said again by the
  names of its members alone. The writer is proved to print a tree. From that follow the
  round trips, each as an if-and-only-if with the exact set of messages that come back, and
  the independence of member order and unknown members at every level of a text. What is written and
  never parsed back, the answer to a read and an item without a history, is read member by member.
- **gzip** (`Crc`, `Gzip`, `GzipStream`, `GzipFormat`, `GzipOneShot`). The ten-phase streaming
  decompressor follows a byte-by-byte machine for every way of cutting the stream, and accepts
  exactly the members of RFC 1952. The inflater is any deterministic byte transducer with a queue of pending
  output and its own choice of how far to read ahead.
- **O-DF store** (`Odf`, `RingBuffer`, `Paths`, `Tree`, `Merge`, `WriteTree`, `ItemPaths`, `ObjectTree`). The
  circular buffer refines a sequence; the tree refines a map from paths to histories.
- **Persistence** (`Collect`, `SavedCodec`, `Restore`) and **discovery** (`Discovery`). Collect, serialise, load,
  replay; the peers of the last browse as items.
- **Engine** (`Cascade`, `Engine`, `AcceptedWrites`). Writes and the cascade of onwrite scripts, where a script is
  an arbitrary function from the event and the tree to further writes.
- **WiFi** (`Wifi`), **device locks** (`Locks`), **encodings** (`Encoding`),
  **digests** (`Digest`, `Sha256`, `Blake2b`), and **published answers** (`Published`, `PublishedBlake2b`): the
  tables and examples of the standards, which fix every constant of the definitions.

Facts about the code that the proofs brought out:

- The streaming decompressor never reports an invalid header, for any stream (`GzipFormat.NoInvalidHeader`). A
  wrong magic is reported as `DecompressFailed`, and only when a byte after the tenth arrives (`Gzip.BadMagicFails`).
- `range` and `query` disagree exactly when an unordered comparison decides a value
  (`RingBuffer.RangeAgrees`, `RingBuffer.NaNDisagrees`).
- A restart brings an item back if and only if every name on its path can be addressed. Names that
  arrive in a JSON tree may hold a slash or outer spaces, and then cannot
  (`Paths.SpelledIsParsed`, `Paths.SlashMissed`, `Paths.SpaceMissed`, `Restore.CollectsAgain`).
- A child kept under a key that is not its id is reported at a path where it is not
  (`ItemPaths.MiskeyedChildMissed`). A path resolves after a tree write, whatever was there before, exactly when
  it spells the target and then the place of an item in the batch (`ItemPaths.ResolvesIffLands`).
- A script write with an encoding stores its hint on the addressed item even when the write itself
  is refused (`Cascade.HintOnRefusingItem`). A refused script write leaves the tree as it was exactly when it has no
  encoding, finds no item, or finds one that has the hint (`Cascade.RefusedScriptWrite`); histories and
  writability are untouched in any case (`Cascade.HintedKeeps`).
- A warning of a script replaces the answer that a single write created its item; a batch item keeps both
  (`AcceptedWrites.WriteStores`, `AcceptedWrites.BatchItemStores`).
- A number that is not a number passes the duty clamp, and so does one that is out of range by no more than
  the tolerance (`Cascade.ClampedInRange`).
- `SavedSsidFound` is taken without a range check (`Wifi.StepInRange`).
- `decode_hex` reads a plus sign in front of a digit, and is base 16 on exactly the texts that have none or are
  refused (`Encoding.HexIsStrictUnlessSigned`). It panics on exactly the texts in which the first pair that is
  not read ends inside a character (`Encoding.SplitExactly`).
- Blanks in a base64 text matter exactly when one stands behind a padding character and the text is readable
  without blanks (`Encoding.BlanksMatterBehindPadding`).
- A read result with values is written but comes back as an empty payload, and an item without values is
  written without the field that the parser demands, so neither is in the round trip
  (`RoundTrip.MessageReturns`, `RoundTripOdf.InfoReturns`).

The result of `ryu` and of `str::parse::<f64>` is a parameter, `FloatLib`. The round trips assume
`Lawful`: a finite number is printed as a JSON number that parses to the same bits.
`RoundTripText.PatternLibLawful` shows that this assumption can be met. Inflate and deflate, scripts, the hex and
base64 decoders seen from the engine, connection outcomes, clocks, process liveness, fresh ids and
the shuffle are parameters too.

## Model

| member | source | states |
|---|---|---|
| RoundTripText.Reparse | src/json/parser.rs:633-725 | Serialising a message and parsing the bytes gives back the same message (histories of a tree write refitted to their length) if and only if it has version 1.0, finite numbers, u64 fields up to i64::MAX, items with values, bounded nesting and a result that the parser keeps |
| RoundTripText.MessageTextRead | src/json/serializer.rs:483-597 | The bytes of any message are, to their end, exactly one JSON value: the message's own tree |
| RoundTripText.ObjectTextReturns | src/json/serializer.rs:357-390 | An object printed with any depth, before any text that ends a number, is parsed back as itself with refitted histories and the rest is left, iff all parts of it can return in the room left |
| RoundTripText.PatternLibLawful | src/json/serializer.rs:238-250 | The only assumption on the float routines is satisfiable |
| RoundTrip.MessageReturns | src/json/parser.rs:649-725 | The meaning of a printed message's tree is the message iff ReturnsMessage |
| RoundTrip.ReadReturns | src/json/parser.rs:731-764 | A read operation returns iff it has exactly one of a path and a request id, its u64 fields fit in i64 and its times are finite |
| RoundTrip.TreeReturns | src/json/parser.rs:767-838 | A tree write returns iff it is nested at most MAX_OBJECT_DEPTH and all its objects can return |
| RoundTrip.BatchReturns | src/json/parser.rs:840-895 | A batch returns iff it is not empty and its values and times are finite |
| RoundTrip.CancelReturns | src/json/parser.rs:921-938 | A cancel returns iff it names at least one request |
| RoundTrip.DeleteReturns | src/json/parser.rs:901-918 | A delete returns iff its path starts with a slash and is longer than that |
| RoundTrip.ResponseReturns | src/json/parser.rs:941-1003 | A response returns iff its result is absent, null or a batch of statuses |
| RoundTripOdf.ObjectReturns | src/json/parser.rs:472-537 | An object returns iff all items and children can, with room for each level |
| RoundTripOdf.ObjectsReturn | src/json/parser.rs:540-567 | A map of objects returns iff each of them can, with room left |
| RoundTripOdf.InfoReturns | src/json/parser.rs:376-436 | An item returns iff it has values, finite numbers and room: the writer drops an empty history that the parser demands |
| RoundTripOdf.RingReturns | src/json/parser.rs:309-340 | A history returns with the same values oldest first, with its own length as capacity |
| RoundTripOdf.ValueReturns | src/json/parser.rs:262-303 | A value returns iff its number and timestamp are finite and there is room; it is readable at all iff there is room |
| RoundTripOdf.OmiReturns | src/json/parser.rs:184-208 | Every value returns except a non-finite number, which returns as null |
| JsonByName.ReadIffTyped | src/json/parser.rs:1096-1120 | An object of any kind is read to its end iff every member, repeated ones included, is of the type its name asks for, or fits in the depth if its name asks for none |
| JsonByName.ReadMeans | src/json/parser.rs:731-764 | A read is one iff all members are of their types and exactly one of "path" and "rid" is there; each field is the last member of its name |
| JsonByName.WriteMeans | src/json/parser.rs:767-838 | A write has exactly one of "v", a list that is not empty, and a tree nested at most eight deep, and a path for the first and the last |
| JsonByName.DeleteMeans | src/json/parser.rs:901-918 | A delete is read iff its path starts with a slash and is not just that |
| JsonByName.CancelMeans | src/json/parser.rs:921-938 | A cancel is read iff its list of requests is not empty |
| JsonByName.ResponseMeans | src/json/parser.rs:941-973 | A response needs its status; the other parts are the members of their names |
| JsonByName.MessageMeans | src/json/parser.rs:649-725 | A message needs the version "1.0", a time to live and members of exactly one operation; it is what the last of them means |
| JsonByName.WriteItemMeans | src/json/parser.rs:862-895 | A batch element needs a path and a value |
| JsonByName.StatusMeans | src/json/parser.rs:1005-1048 | An item status needs a path and a status |
| JsonByName.ValueMeans | src/json/parser.rs:262-303 | A timestamped value needs "v"; its timestamp is the last "t" that is not null |
| JsonByName.MetaMeans | src/json/parser.rs:343-370 | Metadata has the keys of the members and the last value of each |
| JsonByName.InfoMeans | src/json/parser.rs:376-436 | An item needs "values"; the other parts are the last members of their names that are not null |
| JsonByName.ItemsMean | src/json/parser.rs:439-466 | Items: the keys of the members, each the item that its last value means |
| JsonByName.ObjectMeans | src/json/parser.rs:472-537 | An object needs a text "id"; the other parts are the last members of their names that are not null |
| JsonByName.ObjectsMean | src/json/parser.rs:540-567 | Objects: the keys of the members, each the object that its last value means |
| JsonByName.RingMeans | src/json/parser.rs:309-340 | A history holds the values of the array from its back, and has as many places, or one |
| JsonByName.ListsMean | src/json/parser.rs:840-1003 | Batches, request lists and status lists hold each element in its place |
| ReadResults.AnswerHolds | src/json/serializer.rs:397-420 | The bytes of the answer to a read are one JSON value whose "result" holds the path, each value in its order (other than finite numbers as null), and the metadata unless there is none |
| ReadResults.InfoWritten | src/json/serializer.rs:330-349 | A written item holds its type, description and metadata, and its history newest first unless it is empty |
| JsonOrder.UnknownInserted | src/json/parser.rs:1096-1120 | A member with an unknown key, anywhere, changes nothing if its value fits in the depth and makes the object unreadable if not |
| JsonOrder.OrderIrrelevant | src/json/parser.rs:262-303 | Distinct members in any order leave the same fields read, or fail in both orders |
| JsonOrder.MeaningIgnoresOrder | src/json/parser.rs:649-725 | For the members of one object: messages, objects, items and values do not depend on their order (JsonAlike.ShuffledMeansSame has every level) |
| JsonOrder.MeaningIgnoresUnknown | src/json/parser.rs:472-537 | For the members of one object, repeated keys included: messages, objects, items and values do not depend on unknown ones that fit in the depth (JsonAlike.AlikeMeansSame has every level) |
| JsonAlike.AlikeMeansSame | src/json/parser.rs:262-725 | Trees that are alike at every level, up to the order of the members looked for, other members that fit in the depth, and what skipped or refused containers hold, mean the same message, object, map of objects, item, value and history, or nothing both |
| JsonAlike.ShuffledMeansSame | src/json/parser.rs:262-725 | Reordering the members of distinct keys at every level of a tree changes nothing that it means |
| JsonAlike.ShuffledIsAlike | src/json/parser.rs:1096-1120 | A reordered tree is alike for every way of reading it |
| JsonBytes.ParseAlike | src/json/parser.rs:633-725 | Two byte texts of alike trees, in any spelling and white space, are parsed to the same message or both refused |
| JsonBytes.ParseText | src/json/parser.rs:633-725 | Bytes are parsed to a message iff they are a text of RFC 8259 of a tree that means it |
| JsonBytes.SkipText | src/json/parser.rs:119-178 | Skipping one value reaches the end of the bytes iff they are a JSON text nested at most MAX_DEPTH deep |
| JsonText.ReadIffText | src/json/lexer.rs:69-148 | Lexing and reading give one value and nothing after it iff the bytes are a text of that value: any white space between tokens (section 2), any spelling of strings and numbers (sections 6 and 7) |
| JsonText.WriteRead | src/json/lexer.rs:110-148 | Any text of a value, before anything that ends a number, is lexed to the value's tokens |
| JsonText.WriteFound | src/json/lexer.rs:110-148 | Bytes that are lexed to a value's tokens begin with a text of that value |
| JsonParser.JsonParser.SkipValue | src/json/parser.rs:119-178 | Succeeds iff the next tokens are one JSON value nested within the remaining depth, consumes exactly it, restores the depth, and recurses at most to the limit |
| JsonParser.JsonParser.SkipRestOfArray | src/json/parser.rs:211-234 | After an opening bracket: skips to its end iff the elements fit, one level up |
| JsonParser.JsonParser.SkipRestOfObject | src/json/parser.rs:236-258 | After an opening brace: skips to its end iff the members fit, one level up |
| JsonParser.JsonParser.SkipMember | src/json/parser.rs:236-258 | A key, a colon and one value that fits, and nothing else |
| JsonParser.JsonParser.Enter | src/json/parser.rs:72-79 | One level deeper, or an error at the limit |
| JsonParser.JsonParser.Leave | src/json/parser.rs:81-83 | One level up |
| JsonParser.JsonParser.ParseOmiValue | src/json/parser.rs:184-208 | Reads one value; containers are skipped and read as null |
| JsonParser.JsonParser.ParseFields | src/json/parser.rs:1096-1120 | The member loop reads exactly the members in grammar up to the brace and folds them into the fields |
| JsonParser.JsonParser.ParseElems | src/json/parser.rs:1123-1140 | The element loop reads exactly the elements in grammar up to the bracket |
| JsonParser.JsonParser.ParseValue | src/json/parser.rs:262-303 | Succeeds iff the next JSON value means a timestamped value, and consumes exactly it |
| JsonParser.JsonParser.ParseRingBuffer | src/json/parser.rs:309-340 | The history of the values listed newest first, or failure |
| JsonParser.JsonParser.FillRing | src/json/parser.rs:328-339 | Pushing from the back of the list gives the history in its logical order |
| JsonParser.JsonParser.ParseMetaMap | src/json/parser.rs:343-370 | The map that the next object means |
| JsonParser.JsonParser.ParseInfoItem | src/json/parser.rs:376-436 | The item that the next object means; values are demanded |
| JsonParser.JsonParser.ParseItemsMap | src/json/parser.rs:439-466 | The items that the next object means |
| JsonParser.JsonParser.ParseObject | src/json/parser.rs:472-537 | The object that the next JSON object means |
| JsonParser.JsonParser.ParseObjectsMap | src/json/parser.rs:540-567 | The map of objects that the next JSON object means |
| JsonParser.JsonParser.ParseWriteItem | src/json/parser.rs:862-895 | One element of a batch, or the missing field |
| JsonParser.JsonParser.ParseResponseResult | src/json/parser.rs:976-1003 | Null, a batch of statuses, or an object skipped to an empty payload |
| JsonParser.JsonParser.ParseItemStatus | src/json/parser.rs:1005-1048 | The status that the next object means |
| JsonParser.JsonParser.ParseOperation | src/json/parser.rs:731-973 | Each operation's sub-parser reads what its object means |
| JsonParser.JsonParser.ParseMessage | src/json/parser.rs:633-725 | A message iff the whole input is one JSON object that means it, and nothing follows |
| JsonParser.JsonParser.ExpectI64 | src/json/parser.rs:1060-1080 | An integer, or a number cast to one |
| JsonParser.JsonParser.ExpectU64 | src/json/parser.rs:1082-1092 | A non-negative i64 only |
| JsonGrammar.ReadIffSpelled | src/json/parser.rs:119-178 | Over tokens: recursive descent recognises exactly the token sequences of the grammar, each in one way (JsonText.ReadIffText is the same over bytes) |
| JsonLexer.Lexer.NextToken | src/json/lexer.rs:69-75 | Takes the first token of the unread stream, through the peeked one if there is one |
| JsonLexer.Lexer.PeekToken | src/json/lexer.rs:77-83 | Shows the first token and leaves the unread stream as it was |
| JsonLexer.Lexer.ExpectToken | src/json/lexer.rs:86-98 | Takes the first token iff it is of the sort of the expected one, whatever either carries |
| JsonLexer.Lexer.ScanNext | src/json/lexer.rs:110-148 | The token that the bytes at the position spell, and the position after it |
| JsonLexer.Lexer.ScanStringHere | src/json/lexer.rs:152-195 | The characters of a string and the position after its closing quote |
| JsonLexer.Lexer.ScanUtf8Here | src/json/lexer.rs:198-221 | One well-formed multi-byte character, or an error |
| JsonLexer.Lexer.ScanEscapeHere | src/json/lexer.rs:224-296 | One escape, with surrogate pairs joined and lone ones refused |
| JsonLexer.Lexer.ScanHex4Here | src/json/lexer.rs:299-321 | The value of four hex digits |
| JsonLexer.Lexer.ScanNumberHere | src/json/lexer.rs:351-440 | The longest number at the position, an integer where it has neither fraction nor exponent and fits |
| JsonSpelling.StringRead | src/json/lexer.rs:152-322 | Any mix of raw, short-escape, \u and surrogate-pair spellings decodes to the characters meant |
| JsonSpelling.StringSpelled | src/json/lexer.rs:152-322 | Whatever is accepted as a string is such a spelling of the result |
| JsonSpelling.PairRead | src/json/lexer.rs:255-290 | A high and a low surrogate decode to their code point and nothing else is read |
| JsonSpelling.NumberRead | src/json/lexer.rs:351-440 | Every number of section 6 of RFC 8259 is read as a whole, and nothing after it |
| JsonSpelling.NumberSpelled | src/json/lexer.rs:351-440 | Whatever is accepted as a number is one of that grammar |
| Utf8.EncodeDecode | src/json/lexer.rs:198-221 | Decoding undoes encoding for every character, in well-formed bytes of the announced length |
| Utf8.DecodeEncode | src/json/lexer.rs:198-221 | Encoding undoes decoding for every well-formed character |
| JsonPrint.QuotedRead | src/json/serializer.rs:254-274 | Scanning what was written for a string gives the string, for every string |
| JsonPrint.EscapeIsSpelling | src/json/serializer.rs:254-274 | What the escaper writes is a spelling in the lexer's sense |
| JsonPrint.IntegerTextValue | src/json/serializer.rs:204-232 | The decimal written for an integer is a number of the grammar that reads back as it |
| JsonPrint.PrintRead | src/json/serializer.rs:42-131 | The text of any tree is read as exactly the tree's tokens |
| JsonWriter.CallsWrite | src/json/serializer.rs:42-87 | The call sequence of a tree writes its text, with one comma between siblings and none elsewhere |
| JsonWriter.BalancedIsTree | src/json/serializer.rs:42-131 | The call sequences that keep the discipline of a stack of open containers and awaited values are exactly those of trees |
| JsonWriter.BalancedWrites | src/json/serializer.rs:42-131 | Every such sequence writes the text of a tree, wherever the writer stands |
| JsonWriter.MemberAdded | src/json/serializer.rs:42-87 | A key and a value extend the open object's text by one member |
| JsonWriter.ElemAdded | src/json/serializer.rs:42-55 | A value extends the open array's text by one element |
| JsonWriter.Closed | src/json/serializer.rs:63-80 | Closing gives the whole container's text and the state around it |
| JsonWriter.JsonWriter.EmitSeparator | src/json/serializer.rs:42-55 | A comma exactly before a later sibling, none after a key |
| JsonWriter.JsonWriter.WriteU64 | src/json/serializer.rs:220-232 | The digits collected from the low end and reversed are the decimal |
| JsonWriter.JsonWriter.I64Val | src/json/serializer.rs:102-105 | The decimal of a signed integer as one value |
| JsonWriter.JsonWriter.F64Val | src/json/serializer.rs:117-124 | A finite number as a decimal, anything else as null |
| JsonWriter.JsonWriter.WriteEscaped | src/json/serializer.rs:254-274 | The quoted text with every byte below 0x20, quote and backslash escaped |
| ToJson.WriteObject | src/json/serializer.rs:363-390 | Writes exactly the object truncated at the given depth |
| ToJson.WriteInfoItem | src/json/serializer.rs:330-349 | Writes the item's tree; an empty history is left out |
| ToJson.WriteMessage | src/json/serializer.rs:483-511 | Writes the message's tree, which the round trips and ReadResults read back |
| ToJson.MessageBytes | src/json/serializer.rs:282-286 | The bytes are the text of the message's tree |
| JsonDocs.TruncateAll | src/json/serializer.rs:357-361 | Nothing is cut off an object that ends above the depth |
| Shelling.TruncatedItems | src/json/serializer.rs:357-390 | Cut at a depth, exactly the items whose path has at most depth + 1 names stay, as they were |
| Shelling.TruncatedLabels | src/json/serializer.rs:357-390 | The same for objects, with id, type and description |
| Crc.ComputeCrc32 | src/compress.rs:69-82 | The loop computes the fold of the bit steps, complemented |
| Crc.FeedAllAppend | src/compress.rs:392-409 | The running register over any split equals one pass over the whole |
| Crc.FeedAllInjective | src/compress.rs:69-82 | Feeding the same bytes keeps different registers different |
| Crc.BurstDetected | src/compress.rs:69-82 | Two texts that differ only inside four consecutive bytes have different CRCs |
| Published.CrcOfDigits | src/compress.rs:69-82 | The check value of CRC-32 |
| Gzip.HeaderSkipped | src/compress.rs:283-389 | Every header of section 2.3 of RFC 1952 is skipped as a whole, for every flag byte |
| Gzip.HeaderFound | src/compress.rs:283-389 | A stream with the magic that got past the header began with exactly such a header |
| Gzip.BadMagicFails | src/compress.rs:291-299 | Without the magic any stream of more than ten bytes fails, and no byte is inflated |
| GzipFormat.NoInvalidHeader | src/compress.rs:283-299 | No stream, however it begins, is reported as having an invalid header |
| GzipStream.InflateState.Inflate | src/compress.rs:414-424 | One library call reads some input, hands over some output, and makes progress |
| GzipStream.GzipStreamDecompressor.ConsumeHeader | src/compress.rs:283-304 | The machine advances by the bytes taken, across any cut of the ten bytes |
| GzipStream.GzipStreamDecompressor.ConsumeExtraLen | src/compress.rs:321-336 | The same for the two length bytes |
| GzipStream.GzipStreamDecompressor.SkipExtraData | src/compress.rs:242-253 | The same for the extra field |
| GzipStream.GzipStreamDecompressor.SkipNullTerminated | src/compress.rs:350-377 | The same for name and comment, through the zero byte |
| GzipStream.GzipStreamDecompressor.ConsumeHeaderCrc | src/compress.rs:379-387 | The same for the header checksum |
| GzipStream.GzipStreamDecompressor.ProcessInflated | src/compress.rs:392-409 | Checksum and count stay those of all output handed over, the count modulo 2^32 |
| GzipStream.GzipStreamDecompressor.InflateAll | src/compress.rs:411-453 | Ends for every inflater that makes progress, and stands where the machine stands: at the end of the input, in the trailer, or failed |
| GzipStream.GzipStreamDecompressor.VerifyTrailer | src/compress.rs:470-496 | Done iff checksum and length both match, else the first mismatch |
| GzipStream.GzipStreamDecompressor.ConsumeTrailer | src/compress.rs:457-468 | The machine advances through the eight bytes, across any cut |
| GzipStream.GzipStreamDecompressor.Feed | src/compress.rs:230-274 | Feeding a chunk is running the machine over it: same verdict, same first error, and handed-over plus pending output is the machine's output |
| GzipStream.GzipStreamDecompressor.Finish | src/compress.rs:499-505 | Truncated exactly when not done |
| GzipStream.Decompress | src/compress.rs:230-505 | Feeding chunks gives the verdict and output of one pass over their concatenation |
| GzipFormat.AcceptsExactlyMembers | src/compress.rs:230-505 | Accepted with an output iff the stream starts with a member of RFC 1952 for it whose checksum and length match |
| GzipFormat.SameForEveryCut | src/compress.rs:230-505 | Two ways of cutting the same bytes agree, on exactly the members |
| GzipOneShot.GzipCompress | src/compress.rs:22-57 | The fixed header, the compressed data, checksum and length |
| GzipOneShot.GzipDecompress | src/compress.rs:89-125 | The bounded one-shot reader with its three checks |
| GzipOneShot.ReadersAgree | src/compress.rs:89-125 | On a stream with magic, method and no optional header fields, whose compressed data ends eight bytes before its end, the one-shot reader gives an output iff the streaming one does and it is within the limit |
| GzipOneShot.CompressedReadsBack | src/compress.rs:22-125 | If inflating undoes deflating, both readers return what was compressed |
| RingBuffer.RingBuffer.Push | src/odf/value.rs:67-78 | The buffer refines appending to the sequence and dropping its oldest value when full |
| RingBuffer.RingBuffer.Clear | src/odf/value.rs:80-84 | The empty sequence again |
| RingBuffer.RingBuffer.Get | src/odf/value.rs:87-95 | The logical index, through the wrap |
| RingBuffer.RingBuffer.Newest | src/odf/value.rs:104-109 | The last n of the sequence, newest first |
| RingBuffer.RingBuffer.Oldest | src/odf/value.rs:112-118 | The first n of the sequence, newest first |
| RingBuffer.RingBuffer.Range | src/odf/value.rs:121-131 | The stamped values between the bounds, newest first |
| RingBuffer.RingBuffer.Query | src/odf/value.rs:134-173 | Time filter first, then the count, newest first |
| RingBuffer.HoldsLast | src/odf/value.rs:67-84 | After any pushes and clears: exactly the last capacity values since the last clear, in order |
| RingBuffer.QueryAgrees | src/odf/value.rs:134-173 | A count-only query is newest or oldest, and newest wins over oldest |
| RingBuffer.RangeAgrees | src/odf/value.rs:121-161 | range and query agree iff no NaN decides a stamped value |
| RingBuffer.NaNDisagrees | src/odf/value.rs:121-161 | A concrete buffer on which they differ |
| RingBuffer.RangeSnoc | src/odf/value.rs:121-131 | A newer value stands in front of the range iff it is stamped and between the bounds |
| RingBuffer.QuerySnoc | src/odf/value.rs:134-173 | The same for a query, where either bound may be missing |
| RingBuffer.CountsCut | src/odf/value.rs:134-173 | A count keeps that many of the newest, or else of the oldest, of what is between the bounds |
| Paths.SpelledIsParsed | src/odf/tree.rs:50-80 | The path spelled for some segments parses to them iff each is not empty, not two dots, without slash and trimmed |
| Paths.ParsedIsGood | src/odf/tree.rs:50-80 | Only such segments come out of a path |
| Paths.SlashMissed | src/odf/tree.rs:50-80 | A name with a slash is spelled as another path |
| Paths.SpaceMissed | src/odf/tree.rs:50-80 | A name with outer spaces is spelled as another path |
| Tree.ResolveIs | src/odf/tree.rs:157-211 | resolve finds the item at the path, or else the object there |
| Tree.ResolveMutAgrees | src/odf/tree.rs:213-263 | The mutable walk, by its own recursion, finds what resolve finds, and an edit through it changes exactly that item |
| Tree.WriteValuePuts | src/odf/tree.rs:280-343 | The creating walk puts the old history plus one value at the path and reports creation iff no item was there |
| Tree.PutItemItems | src/odf/tree.rs:303-343 | Exactly the addressed item changes |
| Tree.PutItemLabels | src/odf/tree.rs:303-330 | Exactly the missing ancestors are created, each with its own id |
| Tree.DeleteAnswers | src/odf/tree.rs:403-450 | Ok iff something is there; the root is forbidden |
| Tree.DeleteItems | src/odf/tree.rs:403-450 | Exactly the addressed item goes, or else the items below the addressed object |
| Tree.DeleteObjects | src/odf/tree.rs:403-450 | Objects go only with their subtree |
| Tree.ShadowedChildAppears | src/odf/tree.rs:438-444 | A child hidden by an item of its name comes out unchanged |
| ObjectTree.ObjectTree.Resolve | src/odf/tree.rs:157-176 | The target of a path string, or the error |
| ObjectTree.ObjectTree.WriteValue | src/odf/tree.rs:280-343 | On the tree in place: one item changes, all else stays, true iff it was absent; a bad path changes nothing |
| ObjectTree.ObjectTree.WriteTree | src/odf/tree.rs:349-400 | On the tree in place: below the path the incoming item wins, elsewhere nothing changes |
| ObjectTree.ObjectTree.Delete | src/odf/tree.rs:403-450 | On the tree in place: exactly the item, or else the subtree, is gone |
| ObjectTree.ObjectTree.MarkWritable | src/omi/engine.rs:485-490 | Writes through the mutable reference to exactly the item that resolve finds |
| Merge.MergedItems | src/odf/object.rs:59-82 | Merging is path-wise override: the incoming item if there is one, else the old one |
| Merge.MergedLabels | src/odf/object.rs:59-82 | The same for type and description; the id is kept |
| Merge.MergeIdempotent | src/odf/object.rs:59-82 | Merging twice is merging once |
| Merge.MergeAssociative | src/odf/object.rs:59-82 | Merging is associative |
| Merge.BoundIrrelevant | src/odf/object.rs:59-82 | The depth bound of the model changes no result |
| WriteTree.MergeEachIs | src/odf/tree.rs:357-369 | Merging a batch one by one is merging it as one tree keyed by ids |
| WriteTree.KeyedById | src/odf/tree.rs:357-369 | A map whose keys are the ids is that tree |
| WriteTree.WriteTreeItems | src/odf/tree.rs:349-400 | Path by path: the incoming item below the target, else the old one |
| WriteTree.WriteTreeLabels | src/odf/tree.rs:372-386 | The way to the target exists afterwards; below it the incoming labels win |
| ItemPaths.WalkFinds | src/omi/engine.rs:284-307 | Every reported path spells the place of an item in the written object |
| ItemPaths.WalkReports | src/omi/engine.rs:284-307 | Every item of an object is reported, at the path of the ids that lead to it, whatever the keys |
| ItemPaths.BatchReports | src/omi/engine.rs:284-307 | The same for every object of a batch |
| ItemPaths.WalkCounts | src/omi/engine.rs:284-307 | As many paths are reported as there are items |
| ItemPaths.ParseBelow | src/omi/engine.rs:286-301 | A path below a base parses to the base's segments and the rest |
| ItemPaths.ResolvesIffLands | src/omi/engine.rs:309-325 | A path resolves to an item after a tree write into every tree iff it parses to the target's segments and then the place of an item in the merged batch |
| ItemPaths.ReportedPathsLand | src/omi/engine.rs:284-307 | Every reported path does, if keys below the top are ids and names can be addressed |
| ItemPaths.ReportedPathsResolve | src/omi/engine.rs:309-325 | So every such path resolves to an item after the write |
| ItemPaths.MiskeyedChildMissed | src/omi/engine.rs:284-307 | A child under a key that is not its id is reported at a path that does not land, while its key's path does |
| Collect.CollectFromObject | src/device.rs:132-153 | The two loops push the newest value of each writable item, items before children |
| Collect.CollectWritableItems | src/device.rs:123-129 | The list for the whole tree |
| Collect.FoundAllIs | src/device.rs:123-153 | Exactly the writable items with a history, each with its newest value |
| Collect.SameItemsSameList | src/device.rs:123-153 | The list, order included, depends only on what there is to save at each path |
| SavedCodec.SerializeSavedItems | src/device.rs:237-279 | The blob in the documented format, or the count, length and size errors |
| SavedCodec.DeserializeSavedItems | src/device.rs:282-362 | The moving position reads what the format says, or its first error |
| SavedCodec.LoadedIsSaved | src/device.rs:237-362 | Loading a saved blob gives the saved list, whatever follows it |
| SavedCodec.PrefixRejected | src/device.rs:282-362 | Every strict prefix of a blob is rejected as too short |
| SavedCodec.SavedInjective | src/device.rs:237-279 | Different lists have different blobs |
| SavedCodec.TextRoundTrip | src/device.rs:323-325 | Decoding UTF-8 undoes encoding |
| SavedCodec.ItemLayout | src/device.rs:224-235 | Every byte of an item in its documented place: lengths and numbers least significant byte first, tags, texts, timestamp |
| SavedCodec.BlobLayout | src/device.rs:224-235 | Version, count, and the items one behind the other |
| Restore.ReplaySaved | src/main.rs:318-332 | The restore loop is the fold of its rounds; bad paths are skipped |
| Restore.RestoresEach | src/main.rs:318-332 | Each saved item is there again, writable, with its newest value and timestamp; no other item is touched |
| Restore.CollectsAgain | src/main.rs:318-332 | Collecting again after a replay onto an empty tree gives the same list iff every name on the way to a saved item can be addressed |
| Restore.ReplayedDepth | src/main.rs:318-332 | The replayed tree is no deeper than the saved one |
| Restore.Restart | src/device.rs:123-362 | A whole restart, through the bytes, keeps all that was saved |
| Discovery.UpdateDiscoveryTree | src/device.rs:164-205 | The two loops on the tree in place, and the number of stale peers removed |
| Discovery.UpdateStaysInside | src/device.rs:164-205 | No host name, however spelled, reaches an item outside the discovery object |
| Discovery.ExactlyLivePeers | src/device.rs:156-163 | With addressable names exactly the hosts of the browse have an item afterwards, each with its last address newest and none newly writable; the count is that of the stale names |
| Cascade.WriteKeeps | src/omi/engine.rs:337-394 | Whatever the scripts do, items stay, and one that was not writable keeps its history and stays so |
| Cascade.RefusedChangesNothing | src/omi/engine.rs:348-365 | At every depth of a cascade a refused write changes nothing; refused are exactly non-writable items, objects and bad paths |
| Cascade.HintChanges | src/omi/engine.rs:681-691 | The hint leaves the tree as it is iff there is no encoding, no item at the path, or the item has the hint |
| Cascade.RefusedScriptWrite | src/omi/engine.rs:653-692 | A refused script write with its hint leaves the tree as it was iff that condition holds of the tree before it |
| Cascade.HintOnRefusingItem | src/omi/engine.rs:681-691 | A non-writable item that refuses a value and takes its hint |
| Cascade.ClampedInRange | src/omi/engine.rs:398-412 | With a limit of at least zero a number is in range afterwards iff it was, or is a number farther out than the tolerance; in range it stays as it is |
| AcceptedWrites.WriteStores | src/omi/engine.rs:337-394 | An accepted write appends exactly one value, clamped by definition, with its own timestamp or the server's, to one item, creates only what is missing, and its script sees that value and that tree; the answer says warning, created or changed |
| AcceptedWrites.BatchItemStores | src/omi/engine.rs:425-483 | The same for a batch item, with its own value and timestamp and an answer for both new item and warning |
| AcceptedWrites.SilentWrite | src/omi/engine.rs:366-394 | With no script, at the depth limit, or with a script that asks for nothing, the one new value is all that happens, and the one notice carries it |
| AcceptedWrites.WhyRefused | src/omi/engine.rs:348-365 | The reason of a refusal, case by case |
| AcceptedWrites.ScriptWrites | src/omi/engine.rs:653-692 | The writes of a script in order: each decoded by definition, with the event's timestamp, one level deeper, on the tree its predecessors left, followed by its hint |
| AcceptedWrites.BatchInOrder | src/omi/engine.rs:414-423 | The items of a batch in order, each on the tree its predecessors left, each with its own answer |
| Cascade.WriteBounded | src/omi/engine.rs:498-514 | At each depth at most 1 + b + ... writes to the limit |
| Cascade.CascadeBounded | src/omi/engine.rs:653-697 | At most 1 + b + b^2 + b^3 + b^4 writes from one user write when scripts ask for at most b each |
| Cascade.HintedKeeps | src/omi/engine.rs:681-691 | The encoding hint touches no history and no writability |
| Engine.Engine.WriteSingleInner | src/omi/engine.rs:337-394 | The method on the tree in place is the write of the cascade, with its response and notices; it ends by the depth measure |
| Engine.Engine.ClampIfConstrained | src/omi/engine.rs:398-412 | Clamps exactly numbers on an item with a numeric duty limit that differ from the clamped one by more than the tolerance |
| Engine.Engine.RunOnwriteScript | src/omi/engine.rs:498-534 | Runs the stored script below the depth limit, else nothing |
| Engine.Engine.ProcessPending | src/omi/engine.rs:653-692 | The loop over a script's writes, each one level deeper, each followed by its hint |
| Engine.Engine.StoreHint | src/omi/engine.rs:681-691 | Writes the hint through the mutable reference, and nothing else |
| Engine.Engine.ProcessWriteBatch | src/omi/engine.rs:414-423 | One status per item in order, notices concatenated |
| Engine.Engine.ProcessBatchItem | src/omi/engine.rs:425-483 | One batch item, neither clamped nor given a timestamp |
| Engine.Engine.ProcessWriteTree | src/omi/engine.rs:313-325 | Merges, and gives the notices of every reported path in order |
| Engine.EachToldIffLands | src/omi/engine.rs:309-325 | A tree write into any tree gives exactly one notice for each of some paths, with the newest value there, iff each of them lands in the batch |
| Engine.EveryPathNotified | src/omi/engine.rs:309-325 | So exactly one notice for every reported path, if keys below the top are ids and names can be addressed |
| Engine.BatchKeeps | src/omi/engine.rs:414-483 | The guarantee of single writes, over a whole batch |
| Engine.BatchItemIsSingle | src/omi/engine.rs:425-483 | With an explicit timestamp and no duty limit a batch item is the single write, but that a warning does not hide that the item is new |
| Wifi.BackoffFormula | src/wifi_sm.rs:222-228 | Each delay is min(initial * 2^min(r,16), max), saturation included, and later ones are not shorter |
| Wifi.StepInRange | src/wifi_sm.rs:121-183 | The index stays in range for every event iff a found SSID was in range |
| Wifi.WifiSm.HandleEvent | src/wifi_sm.rs:121-183 | State, rotation and action after each event |
| Wifi.IgnoredIffDeaf | src/wifi_sm.rs:121-183 | Exactly the events that the state does not listen to leave the machine as it was; a found network is tried, and only a success leaves nothing to do |
| Wifi.ConnectionGone | src/main.rs:545-558 | After a lost connection the credentials are tried from the first one up to the first that connects; if none does, one pause of twice the initial delay is set up, or the portal opens |
| Wifi.ReconnectRuns | src/main.rs:1023-1092 | Attempts from any credential on, for any outcomes: in order up to the first success, or all and the rotation is over |
| Wifi.WifiSm.StartBackoffOrPortal | src/wifi_sm.rs:210-220 | The end of a rotation, with the 32-bit counter wrapping |
| Wifi.WifiSm.CredentialsUpdated | src/wifi_sm.rs:186-196 | Restarts in range from a clamped index, or the portal without credentials |
| Wifi.WifiSm.InitialAction | src/wifi_sm.rs:110-118 | Agrees with the state |
| Wifi.DriveInitialConnect | src/main.rs:975-1020 | Ends for every sequence of outcomes, connected or with the portal, and indexes only existing credentials |
| Wifi.NoLuck | src/main.rs:975-1020 | All attempts failing: the credentials in order, once per rotation, a pause between, then the portal |
| Wifi.AllFailCounts | src/main.rs:975-1020 | n * max(1, max_rotations) attempts with one pause fewer than rotations |
| Wifi.FollowsUntilJoined | src/main.rs:975-1020 | Any run follows the all-failing one up to its first success, where it ends connected |
| Wifi.HandleReconnectAction | src/main.rs:1023-1092 | Ends for every action, machine and outcomes, checks each index, and settles portal, DNS, mode and deadline |
| Wifi.ReconnectFails | src/main.rs:1023-1092 | All attempts failing: one rotation, then a pause or the portal |
| Locks.LockManager.ReapExpired | scripts/device-lock-server.py:159-177 | A lock is gone iff it has expired or its recorded process is dead, a device entry iff a lock on it is gone; all else stays |
| Locks.LockManager.AcquireLock | scripts/device-lock-server.py:65-102 | Reaps, then grants the first free target, or says which error |
| Locks.LockManager.ReleaseLock | scripts/device-lock-server.py:104-110 | Drops the lock from both tables, true iff it was held |
| Locks.LockManager.Beat | scripts/device-lock-server.py:112-129 | Renews the lease of an existing lock and records the process |
| Locks.LockManager.ListLocked | scripts/device-lock-server.py:131-157 | Reaps, then shows for each device the lock on it |
| Locks.ReapedExactly | scripts/device-lock-server.py:159-177 | The same of the tables as values, for every request that reaps |
| Locks.AcquireMeans | scripts/device-lock-server.py:65-102 | All are locked iff every target is held by an unexpired lock of a process not known dead; else the first target that is not is granted for ttl; a pinned request gets its device or none |
| Locks.AbandonedGoes | scripts/device-lock-server.py:65-177 | Without another heartbeat a lock is gone from the first reap at or past its expiry on |
| Locks.InsertedInverse | scripts/device-lock-server.py:85-98 | A grant keeps the tables mutually inverse iff its id is not in use |
| Locks.RunInverse | scripts/device-lock-server.py:65-177 | Over any interleaving with fresh ids the tables stay mutually inverse |
| Locks.OneLockPerDevice | scripts/device-lock-server.py:65-102 | Then no device has two locks |
| Locks.RegularIsTended | scripts/device-lock-server.py:112-129 | With time moving forward, heartbeats less than ttl apart tend a lock |
| Locks.HeldThroughout | scripts/device-lock-server.py:65-177 | At every point of every run a regularly tended, unreleased lock of living processes holds its device, and no other lock does |
| Encoding.EncodeBase64 | src/gpio/encoding.rs:131-152 | The chunk loop writes the groups of section 4 of RFC 4648 |
| Encoding.DecodeBase64 | src/gpio/encoding.rs:105-129 | The accumulator stays below two to the number of pending bits, and the bytes are those spelled |
| Encoding.DecodeEncode | src/gpio/encoding.rs:105-152 | Decoding undoes encoding, for every byte string |
| Encoding.PaddingAndBlanksIgnored | src/gpio/encoding.rs:105-120 | Dropping the padding changes nothing, nor do spaces and line ends before it |
| Encoding.AcceptedBase64 | src/gpio/encoding.rs:105-129 | Read are exactly the texts that without their trailing padding hold only symbols and blanks |
| Encoding.BlanksMatterBehindPadding | src/gpio/encoding.rs:105-112 | Dropping the blanks changes nothing iff no padding is left in front of a last blank, or the text is refused without blanks too |
| Encoding.BlankAfterPadding | src/gpio/encoding.rs:105-106 | An instance of the exception |
| Encoding.DecodeHex | src/gpio/encoding.rs:79-90 | Pairs in base 16, or failure |
| Encoding.AcceptedHex | src/gpio/encoding.rs:79-90 | Accepted are exactly texts of even length whose pairs are a hex digit or a plus sign and then a hex digit |
| Encoding.HexIsStrictUnlessSigned | src/gpio/encoding.rs:79-90 | The result is that of base 16 iff no even position holds a plus sign in front of a hex digit, or the text is refused |
| Encoding.SplitExactly | src/gpio/encoding.rs:84-87 | The panic on a split character happens iff all pairs before some even position are read, and the byte behind the next pair continues a character; never for ASCII |
| Encoding.EncodeHex | src/gpio/encoding.rs:92-99 | Two lower-case digits a byte |
| Encoding.HexRoundTrip | src/gpio/encoding.rs:79-99 | Decoding undoes encoding |
| Published.Base64Table | src/gpio/encoding.rs:101-103 | The alphabet of table 1 of RFC 4648 |
| Published.Base64OfFoobar | src/gpio/encoding.rs:131-152 | Examples of section 10 of RFC 4648, with every kind of padding |
| Published.Utf8Examples | src/json/lexer.rs:198-221 | Examples of section 7 of RFC 3629, of one to four bytes |
| Published.JsonEscapes | src/json/lexer.rs:224-245 | Exactly the eight short escapes of section 7 of RFC 8259, with their meanings |
| Encoding.SignIsRead | src/gpio/encoding.rs:84-87 | An instance: a plus sign is accepted in front of a digit |
| Sha256.FillSchedule | src/crypto.rs:50-66 | The array filled from the block and from itself is the message schedule of section 6.2.2 of FIPS 180-4 |
| Sha256.CompressInPlace | src/crypto.rs:50-94 | The state array after a block is the standard's compression of the state before it |
| Sha256.Sha256 | src/crypto.rs:97-128 | The block loop and the two-block buffer fold the compression over the message padded as in section 5.1.1 of FIPS 180-4, written most significant byte first |
| Digest.PaddingInjective | src/crypto.rs:110-118 | Different messages, of any length, have different paddings |
| Digest.PaddedBlocks | src/crypto.rs:110-118 | The padded length is a multiple of 64 and the message is its prefix |
| Digest.FewestZeros | src/crypto.rs:110-118 | As few zeros as possible |
| Digest.LengthWraps | src/crypto.rs:99-99 | The length field repeats every 2^61 bytes |
| Blake2b.MixInPlace | src/crypto.rs:156-165 | Four array elements after the mixing function of section 3.1 of RFC 7693, and no others changed |
| Blake2b.CompressInPlace | src/crypto.rs:167-200 | The state array after a block is the compression function F of section 3.2 of RFC 7693 with its counter and final flag |
| Blake2b.Blake2b | src/crypto.rs:206-235 | The loop compresses the numbered blocks of section 3.3 of RFC 7693 with their counters and the final flag, and cuts the result to the asked length |
| Digest.NumberedIsWalk | src/crypto.rs:206-229 | Numbering the blocks and walking over the rest give the same digest |
| Digest.BlocksAre | src/crypto.rs:214-229 | max(1, ceil(n/128)) blocks that spell the message and then zeros |
| Published.CubeRoots | src/crypto.rs:6-27 | The round constants are the first 32 bits of the fractional parts of the cube roots of the first 64 primes |
| Published.Sha256OfAbc | src/crypto.rs:97-128 | The one-block example of FIPS 180: the digest of "abc" |
| PublishedBlake2b.Blake2bOfRamp | src/crypto.rs:206-235 | The reference digest of the bytes 0 to 127 |

## Left out

- JsonParser.JsonParser.ParseFields: one member loop over a record of fields stands for the per-type loops of the source; error values carry the kind of fault, not the byte position or the text of the message.
- JsonParser.JsonParser.SkipValue: its inline loops over elements and members are the two methods that the source also has for the rest of an array and of an object.
- ToJson.WriteObject: usize::MAX, the depth of an unbounded write, is taken as 2^32 - 1.
- ToJson.WriteMessage: `raw_json` splicing, pre-serialised payloads and the writer for the captive portal types are not modelled; the free functions that print envelopes without building a message are the same calls.
- JsonWriter.JsonWriter.F64Val: decimal printing and parsing are a parameter; rounding is not modelled.
- Tree.WriteValuePuts: the walk with a mutable reference is a recursive update of nested maps, so aliasing and update in place inside the tree are not captured; the tree's own field is updated in place.
- ObjectTree.ObjectTree.Resolve: errors carry their kind and not their message text.
- Merge.MergedItems: the loops that insert one entry at a time are map unions; `n` bounds the depth of the incoming objects and is only there for termination.
- RingBuffer.RingBuffer.Push: the PSRAM box is an array of the full capacity with a length.
- Cascade.WriteKeeps: notices stand for subscription deliveries; subscription state, the script engine itself and its resource limits are not modelled, nor are onread scripts, reads, polling and callbacks.
- Engine.Engine.ProcessWriteTree: a tree write has no writable check, in the source and here; `n` bounds the depth of the objects and is only there for termination.
- GzipOneShot.GzipDecompress: reads ten bytes of header whatever the flags say, as the source does; it agrees with the streaming reader under the condition of GzipOneShot.ReadersAgree, and may not where there are optional header fields or bytes behind the trailer.
- GzipStream.InflateState.Inflate: DEFLATE itself is any byte transducer; the free-heap gate in front of compression is not modelled.
- Wifi.DriveInitialConnect: radio, soft-AP and DNS calls are reduced to whether they succeed; the provisioning and portal reconnect handlers of the main loop are not modelled.
- Wifi.WifiSm.StartBackoffOrPortal: the counter wraps at 2^32 as in a release build; a debug build panics there.
- Locks.LockManager.AcquireLock: HTTP, logging and the mutex are left out; each request is one step.
- Encoding.DecodeHex: texts in which a pair would split a multi-byte character, on which the source panics, are refused; Encoding.SplitExactly says which they are.
- Engine.Engine.ClampIfConstrained: the subtraction in the tolerance test is a parameter; the source's clamp panics for a limit that is negative or not a number, where the model applies the two comparisons of the clamp and goes on.
- Encoding.DecodeBase64: shifts and masks are written as multiplication, division and remainder; the offending character is not part of the error.
- Sha256.Sha256: the definition is the standard's, transcribed; collision resistance and other cryptographic claims are not stated.
- The sensor tree builder: constant data.
- HTTP and WebSocket server, OTA, mDNS, page store, rate limiter, GPIO drivers, HTML and TUI rendering: input and output.
