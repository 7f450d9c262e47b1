# A verified model of the mv3D glTF importer

This project models, in Dafny, the self-contained glTF 2.0 importer of the
mv3D renderer (`mvImporter.cpp`) and the growable array `mvVector<T>` it is
built beside (`sJsonParser.h`). The importer is built in layers, and the
model follows them module by module:

| module | file | what it models |
|---|---|---|
| `Common` | common.dfy | bytes, C strings (`c_str` stops at the first NUL), the `mvU32` cast |
| `MvVectors` | vector.dfy | `mvVector<T>`: a class with `size`, `capacity` and a `data` array |
| `DataUri` | datauri.dfy | `isDataURI`, `is_base64`, `base64_decode`, `DecodeDataURI` |
| `Whitespace` | whitespace.dfy | `RemoveWhiteSpace`, a loop over two `char` arrays |
| `Tokenizer` | tokenizer.dfy | `ParseForTokens`, a loop with an `inString` flag and a pending buffer |
| `JsonStack` | stack.dfy | `mvStack`: a class with `data` and `currentIndex` |
| `TreeBuilder` | parser.dfy | `ParseJSON`: the stack machine that fills the object pool and the value pool |
| `JsonLookup` | lookup.dfy | `doesMemberExist`, `operator[]`, `getMember` and the `int`/`mvU32`/`char*` conversions |
| `Assets` | assets.dfy | the glTF records and the ten `mvImp::_Load*` loaders |
| `GltfLoader` | loader.dfy | `mvGLTFModel`, both `mvLoadGLTF` entry points and `mvCleanupGLTF` |

The state-changing code stays imperative:
- The stripper and the tokenizer work on `array<char>`.
- `mvStack` and `mvVector` are classes whose methods update their fields.
- The base64 decoder accumulates groups in a loop.
- `ParseJSON` drives a context object and two stack objects.
- The loaders fill fresh arrays.
- The entry points fill the image and buffer arrays of the model in place.

Each method is proved against a specification function:
- `Keep`/`Written` for the stripper;
- `Tokenize` for the tokenizer;
- `Decode` for the decoder;
- `Step`/`Run`/`ParseText` for the tree builder;
- `ScenesOf` … `AccessorsOf` for the loaders;
- `ResolvedImages`, `ResolvedBuffers`, `GlbImages`, `GlbBuffers` and `ChunkedBuffers` for the entry points.

The lemmas beside each function prove what the importer promises:
- base64 decoding undoes the standard encoding;
- the seven data-URI headers exclude each other;
- a quoted token is followed by a colon exactly when it is a member name;
- the pools of the tree builder only grow;
- string and primitive array elements become unnamed members in token order, and an object element adds one unnamed member naming the new object;
- a member's pre-set index is the one its value receives;
- lookups follow the first match;
- `atoi` reads back the decimal text of any integer;
- attributes are recorded in a fixed order;
- the GLB binary chunk lands in the first buffer;
- cleanup is idempotent.

Some behaviour of the source is reproduced as written, not as one might expect:
- Every token text keeps its trailing NUL.
- The stripper loses its last kept character to the NUL it writes at the size limit.
- `[` pops the member stack without writing an index.
- Objects inside arrays are tagged PRIMITIVE.
- Every scene is read from `scenes[0]`.
- `mvStack::push` compares the pushed value, not the index, with the slot count.
- The GLB path copies the first buffer's declared `byteLength`, whatever the chunk's own length.

Where the source reads out of range, the model requires the caller to stay in range:
- the fallback `members[0]`;
- a pop or top on an empty or full `MvStack`;
- a buffer view that does not fit its buffer.

The tree builder instead yields `None` where the source would read out of range (the look-ahead `tokens[i + 2]` past the last token, a member index outside its parent), never advance, or pop an empty member stack. That last case is a `[` directly inside an array, as in `{"a":[[1]]}`: the source's `pop` stores -1 in the first slot and leaves the stack index at -1, and the model stops there.

## Model

| member | source | states |
|---|---|---|
| Common.CStr | mvImporter.cpp:628-630 | what `strcmp` and `c_str` see of a string: the longest NUL-free prefix, ending where the first NUL stands |
| Common.CStrOfTerminated | mvImporter.cpp:324-328 | a NUL-free text with the tokenizer's NUL appended reads back as the text itself |
| Common.CStrOfPadded | mvImporter.cpp:400-404 | a NUL-free text followed by NUL and anything else reads as the text alone |
| Common.CStrOfPlain | mvImporter.cpp:751-754 | a text without NUL is its own C string |
| Common.U32Of | mvImporter.cpp:740-744 | the `mvU32` cast lands in [0, 2^32), keeps values already in range and differs from its input by a multiple of 2^32 |
| MvVectors.GrowCapacity | sJsonParser.h:34 | the grown capacity is at least the size asked for and at least half again the old capacity (8 from none), and it is one of those two |
| MvVectors.PushBackGrowth | sJsonParser.h:34-37 | a full vector pushed onto grows from 0 to 8 slots, otherwise to exactly twice its capacity |
| MvVectors.MvVector.constructor | sJsonParser.h:23 | a new vector has size 0, capacity 0, no buffer and no elements |
| MvVectors.MvVector.Empty | sJsonParser.h:26 | `empty()` holds exactly when there are no elements |
| MvVectors.MvVector.At | sJsonParser.h:28 | indexing within the size returns the element at that position |
| MvVectors.MvVector.Back | sJsonParser.h:32 | `back()` on a non-empty vector returns the last element |
| MvVectors.MvVector.GrowCapacityOf | sJsonParser.h:34 | the grown capacity covers both the size asked for and the current capacity |
| MvVectors.MvVector.Reserve | sJsonParser.h:36 | asking for no more than the capacity changes nothing; otherwise the capacity becomes exactly the amount asked for in a fresh buffer, with size and elements kept |
| MvVectors.MvVector.Resize | sJsonParser.h:35 | the size becomes the one asked for and the capacity covers it, grown by the growth rule only when it did not fit; the elements below both sizes are kept |
| MvVectors.MvVector.PushBack | sJsonParser.h:37 | the elements become the old ones followed by `v`; a full vector grows to 8 or to twice its capacity, any other keeps its buffer |
| MvVectors.MvVector.PopBack | sJsonParser.h:38 | a non-empty vector loses exactly its last element and keeps its buffer |
| MvVectors.MvVector.Clear | sJsonParser.h:29 | afterwards there are no elements and no buffer; a vector with a buffer is reset to size and capacity 0, one without keeps its counts |
| MvVectors.MvVector.Swap | sJsonParser.h:33 | the two vectors exchange size, capacity and buffer |
| MvVectors.MvVector.Assign | sJsonParser.h:24 | assigning another vector copies its size and elements; assigning a vector to itself leaves it empty, because `clear` runs first |
| DataUri.AlphabetIndexOfChar | mvImporter.cpp:146-149 | the range computation of a sextet's value inverts the base64 alphabet |
| DataUri.AlphabetCharOfIndex | mvImporter.cpp:130-134 | every character `is_base64` accepts is the alphabet character of its own value |
| DataUri.FindFromFirst | mvImporter.cpp:158 | `find` in the alphabet reports the first position that holds the character |
| DataUri.FindFromMissing | mvImporter.cpp:158 | `find` reports `npos`, which becomes 0xFF as an unsigned char, when the alphabet lacks the character |
| DataUri.SextetOfAlphabet | mvImporter.cpp:156-158 | looking up the alphabet character of a value gives the value back |
| DataUri.SextetOfBase64 | mvImporter.cpp:130-134 | an accepted character looks up as a value below 64 whose alphabet character it is |
| DataUri.SextetOfOther | mvImporter.cpp:173-177 | any other character, such as the NUL padding of a trailing group, looks up as 0xFF |
| DataUri.Consumed | mvImporter.cpp:151-152 | the decoder stops at the first `=` or character outside the alphabet, or at the end of the input |
| DataUri.AcceptedBeforeConsumed | mvImporter.cpp:151-152 | every character before the stopping point is accepted by the loop condition |
| DataUri.ConsumedIsStop | mvImporter.cpp:151-152 | the stopping point is exactly the first rejected position |
| DataUri.DecodeGroupsLength | mvImporter.cpp:155-184 | the output has 3 bytes per whole group of four characters, plus k - 1 bytes for a trailing group of k > 0 characters |
| DataUri.DecodeGroupsAppend | mvImporter.cpp:155-167 | decoding is group by group: whole groups split off the front decode on their own |
| DataUri.QuadLeadingBytes | mvImporter.cpp:162-165 | a group's first byte depends on its first two sextets only, its second byte on its first three |
| DataUri.TailIgnoresPadding | mvImporter.cpp:171-184 | the trailing group's NUL padding never reaches the bytes it emits: they are those of padding with `A` |
| DataUri.DecodeStopsAtRejected | mvImporter.cpp:151-152 | anything after the first rejected character leaves the decoded bytes unchanged |
| DataUri.Decode | mvImporter.cpp:136-188 | what `base64_decode` returns, the accepted prefix decoded group by group: never more bytes than characters consumed, and at least one byte once two characters are consumed (exact length in `DecodeGroupsLength`) |
| DataUri.Sextet | mvImporter.cpp:156-158 | `base64_chars.find(c)` cast to an unsigned char; stated by `SextetOfBase64` and `SextetOfOther` |
| DataUri.DecodeQuad | mvImporter.cpp:160-164 | one group's shifts and masks: four sextets give three bytes, each truncated to 8 bits |
| DataUri.DecodeChars | mvImporter.cpp:155-166 | one group of four characters looked up and decoded into three bytes |
| DataUri.TailBytes | mvImporter.cpp:171-185 | a trailing group of `k` characters padded with NUL gives its first `k - 1` bytes; stated by `TailIgnoresPadding` |
| DataUri.DecodeGroups | mvImporter.cpp:151-185 | the accepted characters decoded as whole groups then the trailing group; stated by `DecodeGroupsLength`, `DecodeGroupsAppend` and `DecodeByGroups` |
| DataUri.Base64Decode | mvImporter.cpp:136-188 | the decoder's loop returns the bytes of the accepted prefix, group by group, with the trailing group's k - 1 bytes |
| DataUri.TakeChar | mvImporter.cpp:153-168 | one turn of the loop keeps the held characters equal to the current partial group and the output equal to the decoded whole groups |
| DataUri.DecodeByGroups | mvImporter.cpp:151-185 | the decoded bytes are the whole groups in the loop's order followed by the trailing group's bytes |
| DataUri.EncodeBody | mvImporter.cpp:136-188 | the reference standard encoder emits only characters the decoder accepts |
| DataUri.TripleRoundTrip | mvImporter.cpp:160-166 | a group encoding three bytes decodes back to them |
| DataUri.PairRoundTrip | mvImporter.cpp:171-184 | a trailing group of three characters decodes back to the two bytes it encodes |
| DataUri.SingleRoundTrip | mvImporter.cpp:171-184 | a trailing group of two characters decodes back to the byte it encodes |
| DataUri.DecodeGroupsCons | mvImporter.cpp:155-167 | a whole group in front decodes on its own, ahead of the rest |
| DataUri.BodyRoundTrip | mvImporter.cpp:136-188 | decoding the unpadded encoding of any bytes gives the bytes back |
| DataUri.ShortBodyRoundTrip | mvImporter.cpp:171-184 | one or two final bytes, encoded without padding, decode back |
| DataUri.PairBodyRoundTrip | mvImporter.cpp:171-184 | two final bytes decode back |
| DataUri.SingleBodyRoundTrip | mvImporter.cpp:171-184 | one final byte decodes back |
| DataUri.RoundTrip | mvImporter.cpp:136-188 | `base64_decode` undoes the standard padded base64 encoding of any bytes |
| DataUri.MatchesFrom | mvImporter.cpp:96-128 | trying the headers in order finds a match exactly when some header from that position on starts the string |
| DataUri.IsDataUri | mvImporter.cpp:96-128 | `isDataURI` holds exactly when the string starts with one of the seven headers |
| DataUri.SignaturesDistinct | mvImporter.cpp:99-125 | the seven headers differ at positions 5, 11 and 17 |
| DataUri.HeadersExclusive | mvImporter.cpp:96-128 | no string starts with two different headers |
| DataUri.MatchedHeader | mvImporter.cpp:190-246 | a data URI determines its one matching header, and a string with no matching header is not a data URI |
| DataUri.ChainNoMatch | mvImporter.cpp:194-246 | when no header matches, the chain of attempts leaves the data empty and the MIME type as it was |
| DataUri.DecodeChain | mvImporter.cpp:194-246 | the chain of header tests: once some data has been decoded, no later header replaces it (the `data.empty()` guard) |
| DataUri.ChainFindsMatch | mvImporter.cpp:194-246 | the chain decodes the payload after the one matching header and sets the MIME type that header names, if any |
| DataUri.Payload | mvImporter.cpp:196-197 | the text after the matching header, `in.substr(header.size())` |
| DataUri.MimeAfter | mvImporter.cpp:200-246 | the MIME type a matching header sets: the image and text headers set theirs, the two buffer headers keep the old one |
| DataUri.Finish | mvImporter.cpp:248-262 | the tail of `DecodeDataURI`: fail on empty data or a size mismatch, keeping `out`; otherwise `out` becomes the data; stated by `DecodeDataUri` |
| DataUri.DecodeDataUri | mvImporter.cpp:190-263 | `DecodeDataURI` fails and leaves `out` as it was when no header matches, when the payload decodes to nothing, or when `checkSize` is set and the length is not `reqBytes`; otherwise `out` becomes the decoded bytes. The image and text headers set the MIME type whenever they match |
| Whitespace.Inside | mvImporter.cpp:378-381 | whether the stripper is inside a string after a prefix: every quote toggles the flag, escaped or not; stated by `InsideSnoc` |
| Whitespace.Keep | mvImporter.cpp:383-398 | the characters the stripper copies, in order: each one that is not blank or is read inside a string, and never more than the input; its properties are the `Keep*` lemmas below |
| Whitespace.Written | mvImporter.cpp:366-409 | what the stripper leaves in the output buffer: the kept characters before the first NUL, or, with no NUL among the `size` characters, the kept characters with the last one replaced by NUL; never longer than the input |
| Whitespace.KeepSnoc | mvImporter.cpp:383-398 | one more character is copied exactly when it is not blank or the scan is inside a string |
| Whitespace.InsideSnoc | mvImporter.cpp:378-381 | every `"` toggles the inside-string flag, escapes included |
| Whitespace.KeepPreservesInside | mvImporter.cpp:378-398 | every quote is kept, so the stripped text is inside a string exactly when the raw text is |
| Whitespace.KeepIdempotent | mvImporter.cpp:366-409 | stripping stripped text changes nothing |
| Whitespace.KeepUnquoted | mvImporter.cpp:383-398 | a text without quotes comes out with no space, tab, CR or LF, and with every other character it had |
| Whitespace.KeepDrawsFrom | mvImporter.cpp:388-397 | every character written comes from the input |
| Whitespace.NoQuoteOutside | mvImporter.cpp:378-381 | a text without quotes is never inside a string |
| Whitespace.RemoveWhiteSpace | mvImporter.cpp:366-409 | the output buffer holds the kept characters, with the last one replaced by NUL when the size limit is reached, and nothing at or past the size is written |
| Whitespace.CopyChar | mvImporter.cpp:378-398 | one turn of the loop extends the written prefix by the next kept character and updates the quote flag |
| Whitespace.WrittenAtNul | mvImporter.cpp:375 | a NUL ends the scan and leaves the kept characters before it, unterminated |
| Whitespace.WrittenTruncated | mvImporter.cpp:400-404 | at the size limit the last kept character is overwritten by NUL |
| Tokenizer.PunctuationType | mvImporter.cpp:297-303 | each of `{ } [ ] : ,` maps to a punctuation token type |
| Tokenizer.ScanChar | mvImporter.cpp:277-361 | one character of the loop: the string flag toggles on every quote and on nothing else, and the tokens so far are kept with at most two added |
| Tokenizer.ScanPrefix | mvImporter.cpp:265-362 | the state after the first `n` characters, one `ScanChar` per character with the raw character after it as look-ahead |
| Tokenizer.ScanPrefixInside | mvImporter.cpp:319-345 | after any prefix the tokenizer's string flag equals the stripper's quote parity `Whitespace.Inside` of the same prefix: both toggle on every quote and on nothing else |
| Tokenizer.Tokenize | mvImporter.cpp:265-364 | the tokens of a text, with whatever is pending at the end dropped; what it yields is stated by `TokenTexts`, `ColonIffMember` and `TrailingPrimitiveDropped` |
| Tokenizer.ParseForTokens | mvImporter.cpp:265-364 | the tokens are those of the text up to the first NUL |
| Tokenizer.ScanOne | mvImporter.cpp:277-361 | one turn of the loop: outside a string, punctuation flushes a pending primitive and emits itself; a closing quote emits MEMBER when the next raw character is `:`, else STRING; any other character is buffered |
| Tokenizer.ScanPrefixTexts | mvImporter.cpp:288-328 | every token so far is a single punctuation character or the collected characters plus one NUL |
| Tokenizer.TokenTexts | mvImporter.cpp:288-328 | every token of a NUL-free text has one of those two shapes |
| Tokenizer.ColonStep | mvImporter.cpp:331-334 | a member-name token is emitted only when `:` comes next, and that `:` is the next token |
| Tokenizer.ScanPrefixMembers | mvImporter.cpp:331-334 | after any prefix, every member name is followed by a colon or waits for the `:` that comes next |
| Tokenizer.MemberThenColon | mvImporter.cpp:331-334 | in the token sequence every MEMBER token is immediately followed by a COLON token |
| Tokenizer.StringStep | mvImporter.cpp:319-345 | a string token is emitted only when no `:` comes next, and whatever token follows it (a flushed primitive, the next quoted token, punctuation other than `:`) is not a colon |
| Tokenizer.ScanPrefixStrings | mvImporter.cpp:319-345 | after any prefix no string token is followed by a colon, and a string token at the end is not waiting for one |
| Tokenizer.StringNotBeforeColon | mvImporter.cpp:331-334 | in the token sequence no STRING token is immediately followed by a COLON token |
| Tokenizer.ColonIffMember | mvImporter.cpp:331-334 | a quoted token is immediately followed by a COLON token if and only if it is a MEMBER token |
| Tokenizer.TrailingPrimitiveDropped | mvImporter.cpp:355-363 | for any text `s` and any characters `p` that are neither a quote nor punctuation, `s + p` has exactly the tokens of `s`, and `p` ends up only in the pending buffer, which is never flushed: a primitive still pending at the end is never emitted |
| Tokenizer.TrailingPrimitiveExample | mvImporter.cpp:355-363 | `{"a":1` yields `{`, the member `a` and `:`, and no token for `1` |
| JsonStack.SlotsAfterPush | mvImporter.cpp:655-663 | a push never shrinks the slots; the first push gives 2048; the slots change only when the pushed value equals their count (2048 on first use), and then become twice the value |
| JsonStack.Pushed | mvImporter.cpp:655-666 | a push appends the value to the items |
| JsonStack.Popped | mvImporter.cpp:669-673 | a pop removes exactly the top item and keeps the slots |
| JsonStack.Resized | mvImporter.cpp:658-662 | growing the slot vector keeps its old contents |
| JsonStack.PushThenTop | mvImporter.cpp:655-679 | `top()` after `push(v)` is `v` |
| JsonStack.PushThenPop | mvImporter.cpp:655-673 | popping what was just pushed restores the items |
| JsonStack.FirstPush | mvImporter.cpp:657-663 | the first push always fits and leaves 2048 slots, or 4096 when the value pushed is 2048 |
| JsonStack.FullStackNotGrown | mvImporter.cpp:660-664 | a full stack of 2048 is not grown by pushing any value other than 2048, so the write lands out of range |
| JsonStack.PushKeepsSlots | mvImporter.cpp:660-663 | pushing a value other than the slot count keeps the slot count |
| JsonStack.MvStack.constructor | mvImporter.cpp:37-46 | a new stack is empty and has no slots |
| JsonStack.MvStack.Push | mvImporter.cpp:655-666 | the stack becomes the pushed state, and the slot vector is grown as the rule says and written at the old index |
| JsonStack.MvStack.Pop | mvImporter.cpp:669-673 | the stack becomes the popped state; the slot above the popped item (the old index) holds -1, and the popped item's slot keeps its value |
| JsonStack.TopOf | mvImporter.cpp:675-679 | `top()`: the last item pushed; stated by `PushThenTop` |
| JsonStack.MvStack.Top | mvImporter.cpp:676-679 | `top()` returns the last item pushed and not popped |
| JsonStack.MvStack.Empty | mvImporter.cpp:682-685 | `empty()` holds exactly when no item is on the stack |
| TreeBuilder.Initial | mvImporter.cpp:428-433 | before the first token each stack holds just 0 |
| TreeBuilder.SetIndex | mvImporter.cpp:456 | writing a member's index changes that member's index and nothing else of the object |
| TreeBuilder.AddMember | mvImporter.cpp:474 | a `push_back` on the members appends the member and keeps the object's type |
| TreeBuilder.AddMembers | mvImporter.cpp:569-599 | several `push_back`s append the members in order |
| TreeBuilder.MemberFor | mvImporter.cpp:515-537 | the member a MEMBER token adds carries the token's text as its name |
| TreeBuilder.OnLeftBrace | mvImporter.cpp:445-481 | `{` appends exactly one empty object and pushes its index, and succeeds only under an object or array parent; under an object parent the member on top of the member stack gets the new index and is popped, under an array parent one unnamed PRIMITIVE-typed member naming the new object is appended; no other existing object and no stored text changes |
| TreeBuilder.OnLeftBracket | mvImporter.cpp:483-493 | `[` succeeds exactly when its push fits and the member stack is non-empty; it appends one empty array, changes no existing object (no member index is written), pushes the array and drops the member stack's top |
| TreeBuilder.OnClose | mvImporter.cpp:495-509 | `}` and `]` succeed exactly when the object stack can be popped, and change nothing else: the object stack loses its top |
| TreeBuilder.OnMember | mvImporter.cpp:511-543 | a MEMBER with no token two places on gives `None`; otherwise the parent gains exactly one member, named by the token text, whose position is pushed on the member stack, while the pool sizes, the texts and the object stack stay |
| TreeBuilder.OnValue | mvImporter.cpp:545-603 | a string or primitive appends its text to the values, or changes nothing under a parent that is neither object nor array; the object count and the object stack stay |
| TreeBuilder.Step | mvImporter.cpp:442-608 | one turn of the switch; a comma, a colon or an untyped token changes nothing |
| TreeBuilder.Run | mvImporter.cpp:436-610 | the loop over `tokens[i..j]`, `None` as soon as a step is; what it builds is stated by `RunGrows`, `RunSplit`, `MemberPresetMatches`, `ArrayElementsInOrder` and `ArrayObjectElement` |
| TreeBuilder.ParseTokens | mvImporter.cpp:428-611 | the machine from the sentinel state over all tokens, then the final pop of the object stack; stated by `RootAfterBrace` and `ParsedText` |
| TreeBuilder.Stripped | mvImporter.cpp:400-404 | the text the tokenizer reads: the kept characters without the last, which the stripper overwrote with NUL; tied to the buffer by `WrittenText` |
| TreeBuilder.ParseText | mvImporter.cpp:411-611 | the document `ParseJSON` builds: strip, tokenize, run the machine; `None` when a NUL lies among the `size` characters or nothing is kept; `ParseJson` is proved against it |
| TreeBuilder.StepGrows | mvImporter.cpp:445-608 | one token never removes an object and never changes a stored value |
| TreeBuilder.RunGrows | mvImporter.cpp:436-610 | the whole loop only grows both pools |
| TreeBuilder.RootAfterBrace | mvImporter.cpp:445-462 | a leading `{` creates the root as object 1, points the sentinel's member at it, and leaves stacks [0, 1] and [] |
| TreeBuilder.AfterMemberColon | mvImporter.cpp:511-543 | a MEMBER token and its colon append the member, typed by the token two places on, and push its position |
| TreeBuilder.MemberPresetMatches | mvImporter.cpp:483-600 | the index a MEMBER token pre-sets is the slot its object, array, string or primitive value then receives |
| TreeBuilder.ArrayObjectElement | mvImporter.cpp:464-479 | inside an array, `{` succeeds iff the object stack can take the new index; it appends one unnamed PRIMITIVE-typed member naming the new object, creates that object empty at that index and makes it the parent, leaving every other object, the texts and the member stack unchanged |
| TreeBuilder.RunSplit | mvImporter.cpp:436-610 | the loop over a range is the loop over any split of it |
| TreeBuilder.ValueTexts | mvImporter.cpp:545-603 | the value texts of a token run are at most one per token |
| TreeBuilder.ElementMembers | mvImporter.cpp:566-569 | array elements are unnamed PRIMITIVE-typed members pointing at consecutive value slots |
| TreeBuilder.ArrayElementsInOrder | mvImporter.cpp:559-600 | inside an array, string and primitive tokens become unnamed members in token order, each pointing at its own stored text |
| TreeBuilder.RunSplit2 | mvImporter.cpp:436-610 | the loop up to one more token is the loop so far followed by one step |
| TreeBuilder.ArrayElementStep | mvImporter.cpp:559-600 | one more element token keeps the elements in token order |
| TreeBuilder.JsonContext.constructor | mvImporter.cpp:414 | a new context has empty pools |
| TreeBuilder.WrittenText | mvImporter.cpp:419-423 | the tokenizer reads the stripped text up to the NUL the stripper wrote |
| TreeBuilder.ParseJson | mvImporter.cpp:411-621 | the pools of the returned context are the document the token machine builds from the stripped text |
| TreeBuilder.ParseTokensInto | mvImporter.cpp:435-610 | the loop leaves the context and stacks in the state the machine reaches after all tokens |
| TreeBuilder.ParsedText | mvImporter.cpp:611 | the final pop of the object stack succeeds and the document is the pools reached |
| TreeBuilder.ParseToken | mvImporter.cpp:442-608 | the switch moves the context and stacks by exactly one machine step |
| TreeBuilder.ParseLeftBrace | mvImporter.cpp:445-481 | `{` adds an object, links it from the parent's pending member or as an array element, and pushes it |
| TreeBuilder.ParseLeftBracket | mvImporter.cpp:483-493 | `[` adds an array, pushes it and pops the member stack without writing an index |
| TreeBuilder.ParseClose | mvImporter.cpp:495-509 | `}` and `]` pop the object stack |
| TreeBuilder.ParseMember | mvImporter.cpp:511-543 | a MEMBER token appends the member to its parent and pushes its position |
| TreeBuilder.ParseValue | mvImporter.cpp:545-603 | a string or primitive is stored and linked from the pending member, or appended as an unnamed element in an array |
| JsonLookup.ObjectAt | mvImporter.cpp:756-759 | `jsonObjects[k]` within range is that object |
| JsonLookup.ValueAt | mvImporter.cpp:737 | `primitiveValues[k]` within range is that text |
| JsonLookup.FirstMatchFrom | mvImporter.cpp:690-696 | the scan from a position finds the first member with the name, or reports that none has it |
| JsonLookup.FirstMatch | mvImporter.cpp:690-696 | the scan finds the first member with the name, or reports that none has it |
| JsonLookup.ObjectHasMember | mvImporter.cpp:687-699 | `doesMemberExist` on an object: whether some member's name `strcmp`-equals the key; stated by `HasMemberMeans` |
| JsonLookup.ContextHasMember | mvImporter.cpp:623-635 | `doesMemberExist` on the context, asked of the root `jsonObjects[1]`; stated by `ContextLookupsAskRoot` |
| JsonLookup.ObjectGet | mvImporter.cpp:707-719 | `operator[](key)` on an object: the object the first matching member indexes, else the sentinel `jsonObjects[0]`; stated by `ObjectGetMeans` |
| JsonLookup.ContextGet | mvImporter.cpp:637-652 | `operator[](key)` on the context, asked of the root `jsonObjects[1]`; stated by `ContextLookupsAskRoot` |
| JsonLookup.GetMember | mvImporter.cpp:721-733 | `getMember(key)`: the first matching member, else `members[0]`; stated by `GetMemberMeans` |
| JsonLookup.HasMemberMeans | mvImporter.cpp:688-699 | `doesMemberExist` holds exactly when some member's name equals the key up to its NUL |
| JsonLookup.ContextLookupsAskRoot | mvImporter.cpp:624-652 | the context's lookups are those of the root object `jsonObjects[1]` |
| JsonLookup.ObjectGetMeans | mvImporter.cpp:708-719 | `operator[](key)` follows the first member with the name, and yields the sentinel `jsonObjects[0]` when there is none |
| JsonLookup.GetMemberMeans | mvImporter.cpp:722-733 | `getMember` yields the first member with the name, and `members[0]` when there is none |
| JsonLookup.MemberAt | mvImporter.cpp:702-705 | positional access yields one of the object's members |
| JsonLookup.AsText | mvImporter.cpp:751-754 | `operator char*` is a NUL-free prefix of the stored text |
| JsonLookup.AsInt | mvImporter.cpp:735-738 | `operator int`: `atoi` of the stored text up to its NUL; read back by `IntFieldReads` |
| JsonLookup.AsU32 | mvImporter.cpp:740-744 | `operator mvU32` is the `atoi` value reduced mod 2^32, negative values wrapping to value + 2^32 |
| JsonLookup.AsObject | mvImporter.cpp:756-759 | `operator mvJsonObject&`: the object at the member's index |
| JsonLookup.NameWithNulMatches | mvImporter.cpp:628-630 | a member name stored with its NUL matches the key it spells |
| JsonLookup.SkipSpace | mvImporter.cpp:737 | `atoi` skips leading white space to a suffix that does not start with space |
| JsonLookup.LeadingDigits | mvImporter.cpp:737 | `atoi` reads the longest run of decimal digits |
| JsonLookup.NatText | mvImporter.cpp:737 | the reference decimal text of a natural number is a non-empty run of digits |
| JsonLookup.NatTextValue | mvImporter.cpp:737 | the digits of a natural number's decimal text have that value |
| JsonLookup.DigitsBeforeStop | mvImporter.cpp:737 | the digit run stops at the first non-digit |
| JsonLookup.Atoi | mvImporter.cpp:735-744 | C `atoi` as the conversions call it: white space, an optional sign, then the leading digits; the result is negative only when the first non-space character is `-`; reading back is `AtoiOfIntText` |
| JsonLookup.AtoiOfIntText | mvImporter.cpp:735-738 | `operator int` reads back any integer from its decimal text, whatever non-digit (such as the token's NUL) follows |
| JsonLookup.AtoiOfNatText | mvImporter.cpp:735-738 | `atoi` reads back any natural number from its decimal text |
| JsonLookup.AtoiOfNegative | mvImporter.cpp:735-738 | `atoi` reads back a negative number written with `-` |
| Assets.IntField | mvImporter.cpp:812-813 | an `int` field is assigned only when its key is present |
| Assets.TextField | mvImporter.cpp:809-810 | a text field is assigned only when its key is present, and then it holds no NUL |
| Assets.IntFieldReads | mvImporter.cpp:812-813 | when the first member with the key stores the decimal text of `n`, the field becomes `n` |
| Assets.KindOfRank | mvImporter.cpp:923-946 | the attribute kinds are tried in the ranks POSITION, TANGENT, NORMAL, TEXCOORD_0 |
| Assets.KindRank | mvImporter.cpp:923-946 | every kind has one of the four ranks |
| Assets.KindRoundTrip | mvImporter.cpp:923-946 | rank and kind correspond one to one |
| Assets.KeyValues | mvImporter.cpp:923-946 | four values are looked up, one per kind |
| Assets.KeyValue | mvImporter.cpp:923-927 | one `if (doesMemberExist(key))` block: the `atoi` of the first member named by the kind's key, if present |
| Assets.Recorded | mvImporter.cpp:923-946 | the attributes recorded for the first `r` kinds, one per present key, in rank order; stated by `RecordedRanked`, `RecordedPresent` and `RecordedAbsent` |
| Assets.Attributes | mvImporter.cpp:918-947 | a primitive's attribute list, in the fixed order POSITION, TANGENT, NORMAL, TEXCOORD_0; stated by `AttributesInOrder` and `AttributesFit` |
| Assets.RecordedRanked | mvImporter.cpp:923-946 | the recorded attributes are in strictly increasing rank |
| Assets.RecordedPresent | mvImporter.cpp:923-946 | a kind whose key is present is recorded with its value |
| Assets.RecordedAbsent | mvImporter.cpp:923-946 | a kind whose key is absent is not recorded |
| Assets.AttributesInOrder | mvImporter.cpp:918-947 | attributes are recorded in the fixed order POSITION, TANGENT, NORMAL, TEXCOORD_0, each present key with the `atoi` of its first member, no absent one |
| Assets.AccessorTypeOf | mvImporter.cpp:1239-1253 | only SCALAR, VEC2, VEC3 and VEC4 are mapped; any other text leaves the type as it was |
| Assets.Elements | mvImporter.cpp:779-786 | an index list holds the `mvU32` of every array element, in order |
| Assets.PrimitivesOf | mvImporter.cpp:902-905 | one primitive per element of `primitives` |
| Assets.SceneOf | mvImporter.cpp:777-787 | one scene record: the `nodes` elements when present, else the default; stated by `LoadScene` and `EmptyObjectKeepsDefaults` |
| Assets.NodeOf | mvImporter.cpp:806-873 | one node record: name, mesh, skin, children and the matrix flag, each taken only when present; stated by `LoadNode` |
| Assets.PrimitiveOf | mvImporter.cpp:908-947 | one primitive record: indices, material and attributes, each only when present; stated by `LoadPrimitive` |
| Assets.MeshOf | mvImporter.cpp:893-951 | one mesh record: name and primitives, each only when present; stated by `LoadMesh` |
| Assets.TextureIndex | mvImporter.cpp:1014-1017 | the `index` of a texture-info object, taken only when both the object and its `index` are present |
| Assets.MaterialOf | mvImporter.cpp:970-1047 | one material record: name, alpha mode (anything but `OPAQUE`), the five texture indices and `doubleSided[0] == 't'`, each only when present; stated by `LoadMaterials` |
| Assets.FirstChar | mvImporter.cpp:1047 | `text[0]` of a C string: NUL for the empty text |
| Assets.TextureOf | mvImporter.cpp:1066-1078 | one texture record: sampler, source and name, each only when present; stated by `LoadTextures` |
| Assets.SamplerOf | mvImporter.cpp:1095-1110 | one sampler record: the four filters, each only when present; stated by `LoadSamplers` |
| Assets.ImageOf | mvImporter.cpp:1127-1139 | one image record: uri, MIME type and buffer view, each only when present; stated by `LoadImages` |
| Assets.BufferOf | mvImporter.cpp:1156-1165 | one buffer record: uri and byte length, each only when present; stated by `LoadBuffers` |
| Assets.BufferViewOf | mvImporter.cpp:1182-1201 | one buffer-view record: name, buffer, offset, length and stride, each only when present; stated by `LoadBufferViews` |
| Assets.AccessorOf | mvImporter.cpp:1218-1274 | one accessor record: name, offset, count, component type, buffer view and the mapped type, each only when present; stated by `LoadAccessors` |
| Assets.EmptyObjectKeepsDefaults | mvImporter.cpp:763-1278 | an object with no members yields the default record of every kind, since only present keys are copied |
| Assets.ScenesOf | mvImporter.cpp:769-774 | one scene per element of `scenes` |
| Assets.MaterialsOf | mvImporter.cpp:964-970 | one material per element of `materials` |
| Assets.TexturesOf | mvImporter.cpp:1060-1066 | one texture per element of `textures` |
| Assets.SamplersOf | mvImporter.cpp:1089-1095 | one sampler per element of `samplers` |
| Assets.ImagesOf | mvImporter.cpp:1121-1127 | one image per element of `images` |
| Assets.BuffersOf | mvImporter.cpp:1150-1156 | one buffer per element of `buffers` |
| Assets.BufferViewsOf | mvImporter.cpp:1176-1182 | one view per element of `bufferViews` |
| Assets.AccessorsOf | mvImporter.cpp:1212-1218 | one accessor per element of `accessors` |
| Assets.LoadEach | mvImporter.cpp:1055-1278 | the flat loaders return null and keep the count when the key is absent; otherwise they return exactly one record per element, each filled from its element, and raise the count by their number |
| Assets.LoadIndices | mvImporter.cpp:779-786 | the index loop writes the array elements in order |
| Assets.LoadScene | mvImporter.cpp:777-787 | a scene's node list is the `nodes` elements when the key is present |
| Assets.LoadScenes | mvImporter.cpp:763-793 | `_LoadScenes` returns null when `scenes` is absent, else one record per element, every one read from `scenes[0]` |
| Assets.LoadNode | mvImporter.cpp:806-873 | a node copies name, mesh, skin, children and the matrix flag only when present |
| Assets.NodesOf | mvImporter.cpp:801-806 | one node per element of `nodes` |
| Assets.LoadNodes | mvImporter.cpp:795-879 | `_LoadNodes` returns null when `nodes` is absent, else one node per element, each from its own element |
| Assets.RecordedGrows | mvImporter.cpp:923-946 | the recorded attributes only grow as ranks are tried |
| Assets.RecordedStep | mvImporter.cpp:923-946 | trying one more rank appends its attribute exactly when its key is present |
| Assets.RecordAttribute | mvImporter.cpp:923-927 | one `if` block writes the attribute at the running count and bumps it, only when its key is present |
| Assets.LoadAttributes | mvImporter.cpp:918-947 | the attribute block yields the attributes in the fixed order |
| Assets.LoadPrimitive | mvImporter.cpp:908-947 | a primitive copies indices, material and attributes only when present |
| Assets.LoadPrimitives | mvImporter.cpp:899-951 | the primitive loop writes one primitive per element, at the loop index |
| Assets.LoadMesh | mvImporter.cpp:893-951 | a mesh copies its name and primitives only when present |
| Assets.MeshesOf | mvImporter.cpp:887-893 | one mesh per element of `meshes` |
| Assets.LoadMeshes | mvImporter.cpp:881-957 | `_LoadMeshes` returns null when `meshes` is absent, else one mesh per element written at the loop index |
| Assets.LoadMaterials | mvImporter.cpp:959-1053 | `_LoadMaterials` returns null when `materials` is absent, else one material per element with only the present keys copied |
| Assets.LoadTextures | mvImporter.cpp:1055-1082 | `_LoadTextures` returns null when `textures` is absent, else one texture per element |
| Assets.LoadSamplers | mvImporter.cpp:1084-1114 | `_LoadSamplers` returns null when `samplers` is absent, else one sampler per element |
| Assets.LoadImages | mvImporter.cpp:1116-1143 | `_LoadImages` returns null when `images` is absent, else one image per element |
| Assets.LoadBuffers | mvImporter.cpp:1145-1169 | `_LoadBuffers` returns null when `buffers` is absent, else one buffer per element |
| Assets.LoadBufferViews | mvImporter.cpp:1171-1205 | `_LoadBufferViews` returns null when `bufferViews` is absent, else one view per element |
| Assets.LoadAccessors | mvImporter.cpp:1207-1278 | `_LoadAccessors` returns null when `accessors` is absent, else one accessor per element |
| Assets.AttributesFit | mvImporter.cpp:920-946 | at most as many attributes are recorded as `attributes` has members, so no write leaves the array |
| Assets.KeyPositions | mvImporter.cpp:923-946 | each kind is looked up at the first member named by its key |
| Assets.Positions | mvImporter.cpp:923-946 | each position in the set is one of the positions looked up for the first `r` attribute kinds |
| Assets.RecordedCount | mvImporter.cpp:920-946 | one attribute is recorded per distinct member position found |
| Assets.NamesDiffer | mvImporter.cpp:923-946 | no member matches two of the four keys |
| GltfLoader.CharBuffer | mvImporter.cpp:1413 | the parser's buffer holds the file's bytes from the given offset |
| GltfLoader.ReadU32 | mvImporter.cpp:1407-1412 | a little-endian header field is a 32-bit value |
| GltfLoader.U32RoundTrip | mvImporter.cpp:1407-1412 | a header field written as four little-endian bytes reads back as written |
| GltfLoader.EmptyModel | mvImporter.cpp:1324-1326 | a new model holds no arrays and zero counts, with the root set |
| GltfLoader.LoadAssets | mvImporter.cpp:1340-1349 | the ten loaders fill every array with the records of the document, null when its key is absent |
| GltfLoader.ResolveTextImages | mvImporter.cpp:1351-1369 | each image is decoded when its URI is a data URI and marked embedded, else marked not embedded |
| GltfLoader.ResolveTextBuffers | mvImporter.cpp:1371-1393 | each buffer is decoded from its data URI, checked against its byte length, or read from `root + uri` |
| GltfLoader.LoadBinaryChunk | mvImporter.cpp:1440-1441 | the first buffer receives the declared byte length of bytes from the chunk start; the other buffers are untouched |
| GltfLoader.ResolveGlbImages | mvImporter.cpp:1445-1475 | an image that names a buffer view takes the view's bytes and is embedded; any other is resolved as in the text path |
| GltfLoader.ResolveGlbBuffers | mvImporter.cpp:1477-1502 | a buffer that already holds data is skipped; any other is resolved as in the text path |
| GltfLoader.Cleanup | mvImporter.cpp:1510-1568 | `mvCleanupGLTF` leaves all ten arrays null and all counts 0 |
| GltfLoader.ResolvedImage | mvImporter.cpp:1353-1367 | one image after the text path: a data URI is decoded into `data`, kept as it was when decoding fails, and marks the image embedded; any other URI only marks it not embedded; stated by `ResolvedImageMeans` |
| GltfLoader.ResolvedBuffer | mvImporter.cpp:1373-1391 | one buffer after the text path: a data URI replaces `data` only when it decodes to exactly `byteLength` bytes; any other URI reads the file at `root + uri`; stated by `ResolvedBufferMeans` |
| GltfLoader.GlbImage | mvImporter.cpp:1447-1473 | one image after the binary path: one that names a view takes the view's bytes and is embedded, any other is resolved as in the text path; stated by `GlbImageFromView` |
| GltfLoader.GlbBuffer | mvImporter.cpp:1479-1500 | one buffer after the binary path: kept when it holds data, else resolved as in the text path; stated by `GlbBufferKeepsData` |
| GltfLoader.HasBinaryChunk | mvImporter.cpp:1434 | the binary chunk is read exactly when the 32-bit sum `chunkLength + 20` differs from the header's `length`; stated by `NoBinaryChunk` |
| GltfLoader.ChunkedBuffers | mvImporter.cpp:1434-1443 | the buffers after the binary chunk is copied into the first one; stated by `BinaryChunkCopied` |
| GltfLoader.ReadFile | mvImporter.cpp:1281-1317 | `_ReadFile`: the bytes stored under a path, none for a missing file |
| GltfLoader.Chars | mvImporter.cpp:1405 | the file's bytes seen through a `char*` |
| GltfLoader.TotalLength | mvImporter.cpp:1409 | the header's `length` field at offset 8 |
| GltfLoader.JsonLength | mvImporter.cpp:1411 | the JSON chunk's `chunkLength` field at offset 12; stated by `HeaderLengths` |
| GltfLoader.JsonChunk | mvImporter.cpp:1413-1421 | the `chunkLength` characters from offset 20 that the parser is handed |
| GltfLoader.ChunkBuffer | mvImporter.cpp:1438-1441 | the first buffer's data becomes `byteLength` bytes from offset `28 + chunkLength` |
| GltfLoader.ResolvedImages | mvImporter.cpp:1351-1369 | the text path's image pass neither adds nor drops an image |
| GltfLoader.ResolvedBuffers | mvImporter.cpp:1371-1393 | the text path's buffer pass neither adds nor drops a buffer |
| GltfLoader.ResolveBuffer | mvImporter.cpp:1375-1391 | the buffer loop body decodes a data URI or reads the file under the root |
| GltfLoader.GlbImages | mvImporter.cpp:1445-1475 | the GLB image pass neither adds nor drops an image |
| GltfLoader.GlbBuffers | mvImporter.cpp:1477-1502 | the GLB buffer pass neither adds nor drops a buffer |
| GltfLoader.ResolveText | mvImporter.cpp:1351-1393 | the text path's two passes resolve every image and every buffer |
| GltfLoader.LoadTextDocument | mvImporter.cpp:1340-1393 | the text path fills all ten arrays from the document, with images and buffers resolved |
| GltfLoader.ResolveTextLoaded | mvImporter.cpp:1351-1393 | the passes over images and buffers leave the other eight arrays as loaded |
| GltfLoader.LoadGltfText | mvImporter.cpp:1320-1396 | a missing or empty file gives the empty model; otherwise all ten arrays hold the document's records, with images decoded and buffers decoded or read from `root + uri` |
| GltfLoader.LoadGlbAssets | mvImporter.cpp:1423-1443 | the loaders run, then the binary chunk is copied into the first buffer exactly when the header says there is one |
| GltfLoader.CopyBinaryChunk | mvImporter.cpp:1434-1443 | the chunk copy changes only the first buffer and leaves the images alone |
| GltfLoader.ResolveGlb | mvImporter.cpp:1445-1502 | the images read the views and buffers as they stand before the buffer pass |
| GltfLoader.ResolveGlbLoaded | mvImporter.cpp:1445-1502 | the passes over images and buffers leave the other eight arrays as loaded |
| GltfLoader.LoadGlbDocument | mvImporter.cpp:1423-1502 | the GLB path fills every array from the JSON chunk, copies the binary chunk, takes image bytes from views and skips buffers that hold data |
| GltfLoader.ParseJsonChunk | mvImporter.cpp:1407-1421 | the document parsed is the one of the JSON chunk's declared length of bytes from offset 20 |
| GltfLoader.LoadGltfBinary | mvImporter.cpp:1398-1506 | `mvLoadGLTF(file)` yields the GLB model with an empty root: images from views or data URIs, buffers from the binary chunk, data URIs or files |
| GltfLoader.ResolvedImageMeans | mvImporter.cpp:1355-1367 | an image is embedded exactly when its URI is a data URI; it then takes the decoded payload unless that is empty; nothing else of it changes |
| GltfLoader.ResolvedBufferMeans | mvImporter.cpp:1375-1391 | a data-URI buffer takes the payload only when it is non-empty and of the declared length; any other buffer takes the file at `root + uri`, or nothing when there is none |
| GltfLoader.GlbImageFromView | mvImporter.cpp:1449-1458 | an image that names a view receives exactly `byteLength` bytes from `byteOffset` of the view's buffer, and is embedded |
| GltfLoader.CleanupTwice | mvImporter.cpp:1510-1568 | cleanup leaves the empty model, so a second call changes nothing |
| GltfLoader.GlbBufferKeepsData | mvImporter.cpp:1481-1482 | a buffer that holds data is left alone, so resolving twice is resolving once |
| GltfLoader.BinaryChunkCopied | mvImporter.cpp:1434-1443 | with no second chunk the buffers are unchanged; with one, the first buffer takes its declared length of bytes from offset 28 + chunkLength and the rest are unchanged |
| GltfLoader.HeaderLengths | mvImporter.cpp:1409-1411 | the length fields at offsets 8 and 12 read back as written |
| GltfLoader.NoBinaryChunk | mvImporter.cpp:1434 | a header whose length is the JSON chunk's length plus 20 has no binary chunk |

## Left out

- File reading (`_ReadFile`, `fopen`/`fread`) is a parameter: a map from path to bytes, where a missing file reads as no bytes. A file that cannot be read whole is not modelled.
- GltfLoader.ReadFile: is keyed on the whole `root + uri` sequence. A C path stops at its first NUL, so a root or uri containing a NUL would name a shorter path for `fopen`; that truncation is not modelled.
- `mvImporter.h`, which holds the records' default member values, is not part of this model. The defaults are a parameter (`Defaults`) whose index lists start empty.
- Floating point is left out: `atof` and `operator float`, the node transforms (translation, rotation, scale, matrix; only the matrix flag is kept), the material factors and the normal and occlusion scales, and accessor `min`/`max`.
- Memory management is left out: `new[]`/`delete[]`, the context and token vector that `ParseJSON` never frees, and the `context` back-references it stamps on every object (mvImporter.cpp:613-618).
- `assert` calls are left out.
- Native integer widths are not modelled: loop counters, `int` members and `atoi` are unbounded integers. `atoi` overflow is undefined in C and is not modelled.
- The GLB header is read as little-endian, as on the platforms the importer targets.
- The magic, version and chunk type fields of a GLB file are read but never checked, and the model does not check them either.
- The GLB path reads its header before testing for an empty file. The model requires a header that fits (`GlbReady`).
- GltfLoader.LoadGltfBinary: takes the root as empty, as the source never sets it.
- GltfLoader.LoadGltfBinary: requires that the JSON chunk parses, that the binary chunk fits the first buffer, and that every image's view lies inside its buffer. The source reads out of range otherwise.
- GltfLoader.LoadGltfText: requires that a non-empty file parses. The empty file's early return is modelled.
- TreeBuilder.ParseJson: requires input the token machine can run to the end. Malformed JSON (a stray close, a value with no pending member, an unknown parent type) makes the source read out of range or loop forever, and is modelled as `None` in `Step`.
- TreeBuilder.ArrayElementsInOrder: covers runs of string, primitive and comma tokens only. An object element is covered one token at a time by `ArrayObjectElement`; no lemma follows a whole array whose elements are objects through their nested contents back to the array.
- TreeBuilder.OnLeftBracket: an array directly inside an array pops an empty member stack; the source then carries on with the member stack's index at -1, so the next push on it writes before its storage. The model returns `None` at that pop instead of following the corrupted stack.
- JsonLookup.ObjectAt and JsonLookup.ValueAt: out of range, they yield an empty object and an empty text. The source's behaviour there is undefined.
- GltfLoader.Cleanup: `mvCleanupGLTF` is modelled as a function that returns the reset `mvGLTFModel` value, which is a struct of arrays and counts. Its deallocation loops over meshes, nodes and scenes are not modelled.
- `mvGLTFModel` is a value datatype holding the ten arrays. The entry points' contracts are spread over helper methods (`LoadAssets`, `ResolveTextLoaded`, `ResolveGlbLoaded`, `CopyBinaryChunk`) that each keep one part of the model.
- The declared-only members of `sJsonParser.h` (`sJsonObject` and its parser) have no bodies and are not modelled.
- `mvVector::begin`, `end` and `size_in_bytes` are plain address arithmetic and are not modelled. `MvVectors.MvVector` holds elements of a type with a default value.
