# json.cpp in Dafny

A model of `887017/json.cpp`. The file is a small JSON document library with four parts:

- `LinkedList<T>`, a singly linked list with `head` and `tail` pointers;
- the `json` value, a tagged union over null, number, boolean, string, list and dictionary, with its type tests, getters, setters, both forms of `operator[]`, and `push_front`, `push_back` and `insert`;
- the serializer `operator<<`;
- the recursive-descent parser `operator>>`.

Modules:

| file | module | what it holds |
|---|---|---|
| `wrappers.dfy` | `Wrappers` | `Option`, `Result` and `Outcome` (a thrown `json_exception` is an `Err`/`Fail`) |
| `linked_list.dfy` | `LinkedLists` | `LinkedList<T>` as a class over `Node` objects, with a ghost `contents` sequence, the node chain and a `Repr` footprint |
| `json_value.dfy` | `JsonValues` | the `Json` datatype, the getters, the first-match key search, and the `JsonValue` class whose methods update its one `value` field as the source's `set_*`, `push_*`, `insert` and `operator[]` do |
| `char_stream.dfy` | `CharStreams` | the input stream: a character sequence, a position and the failure flag, with `get`, `putback`, `read`, `>> string` and `>> double` both as functions and as methods of a `CharStream` class |
| `serializer.dfy` | `JsonSerializer` | `Format`, the text `<<` writes, and `Serialize` with its list and dictionary loops `SerializeItems` and `SerializeEntries`, the loop-and-flag methods the source runs, proved equal to it |
| `parser.dfy` | `JsonParser` | `ParseValue`/`Dispatch`/`ParseItems`/`ParseEntries`, which give the result and the stream state after a read, and the methods `ReadJson`, `ReadFrom`, `ReadItems`, `ReadEntries` and `ReadEntry` (one turn of the dictionary loop), which read a `CharStream` into a `JsonValue` exactly as the source does and are proved to agree with those functions |
| `parser_properties.dfy` | `ParserProperties` | what the parser accepts: where each white-space loop stops, each branch of the first-character dispatch, the list and dictionary loops, distinct keys in every parsed dictionary, and concrete inputs |
| `roundtrip.dfy` | `RoundTrip` | reading back what the serializer writes |

The parser is modelled as the code is written, not as JSON (RFC 8259) or the library's stated intent would have it. Where the two disagree, the model follows the code:

- **Literals.** The white-space loop before the dispatch has already consumed the `n`, `t` or `f`. `read` then compares the next 4, 4 or 5 characters with `null`, `true` or `false`. So the input `null` is `InvalidNull` and `nnull` is null (`ParserProperties.NullIsRejected`, `ParserProperties.DoubledLiteralsAccepted`), although the library means `null` to parse to null.
- **One character swallowed.** Every `while (get(ch) && isspace(ch))` loop also consumes the first character that is not white space. Only the loops before a number, a first list element and a first dictionary key put it back. So one character after each `,` and each `:` is lost, and so is one after every literal and every string.
- **No round trip.** The library means parsing the serializer's output to give back the value. `RoundTrip` proves that this holds at least for strings without quotes, empty lists and dictionaries, a list holding one empty list or one empty dictionary, numbers, and a one-number list; it does not characterise every value that reads back. It fails for `null`, `true` and `false`, for every list holding one string, and for every non-empty dictionary, whatever its keys and however numbers are written. A list holding one string with no quote in it is `InvalidArray`. When the first key holds no white space and every number's text starts with a digit, `-`, `i` or `n`, a non-empty dictionary is `InvalidObject`.
- **Keys are words.** Keys are read by `>> string`, a white-space-delimited word, so when the key holds no white space a serialized key is read with its quotes and colon; otherwise the word stops inside the key.
- **Strings** end at the next `"`, with no escapes.
- **Repeated keys.** A repeated key overwrites the first entry with that key, because entries are stored through `rhs[key] = value`.

The two library conversions are parameters:

- `Formatter` (`Number -> string`) stands for `os << double`.
- `Scanner` stands for `is >> double`. It maps the rest of the input to a number and the count of characters consumed, which is at least one, or to `None` on failure.

`Number` is an uninterpreted 64-bit pattern. `std::isspace` and `std::isdigit` are taken in the "C" locale.

## Model

| member | source | states |
|---|---|---|
| `LinkedLists.LinkedList.Valid` | 887017/json.cpp:13-16 | the node chain runs from `head` to `tail` and holds `contents` in order; `head` is null exactly when `tail` is, exactly when the list is empty |
| `LinkedLists.Node.constructor` | 887017/json.cpp:10 | a new node holds the element and no successor |
| `LinkedLists.LinkedList.constructor` | 887017/json.cpp:16 | a new list is empty and valid |
| `LinkedLists.LinkedList.Copy` | 887017/json.cpp:22-28 | the copy constructor's loop over `other` yields a fresh list with the same elements in the same order |
| `LinkedLists.LinkedList.Assign` | 887017/json.cpp:30-40 | copy assignment leaves this list with exactly `other`'s elements and `other` unchanged; self-assignment changes nothing |
| `LinkedLists.LinkedList.PushBack` | 887017/json.cpp:59-68 | contents `s` become `s + [x]`, keeping the list invariant |
| `LinkedLists.LinkedList.PushFront` | 887017/json.cpp:70-79 | contents `s` become `[x] + s`, keeping the list invariant |
| `LinkedLists.LinkedList.IsEmpty` | 887017/json.cpp:81-83 | true exactly when the list has no elements |
| `LinkedLists.LinkedList.Clear` | 887017/json.cpp:85-94 | the list becomes empty and stays valid |
| `LinkedLists.LinkedList.Back` | 887017/json.cpp:160-165 | the last element, and an error exactly when the list is empty |
| `JsonValues.ExactlyOneKind` | 887017/json.cpp:301-323 | exactly one of the six type tests holds of every value |
| `JsonValues.IsNull` | 887017/json.cpp:321-323 | `is_null`; no contract of its own, `ExactlyOneKind` relates the six tests |
| `JsonValues.IsNumber` | 887017/json.cpp:313-315 | `is_number`; no contract of its own, `ExactlyOneKind` relates the six tests |
| `JsonValues.IsBool` | 887017/json.cpp:317-319 | `is_bool`; no contract of its own, `ExactlyOneKind` relates the six tests |
| `JsonValues.IsString` | 887017/json.cpp:309-311 | `is_string`; no contract of its own, `ExactlyOneKind` relates the six tests |
| `JsonValues.IsList` | 887017/json.cpp:301-303 | `is_list`; no contract of its own, `ExactlyOneKind` relates the six tests |
| `JsonValues.IsDictionary` | 887017/json.cpp:305-307 | `is_dictionary`; no contract of its own, `ExactlyOneKind` relates the six tests |
| `JsonValues.GetNumber` | 887017/json.cpp:360-366 | succeeds exactly on a number, returning its payload; otherwise `TypeMismatch` |
| `JsonValues.GetBool` | 887017/json.cpp:376-382 | succeeds exactly on a boolean, returning its payload; otherwise `TypeMismatch` |
| `JsonValues.GetString` | 887017/json.cpp:392-398 | succeeds exactly on a string, returning its payload; otherwise `TypeMismatch` |
| `JsonValues.FirstIndexOf` | 887017/json.cpp:331-335 | the index of the first entry with the key, or none when no entry has it |
| `JsonValues.FindKey` | 887017/json.cpp:347-351 | the scan loop of `operator[]` returns the first index with the key, or none |
| `JsonValues.FirstIndexIsUnique` | 887017/json.cpp:331-335 | the first index with the key is determined by where the key first occurs |
| `JsonValues.SetFirst` | 887017/json.cpp:341-358 | the effect of `d[key] = v` on the entries: no key already present moves, and the entries grow by at most one, the new `(key, v)` at the end |
| `JsonValues.SetFirstThenFind` | 887017/json.cpp:341-358 | after `d[key] = v`, looking up `key` finds `v`; the entry count grows by one exactly when the key was absent; every other entry is untouched |
| `JsonValues.SetFirstKeepsKeysDistinct` | 887017/json.cpp:341-358 | `d[key] = v` never creates a second entry with the same key |
| `JsonValues.SetFirstKeepsWellKeyed` | 887017/json.cpp:341-358 | `d[key] = v` keeps every dictionary in the value free of repeated keys |
| `JsonValues.JsonValue.constructor` | 887017/json.cpp:269-270 | a new value is null |
| `JsonValues.JsonValue.SetNull` | 887017/json.cpp:426-429 | the value becomes null |
| `JsonValues.JsonValue.SetBool` | 887017/json.cpp:414-418 | the value becomes the boolean `x`; `is_bool` holds and `get_bool` returns `x` |
| `JsonValues.JsonValue.SetNumber` | 887017/json.cpp:420-424 | the value becomes the number `x`; `is_number` holds and `get_number` returns `x` |
| `JsonValues.JsonValue.SetString` | 887017/json.cpp:408-412 | the value becomes the string `x`; `is_string` holds and `get_string` returns `x` |
| `JsonValues.JsonValue.SetList` | 887017/json.cpp:431-435 | the value becomes the empty list |
| `JsonValues.JsonValue.SetDictionary` | 887017/json.cpp:437-441 | the value becomes the empty dictionary |
| `JsonValues.JsonValue.PushFront` | 887017/json.cpp:443-448 | on a list, prepends `x` and changes nothing else; otherwise `NotAList` and the value is unchanged |
| `JsonValues.JsonValue.PushBack` | 887017/json.cpp:450-455 | on a list, appends `x` and changes nothing else; otherwise `NotAList` and the value is unchanged |
| `JsonValues.JsonValue.Insert` | 887017/json.cpp:457-462 | on a dictionary, appends the entry even when its key is present; otherwise `NotADictionary` and the value is unchanged |
| `JsonValues.JsonValue.Lookup` | 887017/json.cpp:325-339 | the const `operator[]`: `NotADictionary` on any other kind; `KeyNotFound` exactly when no entry has the key; otherwise the value of the first entry with the key |
| `JsonValues.JsonValue.Index` | 887017/json.cpp:341-358 | the mutable `operator[]`: `NotADictionary` on any other kind; the first entry with the key; on a miss, `(key, null)` is appended and its index returned |
| `JsonValues.JsonValue.AssignAt` | 887017/json.cpp:887 | assignment through the returned reference replaces that entry's value and keeps its key |
| `JsonValues.JsonValue.Put` | 887017/json.cpp:887 | `d[key] = x` on a dictionary overwrites the value of the first entry with `key`, or appends `(key, x)` when there is none |
| `CharStreams.IsSpace` | 887017/json.cpp:772 | `std::isspace` in the "C" locale: space, tab, newline, vertical tab, form feed, carriage return; no contract of its own |
| `CharStreams.IsDigit` | 887017/json.cpp:817 | `std::isdigit`: `0` to `9`; no contract of its own |
| `CharStreams.GetChar` | 887017/json.cpp:772 | `get` yields the next character and advances, or fails at the end of input or on a failed stream, setting the failure flag |
| `CharStreams.SkipWhitespace` | 887017/json.cpp:772-774 | the white-space loop never moves back; when it stops without failing, it has consumed a character that is not white space, and that character is `ch` |
| `CharStreams.PutBackChar` | 887017/json.cpp:818 | `putback` steps back at most one character; a failed stream is left as it is |
| `CharStreams.ReadChars` | 887017/json.cpp:778 | `read(buf, n)` yields the next `n` characters and advances past them, exactly when `n` characters remain on a good stream; otherwise it fails |
| `CharStreams.ReadWord` | 887017/json.cpp:870 | `>> key` skips white space and takes the whole run of characters that are not white space from there, ending at white space or the end of input; it fails, with the empty word, exactly when the stream had already failed or only white space remains |
| `CharStreams.ScanNum` | 887017/json.cpp:819-821 | `>> num` consumes at least one character when it succeeds |
| `CharStreams.CharStream.constructor` | 887017/json.cpp:768 | a stream over the input starts at position 0, not failed |
| `CharStreams.CharStream.Get` | 887017/json.cpp:772 | the stream method does what `GetChar` says |
| `CharStreams.CharStream.SkipSpaces` | 887017/json.cpp:772-774 | the loop ends in the state `SkipWhitespace` gives |
| `CharStreams.CharStream.PutBack` | 887017/json.cpp:818 | the stream method does what `PutBackChar` says |
| `CharStreams.CharStream.Read` | 887017/json.cpp:778 | the stream method does what `ReadChars` says |
| `CharStreams.CharStream.ReadToken` | 887017/json.cpp:870 | the stream method does what `ReadWord` says |
| `CharStreams.CharStream.Scan` | 887017/json.cpp:819-821 | the stream method does what `ScanNum` says |
| `JsonSerializer.Format` | 887017/json.cpp:732-766 | the text `operator<<` writes, branch for branch; no contract of its own: `Serialize` is proved equal to it, and `FormatLead`, `SingletonListText` and `DictionaryText` state its shape |
| `JsonSerializer.JoinSnoc` | 887017/json.cpp:743-750 | writing `", "` before every element but the first joins the elements with `", "` |
| `JsonSerializer.JoinPrefix` | 887017/json.cpp:743-750 | after the loop has written element `i`, the text is the first `i + 1` element texts joined by `", "` |
| `JsonSerializer.Serialize` | 887017/json.cpp:732-766 | the serializer's loops write exactly `Format(v)`: `null`, `true`/`false`, the string between quotes with no escaping, the formatter's number text, `[` + elements joined by `", "` + `]`, `{` + `"key": value` entries in stored order + `}` |
| `JsonSerializer.SerializeItems` | 887017/json.cpp:741-751 | the list loop writes the elements' texts, in order, joined by `", "` |
| `JsonSerializer.SerializeEntries` | 887017/json.cpp:752-762 | the dictionary loop writes `"key": value` for each entry, in stored order, joined by `", "` |
| `JsonParser.ParseLiteral` | 887017/json.cpp:776-785 | a literal branch yields its value and moves forward, or fails with its own error |
| `JsonParser.ReadQuoted` | 887017/json.cpp:807-811 | the string loop never moves back |
| `JsonParser.ParseValue` | 887017/json.cpp:768-775 | a successful read consumes at least one character and stays within the input |
| `JsonParser.Dispatch` | 887017/json.cpp:776-908 | every branch stays within the input and never moves back |
| `JsonParser.ParseItems` | 887017/json.cpp:832-855 | a successful list loop yields a list and consumes at least one character |
| `JsonParser.ParseEntries` | 887017/json.cpp:863-905 | a successful dictionary loop yields a dictionary and consumes at least one character |
| `JsonParser.Parse` | 887017/json.cpp:768-775 | `stream >> value` from the start of the input, keeping the value and dropping the stream state; no contract of its own, `ParseValueStart` and `ParseWellKeyed` state what it yields |
| `JsonParser.ReadJson` | 887017/json.cpp:768-775 | `operator>>` on a stream gives the outcome, target value and stream state `ParseValue` gives |
| `JsonParser.ReadFrom` | 887017/json.cpp:776-908 | the branch selected by `ch` agrees with `Dispatch` |
| `JsonParser.ReadLiteral` | 887017/json.cpp:776-805 | the `null`/`true`/`false` branch agrees with `ParseLiteral` |
| `JsonParser.ReadString` | 887017/json.cpp:807-811 | the string loop agrees with `ReadQuoted` |
| `JsonParser.ReadItems` | 887017/json.cpp:832-855 | the list loop, filling the target through `push_back`, agrees with `ParseItems` |
| `JsonParser.ReadEntries` | 887017/json.cpp:863-905 | the dictionary loop, filling the target through `rhs[key] = value`, agrees with `ParseEntries` |
| `JsonParser.ReadEntry` | 887017/json.cpp:866-903 | one turn of the dictionary loop either ends the loop with the outcome and target `ParseEntries` gives, or stores the entry, advances the stream and leaves `ParseEntries` of the new state equal to that of the old |
| `ParserProperties.SkipWhitespaceFinds` | 887017/json.cpp:772-774 | the loop stops just after the first character that is not white space; with none, it fails at the end and leaves `ch` as the last white space read |
| `ParserProperties.ReadQuotedFinds` | 887017/json.cpp:806-811 | a string is every character up to the next quote, verbatim, and the quote is consumed; with no closing quote it is the rest of the input |
| `ParserProperties.ParseValueStart` | 887017/json.cpp:768-775 | a read skips white space and dispatches on the next character; empty input is `EndOfInput`; white space alone is `UnexpectedCharacter` |
| `ParserProperties.ValueAtChar` | 887017/json.cpp:768-775 | a value starting with a character that is not white space dispatches on that character |
| `ParserProperties.ValueAfterSpace` | 887017/json.cpp:768-775 | a value starting with white space dispatches on the character the white-space loop stops at; if that loop ran into the end of input the read is `UnexpectedCharacter` |
| `ParserProperties.ValueOfBlank` | 887017/json.cpp:768-775 | input that is white space to its end reads as `UnexpectedCharacter` |
| `ParserProperties.NumberValueAt` | 887017/json.cpp:817-824 | at a digit or `-` the value is what the scanner reads from there, or `InvalidNumber` |
| `ParserProperties.QuotedValue` | 887017/json.cpp:806-816 | at `"` with a closing quote later, the value is the text between the quotes, and the stream stops where the white-space loop after it stops |
| `ParserProperties.StringValueAt` | 887017/json.cpp:806-816 | a closed string followed by a character that is not white space ends one past that character, which the loop after it swallowed |
| `ParserProperties.LiteralAccepts` | 887017/json.cpp:777-785 | a literal branch succeeds exactly when the next characters spell the word |
| `ParserProperties.DispatchLiteral` | 887017/json.cpp:776-805 | after `n`, `t` or `f` the next 4, 4 or 5 characters must be `null`, `true` or `false`, in both directions, and the result is null, true or false |
| `ParserProperties.DispatchString` | 887017/json.cpp:806-816 | `"` yields the characters up to the next quote, verbatim, then runs one white-space loop |
| `ParserProperties.DispatchNumber` | 887017/json.cpp:817-824 | a digit or `-` is put back and the scanner reads from it; a scanner failure is `InvalidNumber` |
| `ParserProperties.DispatchOther` | 887017/json.cpp:906-907 | any character that starts no value is `UnexpectedCharacter` |
| `ParserProperties.DispatchList` | 887017/json.cpp:825-833 | `[` then white space then `]` is the empty list; any other character is put back and starts the first element; the end of input is `EndOfInput` |
| `ParserProperties.DispatchDictionary` | 887017/json.cpp:856-864 | `{` then white space then `}` is the empty dictionary; any other character is put back and starts the first key; the end of input is `InvalidObject` |
| `ParserProperties.OpenList` | 887017/json.cpp:825-833 | input opening with `[` and then a character that is neither white space nor `]` reads its first element from that character |
| `ParserProperties.OpenDictionary` | 887017/json.cpp:856-864 | input opening with `{` and then a character that is neither white space nor `}` reads its first key from that character |
| `ParserProperties.ItemSeparator` | 887017/json.cpp:839-853 | after an element, `]` closes the list, `,` continues it from the character after the next one that is not white space, and anything else is `InvalidArray` |
| `ParserProperties.ItemContinues` | 887017/json.cpp:843-847 | after `,` the next element starts at the next character that is not white space; with none left the list is `EndOfInput` |
| `ParserProperties.ItemAtEnd` | 887017/json.cpp:839-853 | when an element ends the input, the list frame's stale `ch` decides the outcome |
| `ParserProperties.EntryNeedsColon` | 887017/json.cpp:870-883 | a key word not followed, after white space, by `:` is `InvalidObject` |
| `ParserProperties.EntryValueFails` | 887017/json.cpp:876-886 | the value is read from the character after the one following `:`; its error is the dictionary's error |
| `ParserProperties.EntryCloses` | 887017/json.cpp:886-900 | the entry is stored as `d[key] = value` does, and `}` closes the dictionary |
| `ParserProperties.EntryContinues` | 887017/json.cpp:886-897 | the entry is stored as `d[key] = value` does, and `,` continues from the character after the next one that is not white space |
| `ParserProperties.EntryBadSeparator` | 887017/json.cpp:889-903 | any character other than `,` or `}` after an entry is `InvalidObject` |
| `ParserProperties.ValueWellKeyed` | 887017/json.cpp:768-911 | every value the parser produces has distinct keys in every dictionary |
| `ParserProperties.DispatchWellKeyed` | 887017/json.cpp:776-908 | the same for each branch |
| `ParserProperties.ItemsWellKeyed` | 887017/json.cpp:832-855 | the same for the list loop |
| `ParserProperties.EntriesWellKeyed` | 887017/json.cpp:863-905 | the same for the dictionary loop, whose `rhs[key] = value` overwrites repeated keys |
| `ParserProperties.ParseWellKeyed` | 887017/json.cpp:887 | reading from the start of the input yields no dictionary with a repeated key |
| `ParserProperties.EntriesKeepFirstKey` | 887017/json.cpp:863-905 | the dictionary loop never moves a stored key: a dictionary it yields starts with the first entry it already held |
| `ParserProperties.EntriesFirstKey` | 887017/json.cpp:866-905 | a dictionary the loop yields from no entries has the first word it read as its first key |
| `ParserProperties.ItemsKeepPrefix` | 887017/json.cpp:832-855 | the list loop never drops or moves an element: a list it yields starts with the elements already read, then the value read first |
| `ParserProperties.ListFirstElement` | 887017/json.cpp:825-855 | a list read from `[` followed by a character that is neither white space nor `]` starts with the value read from that character |
| `ParserProperties.NullIsRejected` | 887017/json.cpp:776-785 | the input `null` is `InvalidNull` |
| `ParserProperties.DoubledLiteralsAccepted` | 887017/json.cpp:776-805 | the inputs `nnull`, `ttrue` and `ffalse` are null, true and false |
| `ParserProperties.NumberList` | 887017/json.cpp:825-855 | `[1]` is a one-element list when the scanner reads `1` |
| `ParserProperties.RepeatedKeyOverwrites` | 887017/json.cpp:863-905 | a dictionary that repeats key `a` holds one entry with the later value |
| `RoundTrip.StringRoundTrip` | 887017/json.cpp:806-811 | a serialized string is read back up to its first quote, so exactly when it holds no quote |
| `RoundTrip.LiteralsDoNotRoundTrip` | 887017/json.cpp:776-805 | serialized `null`, `true` and `false` are `InvalidNull` and `InvalidBool` |
| `RoundTrip.EmptyContainersRoundTrip` | 887017/json.cpp:825-863 | serialized empty lists and dictionaries are read back |
| `RoundTrip.NestedEmptyContainersRoundTrip` | 887017/json.cpp:825-863 | serialized `[[]]` and `[{}]` are read back as a list holding the empty container |
| `RoundTrip.EmptyElementList` | 887017/json.cpp:825-855 | the input `[[]]` or `[{}]` reads as a list holding the empty container: the inner container closes, and the outer `]` follows with no white space |
| `RoundTrip.NumberRoundTrip` | 887017/json.cpp:817-824 | a serialized number whose text starts with a digit or `-` is read back when the scanner reads exactly that text back as the number |
| `RoundTrip.NumberListRoundTrip` | 887017/json.cpp:825-855 | a serialized one-number list whose number text starts with a digit or `-` is read back when the scanner reads exactly that text back as the number and stops at the `]` |
| `RoundTrip.StringListDoesNotRoundTrip` | 887017/json.cpp:812-816 | a serialized one-element list holding a string with no quote is `InvalidArray`, because the loop after the string swallows the `]` |
| `RoundTrip.StringListNeverRoundTrips` | 887017/json.cpp:806-855 | no serialized one-element list holding a string is read back as that list: with no quote in the string it is `InvalidArray`, otherwise its first element is the string cut at its first quote |
| `RoundTrip.StringElementCut` | 887017/json.cpp:806-811 | in `["x"]` the element read is `x` up to its first quote |
| `RoundTrip.DictionaryNeverRoundTrips` | 887017/json.cpp:856-905 | no serialized non-empty dictionary is read back as itself, for any keys and any number formatter: the first key read is the word at the opening quote |
| `RoundTrip.DictionaryKeyWord` | 887017/json.cpp:870 | the word `>> key` reads at the opening quote of a dictionary's text is never its first key: it holds the quote and stops at white space inside the key or runs past the closing quote and the colon |
| `RoundTrip.DictionaryDoesNotRoundTrip` | 887017/json.cpp:870-883 | when the first key holds no white space and every number's text starts with a digit, `-`, `i` or `n`, a serialized non-empty dictionary is `InvalidObject`: the key word takes the quotes and the colon, and no `:` follows |
| `RoundTrip.QuotedKeyIsNoKey` | 887017/json.cpp:866-883 | text that opens with `{"key": ` and a value is `InvalidObject`: the key word runs to the space and takes the colon, so no `:` follows it |
| `RoundTrip.DictionaryLead` | 887017/json.cpp:752-762 | when every number's text starts with a digit, `-`, `i` or `n`, a non-empty dictionary's text starts `{"key": ` followed by a character that is neither white space nor `:` |
| `RoundTrip.FormatLead` | 887017/json.cpp:732-763 | when every number's text starts with a digit, `-`, `i` or `n`, serialized text is never empty and starts with neither white space nor `:` |
| `RoundTrip.SingletonListText` | 887017/json.cpp:741-751 | a one-element list is written as its element between brackets |
| `RoundTrip.DictionaryText` | 887017/json.cpp:752-762 | a dictionary is written as `{`, then its first entry `"key": value`, then the rest |
| `RoundTrip.JoinStartsWithFirst` | 887017/json.cpp:743-750 | joined text starts with the first part |

## Left out

- Number text conversion. `os << double` and `is >> double` are the `Formatter` and `Scanner` parameters. The model does not know which text a number gets or which prefix the scanner accepts. So `RoundTrip.NumberRoundTrip` and `RoundTrip.NumberListRoundTrip` assume that the scanner reads back what the formatter wrote.
- What `os << double` writes first is an assumption, not a fact the model derives: `RoundTrip.FormatLead`, `RoundTrip.DictionaryLead` and `RoundTrip.DictionaryDoesNotRoundTrip` assume `PlainNumbers`, that every number's text starts with a digit, `-`, `i` or `n`. `RoundTrip.DictionaryNeverRoundTrips` needs no such assumption.
- Memory and moves:
  - `new`/`delete`, the `pimpl` indirection and the destructors are not modelled.
  - The move constructors and move assignments of `LinkedList`, `json::impl` and `json` are not modelled. After a `json` move the source holds a null `pimpl`, so any later use of it is undefined.
- Copying a `json` and `impl`'s copy operations are not modelled as code. `Json` is a value type, so a copy is the value itself.
- The json value's list and dictionary payloads are sequences in `JsonValue`, not `LinkedList` objects. The `LinkedList` class is modelled and proved on its own, and its `PushBack` and `PushFront` state the same sequence effect.
- The non-const getters at json.cpp:360, 376 and 392 return `double&`, `bool&` and `std::string&`, through which a caller can write the payload. Those write-through references are not modelled: `GetNumber`, `GetBool` and `GetString` model the read, and the `Set*` methods cover changing a payload.
- `clear_data` is not modelled separately. It only empties the payload that a setter is about to replace, and the datatype holds one payload at a time.
- The iterator classes of `LinkedList` and `json` and `get_head`/`get_tail` are not modelled. The model iterates by index.
- LinkedLists.LinkedList.Clear: the loop that deletes each node only frees memory, so it is not modelled. The contract states the resulting empty list.
- JsonParser.ReadJson: on failure the contract states only the error. It says nothing about the partly filled target or the stream position. The source throws there, and the caller is to discard both.
- The stream keeps one failure flag, with no separate end-of-file bit. Every operation the parser performs fails the same way under either.
- A value read that fails on its very first `get` compares an uninitialised `ch` in the source, which is undefined behaviour. The model reports `EndOfInput` there. This happens whenever a value read starts on a failed stream. For example: on empty input; when the input ends after a list's `[` or `,`; when it ends after a dictionary's `:`; when a list element ends the input while the frame's stale `ch` is `,` (`[1,,2`); and when a key word ends the input while the frame's stale `ch` is `:` (`{:abc`).
- Locale-dependent `isspace` and `isdigit`: both are fixed to the "C" locale.
- Unbounded recursion depth: Dafny's unbounded recursion stands in for the C++ stack.
- The `json.hpp` header is not part of this model. Exception message texts are not modelled; each exception is a `JsonError` constant.
