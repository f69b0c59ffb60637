# rtb-json: a verified model of the recogniser

rtb-json, as far as `rtb-json.c` goes, is an early JSON recogniser. `json_parse`
copies its argument and deletes the whitespace that lies outside double quotes.
It then runs a recursive-descent recogniser over the copy. The recogniser is
driven by a cursor kept in three globals: `input_str`, `input_len` and
`input_i`. `json_parse` returns whether an object was recognised from the start
and the cursor then stood at the terminator. Numbers and strings are still
stubs that take a single digit. `parse_array` exists but nothing calls it. The
outcome of an object's first `parse_pair` is ignored.

The model has six modules:

- `Utils` models the string utilities. C strings are modelled as NUL-terminated
  character buffers, and their contents as the characters before the first NUL.
- `Spaces` gives the specification `Strip` of `remove_spaces_unquoted` and its
  algebra. It also holds the in-place two-index loop on an `array<char>`,
  proved to leave the stripped C string in the buffer.
- `Grammar` gives one function per production: the outcome (success, final
  cursor position) as a function of the stripped text and the start position.
  A failed production keeps the position where it stopped, because a failed
  `parse_pair` may already have moved the cursor.
- `Language` is an independent, declarative description of the accepted texts
  (values, pairs, the optional first pair, objects, arrays). Its lemmas tie each
  production to that description in both directions.
- `Parser` is a class `Cursor` standing for the globals. It has a method per
  cursor operation and per `parse_*` function, each proved against its
  `Grammar` function. `JsonParse` is proved to accept exactly the inputs whose
  stripped text is such an object.
- `Examples` shows that the four inputs of `main` are accepted. It also decides
  the quirks and some rejections.

## Model

| member | source | states |
|---|---|---|
| Utils.CharIsSpace | rtb-json.c:14-16 | the four whitespace characters of JSON; none of them is a double quote or the terminator, and vertical tab and form feed, which ctype's isspace also accepts, are not among them |
| Utils.IsDigitDecimal | rtb-json.c:84 | IsDigit, the model of isdigit in the C locale, accepts exactly the ten characters '0' to '9' |
| Utils.StrLen | rtb-json.c:157 | strlen returns the index of the first NUL of a terminated buffer; no NUL comes before it |
| Utils.CStringOfLiteral | rtb-json.c:173-178 | a string literal followed by its terminator and any further bytes holds the literal as its C string |
| Utils.StrPrefix | rtb-json.c:18-23 | true exactly when `prefix` is a prefix of the buffer, and exactly when it is a prefix of the C string it holds, so the scan never depends on bytes past the terminator |
| Utils.StrPrefixLen | rtb-json.c:24-28 | the length of the prefix on a match, otherwise 0 |
| Spaces.Strip | rtb-json.c:30-40 | the stripped text is never longer than the text |
| Spaces.StripAppend | rtb-json.c:35-39 | stripping a concatenation strips the second part from the quote state the first part leaves |
| Spaces.StripAbsent | rtb-json.c:35-39 | stripping introduces no character; in particular no NUL appears |
| Spaces.StripNoUnquotedSpace | rtb-json.c:36-37 | the stripped text has no whitespace outside quotes |
| Spaces.StripUnchanged | rtb-json.c:36-38 | a text without whitespace outside quotes is left as it is |
| Spaces.StripIdempotent | rtb-json.c:32-40 | stripping twice is stripping once |
| Spaces.StripKeepsNonSpace | rtb-json.c:36-39 | only whitespace is deleted: every other character, quotes included, is kept in order |
| Spaces.StripAt | rtb-json.c:36-39 | one character in the middle of the text is kept or dropped by the whitespace and quote-state rule |
| Spaces.StripFromSuffix | rtb-json.c:35-39 | the loop's view of stripping from a read index equals stripping the remaining suffix |
| Spaces.SkipSpaces | rtb-json.c:36-37 | the inner loop stops at the first character that is not whitespace (at once inside quotes), never past the terminator; what it skips is whitespace and contributes nothing to the stripped text |
| Spaces.RemoveSpacesUnquoted | rtb-json.c:32-40 | the buffer afterwards holds the stripped C string, terminated, no longer than the original; the bytes past the new terminator are unchanged |
| Grammar.AtBuffer | rtb-json.c:48 | At, the model of next(), reads the buffer at input_i, and the buffer is the text followed by its terminator |
| Grammar.AtEnd | rtb-json.c:48 | next() reads '\0' exactly at position input_len |
| Grammar.ExpectAt | rtb-json.c:64-71 | expect keeps the position within the text and never moves backwards |
| Grammar.NumberAt | rtb-json.c:82-89 | parse_number keeps the position within the text |
| Grammar.ValueAt | rtb-json.c:96-112 | a failed value leaves the cursor where it was; a value never starts at '[' or '{' |
| Grammar.PairAt | rtb-json.c:125-130 | a successful pair consumes at least three characters |
| Grammar.MorePairs | rtb-json.c:135-138 | the object loop stops at a character other than ',' |
| Grammar.ObjectAt | rtb-json.c:132-141 | parse_object keeps the position within the text |
| Grammar.MoreValues | rtb-json.c:117-120 | the array loop stops at a character other than ',' |
| Grammar.ArrayAt | rtb-json.c:114-123 | parse_array keeps the position within the text |
| Grammar.MorePairsStep | rtb-json.c:135-138 | a comma, a successful pair and a successful rest make a successful loop |
| Grammar.MoreValuesStep | rtb-json.c:117-120 | a comma, a successful value and a successful rest make a successful loop |
| Grammar.MorePairsParts | rtb-json.c:135-138 | a successful loop that goes round starts with a comma and a successful pair |
| Grammar.MoreValuesParts | rtb-json.c:117-120 | a successful loop that goes round starts with a comma and a successful value |
| Grammar.ObjectAtJoin | rtb-json.c:132-141 | '{', whatever the first pair consumed, a successful loop and '}' make an object |
| Grammar.ObjectAtParts | rtb-json.c:132-141 | an accepted object starts with '{' and ends with the '}' after its loop |
| Grammar.ArrayAtJoin | rtb-json.c:114-123 | '[', a value, a successful loop and ']' make an array |
| Grammar.ArrayAtParts | rtb-json.c:114-123 | an accepted array starts with '[' and a value and ends with the ']' after its loop |
| Grammar.Accepts | rtb-json.c:161-162 | on a text without NUL, accepted exactly when an object recognised from position 0 ends where the text ends, so trailing data is refused |
| Language.ExpectAtIff | rtb-json.c:64-71 | expect(c) succeeds consuming k characters exactly when c is the next character and k is 1, or c is '\0', the cursor is on the terminator and k is 0 |
| Language.NumberAtIff | rtb-json.c:82-89 | parse_number succeeds consuming k characters exactly when k is 1 and that character is a decimal digit |
| Language.ValueAtValue | rtb-json.c:96-112 | a value of the description at the cursor is consumed exactly |
| Language.ValueAtIsValue | rtb-json.c:96-112 | what a successful parse_value consumes is null, true, false or one digit |
| Language.ValueAtIff | rtb-json.c:73-112 | parse_value succeeds consuming k characters exactly when those k characters are a value: 4 for null and true, 5 for false, 1 for a digit |
| Language.PairAtPair | rtb-json.c:125-130 | a pair (digit, ':', value) at the cursor is consumed exactly |
| Language.PairAtIsPair | rtb-json.c:125-130 | what a successful parse_pair consumes is a pair |
| Language.PairAtIsFirstPair | rtb-json.c:125-130 | whatever parse_pair consumes, even when it fails, is a pair or a prefix of one: nothing, a key, or a key and ':' |
| Language.PairAtFirstPair | rtb-json.c:134 | a first pair of the description followed by ',' or '}' is exactly what the ignored parse_pair consumes |
| Language.MorePairsAt | rtb-json.c:135-138 | comma-separated pairs followed by something other than ',' are consumed exactly by the loop |
| Language.MorePairsSplit | rtb-json.c:135-138 | what a successful object loop consumes is a sequence of comma-separated pairs |
| Language.MoreValuesAt | rtb-json.c:117-120 | comma-separated values followed by something other than ',' are consumed exactly by the loop |
| Language.MoreValuesSplit | rtb-json.c:117-120 | what a successful array loop consumes is a sequence of comma-separated values |
| Language.ObjectAtObject | rtb-json.c:132-141 | an object of the description at the cursor is recognised, consuming exactly its length |
| Language.ObjectAtIsObject | rtb-json.c:132-141 | what parse_object accepts is an object of the description |
| Language.ArrayAtArray | rtb-json.c:114-123 | an array of the description at the cursor is recognised, consuming exactly its length |
| Language.ArrayAtIsArray | rtb-json.c:114-123 | what parse_array accepts is an array of the description |
| Language.ArrayAtIff | rtb-json.c:114-123 | parse_array succeeds consuming k characters exactly when those k characters are an array: '[', at least one value, comma-separated, ']' |
| Language.AcceptsIff | rtb-json.c:157-162 | on a text without NUL, an object from position 0 followed by the terminator is accepted exactly when the whole text is an object |
| Parser.Cursor.constructor | rtb-json.c:157-158 | input_len is the strlen of the buffer and input_i is 0 |
| Parser.Cursor.Next | rtb-json.c:48 | next() reads the character at input_i, and '\0' exactly at input_len |
| Parser.Cursor.Consume | rtb-json.c:50-56 | advances by one exactly when input_i < input_len and reports whether it did |
| Parser.Cursor.ConsumeN | rtb-json.c:57-62 | advances by n, or to the end when fewer remain (then false); nothing for n <= 0 |
| Parser.Cursor.Expect | rtb-json.c:64-71 | true and past c when c is next (not moving at the end for '\0'); false and unmoved otherwise |
| Parser.Cursor.NextNull | rtb-json.c:73-75 | true exactly when the rest of the input begins with null |
| Parser.Cursor.NextBool | rtb-json.c:77-80 | 4 when the rest begins with true, else 5 when it begins with false, else 0 |
| Parser.Cursor.ParseNumber | rtb-json.c:82-89 | the outcome and final position are those of the one-digit number production |
| Parser.Cursor.ParseString | rtb-json.c:91-94 | the string production is the number stub |
| Parser.Cursor.ParseValue | rtb-json.c:96-112 | the outcome and final position are those of the value production |
| Parser.Cursor.ParseArray | rtb-json.c:114-123 | the outcome and final position are those of the array production |
| Parser.Cursor.ParsePair | rtb-json.c:125-130 | the outcome and final position are those of the pair production, including where a failed pair stopped |
| Parser.Cursor.ParseObject | rtb-json.c:132-141 | the outcome and final position are those of the object production |
| Parser.JsonParse | rtb-json.c:143-167 | true exactly when the whitespace-stripped C string is an object followed by nothing |
| Examples.EmptyAccepted | rtb-json.c:174 | "{}" is accepted |
| Examples.TwoPairsAccepted | rtb-json.c:132-141 | an object of two well-formed pairs is accepted |
| Examples.TwoNumbersAccepted | rtb-json.c:175 | the second input of main strips to {1:2,3:4}, which is accepted |
| Examples.NumberAndNullAccepted | rtb-json.c:176 | the third input strips to {1:2,3:null}, which is accepted |
| Examples.TrueAndNullAccepted | rtb-json.c:177 | the fourth input strips to {1:true,3:null}, which is accepted |
| Examples.DemonstrationAccepted | rtb-json.c:173-180 | all four inputs of main are accepted |
| Examples.MainArgumentsAccepted | rtb-json.c:179-180 | the C strings main passes to json_parse, each a literal, its NUL and whatever follows, strip to accepted objects, so json_parse returns true for each |
| Examples.FirstPairIgnored | rtb-json.c:134 | {1}, {1:} and {,1:2} are accepted because the first pair's result is ignored |
| Examples.MalformedRejected | rtb-json.c:135-140 | a missing '}', a trailing comma and a two-digit number are refused |
| Examples.NonObjectsRejected | rtb-json.c:161-162 | the empty text, an array, trailing data after an object and a quoted key are refused |
| Examples.ArrayNeedsValue | rtb-json.c:116 | "[]" is refused and [1,null] is recognised whole |

## Left out

- Memory: the `malloc`, `strcpy` and `free` of `json_parse` (rtb-json.c:147-152, 164) are replaced by a fresh array copy. The NULL return of a failed `malloc` and the leak of `input_str` on the two failure returns (161-162) are not modelled. Allocation failure is outside the model.
- Diagnostics: the `printf` calls at rtb-json.c:69, 149 and 154-155 are output only and are left out.
- Integer widths: `input_len`, `input_i` and the `consume_n` counter are C `int`s. They are modelled as unbounded integers, which matches the source for inputs below 2^31 characters.
- `isdigit` (rtb-json.c:84) is taken as '0'..'9', as in the C locale.
- `main` (rtb-json.c:172-182) is not modelled as a driver. Its four strings appear only as the inputs of `Examples`.
- test/run_test.cpp, test/test_cases.cpp and test/test_input.cpp are command-line harnesses (argument handling, file reading, reporting). They hold no logic of the recogniser.
- test/test_JSON.c exercises a node tree and a printer (`JSON_CreateNull`, `JSON_Print`, `JSON_Delete`) that `rtb-json.c` does not define. No tree, constructors or printer are modelled.
- rtb-json.h declares `json_parse(const char *)` while the definition takes `char *`. The model's `JsonParse` takes its input by value, so the difference has no counterpart.
- The full JSON grammar: JSON (RFC 8259) has complete numbers, strings and nested values, and test/test_JSON.c expects a node tree and a printer. `rtb-json.c` (followed here) accepts a single digit for numbers and strings, never dispatches to arrays or objects from `parse_value`, ignores the first pair of an object, and builds no tree.
- Characters: a C `char` is a byte, and the model uses Dafny's Unicode `char`. Acceptance is the same either way, because every comparison is against an ASCII character and no byte of a multi-byte UTF-8 sequence is whitespace, a quote, a digit or a delimiter.
- `Parser.Cursor.ParseArray` is modelled and proved even though nothing in rtb-json.c calls it.
- `Examples` state the quirks and rejections on texts after stripping. The inputs of `main` are stated both as stripped literals and as the C strings main passes (`Examples.MainArgumentsAccepted`), which the postcondition of `Parser.JsonParse` turns into json_parse returning true.
- Grammar.ExpectAt, Grammar.NumberAt, Grammar.ValueAt, Grammar.PairAt, Grammar.MorePairs, Grammar.ObjectAt, Grammar.MoreValues, Grammar.ArrayAt: their own ensures are weaker than what each production does. Those of ExpectAt, NumberAt, ObjectAt and ArrayAt only bound the position; ValueAt, PairAt, MorePairs and MoreValues add the one fact their rows name. What each production accepts is stated by other members: ExpectAt by `Language.ExpectAtIff` and the ensures of `Parser.Cursor.Expect`; NumberAt by `Language.NumberAtIff`; ValueAt by `Language.ValueAtIff`; PairAt by `Language.PairAtPair`, `Language.PairAtIsPair` and `Language.PairAtIsFirstPair`; MorePairs by `Language.MorePairsAt` and `Language.MorePairsSplit`; MoreValues by `Language.MoreValuesAt` and `Language.MoreValuesSplit`; ObjectAt by `Language.ObjectAtObject` and `Language.ObjectAtIsObject`; ArrayAt by `Language.ArrayAtIff`. The `Parser` methods are proved equal to these functions.
