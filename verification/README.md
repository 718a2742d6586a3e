# mfcs response parser, modelled in Dafny

This project models the response parser of mfcs-python
(`src/mfcs/response_parser.py`). The parser reads a language model's reply
and separates plain content from the function-call blocks embedded in it.
There are two kinds of block:

- `<mfcs_tool>…</mfcs_tool>` for tool calls;
- `<mfcs_memory>…</mfcs_memory>` for memory operations.

Each block carries four fields: `<instructions>`, `<call_id>` or
`<memory_id>`, `<name>` and `<parameters>`. The parameters hold a JSON
object.

The model has three parts, each with the properties proved about it.

- **Field extractor** (`extract.dfy`, `render.dfy`). It models
  `_extract_xml_components`, `_parse_xml_tool_call` and `_parse_xml_memory`.
  - Each of the five regular expressions becomes an explicit search.
  - Each search has a contract in terms of what `re.search` reports: the
    leftmost match and, because the group is lazy (`.*?`), its shortest
    group.
  - Only the instructions and parameters patterns run with DOTALL. Without
    it, a capture cannot span a newline.
  - `json.loads` is a parameter, `decode: string -> Option<Json>`. `None`
    stands for a `JSONDecodeError`.
  - `render.dfy` writes one block layout the extractor accepts: the four
    fields one after the other. Extraction gives back exactly the values
    written in (a round trip).
- **Batch parser** (`blocks.dfy`, `batch.dfy`). `blocks.dfy` holds the two
  block kinds and their markers, which both parsers share. `batch.dfy`
  models `parse_output` as written:
  - split the reply at every `<mfcs_tool>`;
  - resolve each part after the first;
  - then do the same with `<mfcs_memory>` over the content that is left.
- **Streaming parser** (`segment.dfy`, `stream.dfy`). It models
  `parse_stream_output` as a pure `Step` over one fragment, folded over a
  finite sequence of fragments by `Run`.
  - The two collecting flags become one three-valued `Mode`, since at most
    one of them is ever set.
  - Each step returns the `(content, call)` pairs the generator yields for
    that fragment.
  - `segment.dfy` is the sentence flush of lines 229-250.

The model keeps the behaviour of the code, including these points:

- The tool marker is looked for before the memory marker, wherever each
  occurs in the buffer.
- A closing marker is only looked for when the next non-empty fragment
  arrives. A whole block sent as one fragment yields its call one fragment
  later.
- In streaming mode a block that does not parse yields nothing.
- At the end of the stream, buffered text is not flushed.
- The sentence flush fires only when the right-most of `。？！.?!` is at an
  index greater than 0. It then hands out the stripped text up to that
  index.
- After a block closes, the plain buffer takes the text after the closing
  marker only when that text is not empty.

`text.dfy` holds the string primitives: `find`, `in`, `split`, `strip`.
`calls.dfy` holds the call records, and `wrappers.dfy` holds `Option`.

Two further points of the code that the model keeps:

- **Trimming in batch mode.** Each piece of content is stripped on its
  own as it is appended: the text before the first marker (lines 68 and
  100) and the text after each block that extracts (lines 89 and 121).
  The memory pass splits the tool pass's joined content again and strips
  its first part (lines 98-100): everything up to the first
  `<mfcs_memory>`, or all of it when there is none. So `a <mfcs_tool>x  `
  comes back as `a<mfcs_tool>x`. Only the memory pass's joined content is
  returned as built.
- **Re-seeding after a close.** When a block closes, the plain buffer is
  set to the text after the closing marker only when that text is not
  empty (lines 184-185 and 203-204). The plain buffer is always empty
  while a block is being collected, so this never leaves stale text
  behind.

## Model

| member | source | states |
|---|---|---|
| Extract.SearchField | src/mfcs/response_parser.py:38-41 | `re.search` for `<tag>(.*?)</tag>`: it finds a match exactly when one exists anywhere. The match starts at the leftmost opening tag at which a match exists, and has the shortest group there. Without DOTALL the group holds no newline. |
| Extract.SearchParams | src/mfcs/response_parser.py:42 | `re.search` for `<parameters>\s*({.*?})\s*</parameters>` under DOTALL: it finds a match exactly when one exists. The match is the leftmost, with the shortest brace-delimited group. |
| Extract.ExtractComponents | src/mfcs/response_parser.py:344-388 | Extraction fails exactly when a field pattern has no match or the parameters group does not decode. Otherwise every field is the stripped group of its leftmost match, and the arguments are the decoded parameters group. |
| Extract.ExtractFromMatches | src/mfcs/response_parser.py:364-388 | Given the four leftmost matches and a decodable parameters group, the result is exactly the four stripped captures and the decoded JSON, in any field order. |
| Extract.ExtractSucceeds | src/mfcs/response_parser.py:364-388 | If all four patterns match and the parameters group decodes, extraction succeeds. |
| Extract.ParseXmlToolCall | src/mfcs/response_parser.py:252-284 | A tool call comes back exactly when extraction with `<call_id>` succeeds, and it carries the extracted fields. |
| Extract.ParseXmlMemory | src/mfcs/response_parser.py:310-342 | A memory call comes back exactly when extraction with `<memory_id>` succeeds, and it carries the extracted fields. |
| Extract.ToolAndMemoryDifferOnlyInId | src/mfcs/response_parser.py:321-338 | On the same body, the tool and memory parsers agree on instructions, name and arguments. Once the tool parse succeeds, the memory parse succeeds exactly when a `<memory_id>` field is present. |
| Render.ExtractRenderedBlock | src/mfcs/response_parser.py:344-388 | Round trip: a block rendered from stripped values with no `<` (id and name on one line, parameters a `{…}` object that decodes) extracts to exactly those values, under either id tag. |
| Batch.ResolvePart | src/mfcs/response_parser.py:71-96 | A part after an opening marker: with no closing marker it is put back after the opening marker. If it yields a call, it contributes only the stripped text after its first closing marker. If it does not, what it contributes is a prefix of the marker plus the part. |
| Batch.ResolveParsed | src/mfcs/response_parser.py:72-89 | A terminated block that extracts yields its fields and contributes only its stripped trailing text. |
| Batch.ResolveUnparsed | src/mfcs/response_parser.py:90-94 | A terminated block that does not extract is put back between its markers, and its trailing text is dropped. |
| Batch.PassParts | src/mfcs/response_parser.py:71-96 | The loop's calls are exactly the fields extracted from each part that holds a closing marker and whose block before it extracts, in the order of the parts. So it yields at most one call per part, and none when no part holds a closing marker. |
| Batch.ResolveCall | src/mfcs/response_parser.py:72-88 | The call a part yields is read off the part alone: the extraction of the text before its first closing marker, if it has one. |
| Batch.PassPartsInOrder | src/mfcs/response_parser.py:71-96 | Through indices: every call of the loop is the extraction of one part, every part whose block extracts gives exactly one call, and the calls follow increasing part order. |
| Batch.PassPartsCons | src/mfcs/response_parser.py:71-96 | The loop over one part in front of others is that part's contribution and call, followed by the loop over the others. |
| Batch.PassPartsAppend | src/mfcs/response_parser.py:71-96 | The loop over two runs of parts is the loop over the first followed by the loop over the second, for the content and for the calls. |
| Batch.Pass | src/mfcs/response_parser.py:65-96 | One pass yields one call per part after the first whose terminated block extracts, that block's fields, in the order of the parts. It yields fewer calls than the split has parts. Batch.PassAgrees states its content. |
| Text.FindFrom | src/mfcs/response_parser.py:72 | `in` and `find`: the leftmost occurrence of the pattern at or after a position, or none exactly when it occurs nowhere from there. The same test runs at lines 169, 188, 207 and 218. |
| Text.SplitOnce | src/mfcs/response_parser.py:73 | `split(sep, 1)` on text holding `sep`: the two pieces around the first occurrence, which rejoin to the text. The same cut is made at lines 170, 189, 208 and 219. |
| Text.SplitAll | src/mfcs/response_parser.py:65 | `split(sep)`: at least one part, the parts rejoined with `sep` give back the text, no part holds `sep`, and when there is a cut the first one is at the leftmost occurrence. Line 98 splits the same way. |
| Text.Strip | src/mfcs/response_parser.py:68 | `strip()`: the slice of the text from its first to its last non-space character, holding every non-space character. Lines 89, 100, 121 and 211-223 strip the same way. |
| Batch.PassWithoutMarker | src/mfcs/response_parser.py:65-68 | Text without the opening marker comes back stripped, with no calls. |
| Batch.ParseOutputPlain | src/mfcs/response_parser.py:60-130 | A reply with neither opening marker comes back stripped, with no tool calls and no memory calls. |
| Batch.PassSingleBlock | src/mfcs/response_parser.py:65-96 | One terminated block that extracts, between texts with no `<`, yields its fields. The content is the two texts, each stripped. |
| Batch.SingleToolCall | src/mfcs/response_parser.py:48-130 | Round trip through the whole batch parser: a reply holding one rendered tool block, with no `<` in the text around it, yields that tool call, no memory call, and the surrounding text stripped and joined. |
| Batch.ParseOutput | src/mfcs/response_parser.py:48-130 | The tool calls are the fields extracted from each part of the reply after a `<mfcs_tool>` whose terminated block extracts, in the order of the reply. The memory calls are the same for `<mfcs_memory>` over the content the tool pass leaves. There are fewer tool calls than parts. Batch.ParseOutputAgrees states its content. |
| Batch.NestedMemoryIgnored | src/mfcs/response_parser.py:48-130 | A `<mfcs_memory>` block written inside a tool block that extracts is taken out with it: with no `<` in the text around the tool block, the reply yields the tool call and no memory call. |
| Batch.PassDropsTrailingText | src/mfcs/response_parser.py:90-94 | As written: when the only block does not extract and there is no `<` in the text around it, the pass returns the stripped leading text and the literal block. Everything after the closing marker is gone. |
| Batch.TrailingTextLost | src/mfcs/response_parser.py:65-130 | As written: `<mfcs_tool></mfcs_tool>tail` parses to content `<mfcs_tool></mfcs_tool>` with no calls. The content has lost non-space text of the reply. |
| Batch.KeepingAgrees | src/mfcs/response_parser.py:71-96 | The corrected part handling differs from the code only for a terminated block that does not extract. |
| Batch.ResolvePartKeeping | src/mfcs/response_parser.py:71-96 | Corrected part handling: the same call as the code, and the contribution holds every non-space character of the part with its extracting block and markers taken out. |
| Batch.PassKeeping | src/mfcs/response_parser.py:65-96 | Corrected pass: its content holds, in order, every non-space character of the text with each block that extracts taken out, markers included. When it yields no call, that is every non-space character of its input. |
| Batch.ParseOutputKeeping | src/mfcs/response_parser.py:48-130 | Corrected parser: the tool pass keeps every non-space character outside the tool blocks that extract, and the memory pass every one of what it is given outside the memory blocks that extract. A reply that yields no call comes back with every non-space character, in order. |
| Batch.PassPartsAgree | src/mfcs/response_parser.py:71-96 | On parts whose terminated blocks all extract, the loop as written is the corrected loop, for content and calls. |
| Batch.PassAgrees | src/mfcs/response_parser.py:65-96 | A pass as written, on a text whose terminated blocks all extract, is the corrected pass. Its content holds, in order, every non-space character of the text outside those blocks and their markers. |
| Batch.ParseOutputAgrees | src/mfcs/response_parser.py:48-130 | `parse_output` as written, on a reply whose terminated tool blocks all extract and whose remaining terminated memory blocks all extract, is the corrected parser. The tool stage keeps every non-space character outside the tool blocks, and the returned content every one of the tool stage's content outside the memory blocks. |
| Segment.RFind | src/mfcs/response_parser.py:234 | `str.rfind` for one character: the index of its last occurrence, or -1. |
| Segment.LastSentenceEnd | src/mfcs/response_parser.py:233-240 | The maximum of the six searches is -1 or the index of a terminator, and no terminator comes after it. |
| Segment.LastSentenceEndIsRightmost | src/mfcs/response_parser.py:233-240 | The maximum of the six searches equals an independent scan for the right-most terminator. |
| Segment.Flush | src/mfcs/response_parser.py:231-250 | The flush loop keeps a suffix of the buffer whose last terminator, if any, is at index 0, and every chunk it hands out is non-empty and ends on a terminator. Chunks and rest together hold every non-space character of the buffer, in order. |
| Segment.FlushOnce | src/mfcs/response_parser.py:231-250 | The loop body runs at most once: the only chunk is the stripped text up to the right-most terminator at an index > 0, and the rest is what follows it. |
| Segment.LeadingTerminatorHeld | src/mfcs/response_parser.py:242 | A terminator at index 0 does not trigger the flush: `.abc` is held back whole. |
| Segment.NoTerminatorStays | src/mfcs/response_parser.py:248-250 | A buffer with no terminator is kept whole, and nothing is handed out. |
| Stream.Append | src/mfcs/response_parser.py:158-164 | The fragment goes to the buffer the mode selects. The mode and the other buffers are unchanged. |
| Stream.ParseBlock | src/mfcs/response_parser.py:174-196 | A collected body yields a tool or memory call exactly when extraction with that kind's id tag succeeds. |
| Stream.CloseBlock | src/mfcs/response_parser.py:166-204 | Once the collected text holds the closing marker: the text before its first occurrence yields a call only if it parses, and the mode returns to Plain. The collecting buffer is cleared, and the plain buffer takes the text after the marker when that is not empty. Otherwise the state is unchanged and nothing is yielded. |
| Stream.OpenBlock | src/mfcs/response_parser.py:207-228 | At the first opening marker: the stripped text before it is yielded if not empty, collection starts with the text after it, and the plain buffer is cleared. |
| Stream.ScanPlain | src/mfcs/response_parser.py:205-250 | A step in Plain mode yields only content, never an empty event, and keeps the buffers consistent with the mode. |
| Stream.Step | src/mfcs/response_parser.py:148-250 | An empty fragment changes nothing. Steps begun in Plain mode yield content only. Steps begun while collecting yield at most one event, a call with empty content. No event is empty, and only the buffer the mode selects holds text. |
| Stream.Run | src/mfcs/response_parser.py:148-250 | Over any fragments the buffers stay consistent with the mode, and no yielded event is empty. |
| Stream.StepBuffersBlock | src/mfcs/response_parser.py:159-186 | While collecting, a fragment that does not complete the closing marker is only appended. |
| Stream.StepClosesBlock | src/mfcs/response_parser.py:166-204 | A fragment that completes the closing marker returns to Plain mode with both collecting buffers empty and the text after the marker buffered. It yields the call only if the text before the marker parses. |
| Stream.StepOpensTool | src/mfcs/response_parser.py:207-217 | A plain buffer holding `<mfcs_tool>` opens a tool block at its first occurrence, whatever else the buffer holds. |
| Stream.StepOpensMemory | src/mfcs/response_parser.py:218-228 | Only a buffer without `<mfcs_tool>` opens a memory block, at the first `<mfcs_memory>`. |
| Stream.StepFlushes | src/mfcs/response_parser.py:229-250 | With no opening marker in the buffer, the step is the sentence flush, and its chunks are yielded as content. |
| Stream.ToolMarkerWins | src/mfcs/response_parser.py:207-228 | A memory marker earlier in the buffer than a tool marker is yielded as plain content, and a tool block is opened. |
| Stream.SingleFragmentNoCall | src/mfcs/response_parser.py:159-228 | A stream of one fragment never yields a call, because the closing marker is not looked for in the step that opens a block. |
| Stream.BlockThenFragment | src/mfcs/response_parser.py:159-204 | A whole tool block sent as one fragment yields nothing. The next non-empty fragment yields its call if and only if the block parses. |
| Stream.PlainStepKeeps | src/mfcs/response_parser.py:229-250 | A plain step whose buffer and fragment hold no opening marker yields no call and loses no non-space character: the yielded content and the new buffer hold the old buffer plus the fragment, and the new buffer is an end of that text. |
| Stream.PlainTextKept | src/mfcs/response_parser.py:148-250 | Over any fragments that with the buffer hold no opening marker, no call is yielded. Content yielded and text still buffered together hold every non-space character of the input, in order, and the buffer is an end of the input. |
| Stream.OpenStepKeeps | src/mfcs/response_parser.py:207-228 | The step that opens a block loses only the opening marker: the content it yields and the text the block starts collecting hold every other non-space character of the buffer, in order. |
| Stream.HeldTextNeverYielded | src/mfcs/response_parser.py:148-250 | Text with no `<` and no terminator is only ever buffered, whatever the number of fragments. |
| Stream.UnfinishedSentenceLost | src/mfcs/response_parser.py:148-250 | With no flush at the end of the stream, such text yields nothing at all. |
| Stream.StepEndsSentence | src/mfcs/response_parser.py:231-250 | A `<`-free plain buffer with exactly one terminator, preceded by text that starts with a non-space character, yields the sentence up to that terminator and keeps the text after it. |
| Stream.SentencesFlushAsTheyEnd | src/mfcs/response_parser.py:148-250 | Fragments `a`, `.b`, `c.` yield `a.` on the second fragment and `bc.` on the third. |

## Left out

- Chunk objects (lines 149-153): a fragment is its text. A chunk with no
  content is the empty fragment, which `Step` ignores as line 155 does.
- The async generator: each step returns the list of pairs it would
  yield. `Run` folds over a finite sequence of fragments, so an infinite
  stream is not modelled.
- Logging (lines 93, 125, 283, 341): it has no effect on the results.
- Exceptions: `json.loads` failing is `decode` returning `None`, which
  takes the same path as a missing field. Any other failure inside
  `json.loads` is folded into that same `None`.
- JSON syntax: `decode` is abstract. The parameters group is taken as
  whatever the brace-delimited capture is, and JSON objects are an abstract
  `Json` type.
- `_clean_xml_tags` (lines 286-308): nothing in the parser calls it.
- Whitespace: `strip()` and `\s` are modelled over " \t\n\r\v\f". Python's
  Unicode whitespace set is wider.
- Stream.ParseStream: it has no contract of its own. The lemmas about `Run`
  and `ParseStream` state its behaviour.
- Batch.ParseOutputKeeping: the memory stage is stated against the text
  the tool stage leaves, not against the reply. The memory pass only ever
  sees that text, so a memory block inside a tool block that extracts has
  already been taken out.
- Batch.PassAgrees and Batch.ParseOutputAgrees: they cover only replies
  whose terminated blocks all extract. When one does not, the code drops
  the text after it (see Findings), so no conservation holds for the code
  as written. The corrected parser covers that case instead.
- Stream.PlainTextKept: no single lemma follows the text across a whole
  block. OpenStepKeeps states the step that opens a block, and
  StepClosesBlock the step that closes it.
- No equivalence between the streaming and the batch parser is stated.
  The two differ: streaming drops malformed blocks, yields calls one
  fragment late, and does not flush at the end.

## Findings

| source | as written | input that shows it | evidently intended | confidence | as-written member | corrected member |
|---|---|---|---|---|---|---|
| src/mfcs/response_parser.py:90-94 | A terminated tool block that does not extract is put back between its markers; the text after its closing marker is never appended | `<mfcs_tool></mfcs_tool>tail` gives content `<mfcs_tool></mfcs_tool>`, losing `tail` | the text after the closing marker is kept: the success branch at line 89 appends `remaining_content`, while the fallback at lines 91 and 94 rebuilds the block alone and never uses it | high; not executed | Batch.TrailingTextLost | Batch.ParseOutputKeeping |
| src/mfcs/response_parser.py:122-126 | The same for a memory block in the memory pass | `<mfcs_memory></mfcs_memory>tail` loses `tail` in the same way (the pass is generic over the block kind) | as above | high; not executed | Batch.PassDropsTrailingText | Batch.PassKeeping |
