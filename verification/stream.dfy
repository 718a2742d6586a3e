/**
  The streaming parser `parse_stream_output`
  (src/mfcs/response_parser.py:132-250) as a pure step over one fragment,
  folded over a finite sequence of fragments. The state is a mode and three
  buffers; each step yields the events the generator would yield for that
  fragment.
 */
module Stream {
  import opened Wrappers
  import opened Text
  import opened Calls
  import opened Extract
  import opened Segment
  import Blocks

  /** The two collecting flags of `parse_stream_output`, of which at most one is ever set. */
  datatype Mode = Plain | CollectingTool | CollectingMemory

  datatype StreamState = StreamState(mode: Mode, buffer: string, toolBuffer: string, memoryBuffer: string)

  /** One yielded pair: a content chunk and perhaps a call. */
  datatype Event = Event(content: string, call: Option<Call>)

  const Initial := StreamState(Plain, "", "", "")

  /** Only the buffer the mode selects holds text. */
  predicate Wf(s: StreamState) {
    && (s.mode != Plain ==> s.buffer == "")
    && (s.mode != CollectingTool ==> s.toolBuffer == "")
    && (s.mode != CollectingMemory ==> s.memoryBuffer == "")
  }

  function Collecting(k: Blocks.BlockKind): Mode {
    match k
    case ToolBlock => CollectingTool
    case MemoryBlock => CollectingMemory
  }

  /** The buffer the mode selects. */
  function Active(s: StreamState): string {
    match s.mode
    case Plain => s.buffer
    case CollectingTool => s.toolBuffer
    case CollectingMemory => s.memoryBuffer
  }

  /**
    The fragment goes to exactly one buffer, the one the mode selects
    (lines 158-164); the mode and the other buffers stay as they are.
   */
  function Append(s: StreamState, c: string): (r: StreamState)
    ensures r.mode == s.mode && Active(r) == Active(s) + c
    ensures r.mode != Plain ==> r.buffer == s.buffer
    ensures r.mode != CollectingTool ==> r.toolBuffer == s.toolBuffer
    ensures r.mode != CollectingMemory ==> r.memoryBuffer == s.memoryBuffer
  {
    match s.mode
    case CollectingTool => s.(toolBuffer := s.toolBuffer + c)
    case CollectingMemory => s.(memoryBuffer := s.memoryBuffer + c)
    case Plain => s.(buffer := s.buffer + c)
  }

  /** `_parse_xml_tool_call` or `_parse_xml_memory`, wrapped as a call. */
  function ParseBlock(k: Blocks.BlockKind, body: string, decode: string -> Option<Json>): (r: Option<Call>)
    ensures r.Some? <==> ExtractComponents(body, Blocks.IdTags(k), decode).Some?
    ensures r.Some? ==> var f := ExtractComponents(body, Blocks.IdTags(k), decode).value;
                        r.value == if k.ToolBlock? then Tool(ToolCall(f.instructions, f.id, f.name, f.arguments))
                                   else Memory(MemoryCall(f.instructions, f.id, f.name, f.arguments))
  {
    match k
    case ToolBlock =>
      (match ParseXmlToolCall(body, decode)
       case Some(t) => Some(Tool(t))
       case None => None)
    case MemoryBlock =>
      (match ParseXmlMemory(body, decode)
       case Some(m) => Some(Memory(m))
       case None => None)
  }

  /** At most one event, carrying a call and no content. */
  predicate OnlyCall(events: seq<Event>) {
    |events| <= 1 && forall i :: 0 <= i < |events| ==> events[i].content == "" && events[i].call.Some?
  }

  /** The call of a block that parsed, yielded with empty content; nothing for one that did not. */
  function CallEvents(call: Option<Call>): (r: seq<Event>)
    ensures OnlyCall(r)
    ensures r == [] <==> call.None?
  {
    match call
    case Some(c) => [Event("", Some(c))]
    case None => []
  }

  /**
    While collecting a block of kind `k` (lines 166-204): once the collected
    text holds the closing marker, the text before its first occurrence is
    parsed and yields the call only if it parses; the collecting buffer is
    cleared, the mode returns to Plain, and the plain buffer becomes the
    text after the marker when that is not empty. Otherwise nothing happens.
   */
  function CloseBlock(s: StreamState, k: Blocks.BlockKind, decode: string -> Option<Json>): (r: (StreamState, seq<Event>))
    requires s.mode == Collecting(k)
    ensures var collected := Active(s);
            if Contains(collected, Blocks.Close(k)) then
              var p := Find(collected, Blocks.Close(k)).value;
              var remaining := collected[p + |Blocks.Close(k)|..];
              && r.0.mode == Plain && Active(r.0) == (if remaining != "" then remaining else s.buffer)
              && (if k.ToolBlock? then r.0.toolBuffer == "" && r.0.memoryBuffer == s.memoryBuffer
                  else r.0.memoryBuffer == "" && r.0.toolBuffer == s.toolBuffer)
              && r.1 == CallEvents(ParseBlock(k, collected[..p], decode))
            else r == (s, [])
    ensures Wf(s) ==> Wf(r.0)
    ensures OnlyCall(r.1)
  {
    var collected := Active(s);
    if Contains(collected, Blocks.Close(k)) then
      var (body, remaining) := SplitOnce(collected, Blocks.Close(k));
      assert collected[..|body|] == body && collected[|body| + |Blocks.Close(k)|..] == remaining;
      var events := CallEvents(ParseBlock(k, body, decode));
      var buffer := if remaining != "" then remaining else s.buffer;
      if k.ToolBlock? then (s.(mode := Plain, toolBuffer := "", buffer := buffer), events)
      else (s.(mode := Plain, memoryBuffer := "", buffer := buffer), events)
    else
      (s, [])
  }

  /**
    In Plain mode, a buffer holding an opening marker of kind `k` (lines
    207-228): the stripped text before its first occurrence is yielded if it
    is not empty, the mode switches to collecting `k`, the collecting buffer
    is seeded with the text after the marker, and the plain buffer is
    cleared.
   */
  function OpenBlock(s: StreamState, k: Blocks.BlockKind): (r: (StreamState, seq<Event>))
    requires s.mode == Plain && Contains(s.buffer, Blocks.Open(k))
    ensures var p := Find(s.buffer, Blocks.Open(k)).value;
            var before := Strip(s.buffer[..p]);
            && r.0.mode == Collecting(k) && r.0.buffer == ""
            && Active(r.0) == s.buffer[p + |Blocks.Open(k)|..]
            && (if k.ToolBlock? then r.0.memoryBuffer == s.memoryBuffer else r.0.toolBuffer == s.toolBuffer)
            && r.1 == if before != "" then [Event(before, None)] else []
  {
    var (pre, post) := SplitOnce(s.buffer, Blocks.Open(k));
    assert s.buffer[..|pre|] == pre && s.buffer[|pre| + |Blocks.Open(k)|..] == post;
    var events := if Strip(pre) != "" then [Event(Strip(pre), None)] else [];
    if k.ToolBlock? then (s.(mode := CollectingTool, toolBuffer := post, buffer := ""), events)
    else (s.(mode := CollectingMemory, memoryBuffer := post, buffer := ""), events)
  }

  function Contents(events: seq<Event>): string
    decreases |events|
  {
    if events == [] then "" else events[0].content + Contents(events[1..])
  }

  /** The flushed sentences as content events with no call. */
  function SentenceEvents(chunks: seq<string>): (r: seq<Event>)
    ensures |r| == |chunks|
    ensures forall i :: 0 <= i < |r| ==> r[i] == Event(chunks[i], None)
    ensures Contents(r) == Concat(chunks)
    decreases |chunks|
  {
    if chunks == [] then [] else [Event(chunks[0], None)] + SentenceEvents(chunks[1..])
  }

  /**
    Plain mode after the fragment is buffered: the tool marker is looked
    for first, wherever the memory marker is; with neither, the sentence
    flush runs on the buffer.
   */
  function ScanPlain(s: StreamState): (r: (StreamState, seq<Event>))
    requires s.mode == Plain
    ensures Wf(s) ==> Wf(r.0)
    ensures Meaningful(r.1) && NoCalls(r.1)
  {
    if Contains(s.buffer, Blocks.Open(Blocks.ToolBlock)) then OpenBlock(s, Blocks.ToolBlock)
    else if Contains(s.buffer, Blocks.Open(Blocks.MemoryBlock)) then OpenBlock(s, Blocks.MemoryBlock)
    else
      var (chunks, rest) := Flush(s.buffer);
      (s.(buffer := rest), SentenceEvents(chunks))
  }

  /** Every event carries a call or non-empty content. */
  predicate Meaningful(events: seq<Event>) {
    forall i :: 0 <= i < |events| ==> events[i].content != "" || events[i].call.Some?
  }

  predicate NoCalls(events: seq<Event>) {
    forall i :: 0 <= i < |events| ==> events[i].call.None?
  }

  /**
    One iteration of `async for chunk in stream`. An empty fragment changes
    nothing. A call is only ever yielded by a step that began collecting,
    and then as the only event, with empty content; a step that began in
    Plain mode yields content only. No event is empty. The step keeps the
    buffers consistent with the mode.
   */
  function Step(s: StreamState, c: string, decode: string -> Option<Json>): (r: (StreamState, seq<Event>))
    ensures c == "" ==> r == (s, [])
    ensures Wf(s) ==> Wf(r.0)
    ensures Meaningful(r.1)
    ensures s.mode == Plain ==> NoCalls(r.1)
    ensures s.mode != Plain ==> OnlyCall(r.1)
  {
    if c == "" then (s, [])
    else
      var t := Append(s, c);
      match t.mode
      case CollectingTool => CloseBlock(t, Blocks.ToolBlock, decode)
      case CollectingMemory => CloseBlock(t, Blocks.MemoryBlock, decode)
      case Plain => ScanPlain(t)
  }

  /** The loop over every fragment, in order; what remains buffered at the end is not yielded. */
  function Run(s: StreamState, fragments: seq<string>, decode: string -> Option<Json>): (r: (StreamState, seq<Event>))
    ensures Wf(s) ==> Wf(r.0)
    ensures Meaningful(r.1)
    decreases |fragments|
  {
    if fragments == [] then (s, [])
    else
      var (s1, e1) := Step(s, fragments[0], decode);
      var (s2, e2) := Run(s1, fragments[1..], decode);
      MeaningfulAppend(e1, e2);
      (s2, e1 + e2)
  }

  lemma MeaningfulAppend(a: seq<Event>, b: seq<Event>)
    requires Meaningful(a) && Meaningful(b)
    ensures Meaningful(a + b)
  {
    assert forall i :: |a| <= i < |a + b| ==> (a + b)[i] == b[i - |a|];
  }

  /** `parse_stream_output` on a finite stream of fragment texts. */
  function ParseStream(fragments: seq<string>, decode: string -> Option<Json>): seq<Event> {
    Run(Initial, fragments, decode).1
  }

  // ---------------------------------------------------------------------
  // What one step does

  /** While collecting, a fragment that does not complete the closing marker is only buffered. */
  lemma StepBuffersBlock(s: StreamState, k: Blocks.BlockKind, c: string, decode: string -> Option<Json>)
    requires Wf(s) && s.mode == Collecting(k) && c != ""
    requires !Contains(Active(s) + c, Blocks.Close(k))
    ensures var r := Step(s, c, decode);
            r.1 == [] && r.0.mode == s.mode && Active(r.0) == Active(s) + c && Wf(r.0)
  {
  }

  /**
    A fragment that completes the closing marker ends the block: back in
    Plain mode with every collecting buffer empty, the plain buffer holding
    the text after the marker, and the call yielded only if the text before
    the marker parses.
   */
  lemma StepClosesBlock(s: StreamState, k: Blocks.BlockKind, c: string, decode: string -> Option<Json>)
    requires Wf(s) && s.mode == Collecting(k) && c != ""
    requires Contains(Active(s) + c, Blocks.Close(k))
    ensures var collected := Active(s) + c;
            var p := Find(collected, Blocks.Close(k)).value;
            var r := Step(s, c, decode);
            && r.0 == StreamState(Plain, collected[p + |Blocks.Close(k)|..], "", "")
            && r.1 == CallEvents(ParseBlock(k, collected[..p], decode))
  {
    var t := Append(s, c);
    assert t.buffer == "";
    var r := CloseBlock(t, k, decode);
    assert Step(s, c, decode) == r;
    assert Wf(r.0);
  }

  /**
    In Plain mode, a buffer that holds `<mfcs_tool>` after the fragment
    opens a tool block at its first occurrence, whatever else it holds.
   */
  lemma StepOpensTool(s: StreamState, c: string, decode: string -> Option<Json>)
    requires Wf(s) && s.mode == Plain && c != ""
    requires Contains(s.buffer + c, Blocks.Open(Blocks.ToolBlock))
    ensures var b := s.buffer + c;
            var p := Find(b, Blocks.Open(Blocks.ToolBlock)).value;
            var before := Strip(b[..p]);
            Step(s, c, decode) == (StreamState(CollectingTool, "", b[p + |Blocks.Open(Blocks.ToolBlock)|..], ""),
                                   if before != "" then [Event(before, None)] else [])
  {
    var t := Append(s, c);
    var r := OpenBlock(t, Blocks.ToolBlock);
    assert Step(s, c, decode) == r;
  }

  /** Only a buffer without `<mfcs_tool>` can open a memory block. */
  lemma StepOpensMemory(s: StreamState, c: string, decode: string -> Option<Json>)
    requires Wf(s) && s.mode == Plain && c != ""
    requires !Contains(s.buffer + c, Blocks.Open(Blocks.ToolBlock))
    requires Contains(s.buffer + c, Blocks.Open(Blocks.MemoryBlock))
    ensures var b := s.buffer + c;
            var p := Find(b, Blocks.Open(Blocks.MemoryBlock)).value;
            var before := Strip(b[..p]);
            Step(s, c, decode) == (StreamState(CollectingMemory, "", "", b[p + |Blocks.Open(Blocks.MemoryBlock)|..]),
                                   if before != "" then [Event(before, None)] else [])
  {
    var t := Append(s, c);
    var r := OpenBlock(t, Blocks.MemoryBlock);
    assert Step(s, c, decode) == r;
  }

  /** With no opening marker in the buffer, the step is the sentence flush. */
  lemma StepFlushes(s: StreamState, c: string, decode: string -> Option<Json>)
    requires Wf(s) && s.mode == Plain && c != ""
    requires !Contains(s.buffer + c, Blocks.Open(Blocks.ToolBlock))
    requires !Contains(s.buffer + c, Blocks.Open(Blocks.MemoryBlock))
    ensures var f := Flush(s.buffer + c);
            Step(s, c, decode) == (StreamState(Plain, f.1, "", ""), SentenceEvents(f.0))
  {
    var t := Append(s, c);
    assert Step(s, c, decode) == ScanPlain(t);
  }

  /**
    The tool marker is looked for first: a memory marker earlier in the
    same buffer is handed out as plain content and a tool block is opened.
   */
  lemma ToolMarkerWins(x: string, y: string, decode: string -> Option<Json>)
    requires NoAngle(x)
    ensures var memory := Blocks.Open(Blocks.MemoryBlock) + x;
            var r := Step(Initial, memory + Blocks.Open(Blocks.ToolBlock) + y, decode);
            && r.0 == StreamState(CollectingTool, "", y, "")
            && r.1 == [Event(Strip(memory), None)] && Strip(memory) != ""
  {
    var memory := Blocks.Open(Blocks.MemoryBlock) + x;
    NoToolAfterMemoryMarker(x);
    StripOfMarked(memory);
    OpensAfterClean(memory, y, memory + Blocks.Open(Blocks.ToolBlock) + y, decode);
  }

  lemma NoToolAfterMemoryMarker(x: string)
    requires NoAngle(x)
    ensures !Contains(Blocks.Open(Blocks.MemoryBlock) + x, Blocks.Open(Blocks.ToolBlock))
  {
    var tool := Blocks.Open(Blocks.ToolBlock);
    Blocks.BlockMarkers(Blocks.ToolBlock);
    Blocks.BlockMarkers(Blocks.MemoryBlock);
    MarkerNotIn(Blocks.Open(Blocks.MemoryBlock), tool, 6);
    NoAngleNoMarker(x, tool);
    NotContainsConcat(Blocks.Open(Blocks.MemoryBlock), x, tool);
  }

  lemma StripOfMarked(m: string)
    requires |m| > 0 && m[0] == '<'
    ensures Strip(m) != ""
  {
    assert SkipSpace(m, 0) == 0;
  }

  /** A first fragment whose only `<mfcs_tool>` follows `pre` opens a tool block there. */
  lemma OpensAfterClean(pre: string, post: string, b: string, decode: string -> Option<Json>)
    requires b == pre + Blocks.Open(Blocks.ToolBlock) + post
    requires !Contains(pre, Blocks.Open(Blocks.ToolBlock))
    ensures var before := Strip(pre);
            Step(Initial, b, decode) == (StreamState(CollectingTool, "", post, ""),
                                         if before != "" then [Event(before, None)] else [])
  {
    var tool := Blocks.Open(Blocks.ToolBlock);
    Blocks.BlockMarkers(Blocks.ToolBlock);
    FindAfterClean(pre, tool, post);
    ContainsWitness(b, tool, |pre|);
    assert Initial.buffer + b == b;
    StepOpensTool(Initial, b, decode);
    assert b[..|pre|] == pre && b[|pre| + |tool|..] == post;
  }

  // ---------------------------------------------------------------------
  // Over several fragments

  lemma RunOne(s: StreamState, c: string, decode: string -> Option<Json>)
    ensures Run(s, [c], decode) == Step(s, c, decode)
  {
    assert [c][1..] == [];
    var r := Step(s, c, decode);
    assert r.1 + [] == r.1;
  }

  lemma BufferedConcat(b: string, fragments: seq<string>)
    requires fragments != []
    ensures b + fragments[0] + Concat(fragments[1..]) == b + Concat(fragments)
  {
    assert Concat(fragments) == fragments[0] + Concat(fragments[1..]);
  }

  lemma RunAfterStep(s: StreamState, fragments: seq<string>, decode: string -> Option<Json>,
                     s1: StreamState, e1: seq<Event>, s2: StreamState, e2: seq<Event>)
    requires fragments != [] && Step(s, fragments[0], decode) == (s1, e1)
    requires Run(s1, fragments[1..], decode) == (s2, e2)
    ensures Run(s, fragments, decode) == (s2, e1 + e2)
  {
  }

  lemma RunCons(s: StreamState, fragments: seq<string>, decode: string -> Option<Json>)
    requires fragments != []
    ensures var (s1, e1) := Step(s, fragments[0], decode);
            var (s2, e2) := Run(s1, fragments[1..], decode);
            Run(s, fragments, decode) == (s2, e1 + e2)
  {
  }

  /** A block opened by a fragment is never closed by that same fragment: one fragment yields no call. */
  lemma SingleFragmentNoCall(fragment: string, decode: string -> Option<Json>)
    ensures NoCalls(ParseStream([fragment], decode))
  {
    RunOne(Initial, fragment, decode);
  }

  /**
    A complete tool block sent as one fragment yields its call only when the
    next non-empty fragment arrives, and then yields it if and only if the
    block parses.
   */
  lemma BlockThenFragment(body: string, c: string, decode: string -> Option<Json>)
    requires !Contains(body, Blocks.Close(Blocks.ToolBlock)) && c != ""
    ensures var block := Blocks.Open(Blocks.ToolBlock) + body + Blocks.Close(Blocks.ToolBlock);
            && NoCalls(ParseStream([block], decode))
            && ParseStream([block, c], decode) == CallEvents(ParseBlock(Blocks.ToolBlock, body, decode))
  {
    var block := Blocks.Open(Blocks.ToolBlock) + body + Blocks.Close(Blocks.ToolBlock);
    SingleFragmentNoCall(block, decode);
    var s1 := StreamState(CollectingTool, "", body + Blocks.Close(Blocks.ToolBlock), "");
    FirstFragmentOpens(body, block, decode);
    ClosesOnNext(body, c, s1, decode);
    var fs := [block, c];
    RunCons(Initial, fs, decode);
    assert fs[1..] == [c];
    RunOne(s1, c, decode);
  }

  lemma FirstFragmentOpens(body: string, block: string, decode: string -> Option<Json>)
    requires block == Blocks.Open(Blocks.ToolBlock) + body + Blocks.Close(Blocks.ToolBlock)
    ensures Step(Initial, block, decode) == (StreamState(CollectingTool, "", body + Blocks.Close(Blocks.ToolBlock), ""), [])
  {
    assert block == "" + Blocks.Open(Blocks.ToolBlock) + (body + Blocks.Close(Blocks.ToolBlock));
    assert !Contains("", Blocks.Open(Blocks.ToolBlock));
    OpensAfterClean("", body + Blocks.Close(Blocks.ToolBlock), block, decode);
    assert SkipSpace("", 0) == 0;
  }

  lemma ClosesOnNext(body: string, c: string, s1: StreamState, decode: string -> Option<Json>)
    requires s1 == StreamState(CollectingTool, "", body + Blocks.Close(Blocks.ToolBlock), "")
    requires !Contains(body, Blocks.Close(Blocks.ToolBlock)) && c != ""
    ensures Step(s1, c, decode) == (StreamState(Plain, c, "", ""), CallEvents(ParseBlock(Blocks.ToolBlock, body, decode)))
  {
    var close := Blocks.Close(Blocks.ToolBlock);
    var collected := body + close + c;
    Blocks.BlockMarkers(Blocks.ToolBlock);
    FindAfterClean(body, close, c);
    ContainsWitness(collected, close, |body|);
    assert Active(s1) + c == collected;
    StepClosesBlock(s1, Blocks.ToolBlock, c, decode);
    assert collected[..|body|] == body && collected[|body| + |close|..] == c;
  }

  lemma ContentsAppend(a: seq<Event>, b: seq<Event>)
    ensures Contents(a + b) == Contents(a) + Contents(b)
    decreases |a|
  {
    if a != [] {
      assert (a + b)[1..] == a[1..] + b;
      ContentsAppend(a[1..], b);
    } else {
      assert a + b == b;
    }
  }

  lemma NoCallsAppend(a: seq<Event>, b: seq<Event>)
    requires NoCalls(a) && NoCalls(b)
    ensures NoCalls(a + b)
  {
    assert forall i :: |a| <= i < |a + b| ==> (a + b)[i] == b[i - |a|];
  }

  /**
    Plain text that holds no opening marker passes through one step with no
    non-space character lost or added, and what stays buffered is the end
    of it.
   */
  lemma PlainStepKeeps(s: StreamState, c: string, decode: string -> Option<Json>)
    requires Wf(s) && s.mode == Plain && Blocks.Unmarked(s.buffer + c)
    ensures var r := Step(s, c, decode);
            && r.0.mode == Plain && Wf(r.0) && NoCalls(r.1) && IsSuffix(r.0.buffer, s.buffer + c)
            && NonSpace(Contents(r.1) + r.0.buffer) == NonSpace(s.buffer + c)
  {
    if c == "" {
      assert Contents([]) + s.buffer == s.buffer + c;
    } else {
      StepFlushes(s, c, decode);
    }
  }

  /**
    Over any number of fragments that together with the buffer hold no
    opening marker, the content yielded and the text still buffered hold
    every non-space character of the input, in order, and no call is
    yielded.
   */
  lemma {:induction false} PlainTextKept(s: StreamState, fragments: seq<string>, decode: string -> Option<Json>)
    requires Wf(s) && s.mode == Plain && Blocks.Unmarked(s.buffer + Concat(fragments))
    ensures var r := Run(s, fragments, decode);
            && r.0.mode == Plain && NoCalls(r.1) && IsSuffix(r.0.buffer, s.buffer + Concat(fragments))
            && NonSpace(Contents(r.1) + r.0.buffer) == NonSpace(s.buffer + Concat(fragments))
    decreases |fragments|
  {
    if fragments == [] {
      assert Contents([]) + s.buffer == s.buffer + Concat(fragments);
    } else {
      var c, rest := fragments[0], Concat(fragments[1..]);
      assert s.buffer + Concat(fragments) == (s.buffer + c) + rest;
      Blocks.UnmarkedSlice(s.buffer + Concat(fragments), 0, |s.buffer + c|);
      assert (s.buffer + Concat(fragments))[..|s.buffer + c|] == s.buffer + c;
      var (s1, e1) := Step(s, c, decode);
      PlainStepKeeps(s, c, decode);
      KeepUnmarked(s.buffer + c, rest, s1.buffer);
      PlainTextKept(s1, fragments[1..], decode);
      var (s2, e2) := Run(s1, fragments[1..], decode);
      SuffixTrans(s2.buffer, s1.buffer + rest, s.buffer + Concat(fragments));
      RunCons(s, fragments, decode);
      NoCallsAppend(e1, e2);
      ContentsAppend(e1, e2);
      KeptChain(Contents(e1), Contents(e2), s1.buffer, s2.buffer, s.buffer, c, rest);
    }
  }

  /**
    The step that opens a block loses only the opening marker: the content
    it yields and the text the block starts collecting hold every other
    non-space character of the buffer, in order.
   */
  lemma OpenStepKeeps(s: StreamState, c: string, decode: string -> Option<Json>)
    requires Wf(s) && s.mode == Plain && c != "" && !Blocks.Unmarked(s.buffer + c)
    ensures var b := s.buffer + c;
            var k := if Contains(b, Blocks.Open(Blocks.ToolBlock)) then Blocks.ToolBlock else Blocks.MemoryBlock;
            var p := Find(b, Blocks.Open(k)).value;
            var r := Step(s, c, decode);
            && r.0.mode == Collecting(k) && NoCalls(r.1)
            && NonSpace(Contents(r.1) + Active(r.0)) == NonSpace(b[..p] + b[p + |Blocks.Open(k)|..])
  {
    var b := s.buffer + c;
    var k := if Contains(b, Blocks.Open(Blocks.ToolBlock)) then Blocks.ToolBlock else Blocks.MemoryBlock;
    var p := Find(b, Blocks.Open(k)).value;
    if k.ToolBlock? {
      StepOpensTool(s, c, decode);
    } else {
      StepOpensMemory(s, c, decode);
    }
    var r := Step(s, c, decode);
    OpenedKeeps(r.1, b[..p], Active(r.0));
  }

  lemma OpenedKeeps(events: seq<Event>, pre: string, after: string)
    requires events == if Strip(pre) != "" then [Event(Strip(pre), None)] else []
    ensures NoCalls(events) && NonSpace(Contents(events) + after) == NonSpace(pre + after)
  {
    var before := Strip(pre);
    StripKeepsNonSpace(pre);
    NonSpaceAppend(before, after);
    NonSpaceAppend(pre, after);
    if before != "" {
      assert events[1..] == [] && Contents([]) == "";
      assert Contents(events) == before + Contents(events[1..]);
      assert Contents(events) + after == before + after;
    } else {
      assert Contents(events) + after == before + after;
    }
  }

  /** What one step keeps, followed by the rest of the input, is the end of the input. */
  lemma KeepUnmarked(seen: string, rest: string, kept: string)
    requires IsSuffix(kept, seen) && Blocks.Unmarked(seen + rest)
    ensures IsSuffix(kept + rest, seen + rest) && Blocks.Unmarked(kept + rest)
  {
    var w, lo := seen + rest, |seen| - |kept|;
    assert w[lo..|w|] == seen[lo..] + rest;
    Blocks.UnmarkedSlice(w, lo, |w|);
  }

  /** The non-space bookkeeping of one step followed by the rest of the run. */
  lemma KeptChain(out1: string, out2: string, mid: string, last: string, first: string, c: string, rest: string)
    requires NonSpace(out2 + last) == NonSpace(mid + rest)
    requires NonSpace(out1 + mid) == NonSpace(first + c)
    ensures NonSpace(out1 + out2 + last) == NonSpace(first + (c + rest))
  {
    var o1, o2, m, l := NonSpace(out1), NonSpace(out2), NonSpace(mid), NonSpace(last);
    var f, x, r := NonSpace(first), NonSpace(c), NonSpace(rest);
    NonSpaceAppend(out2, last);
    NonSpaceAppend(mid, rest);
    NonSpaceAppend(out1, mid);
    NonSpaceAppend(first, c);
    SeqChain(o1, o2, m, l, f, x, r);
    NonSpace3(out1, out2, last);
    NonSpaceAppend(first, c + rest);
    NonSpaceAppend(c, rest);
  }

  lemma SeqChain(o1: string, o2: string, m: string, l: string, f: string, c: string, r: string)
    requires o2 + l == m + r && o1 + m == f + c
    ensures o1 + (o2 + l) == f + (c + r)
  {
    calc {
      o1 + (o2 + l);
      o1 + (m + r);
      (o1 + m) + r;
      (f + c) + r;
    }
  }

  /**
    There is no flush at the end of the stream: text with no `<` and no
    sentence terminator is only ever buffered, so none of it is yielded.
   */
  lemma {:induction false} HeldTextNeverYielded(s: StreamState, fragments: seq<string>, decode: string -> Option<Json>)
    requires Wf(s) && s.mode == Plain && NoAngle(s.buffer) && NoTerminator(s.buffer)
    requires forall i :: 0 <= i < |fragments| ==> NoAngle(fragments[i]) && NoTerminator(fragments[i])
    ensures Run(s, fragments, decode) == (StreamState(Plain, s.buffer + Concat(fragments), "", ""), [])
    decreases |fragments|
  {
    if fragments == [] {
      assert s.buffer + Concat(fragments) == s.buffer;
    } else {
      var c := fragments[0];
      var s1 := StreamState(Plain, s.buffer + c, "", "");
      var tail := fragments[1..];
      HeldStep(s, c, decode);
      assert forall i :: 0 <= i < |tail| ==> tail[i] == fragments[i + 1];
      HeldTextNeverYielded(s1, tail, decode);
      var s2 := StreamState(Plain, s1.buffer + Concat(tail), "", "");
      BufferedConcat(s.buffer, fragments);
      var none: seq<Event> := [];
      assert none + none == none;
      RunAfterStep(s, fragments, decode, s1, none, s2, none);
    }
  }

  lemma HeldStep(s: StreamState, c: string, decode: string -> Option<Json>)
    requires Wf(s) && s.mode == Plain && NoAngle(s.buffer) && NoTerminator(s.buffer)
    requires NoAngle(c) && NoTerminator(c)
    ensures var s1 := StreamState(Plain, s.buffer + c, "", "");
            Step(s, c, decode) == (s1, []) && NoAngle(s1.buffer) && NoTerminator(s1.buffer)
  {
    var b := s.buffer + c;
    assert NoTerminator(b) by {
      forall j | 0 <= j < |b|
        ensures !IsTerminator(b[j])
      {
        if j < |s.buffer| {
          assert b[j] == s.buffer[j];
        } else {
          assert b[j] == c[j - |s.buffer|];
        }
      }
    }
    if c == "" {
      assert b == s.buffer;
    } else {
      NoBlockMarkers(b);
      StepFlushes(s, c, decode);
      NoTerminatorStays(b);
    }
  }

  /** So a stream of such text yields nothing at all. */
  lemma UnfinishedSentenceLost(fragments: seq<string>, decode: string -> Option<Json>)
    requires forall i :: 0 <= i < |fragments| ==> NoAngle(fragments[i]) && NoTerminator(fragments[i])
    ensures ParseStream(fragments, decode) == []
  {
    HeldTextNeverYielded(Initial, fragments, decode);
  }

  /**
    A plain buffer with no `<` and a single terminator, not at its start,
    is handed out up to the terminator, and the text after it stays
    buffered.
   */
  lemma StepEndsSentence(s: StreamState, c: string, x: string, t: char, y: string, decode: string -> Option<Json>)
    requires Wf(s) && s.mode == Plain && c != "" && s.buffer + c == x + [t] + y
    requires NoAngle(s.buffer + c) && IsTerminator(t) && NoTerminator(x) && NoTerminator(y)
    requires x != "" && !IsSpace(x[0])
    ensures Step(s, c, decode) == (StreamState(Plain, y, "", ""), [Event(x + [t], None)])
  {
    NoBlockMarkers(s.buffer + c);
    StepFlushes(s, c, decode);
    FlushSentenceAt(s.buffer + c, x, t, y);
    assert SentenceEvents([x + [t]]) == [Event(x + [t], None)];
  }

  /** Text with no `<` holds neither opening marker. */
  lemma NoBlockMarkers(b: string)
    requires NoAngle(b)
    ensures !Contains(b, Blocks.Open(Blocks.ToolBlock)) && !Contains(b, Blocks.Open(Blocks.MemoryBlock))
  {
    Blocks.BlockMarkers(Blocks.ToolBlock);
    Blocks.BlockMarkers(Blocks.MemoryBlock);
    NoAngleNoMarker(b, Blocks.Open(Blocks.ToolBlock));
    NoAngleNoMarker(b, Blocks.Open(Blocks.MemoryBlock));
  }

  /**
    Sentences come out as soon as they end: fragments `a`, `.b`, `c.` with no
    other terminator yield `a.` on the second fragment and `bc.` on the third.
   */
  lemma SentencesFlushAsTheyEnd(a: string, b: string, c: string, decode: string -> Option<Json>)
    requires NoAngle(a) && NoAngle(b) && NoAngle(c)
    requires NoTerminator(a) && NoTerminator(b) && NoTerminator(c)
    requires a != "" && !IsSpace(a[0]) && b != "" && !IsSpace(b[0])
    ensures ParseStream([a, "." + b, c + "."], decode) == [Event(a + ".", None), Event(b + c + ".", None)]
  {
    var s1 := StreamState(Plain, a, "", "");
    var s2 := StreamState(Plain, b, "", "");
    FirstSentenceHeld(a, decode);
    SecondEndsFirst(a, b, s1, decode);
    ThirdEndsSecond(b, c, s2, decode);
    ThreeSteps(a, "." + b, c + ".", s1, s2, Initial, Event(a + ".", None), Event(b + c + ".", None), decode);
  }

  lemma FirstSentenceHeld(a: string, decode: string -> Option<Json>)
    requires NoAngle(a) && NoTerminator(a)
    ensures Step(Initial, a, decode) == (StreamState(Plain, a, "", ""), [])
  {
    assert Initial.buffer + a == a;
    HeldStep(Initial, a, decode);
  }

  lemma SecondEndsFirst(a: string, b: string, s1: StreamState, decode: string -> Option<Json>)
    requires s1 == StreamState(Plain, a, "", "")
    requires NoAngle(a) && NoAngle(b) && NoTerminator(a) && NoTerminator(b) && a != "" && !IsSpace(a[0])
    ensures Step(s1, "." + b, decode) == (StreamState(Plain, b, "", ""), [Event(a + ".", None)])
  {
    assert a + ("." + b) == a + ['.'] + b;
    assert forall j :: 1 <= j < |"." + b| ==> ("." + b)[j] == b[j - 1];
    NoAngleJoin(a, "." + b);
    StepEndsSentence(s1, "." + b, a, '.', b, decode);
    assert a + ['.'] == a + ".";
  }

  lemma ThirdEndsSecond(b: string, c: string, s2: StreamState, decode: string -> Option<Json>)
    requires s2 == StreamState(Plain, b, "", "")
    requires NoAngle(b) && NoAngle(c) && NoTerminator(b) && NoTerminator(c) && b != "" && !IsSpace(b[0])
    ensures Step(s2, c + ".", decode) == (Initial, [Event(b + c + ".", None)])
  {
    assert b + (c + ".") == (b + c) + ['.'] + "";
    assert forall j :: 0 <= j < |c| ==> (c + ".")[j] == c[j];
    NoAngleJoin(b, c + ".");
    NoTerminatorJoin(b, c);
    StepEndsSentence(s2, c + ".", b + c, '.', "", decode);
    assert (b + c) + ['.'] == b + c + ".";
  }

  lemma NoAngleJoin(x: string, y: string)
    requires NoAngle(x) && NoAngle(y)
    ensures NoAngle(x + y)
  {
    assert forall j :: |x| <= j < |x + y| ==> (x + y)[j] == y[j - |x|];
  }

  lemma NoTerminatorJoin(x: string, y: string)
    requires NoTerminator(x) && NoTerminator(y)
    ensures NoTerminator(x + y)
  {
    assert forall j :: |x| <= j < |x + y| ==> (x + y)[j] == y[j - |x|];
  }

  lemma ThreeSteps(f1: string, f2: string, f3: string, s1: StreamState, s2: StreamState, s3: StreamState,
                   e2: Event, e3: Event, decode: string -> Option<Json>)
    requires Step(Initial, f1, decode) == (s1, [])
    requires Step(s1, f2, decode) == (s2, [e2])
    requires Step(s2, f3, decode) == (s3, [e3])
    ensures ParseStream([f1, f2, f3], decode) == [e2, e3]
  {
    var fs := [f1, f2, f3];
    assert fs[1..] == [f2, f3] && fs[1..][1..] == [f3];
    RunOne(s2, f3, decode);
    RunAfterStep(s1, fs[1..], decode, s2, [e2], s3, [e3]);
    RunAfterStep(Initial, fs, decode, s1, [], s3, [e2] + [e3]);
  }
}
