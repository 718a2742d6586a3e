/**
  The batch parser: `parse_output` cuts the whole reply at every
  `<mfcs_tool>`, turns each terminated block into a tool call, then does the
  same with `<mfcs_memory>` over the text that is left.
 */
module Batch {
  import opened Wrappers
  import opened Text
  import opened Calls
  import opened Extract
  import opened Render
  import opened Blocks

  /** What one part after an opening marker adds to the content, and the call it yields. */
  datatype Piece = Piece(text: string, call: Option<Fields>)

  /** The content and the calls one pass produces. */
  datatype PassResult = PassResult(content: string, calls: seq<Fields>)

  /**
    One part after an opening marker. A terminated block that extracts adds
    only its stripped trailing text; one that does not is put back between
    its markers and its trailing text is dropped; an unterminated part is
    put back after its opening marker.
   */
  function ResolvePart(k: BlockKind, part: string, decode: string -> Option<Json>): (r: Piece)
    ensures !Contains(part, Close(k)) ==> r == Piece(Open(k) + part, None)
    ensures r.call.None? ==> r.text <= Open(k) + part
    ensures r.call.Some? ==> Contains(part, Close(k)) &&
                             r.text == Strip(part[Find(part, Close(k)).value + |Close(k)|..])
  {
    if Contains(part, Close(k)) then
      var (block, rest) := SplitOnce(part, Close(k));
      BlockAndRest(k, part, block, rest);
      match ExtractComponents(block, IdTags(k), decode)
      case Some(f) => Piece(Strip(rest), Some(f))
      case None => Piece(Open(k) + block + Close(k), None)
    else
      Piece(Open(k) + part, None)
  }

  /** A part cut at its first closing marker: the block put back is a prefix, the rest follows the marker. */
  lemma BlockAndRest(k: BlockKind, part: string, block: string, rest: string)
    requires part == block + Close(k) + rest
    ensures part[|block| + |Close(k)|..] == rest
    ensures Open(k) + block + Close(k) <= Open(k) + part
  {
    assert Open(k) + part == (Open(k) + block + Close(k)) + rest;
  }

  /**
    The call lines 72-88 take from one part, read off the part alone: the
    fields of the block before its first closing marker, when there is one
    and the block extracts.
   */
  function BlockCall(k: BlockKind, part: string, decode: string -> Option<Json>): Option<Fields> {
    if Contains(part, Close(k)) then ExtractComponents(SplitOnce(part, Close(k)).0, IdTags(k), decode) else None
  }

  /** What each part yields, read off the parts one at a time. */
  function Found(k: BlockKind, parts: seq<string>, decode: string -> Option<Json>): (r: seq<Option<Fields>>)
    ensures |r| == |parts| && forall j :: 0 <= j < |parts| ==> r[j] == BlockCall(k, parts[j], decode)
    decreases |parts|
  {
    if parts == [] then []
    else
      var tail := Found(k, parts[1..], decode);
      FoundShift(k, parts, tail, decode);
      [BlockCall(k, parts[0], decode)] + tail
  }

  lemma FoundShift(k: BlockKind, parts: seq<string>, tail: seq<Option<Fields>>, decode: string -> Option<Json>)
    requires parts != [] && |tail| == |parts| - 1
    requires forall j :: 0 <= j < |tail| ==> tail[j] == BlockCall(k, parts[1..][j], decode)
    ensures var r := [BlockCall(k, parts[0], decode)] + tail;
            forall j :: 0 <= j < |parts| ==> r[j] == BlockCall(k, parts[j], decode)
  {
    var f := (p: string) => BlockCall(k, p, decode);
    MapCons(f, parts, tail);
  }

  /** Mapping `f` over a list is `f` of its head in front of the mapped tail. */
  lemma MapCons(f: string -> Option<Fields>, parts: seq<string>, tail: seq<Option<Fields>>)
    requires parts != [] && |tail| == |parts| - 1
    requires forall j :: 0 <= j < |tail| ==> tail[j] == f(parts[1..][j])
    ensures var r := [f(parts[0])] + tail; forall j :: 0 <= j < |parts| ==> r[j] == f(parts[j])
  {
    var r := [f(parts[0])] + tail;
    forall j | 1 <= j < |parts|
      ensures r[j] == f(parts[j])
    {
      assert r[j] == tail[j - 1] && parts[1..][j - 1] == parts[j];
    }
  }

  /**
    `idx` lists, in increasing order, exactly the positions of `found` that
    hold a call, and `calls[i]` is the call at position `idx[i]`.
   */
  ghost predicate Picks(idx: seq<nat>, calls: seq<Fields>, found: seq<Option<Fields>>) {
    && |idx| == |calls|
    && (forall i :: 0 <= i < |idx| ==> idx[i] < |found| && found[idx[i]] == Some(calls[i]))
    && (forall i, j :: 0 <= i < j < |idx| ==> idx[i] < idx[j])
    && (forall j :: 0 <= j < |found| && found[j].Some? ==> j in idx)
  }

  /** The values of the entries that hold one, in order: a reference definition of which calls a pass yields. */
  function Values(found: seq<Option<Fields>>): seq<Fields>
    decreases |found|
  {
    if found == [] then []
    else (if found[0].Some? then [found[0].value] else []) + Values(found[1..])
  }

  /** The loop over the parts after the first, in order. */
  function PassParts(k: BlockKind, parts: seq<string>, decode: string -> Option<Json>): (r: PassResult)
    ensures |r.calls| <= |parts|
    ensures (forall i :: 0 <= i < |parts| ==> !Contains(parts[i], Close(k))) ==> r.calls == []
    ensures r.calls == Values(Found(k, parts, decode))
    decreases |parts|
  {
    if parts == [] then PassResult("", [])
    else
      var piece := ResolvePart(k, parts[0], decode);
      var tail := PassParts(k, parts[1..], decode);
      var calls := if piece.call.Some? then [piece.call.value] + tail.calls else tail.calls;
      OrderStep(k, parts, decode, piece, tail.calls, calls);
      PassResult(piece.text + tail.content, calls)
  }

  /** One pass of `parse_output`: the stripped text before the first marker, then each part in turn. */
  function Pass(k: BlockKind, text: string, decode: string -> Option<Json>): (r: PassResult)
    ensures |r.calls| < |SplitAll(text, Open(k))|
    ensures r.calls == Values(Found(k, SplitAll(text, Open(k))[1..], decode))
  {
    var parts := SplitAll(text, Open(k));
    var tail := PassParts(k, parts[1..], decode);
    PassResult(Strip(parts[0]) + tail.content, tail.calls)
  }

  function ToTool(f: Fields): ToolCall {
    ToolCall(f.instructions, f.id, f.name, f.arguments)
  }

  function ToMemory(f: Fields): MemoryCall {
    MemoryCall(f.instructions, f.id, f.name, f.arguments)
  }

  /** Python `parse_output`: the tool pass, then the memory pass over the content it leaves. */
  function ParseOutput(output: string, decode: string -> Option<Json>): (r: (string, seq<ToolCall>, seq<MemoryCall>))
    ensures |r.1| < |SplitAll(output, Open(ToolBlock))|
    ensures r.1 == ToTools(Values(Found(ToolBlock, SplitAll(output, Open(ToolBlock))[1..], decode)))
    ensures r.2 == ToMemories(Values(Found(MemoryBlock, SplitAll(Pass(ToolBlock, output, decode).content,
                                                                   Open(MemoryBlock))[1..], decode)))
  {
    var t := Pass(ToolBlock, output, decode);
    var m := Pass(MemoryBlock, t.content, decode);
    (m.content, ToTools(t.calls), ToMemories(m.calls))
  }

  function ToTools(calls: seq<Fields>): (r: seq<ToolCall>)
    ensures |r| == |calls|
    ensures forall i :: 0 <= i < |calls| ==> r[i] == ToTool(calls[i])
  {
    seq(|calls|, i requires 0 <= i < |calls| => ToTool(calls[i]))
  }

  function ToMemories(calls: seq<Fields>): (r: seq<MemoryCall>)
    ensures |r| == |calls|
    ensures forall i :: 0 <= i < |calls| ==> r[i] == ToMemory(calls[i])
  {
    seq(|calls|, i requires 0 <= i < |calls| => ToMemory(calls[i]))
  }

  // ---------------------------------------------------------------------
  // Splitting facts

  lemma SplitAllNone(s: string, sep: string)
    requires sep != "" && !Contains(s, sep)
    ensures SplitAll(s, sep) == [s]
  {
  }

  /** Cutting at a marker that first occurs right after `pre`. */
  lemma SplitAllAfterClean(pre: string, sep: string, rest: string)
    requires AngleOnlyFirst(sep) && !Contains(pre, sep)
    ensures SplitAll(pre + sep + rest, sep) == [pre] + SplitAll(rest, sep)
  {
    var s := pre + sep + rest;
    FindAfterClean(pre, sep, rest);
    assert s[..|pre|] == pre;
    assert s[|pre| + |sep|..] == rest;
  }

  lemma SplitOnceAt(block: string, sep: string, rest: string)
    requires AngleOnlyFirst(sep) && !Contains(block, sep)
    ensures Contains(block + sep + rest, sep) && SplitOnce(block + sep + rest, sep) == (block, rest)
  {
    var s := block + sep + rest;
    FindAfterClean(block, sep, rest);
    assert s[..|block|] == block;
    assert s[|block| + |sep|..] == rest;
  }

  lemma NotInStrip(s: string, pat: string)
    requires !Contains(s, pat)
    ensures !Contains(Strip(s), pat)
  {
    NotInSlice(s, SkipSpace(s, 0), SkipSpace(s, 0) + |Strip(s)|, pat);
  }

  lemma NoAngleStrip(s: string)
    requires NoAngle(s)
    ensures NoAngle(Strip(s))
  {
    NoAngleSlice(s, SkipSpace(s, 0), SkipSpace(s, 0) + |Strip(s)|);
  }

  // ---------------------------------------------------------------------
  // What the batch parser does with whole replies

  /** A terminated part whose block extracts adds only its stripped trailing text. */
  lemma ResolveParsed(k: BlockKind, block: string, rest: string, decode: string -> Option<Json>, f: Fields)
    requires !Contains(block, Close(k)) && ExtractComponents(block, IdTags(k), decode) == Some(f)
    ensures ResolvePart(k, block + Close(k) + rest, decode) == Piece(Strip(rest), Some(f))
  {
    BlockMarkers(k);
    SplitOnceAt(block, Close(k), rest);
  }

  /** A terminated part whose block does not extract is put back without its trailing text. */
  lemma ResolveUnparsed(k: BlockKind, block: string, rest: string, decode: string -> Option<Json>)
    requires !Contains(block, Close(k)) && ExtractComponents(block, IdTags(k), decode).None?
    ensures ResolvePart(k, block + Close(k) + rest, decode) == Piece(Open(k) + block + Close(k), None)
  {
    BlockMarkers(k);
    SplitOnceAt(block, Close(k), rest);
  }

  /** The call a part yields is the one read off the part alone. */
  lemma ResolveCall(k: BlockKind, part: string, decode: string -> Option<Json>)
    ensures ResolvePart(k, part, decode).call == BlockCall(k, part, decode)
  {
  }

  /** Indices into `parts[1..]`, read as indices into `parts`. */
  function Shift(idx: seq<nat>): (r: seq<nat>)
    ensures |r| == |idx| && forall i :: 0 <= i < |idx| ==> r[i] == idx[i] + 1
  {
    seq(|idx|, i requires 0 <= i < |idx| => idx[i] + 1)
  }

  /** A part put in front moves every pick one place on. */
  lemma PicksShift(idx: seq<nat>, calls: seq<Fields>, found: seq<Option<Fields>>, o: Option<Fields>)
    requires Picks(idx, calls, found)
    ensures var s, g := Shift(idx), [o] + found;
            && (forall i :: 0 <= i < |s| ==> 1 <= s[i] < |g| && g[s[i]] == Some(calls[i]))
            && (forall i, j :: 0 <= i < j < |s| ==> s[i] < s[j])
            && (forall j :: 1 <= j < |g| && g[j].Some? ==> j in s)
  {
    var s, g := Shift(idx), [o] + found;
    forall i | 0 <= i < |s|
      ensures 1 <= s[i] < |g| && g[s[i]] == Some(calls[i])
    {
      assert g[s[i]] == found[idx[i]];
    }
    forall j | 1 <= j < |g| && g[j].Some?
      ensures j in s
    {
      assert found[j - 1] == g[j];
      var i :| 0 <= i < |idx| && idx[i] == j - 1;
      assert s[i] == j;
    }
  }

  /** A part that yields nothing, put in front, leaves the calls as they are. */
  lemma PicksSkip(idx: seq<nat>, calls: seq<Fields>, found: seq<Option<Fields>>)
    requires Picks(idx, calls, found)
    ensures Picks(Shift(idx), calls, [None] + found)
  {
    PicksShift(idx, calls, found, None);
  }

  /** A part that yields `f`, put in front, adds `f` as the first call. */
  lemma PicksTake(idx: seq<nat>, calls: seq<Fields>, found: seq<Option<Fields>>, f: Fields)
    requires Picks(idx, calls, found)
    ensures Picks([0] + Shift(idx), [f] + calls, [Some(f)] + found)
  {
    var s, g := Shift(idx), [Some(f)] + found;
    PicksShift(idx, calls, found, Some(f));
    TakeValues(s, calls, g, f);
    TakeOrder(s);
    TakeAll(s, g);
  }

  lemma TakeValues(s: seq<nat>, calls: seq<Fields>, g: seq<Option<Fields>>, f: Fields)
    requires |s| == |calls| && g != [] && g[0] == Some(f)
    requires forall i :: 0 <= i < |s| ==> s[i] < |g| && g[s[i]] == Some(calls[i])
    ensures var t, c := [0] + s, [f] + calls;
            forall i :: 0 <= i < |t| ==> t[i] < |g| && g[t[i]] == Some(c[i])
  {
    var t, c := [0] + s, [f] + calls;
    forall i | 0 < i < |t|
      ensures t[i] < |g| && g[t[i]] == Some(c[i])
    {
      assert t[i] == s[i - 1] && c[i] == calls[i - 1];
    }
  }

  lemma TakeOrder(s: seq<nat>)
    requires forall i :: 0 <= i < |s| ==> 1 <= s[i]
    requires forall i, j :: 0 <= i < j < |s| ==> s[i] < s[j]
    ensures var t := [0] + s; forall i, j :: 0 <= i < j < |t| ==> t[i] < t[j]
  {
    var t := [0] + s;
    forall i, j | 0 <= i < j < |t|
      ensures t[i] < t[j]
    {
      assert t[j] == s[j - 1];
      if i > 0 {
        assert t[i] == s[i - 1];
      }
    }
  }

  lemma TakeAll(s: seq<nat>, g: seq<Option<Fields>>)
    requires forall j :: 1 <= j < |g| && g[j].Some? ==> j in s
    ensures var t := [0] + s; forall j :: 0 <= j < |g| && g[j].Some? ==> j in t
  {
    var t := [0] + s;
    forall j | 1 <= j < |g| && g[j].Some?
      ensures j in t
    {
      var i :| 0 <= i < |s| && s[i] == j;
      assert t[i + 1] == j;
    }
  }

  /** The picks of the tail, with the head's value put in front when it holds one, pick the whole list. */
  lemma PicksStep(idx: seq<nat>, tail: seq<Fields>, rest: seq<Option<Fields>>, o: Option<Fields>,
                  head: seq<Fields>, calls: seq<Fields>, found: seq<Option<Fields>>)
    requires Picks(idx, tail, rest) && found == [o] + rest
    requires head == (if o.Some? then [o.value] else []) && calls == head + tail
    ensures exists picks :: Picks(picks, calls, found)
  {
    match o
    case Some(f) =>
      PicksTake(idx, tail, rest, f);
      assert Picks([0] + Shift(idx), calls, found);
    case None =>
      PicksSkip(idx, tail, rest);
      assert calls == tail;
      assert Picks(Shift(idx), calls, found);
  }

  /** The first entry of a list, split off for `Values`. */
  lemma ValuesSplit(found: seq<Option<Fields>>)
    requires found != []
    ensures found == [found[0]] + found[1..]
    ensures Values(found) == (if found[0].Some? then [found[0].value] else []) + Values(found[1..])
  {
  }

  lemma FoundCons(k: BlockKind, parts: seq<string>, decode: string -> Option<Json>)
    requires parts != []
    ensures Found(k, parts, decode) == [BlockCall(k, parts[0], decode)] + Found(k, parts[1..], decode)
  {
  }

  /** One more part in front adds its call, if any, in front of the calls of the rest. */
  lemma OrderStep(k: BlockKind, parts: seq<string>, decode: string -> Option<Json>, piece: Piece,
                  tail: seq<Fields>, calls: seq<Fields>)
    requires parts != [] && piece == ResolvePart(k, parts[0], decode)
    requires tail == Values(Found(k, parts[1..], decode))
    requires calls == if piece.call.Some? then [piece.call.value] + tail else tail
    ensures calls == Values(Found(k, parts, decode))
  {
    ResolveCall(k, parts[0], decode);
    FoundCons(k, parts, decode);
    var found := Found(k, parts, decode);
    assert found[1..] == Found(k, parts[1..], decode);
    ValuesSplit(found);
  }

  /**
    `Values` read through indices: its entries are the values at the
    positions that hold one, every such position contributes one, and they
    come in increasing order of position.
   */
  lemma {:induction false} ValuesPicked(found: seq<Option<Fields>>)
    ensures exists idx :: Picks(idx, Values(found), found)
    decreases |found|
  {
    if found == [] {
      assert Picks([], Values(found), found);
    } else {
      ValuesPicked(found[1..]);
      ValuesSplit(found);
      var idx :| Picks(idx, Values(found[1..]), found[1..]);
      var head := if found[0].Some? then [found[0].value] else [];
      PicksStep(idx, Values(found[1..]), found[1..], found[0], head, Values(found), found);
    }
  }

  /**
    Every call a pass's loop yields is the extraction of one part, one per
    part whose block extracts, in the order of the parts.
   */
  lemma PassPartsInOrder(k: BlockKind, parts: seq<string>, decode: string -> Option<Json>)
    ensures exists idx :: Picks(idx, PassParts(k, parts, decode).calls, Found(k, parts, decode))
  {
    var found := Found(k, parts, decode);
    ValuesPicked(found);
    var idx :| Picks(idx, Values(found), found);
    assert Picks(idx, PassParts(k, parts, decode).calls, found);
  }

  /**
    The loop over two runs of parts is the loop over the first followed by
    the loop over the second: content and calls both come out in part order.
   */
  lemma {:induction false} PassPartsAppend(k: BlockKind, p1: seq<string>, p2: seq<string>, decode: string -> Option<Json>)
    ensures var a, b := PassParts(k, p1, decode), PassParts(k, p2, decode);
            PassParts(k, p1 + p2, decode) == PassResult(a.content + b.content, a.calls + b.calls)
    decreases |p1|
  {
    if p1 == [] {
      assert p1 + p2 == p2;
    } else {
      var first, rest := p1[0], p1[1..];
      assert p1 == [first] + rest && p1 + p2 == [first] + (rest + p2);
      PassPartsAppend(k, rest, p2, decode);
      var piece := ResolvePart(k, first, decode);
      var head := if piece.call.Some? then [piece.call.value] else [];
      PassPartsCons(k, first, rest + p2, decode, piece, head);
      PassPartsCons(k, first, rest, decode, piece, head);
      Regather(PassParts(k, [first] + (rest + p2), decode), PassParts(k, [first] + rest, decode),
               PassParts(k, rest, decode), PassParts(k, p2, decode), PassParts(k, rest + p2, decode), piece.text, head);
    }
  }

  lemma Regather(whole: PassResult, first: PassResult, rest: PassResult, second: PassResult, joined: PassResult,
                 text: string, head: seq<Fields>)
    requires joined == PassResult(rest.content + second.content, rest.calls + second.calls)
    requires whole == PassResult(text + joined.content, head + joined.calls)
    requires first == PassResult(text + rest.content, head + rest.calls)
    ensures whole == PassResult(first.content + second.content, first.calls + second.calls)
  {
    assert text + (rest.content + second.content) == (text + rest.content) + second.content;
    assert head + (rest.calls + second.calls) == (head + rest.calls) + second.calls;
  }

  /** The loop over one part put in front of others. */
  lemma PassPartsCons(k: BlockKind, first: string, rest: seq<string>, decode: string -> Option<Json>,
                      piece: Piece, head: seq<Fields>)
    requires piece == ResolvePart(k, first, decode)
    requires head == if piece.call.Some? then [piece.call.value] else []
    ensures var tail := PassParts(k, rest, decode);
            PassParts(k, [first] + rest, decode) == PassResult(piece.text + tail.content, head + tail.calls)
  {
    assert ([first] + rest)[0] == first && ([first] + rest)[1..] == rest;
  }

  /** The loop over a single part. */
  lemma PassPartsOne(k: BlockKind, part: string, decode: string -> Option<Json>)
    ensures var piece := ResolvePart(k, part, decode);
            PassParts(k, [part], decode) ==
            PassResult(piece.text, if piece.call.Some? then [piece.call.value] else [])
  {
    assert [part][1..] == [];
  }

  /** Text without the opening marker passes through stripped, with no calls. */
  lemma PassWithoutMarker(k: BlockKind, text: string, decode: string -> Option<Json>)
    requires !Contains(text, Open(k))
    ensures Pass(k, text, decode) == PassResult(Strip(text), [])
  {
    SplitAllNone(text, Open(k));
  }

  /** A reply with neither opening marker is returned stripped, with no calls. */
  lemma ParseOutputPlain(output: string, decode: string -> Option<Json>)
    requires !Contains(output, Open(ToolBlock)) && !Contains(output, Open(MemoryBlock))
    ensures ParseOutput(output, decode) == (Strip(output), [], [])
  {
    PassWithoutMarker(ToolBlock, output, decode);
    NotInStrip(output, Open(MemoryBlock));
    PassWithoutMarker(MemoryBlock, Strip(output), decode);
    StripIdempotent(output);
    var r := ParseOutput(output, decode);
    assert |r.1| == 0 && |r.2| == 0;
  }

  /** The part after the only opening marker holds no further one. */
  lemma SplitSingle(k: BlockKind, pre: string, body: string, post: string)
    requires NoAngle(pre) && NoAngle(post) && !Contains(body, Open(k))
    ensures SplitAll(pre + Open(k) + body + Close(k) + post, Open(k)) == [pre, body + Close(k) + post]
  {
    BlockMarkers(k);
    var part := body + Close(k) + post;
    NoAngleNoMarker(pre, Open(k));
    assert pre + Open(k) + body + Close(k) + post == pre + Open(k) + part;
    SplitAllAfterClean(pre, Open(k), part);
    PartWithoutOpen(k, body, post);
    SplitAllNone(part, Open(k));
  }

  lemma PartWithoutOpen(k: BlockKind, body: string, post: string)
    requires NoAngle(post) && !Contains(body, Open(k))
    ensures !Contains(body + Close(k) + post, Open(k))
  {
    BlockMarkers(k);
    NoAngleNoMarker(post, Open(k));
    NotContainsConcat(Close(k), post, Open(k));
    assert body + Close(k) + post == body + (Close(k) + post);
    NotContainsConcat(body, Close(k) + post, Open(k));
  }

  /** One block that extracts, between two stretches of text with no `<`. */
  lemma PassSingleBlock(k: BlockKind, pre: string, body: string, post: string, decode: string -> Option<Json>, f: Fields)
    requires NoAngle(pre) && NoAngle(post)
    requires !Contains(body, Open(k)) && !Contains(body, Close(k))
    requires ExtractComponents(body, IdTags(k), decode) == Some(f)
    ensures Pass(k, pre + Open(k) + body + Close(k) + post, decode) == PassResult(Strip(pre) + Strip(post), [f])
  {
    SplitSingle(k, pre, body, post);
    var part := body + Close(k) + post;
    ResolveParsed(k, body, post, decode, f);
    PassPartsOne(k, part, decode);
    assert [pre, part][1..] == [part];
  }

  /**
    Round trip through the whole parser: a reply holding one rendered tool
    block between two stretches of text with no `<` yields that call, and
    the text around it stripped and glued together.
   */
  lemma SingleToolCall(pre: string, post: string, instructions: string, callId: string, name: string,
                       params: string, decode: string -> Option<Json>, args: Json)
    requires NoAngle(pre) && NoAngle(post)
    requires PlainValue(instructions) && PlainValue(callId) && PlainValue(name)
    requires NoLineBreak(callId) && NoLineBreak(name)
    requires ObjectText(params) && decode(params) == Some(args)
    ensures ParseOutput(pre + Open(ToolBlock) + RenderBlock(CallId, instructions, callId, name, params) +
                        Close(ToolBlock) + post, decode)
            == (Strip(pre) + Strip(post), [ToolCall(instructions, callId, name, args)], [])
  {
    var body := RenderBlock(CallId, instructions, callId, name, params);
    var output := pre + Open(ToolBlock) + body + Close(ToolBlock) + post;
    RenderedToolBlock(instructions, callId, name, params, decode, args);
    PassSingleBlock(ToolBlock, pre, body, post, decode, Fields(instructions, callId, name, args));
    PlainAfterTools(pre, post, decode);
    ParseOutputOneTool(output, decode, Strip(pre) + Strip(post), Fields(instructions, callId, name, args));
  }

  /** When the tool pass finds one call and the memory pass none, that is what the parser returns. */
  lemma ParseOutputOneTool(output: string, decode: string -> Option<Json>, content: string, f: Fields)
    requires Pass(ToolBlock, output, decode) == PassResult(content, [f])
    requires Pass(MemoryBlock, content, decode) == PassResult(content, [])
    ensures ParseOutput(output, decode) == (content, [ToTool(f)], [])
  {
    var t := Pass(ToolBlock, output, decode);
    var m := Pass(MemoryBlock, t.content, decode);
    OneToolAssembled(t, m, content, f);
  }

  lemma OneToolAssembled(t: PassResult, m: PassResult, content: string, f: Fields)
    requires t == PassResult(content, [f]) && m == PassResult(content, [])
    ensures (m.content, ToTools(t.calls), ToMemories(m.calls)) == (content, [ToTool(f)], [])
  {
    assert ToTools(t.calls) == [ToTool(f)];
  }

  /**
    A tool block that extracts is taken out whole before the memory pass
    runs: a `<mfcs_memory>` block written inside it, with no `<` in the text
    around the tool block, yields no memory call.
   */
  lemma NestedMemoryIgnored(pre: string, body: string, post: string, decode: string -> Option<Json>, f: Fields)
    requires NoAngle(pre) && NoAngle(post)
    requires !Contains(body, Open(ToolBlock)) && !Contains(body, Close(ToolBlock))
    requires ExtractComponents(body, CallId, decode) == Some(f)
    ensures ParseOutput(pre + Open(ToolBlock) + body + Close(ToolBlock) + post, decode)
            == (Strip(pre) + Strip(post), [ToTool(f)], [])
  {
    var output := pre + Open(ToolBlock) + body + Close(ToolBlock) + post;
    PassSingleBlock(ToolBlock, pre, body, post, decode, f);
    PlainAfterTools(pre, post, decode);
    ParseOutputOneTool(output, decode, Strip(pre) + Strip(post), f);
  }

  /** A rendered tool block holds neither block marker and extracts to its values. */
  lemma RenderedToolBlock(instructions: string, callId: string, name: string,
                          params: string, decode: string -> Option<Json>, args: Json)
    requires PlainValue(instructions) && PlainValue(callId) && PlainValue(name)
    requires NoLineBreak(callId) && NoLineBreak(name)
    requires ObjectText(params) && decode(params) == Some(args)
    ensures var body := RenderBlock(CallId, instructions, callId, name, params);
            && !Contains(body, Open(ToolBlock)) && !Contains(body, Close(ToolBlock))
            && ExtractComponents(body, IdTags(ToolBlock), decode) == Some(Fields(instructions, callId, name, args))
  {
    AllMarkers(CallId);
    BlockMarkers(ToolBlock);
    RenderedWithout(CallId, instructions, callId, name, params, Open(ToolBlock));
    RenderedWithout(CallId, instructions, callId, name, params, Close(ToolBlock));
    ExtractRenderedBlock(CallId, instructions, callId, name, params, decode, args);
  }

  /** The text left around a tool block goes through the memory pass unchanged. */
  lemma PlainAfterTools(pre: string, post: string, decode: string -> Option<Json>)
    requires NoAngle(pre) && NoAngle(post)
    ensures Pass(MemoryBlock, Strip(pre) + Strip(post), decode) == PassResult(Strip(pre) + Strip(post), [])
  {
    var content := Strip(pre) + Strip(post);
    NoAngleStrip(pre);
    NoAngleStrip(post);
    BlockMarkers(MemoryBlock);
    NoAngleNoMarker(content, Open(MemoryBlock));
    PassWithoutMarker(MemoryBlock, content, decode);
    StripOfStrippedConcat(pre, post);
  }

  // ---------------------------------------------------------------------
  // A block that fails to extract loses the text after it

  /**
    As written, a terminated block that does not extract, with no `<` in the
    text around it, is put back between its markers, and whatever followed
    its closing marker is gone.
   */
  lemma PassDropsTrailingText(k: BlockKind, pre: string, body: string, post: string, decode: string -> Option<Json>)
    requires NoAngle(pre) && NoAngle(post)
    requires !Contains(body, Open(k)) && !Contains(body, Close(k))
    requires ExtractComponents(body, IdTags(k), decode).None?
    ensures Pass(k, pre + Open(k) + body + Close(k) + post, decode) ==
            PassResult(Strip(pre) + (Open(k) + body + Close(k)), [])
  {
    SplitSingle(k, pre, body, post);
    UnparsedPart(k, body, post, decode);
    PassOfTwoParts(k, pre + Open(k) + body + Close(k) + post, pre, body + Close(k) + post, decode);
  }

  lemma UnparsedPart(k: BlockKind, body: string, post: string, decode: string -> Option<Json>)
    requires !Contains(body, Close(k)) && ExtractComponents(body, IdTags(k), decode).None?
    ensures PassParts(k, [body + Close(k) + post], decode) == PassResult(Open(k) + body + Close(k), [])
  {
    ResolveUnparsed(k, body, post, decode);
    PassPartsOne(k, body + Close(k) + post, decode);
  }

  lemma PassOfTwoParts(k: BlockKind, text: string, pre: string, part: string, decode: string -> Option<Json>)
    requires SplitAll(text, Open(k)) == [pre, part]
    ensures var tail := PassParts(k, [part], decode);
            Pass(k, text, decode) == PassResult(Strip(pre) + tail.content, tail.calls)
  {
    assert [pre, part][1..] == [part];
  }

  /** An empty block has no instructions field, so it never extracts. */
  lemma EmptyBlockFails(k: BlockKind, decode: string -> Option<Json>)
    ensures ExtractComponents("", IdTags(k), decode).None?
  {
    assert !HasField("", Instructions, true);
  }

  lemma EmptyToolBlockPlain()
    ensures !Contains(Open(ToolBlock) + Close(ToolBlock), Open(MemoryBlock))
    ensures Strip(Open(ToolBlock) + Close(ToolBlock)) == Open(ToolBlock) + Close(ToolBlock)
  {
    BlockMarkers(MemoryBlock);
    MarkerNotIn(Open(ToolBlock), Open(MemoryBlock), 6);
    MarkerNotIn(Close(ToolBlock), Open(MemoryBlock), 1);
    NotContainsConcat(Open(ToolBlock), Close(ToolBlock), Open(MemoryBlock));
    StripTrimmed(Open(ToolBlock) + Close(ToolBlock));
  }

  /**
    The smallest case: `<mfcs_tool></mfcs_tool>tail` comes back as
    `<mfcs_tool></mfcs_tool>`, without a call and without `tail`.
   */
  lemma TrailingTextLost(decode: string -> Option<Json>)
    ensures ParseOutput(Open(ToolBlock) + Close(ToolBlock) + "tail", decode) ==
            (Open(ToolBlock) + Close(ToolBlock), [], [])
    ensures NonSpace(Open(ToolBlock) + Close(ToolBlock) + "tail") != NonSpace(Open(ToolBlock) + Close(ToolBlock))
  {
    var kept := Open(ToolBlock) + Close(ToolBlock);
    EmptyToolBlockFirstPass(kept, decode);
    EmptyToolBlockPlain();
    PassWithoutMarker(MemoryBlock, kept, decode);
    var r := ParseOutput(kept + "tail", decode);
    assert |r.1| == 0 && |r.2| == 0;
    TailHasText(kept);
  }

  lemma EmptyToolBlockFirstPass(kept: string, decode: string -> Option<Json>)
    requires kept == Open(ToolBlock) + Close(ToolBlock)
    ensures Pass(ToolBlock, kept + "tail", decode) == PassResult(kept, [])
  {
    EmptyBlockFails(ToolBlock, decode);
    PassDropsTrailingText(ToolBlock, "", "", "tail", decode);
    SameText("" + Open(ToolBlock) + "" + Close(ToolBlock) + "tail", kept + "tail",
             Strip("") + (Open(ToolBlock) + "" + Close(ToolBlock)), kept, decode);
  }

  lemma SameText(a: string, b: string, c: string, d: string, decode: string -> Option<Json>)
    requires a == b && c == d
    requires Pass(ToolBlock, a, decode) == PassResult(c, [])
    ensures Pass(ToolBlock, b, decode) == PassResult(d, [])
  {
  }

  lemma TailHasText(kept: string)
    ensures NonSpace(kept + "tail") != NonSpace(kept)
  {
    NonSpaceAppend(kept, "tail");
    assert NonSpace("tail") == "t" + NonSpace("ail");
  }

  /** `sep + parts[0] + sep + parts[1] + ...`: the text after the first part of a split. */
  function Prefixed(parts: seq<string>, sep: string): string
    decreases |parts|
  {
    if parts == [] then "" else sep + parts[0] + Prefixed(parts[1..], sep)
  }

  lemma {:induction false} JoinPrefixed(parts: seq<string>, sep: string)
    requires |parts| >= 1
    ensures Join(parts, sep) == parts[0] + Prefixed(parts[1..], sep)
    decreases |parts|
  {
    if |parts| > 1 {
      JoinPrefixed(parts[1..], sep);
      assert parts[1..][1..] == parts[2..];
    }
  }

  /**
    The evidently intended handling of one part: a block that does not
    extract is put back together with its stripped trailing text, as a
    block that does extract is.
   */
  function ResolvePartKeeping(k: BlockKind, part: string, decode: string -> Option<Json>): (r: Piece)
    ensures r.call == BlockCall(k, part, decode)
    ensures r.call.None? ==> NonSpace(r.text) == NonSpace(Open(k) + part)
    ensures NonSpace(r.text) == NonSpace(Unparsed(k, part, decode))
  {
    if Contains(part, Close(k)) then
      var (block, rest) := SplitOnce(part, Close(k));
      match ExtractComponents(block, IdTags(k), decode)
      case Some(f) =>
        StripKeepsNonSpace(rest);
        Piece(Strip(rest), Some(f))
      case None => Piece(KeptBlock(k, part, block, rest), None)
    else
      Piece(Open(k) + part, None)
  }

  /** What is left of one part once a block that extracts is taken out, markers included. */
  function Unparsed(k: BlockKind, part: string, decode: string -> Option<Json>): string {
    if BlockCall(k, part, decode).Some? then SplitOnce(part, Close(k)).1 else Open(k) + part
  }

  /** The parts after the first, each with its extracting block taken out. */
  function WithoutParsed(k: BlockKind, parts: seq<string>, decode: string -> Option<Json>): string
    decreases |parts|
  {
    if parts == [] then "" else Unparsed(k, parts[0], decode) + WithoutParsed(k, parts[1..], decode)
  }

  /** The text with every block that extracts taken out, markers included, and nothing else changed. */
  function RemoveParsed(k: BlockKind, text: string, decode: string -> Option<Json>): string {
    var parts := SplitAll(text, Open(k));
    parts[0] + WithoutParsed(k, parts[1..], decode)
  }

  /** A block that does not extract, put back with its stripped trailing text. */
  function KeptBlock(k: BlockKind, part: string, block: string, rest: string): (t: string)
    requires part == block + Close(k) + rest
    ensures NonSpace(t) == NonSpace(Open(k) + part)
  {
    var head := Open(k) + block + Close(k);
    KeptNonSpace(head, rest);
    Regroup(Open(k), block, Close(k), rest);
    head + Strip(rest)
  }

  /** The correction changes only the failing branch: a part that yields a call, or has no closing marker, is handled as before. */
  lemma KeepingAgrees(k: BlockKind, part: string, decode: string -> Option<Json>)
    ensures var r := ResolvePartKeeping(k, part, decode);
            r.call.Some? || !Contains(part, Close(k)) ==> r == ResolvePart(k, part, decode)
  {
  }

  lemma Regroup(a: string, b: string, c: string, d: string)
    ensures a + (b + c + d) == a + b + c + d
  {
  }

  lemma KeptNonSpace(head: string, rest: string)
    ensures NonSpace(head + Strip(rest)) == NonSpace(head + rest)
  {
    NonSpaceAppend(head, Strip(rest));
    NonSpaceAppend(head, rest);
    StripKeepsNonSpace(rest);
  }

  function PassPartsKeeping(k: BlockKind, parts: seq<string>, decode: string -> Option<Json>): (r: PassResult)
    ensures r.calls == [] ==> NonSpace(r.content) == NonSpace(Prefixed(parts, Open(k)))
    ensures NonSpace(r.content) == NonSpace(WithoutParsed(k, parts, decode))
    decreases |parts|
  {
    if parts == [] then PassResult("", [])
    else
      var piece := ResolvePartKeeping(k, parts[0], decode);
      var tail := PassPartsKeeping(k, parts[1..], decode);
      var calls := if piece.call.Some? then [piece.call.value] + tail.calls else tail.calls;
      NonSpaceAppend(piece.text, tail.content);
      NonSpaceAppend(Open(k) + parts[0], Prefixed(parts[1..], Open(k)));
      NonSpaceAppend(Unparsed(k, parts[0], decode), WithoutParsed(k, parts[1..], decode));
      PassResult(piece.text + tail.content, calls)
  }

  /**
    One corrected pass: its content holds, in order, every non-space
    character of the text except those of the blocks that extract; when it
    finds no call, nothing at all is lost.
   */
  function PassKeeping(k: BlockKind, text: string, decode: string -> Option<Json>): (r: PassResult)
    ensures r.calls == [] ==> NonSpace(r.content) == NonSpace(text)
    ensures NonSpace(r.content) == NonSpace(RemoveParsed(k, text, decode))
  {
    var parts := SplitAll(text, Open(k));
    var tail := PassPartsKeeping(k, parts[1..], decode);
    JoinPrefixed(parts, Open(k));
    NonSpaceAppend(Strip(parts[0]), tail.content);
    NonSpaceAppend(parts[0], Prefixed(parts[1..], Open(k)));
    NonSpaceAppend(parts[0], WithoutParsed(k, parts[1..], decode));
    StripKeepsNonSpace(parts[0]);
    PassResult(Strip(parts[0]) + tail.content, tail.calls)
  }

  /**
    `parse_output` with the corrected passes. The tool pass keeps every
    non-space character outside the tool blocks that extract, the memory
    pass every one of its input outside the memory blocks that extract, and
    a reply with no call keeps all of its text.
   */
  function ParseOutputKeeping(output: string, decode: string -> Option<Json>): (r: (string, seq<ToolCall>, seq<MemoryCall>))
    ensures r.1 == [] && r.2 == [] ==> NonSpace(r.0) == NonSpace(output)
    ensures var t := PassKeeping(ToolBlock, output, decode);
            && NonSpace(t.content) == NonSpace(RemoveParsed(ToolBlock, output, decode))
            && NonSpace(r.0) == NonSpace(RemoveParsed(MemoryBlock, t.content, decode))
  {
    var t := PassKeeping(ToolBlock, output, decode);
    var m := PassKeeping(MemoryBlock, t.content, decode);
    (m.content, ToTools(t.calls), ToMemories(m.calls))
  }
  // ---------------------------------------------------------------------
  /** Every part that holds a closing marker has a block that extracts: the replies on which the code and the correction agree. */
  predicate AllExtract(k: BlockKind, parts: seq<string>, decode: string -> Option<Json>) {
    forall j :: 0 <= j < |parts| && Contains(parts[j], Close(k)) ==> BlockCall(k, parts[j], decode).Some?
  }

  /** The loop as written and the corrected loop agree on parts whose terminated blocks all extract. */
  lemma {:induction false} PassPartsAgree(k: BlockKind, parts: seq<string>, decode: string -> Option<Json>)
    requires AllExtract(k, parts, decode)
    ensures PassParts(k, parts, decode) == PassPartsKeeping(k, parts, decode)
    decreases |parts|
  {
    if parts != [] {
      KeepingAgrees(k, parts[0], decode);
      assert AllExtract(k, parts[1..], decode) by {
        forall j | 0 <= j < |parts[1..]| && Contains(parts[1..][j], Close(k))
          ensures BlockCall(k, parts[1..][j], decode).Some?
        {
          assert parts[1..][j] == parts[j + 1];
        }
      }
      PassPartsAgree(k, parts[1..], decode);
    }
  }

  /**
    A pass as written, on a text whose terminated blocks all extract, is the
    corrected pass: its content holds, in order, every non-space character
    of the text outside those blocks and their markers.
   */
  lemma PassAgrees(k: BlockKind, text: string, decode: string -> Option<Json>)
    requires AllExtract(k, SplitAll(text, Open(k))[1..], decode)
    ensures Pass(k, text, decode) == PassKeeping(k, text, decode)
    ensures NonSpace(Pass(k, text, decode).content) == NonSpace(RemoveParsed(k, text, decode))
  {
    PassPartsAgree(k, SplitAll(text, Open(k))[1..], decode);
  }

  /**
    `parse_output` as written, on a reply whose tool blocks all extract and
    whose remaining memory blocks all extract, is the corrected parser: the
    tool stage keeps every non-space character outside the tool blocks, and
    the returned content every one of that stage's outside the memory blocks.
   */
  lemma ParseOutputAgrees(output: string, decode: string -> Option<Json>)
    requires AllExtract(ToolBlock, SplitAll(output, Open(ToolBlock))[1..], decode)
    requires AllExtract(MemoryBlock, SplitAll(Pass(ToolBlock, output, decode).content, Open(MemoryBlock))[1..], decode)
    ensures ParseOutput(output, decode) == ParseOutputKeeping(output, decode)
    ensures var t := Pass(ToolBlock, output, decode);
            && NonSpace(t.content) == NonSpace(RemoveParsed(ToolBlock, output, decode))
            && NonSpace(ParseOutput(output, decode).0) == NonSpace(RemoveParsed(MemoryBlock, t.content, decode))
  {
    PassAgrees(ToolBlock, output, decode);
    PassAgrees(MemoryBlock, Pass(ToolBlock, output, decode).content, decode);
  }
}
