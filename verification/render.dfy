/**
  Writing the four fields out as a block and extracting them again gives
  back the same values: on this one layout, which the extractor accepts,
  extraction inverts rendering.
 */
module Render {
  import opened Wrappers
  import opened Text
  import opened Calls
  import opened Extract

  /** `open + v + close` for one field. */
  function Tagged(t: Tags, v: string): string {
    t.open + v + t.close
  }

  /** One block layout the extractor accepts: the four fields one after the other, with nothing between them. */
  function RenderBlock(id: Tags, instructions: string, idValue: string, name: string, params: string): string {
    Tagged(Instructions, instructions) + Tagged(id, idValue) + Tagged(Name, name) + Tagged(Parameters, params)
  }

  /** A field value that survives the round trip: no '<' and already stripped. */
  predicate PlainValue(v: string) {
    NoAngle(v) && Strip(v) == v
  }

  /** A JSON object text the parameters pattern captures whole. */
  predicate ObjectText(params: string) {
    NoAngle(params) && |params| >= 2 && params[0] == '{' && params[|params| - 1] == '}'
  }

  lemma InstructionsMarkers()
    ensures IsMarker(Instructions.open) && IsMarker(Instructions.close)
    ensures Instructions.open[1] == 'i' && Instructions.open[2] == 'n'
    ensures Instructions.close[1] == '/' && Instructions.close[3] == 'n'
  {
    InstructionsOpenMarker();
    InstructionsCloseMarker();
  }

  lemma InstructionsOpenMarker()
    ensures IsMarker(Instructions.open)
  {
  }

  lemma InstructionsCloseMarker()
    ensures IsMarker(Instructions.close)
  {
  }

  lemma CallIdMarkers()
    ensures IsMarker(CallId.open) && IsMarker(CallId.close)
    ensures CallId.open[1] == 'c' && CallId.open[2] == 'a'
    ensures CallId.close[1] == '/' && CallId.close[3] == 'a'
  {
  }

  lemma MemoryIdMarkers()
    ensures IsMarker(MemoryId.open) && IsMarker(MemoryId.close)
    ensures MemoryId.open[1] == 'm' && MemoryId.open[2] == 'e'
    ensures MemoryId.close[1] == '/' && MemoryId.close[3] == 'e'
  {
  }

  lemma NameMarkers()
    ensures IsMarker(Name.open) && IsMarker(Name.close)
    ensures Name.open[1] == 'n' && Name.open[2] == 'a'
    ensures Name.close[1] == '/' && Name.close[3] == 'a'
  {
  }

  lemma ParametersMarkers()
    ensures IsMarker(Parameters.open) && IsMarker(Parameters.close)
    ensures Parameters.open[1] == 'p' && Parameters.open[2] == 'a'
    ensures Parameters.close[1] == '/' && Parameters.close[3] == 'a'
  {
  }

  lemma IdMarkers(id: Tags)
    requires id == CallId || id == MemoryId
    ensures IsMarker(id.open) && IsMarker(id.close)
    ensures (id.open[1] == 'c' || id.open[1] == 'm') && (id.open[2] == 'a' || id.open[2] == 'e')
    ensures id.close[1] == '/' && (id.close[3] == 'a' || id.close[3] == 'e')
  {
    if id == CallId { CallIdMarkers(); } else { MemoryIdMarkers(); }
  }

  /** A field written once, after text holding no opening marker of its own, is the leftmost match. */
  lemma FieldInBlock(text: string, pre: string, t: Tags, v: string, post: string, dotAll: bool)
    requires text == pre + t.open + v + t.close + post
    requires IsMarker(t.open) && IsMarker(t.close)
    requires !Contains(pre, t.open) && NoAngle(v) && (dotAll || NoLineBreak(v))
    ensures LeftmostField(text, t, dotAll, |pre|, |pre| + |t.open| + |v|)
    ensures text[|pre| + |t.open|..|pre| + |t.open| + |v|] == v
  {
    TaggedSlices(text, pre, t.open, v, t.close, post);
    var lo := |pre| + |t.open|;
    assert forall k :: lo <= k < lo + |v| ==> text[k] == text[lo..lo + |v|][k - lo];
    FieldAt(text, t, dotAll, |pre|, lo + |v|);
  }

  /** The parameters field written once, after text holding no `<parameters>`, is the leftmost match. */
  lemma ParamsInBlock(text: string, pre: string, params: string)
    requires text == pre + Parameters.open + params + Parameters.close + ""
    requires !Contains(pre, Parameters.open) && ObjectText(params)
    ensures LeftmostParams(text, |pre|, |pre| + |Parameters.open|, |pre| + |Parameters.open| + |params|,
                           |pre| + |Parameters.open| + |params|)
    ensures text[|pre| + |Parameters.open|..|pre| + |Parameters.open| + |params|] == params
  {
    TaggedSlices(text, pre, Parameters.open, params, Parameters.close, "");
    var b := |pre| + |Parameters.open|;
    assert text[b] == text[b..b + |params|][0];
    assert text[b + |params| - 1] == text[b..b + |params|][|params| - 1];
    ParamsFieldAt(text, |pre|, b + |params|);
  }

  /** A marker that is not inside either tag of a field is not inside the field. */
  lemma NotInField(t: Tags, v: string, pat: string)
    requires IsMarker(t.open) && IsMarker(t.close) && IsMarker(pat) && NoAngle(v)
    requires !Contains(t.open, pat) && !Contains(t.close, pat)
    ensures !Contains(Tagged(t, v), pat)
  {
    NotInTagged(t.open, v, t.close, pat);
  }

  /** ... nor inside two such fields written one after the other. */
  lemma NotInTwoFields(t1: Tags, v1: string, t2: Tags, v2: string, pat: string)
    requires IsMarker(t1.open) && IsMarker(t1.close) && IsMarker(t2.open) && IsMarker(t2.close) && IsMarker(pat)
    requires NoAngle(v1) && NoAngle(v2)
    requires !Contains(t1.open, pat) && !Contains(t1.close, pat)
    requires !Contains(t2.open, pat) && !Contains(t2.close, pat)
    ensures !Contains(Tagged(t1, v1) + Tagged(t2, v2), pat)
  {
    NotInField(t1, v1, pat);
    NotInField(t2, v2, pat);
    NotContainsConcat(Tagged(t1, v1), Tagged(t2, v2), pat);
  }

  /**
    The marker facts the round trip needs, gathered once: every tag is a
    marker, closing tags start with `</`, and the opening tags differ in
    their second character.
   */
  predicate Markers(id: Tags) {
    && IsMarker(Instructions.open) && IsMarker(Instructions.close)
    && IsMarker(id.open) && IsMarker(id.close)
    && IsMarker(Name.open) && IsMarker(Name.close)
    && IsMarker(Parameters.open) && IsMarker(Parameters.close)
    && |Instructions.open| > 2 && Instructions.open[1] == 'i' && Instructions.open[2] == 'n'
    && |id.open| > 2 && (id.open[1] == 'c' || id.open[1] == 'm') && (id.open[2] == 'a' || id.open[2] == 'e')
    && |Name.open| > 2 && Name.open[1] == 'n' && Name.open[2] == 'a'
    && |Parameters.open| > 2 && Parameters.open[1] == 'p' && Parameters.open[2] == 'a'
    && ClosingTag(Instructions.close) && ClosingTag(id.close) && ClosingTag(Name.close) && ClosingTag(Parameters.close)
  }

  /** `</` then a name whose first letter is not 'f'. */
  predicate ClosingTag(m: string) {
    |m| > 3 && m[1] == '/' && m[3] != 'f'
  }

  lemma AllMarkers(id: Tags)
    requires id == CallId || id == MemoryId
    ensures Markers(id)
  {
    InstructionsMarkers();
    IdMarkers(id);
    NameMarkers();
    ParametersMarkers();
  }

  /** Neither tag of the instructions field holds the id field's opening marker. */
  lemma InstructionsTagsWithoutId(id: Tags)
    requires Markers(id)
    ensures !Contains(Instructions.open, id.open) && !Contains(Instructions.close, id.open)
  {
    MarkerNotIn(Instructions.open, id.open, 1);
    MarkerNotIn(Instructions.close, id.open, 1);
  }

  lemma TagsWithoutName(id: Tags)
    requires Markers(id)
    ensures !Contains(Instructions.open, Name.open) && !Contains(Instructions.close, Name.open)
    ensures !Contains(id.open, Name.open) && !Contains(id.close, Name.open)
  {
    MarkerNotIn(Instructions.open, Name.open, 1);
    MarkerNotIn(Instructions.close, Name.open, 1);
    MarkerNotIn(id.open, Name.open, 1);
    MarkerNotIn(id.close, Name.open, 1);
  }

  lemma TagsWithoutParameters(id: Tags)
    requires Markers(id)
    ensures !Contains(Instructions.open, Parameters.open) && !Contains(Instructions.close, Parameters.open)
    ensures !Contains(id.open, Parameters.open) && !Contains(id.close, Parameters.open)
    ensures !Contains(Name.open, Parameters.open) && !Contains(Name.close, Parameters.open)
  {
    MarkerNotIn(Instructions.open, Parameters.open, 1);
    MarkerNotIn(Instructions.close, Parameters.open, 1);
    MarkerNotIn(id.open, Parameters.open, 1);
    MarkerNotIn(id.close, Parameters.open, 1);
    MarkerNotIn(Name.open, Parameters.open, 1);
    MarkerNotIn(Name.close, Parameters.open, 1);
  }

  /** In a rendered block, the instructions field is the leftmost instructions match. */
  lemma InstructionsInRendered(text: string, id: Tags, instructions: string, idValue: string, name: string,
                               params: string, q: int)
    requires text == RenderBlock(id, instructions, idValue, name, params)
    requires IsMarker(Instructions.open) && IsMarker(Instructions.close)
    requires PlainValue(instructions) && q == |Instructions.open| + |instructions|
    ensures LeftmostField(text, Instructions, true, 0, q)
    ensures Strip(text[0 + |Instructions.open|..q]) == instructions
  {
    var rest := Tagged(id, idValue) + Tagged(Name, name) + Tagged(Parameters, params);
    assert text == Instructions.open + instructions + Instructions.close + rest;
    FirstFieldInBlock(text, Instructions, instructions, rest, true);
  }

  lemma FirstFieldInBlock(text: string, t: Tags, v: string, post: string, dotAll: bool)
    requires text == t.open + v + t.close + post
    requires IsMarker(t.open) && IsMarker(t.close) && NoAngle(v) && (dotAll || NoLineBreak(v))
    ensures LeftmostField(text, t, dotAll, 0, |t.open| + |v|)
    ensures text[|t.open|..|t.open| + |v|] == v
  {
    assert text == "" + t.open + v + t.close + post;
    assert !Contains("", t.open);
    FieldInBlock(text, "", t, v, post, dotAll);
  }

  lemma IdInRendered(text: string, id: Tags, instructions: string, idValue: string, name: string,
                     params: string, p: int, q: int)
    requires text == RenderBlock(id, instructions, idValue, name, params)
    requires IsMarker(id.open) && IsMarker(id.close) && !Contains(Tagged(Instructions, instructions), id.open)
    requires PlainValue(idValue) && NoLineBreak(idValue)
    requires p == |Tagged(Instructions, instructions)| && q == p + |id.open| + |idValue|
    ensures LeftmostField(text, id, false, p, q)
    ensures Strip(text[p + |id.open|..q]) == idValue
  {
    var a := Tagged(Instructions, instructions);
    var rest := Tagged(Name, name) + Tagged(Parameters, params);
    assert text == a + id.open + idValue + id.close + rest;
    FieldInBlock(text, a, id, idValue, rest, false);
    assert text[p + |id.open|..q] == idValue;
  }

  lemma NameInRendered(text: string, id: Tags, instructions: string, idValue: string, name: string,
                       params: string, p: int, q: int)
    requires text == RenderBlock(id, instructions, idValue, name, params)
    requires IsMarker(Name.open) && IsMarker(Name.close)
    requires !Contains(Tagged(Instructions, instructions) + Tagged(id, idValue), Name.open)
    requires PlainValue(name) && NoLineBreak(name)
    requires p == |Tagged(Instructions, instructions) + Tagged(id, idValue)| && q == p + |Name.open| + |name|
    ensures LeftmostField(text, Name, false, p, q)
    ensures Strip(text[p + |Name.open|..q]) == name
  {
    var ac := Tagged(Instructions, instructions) + Tagged(id, idValue);
    assert text == ac + Name.open + name + Name.close + Tagged(Parameters, params);
    FieldInBlock(text, ac, Name, name, Tagged(Parameters, params), false);
    assert text[p + |Name.open|..q] == name;
  }

  lemma ParamsInRendered(text: string, id: Tags, instructions: string, idValue: string, name: string,
                         params: string, p: int, b: int, e: int)
    requires text == RenderBlock(id, instructions, idValue, name, params)
    requires !Contains(Tagged(Instructions, instructions) + Tagged(id, idValue) + Tagged(Name, name), Parameters.open)
    requires ObjectText(params)
    requires p == |Tagged(Instructions, instructions) + Tagged(id, idValue) + Tagged(Name, name)|
    requires b == p + |Parameters.open| && e == b + |params|
    ensures LeftmostParams(text, p, b, e, e)
    ensures text[b..e] == params
  {
    var acn := Tagged(Instructions, instructions) + Tagged(id, idValue) + Tagged(Name, name);
    assert text == acn + Parameters.open + params + Parameters.close + "";
    ParamsInBlock(text, acn, params);
  }

  /** No field's opening marker occurs in the fields written before it. */
  lemma CleanPrefixes(id: Tags, instructions: string, idValue: string, name: string)
    requires Markers(id) && NoAngle(instructions) && NoAngle(idValue) && NoAngle(name)
    ensures !Contains(Tagged(Instructions, instructions), id.open)
    ensures !Contains(Tagged(Instructions, instructions) + Tagged(id, idValue), Name.open)
    ensures !Contains(Tagged(Instructions, instructions) + Tagged(id, idValue) + Tagged(Name, name), Parameters.open)
  {
    var a := Tagged(Instructions, instructions);
    var c := Tagged(id, idValue);
    var n := Tagged(Name, name);
    InstructionsTagsWithoutId(id);
    NotInField(Instructions, instructions, id.open);
    TagsWithoutName(id);
    NotInTwoFields(Instructions, instructions, id, idValue, Name.open);
    TagsWithoutParameters(id);
    NotInTwoFields(Instructions, instructions, id, idValue, Parameters.open);
    NotInField(Name, name, Parameters.open);
    NotContainsConcat(a + c, n, Parameters.open);
  }

  /**
    Round trip: extracting a rendered block returns exactly the values
    written into it, with the parameters decoded.
   */
  lemma ExtractRenderedBlock(id: Tags, instructions: string, idValue: string, name: string,
                             params: string, decode: string -> Option<Json>, args: Json)
    requires id == CallId || id == MemoryId
    requires PlainValue(instructions) && PlainValue(idValue) && PlainValue(name)
    requires NoLineBreak(idValue) && NoLineBreak(name)
    requires ObjectText(params) && decode(params) == Some(args)
    ensures ExtractComponents(RenderBlock(id, instructions, idValue, name, params), id, decode)
            == Some(Fields(instructions, idValue, name, args))
  {
    var text := RenderBlock(id, instructions, idValue, name, params);
    var qi := |Instructions.open| + |instructions|;
    var pd := |Tagged(Instructions, instructions)|;
    var qd := pd + |id.open| + |idValue|;
    var pn := |Tagged(Instructions, instructions) + Tagged(id, idValue)|;
    var qn := pn + |Name.open| + |name|;
    var pp := |Tagged(Instructions, instructions) + Tagged(id, idValue) + Tagged(Name, name)|;
    var b := pp + |Parameters.open|;
    var e := b + |params|;
    AllMarkers(id);
    CleanPrefixes(id, instructions, idValue, name);
    InstructionsInRendered(text, id, instructions, idValue, name, params, qi);
    IdInRendered(text, id, instructions, idValue, name, params, pd, qd);
    NameInRendered(text, id, instructions, idValue, name, params, pn, qn);
    ParamsInRendered(text, id, instructions, idValue, name, params, pp, b, e);
    ExtractFromMatches(text, id, decode, 0, qi, pd, qd, pn, qn, pp, b, e, e);
  }

  /**
    A marker of the enclosing block format: `<f...` or `</f...`, which no
    field tag starts with.
   */
  predicate BlockLike(pat: string) {
    && IsMarker(pat) && |pat| > 3
    && ((pat[1] != '/' && pat[2] == 'f') || (pat[1] == '/' && pat[3] == 'f'))
  }

  /** No field tag holds a block marker. */
  lemma OpenTagWithout(m: string, pat: string)
    requires IsMarker(m) && |m| > 2 && m[1] != '/' && m[2] != 'f' && BlockLike(pat)
    ensures !Contains(m, pat)
  {
    if pat[1] == '/' { MarkerNotIn(m, pat, 1); } else { MarkerNotIn(m, pat, 2); }
  }

  lemma CloseTagWithout(m: string, pat: string)
    requires IsMarker(m) && ClosingTag(m) && BlockLike(pat)
    ensures !Contains(m, pat)
  {
    if pat[1] == '/' { MarkerNotIn(m, pat, 3); } else { MarkerNotIn(m, pat, 1); }
  }

  /** A rendered block holds no block marker. */
  lemma RenderedWithout(id: Tags, instructions: string, idValue: string, name: string, params: string, pat: string)
    requires Markers(id) && BlockLike(pat)
    requires NoAngle(instructions) && NoAngle(idValue) && NoAngle(name) && ObjectText(params)
    ensures !Contains(RenderBlock(id, instructions, idValue, name, params), pat)
  {
    OpenTagWithout(Instructions.open, pat);
    CloseTagWithout(Instructions.close, pat);
    OpenTagWithout(id.open, pat);
    CloseTagWithout(id.close, pat);
    OpenTagWithout(Name.open, pat);
    CloseTagWithout(Name.close, pat);
    OpenTagWithout(Parameters.open, pat);
    CloseTagWithout(Parameters.close, pat);
    var ac := Tagged(Instructions, instructions) + Tagged(id, idValue);
    var np := Tagged(Name, name) + Tagged(Parameters, params);
    NotInTwoFields(Instructions, instructions, id, idValue, pat);
    NotInTwoFields(Name, name, Parameters, params, pat);
    assert RenderBlock(id, instructions, idValue, name, params) == ac + np;
    NotContainsConcat(ac, np, pat);
  }
}
