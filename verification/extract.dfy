/**
  The field extractor: finds `<instructions>`, the id field, `<name>` and
  `<parameters>` inside one call block, the way the regular
  expressions of `response_parser.py` do, and decodes the parameters as JSON.
 */
module Extract {
  import opened Wrappers
  import opened Text
  import opened Calls

  /** Opening and closing marker of one field inside a call block. */
  datatype Tags = Tags(open: string, close: string)

  const Instructions := Tags("<instructions>", "</instructions>")
  const CallId := Tags("<call_id>", "</call_id>")
  const MemoryId := Tags("<memory_id>", "</memory_id>")
  const Name := Tags("<name>", "</name>")
  const Parameters := Tags("<parameters>", "</parameters>")

  /**
    Where a pattern matched: the opening marker starts at `at`, group 1 is
    `text[lo..hi]`, the closing marker starts at `closeAt`.
   */
  datatype Match = Match(at: nat, lo: nat, hi: nat, closeAt: nat)

  /** The four fields of a block that extracted cleanly. */
  datatype Fields = Fields(instructions: string, id: string, name: string, arguments: Json)

  // ---------------------------------------------------------------------
  // `<open>(.*?)<close>`

  /**
    `<open>(.*?)<close>` matches with the opening marker at `p` and the
    closing marker at `q`; without DOTALL, `.` does not match a newline.
   */
  ghost predicate FieldMatch(text: string, t: Tags, dotAll: bool, p: int, q: int) {
    && OccursAt(text, t.open, p)
    && p + |t.open| <= q
    && OccursAt(text, t.close, q)
    && (dotAll || forall k :: p + |t.open| <= k < q ==> text[k] != '\n')
  }

  /** The match `re.search` reports: leftmost start, then the shortest group. */
  ghost predicate LeftmostField(text: string, t: Tags, dotAll: bool, p: int, q: int) {
    && FieldMatch(text, t, dotAll, p, q)
    && forall p', q' :: FieldMatch(text, t, dotAll, p', q') ==> p < p' || (p == p' && q <= q')
  }

  /**
    The first opening marker, followed by a closing marker with no newline
    in between (or DOTALL), is where `re.search` matches.
   */
  lemma LeftmostAtFirstOpen(text: string, t: Tags, dotAll: bool, p: nat, q: nat)
    requires Find(text, t.open) == Some(p)
    requires FindFrom(text, t.close, p + |t.open|) == Some(q)
    requires dotAll || forall k :: p + |t.open| <= k < q ==> text[k] != '\n'
    ensures LeftmostField(text, t, dotAll, p, q)
  {
    assert SearchFieldFrom(text, t, dotAll, 0) == Some(Match(p, p + |t.open|, q, q));
    assert SearchField(text, t, dotAll) == Some(Match(p, p + |t.open|, q, q));
  }

  /**
    An opening marker with none before it, then a capture holding no '<'
    (and no newline without DOTALL), then a closing marker: that is the
    leftmost match.
   */
  lemma FieldAt(text: string, t: Tags, dotAll: bool, p: nat, q: nat)
    requires AngleOnlyFirst(t.open) && AngleOnlyFirst(t.close)
    requires OccursAt(text, t.open, p) && !Contains(text[..p], t.open)
    requires p + |t.open| <= q && OccursAt(text, t.close, q) && NoAngle(text[p + |t.open|..q])
    requires dotAll || forall k :: p + |t.open| <= k < q ==> text[k] != '\n'
    ensures LeftmostField(text, t, dotAll, p, q)
  {
    FindAtClean(text, t.open, p);
    FindFromNoAngle(text, t.close, p + |t.open|, q);
    LeftmostAtFirstOpen(text, t, dotAll, p, q);
  }

  ghost predicate HasField(text: string, t: Tags, dotAll: bool) {
    exists p, q :: FieldMatch(text, t, dotAll, p, q)
  }

  /** `re.search` for a field pattern, trying opening markers from `from` on. */
  function SearchFieldFrom(text: string, t: Tags, dotAll: bool, from: nat): (r: Option<Match>)
    ensures r.Some? ==> && from <= r.value.at
                        && r.value.lo == r.value.at + |t.open|
                        && r.value.hi == r.value.closeAt
                        && FieldMatch(text, t, dotAll, r.value.at, r.value.hi)
    ensures r.Some? ==> forall p, q :: from <= p && FieldMatch(text, t, dotAll, p, q) ==>
                          r.value.at < p || (r.value.at == p && r.value.hi <= q)
    ensures r.None? ==> forall p, q :: from <= p ==> !FieldMatch(text, t, dotAll, p, q)
    decreases |text| + 1 - from
  {
    if from > |text| then None
    else
      match FindFrom(text, t.open, from)
      case None => None
      case Some(p) =>
        var lo := p + |t.open|;
        match FindFrom(text, t.close, lo)
        case None => SearchFieldFrom(text, t, dotAll, p + 1)
        case Some(q) =>
          if dotAll || NoLineBreak(text[lo..q]) then Some(Match(p, lo, q, q))
          else SearchFieldFrom(text, t, dotAll, p + 1)
  }

  function SearchField(text: string, t: Tags, dotAll: bool): (r: Option<Match>)
    ensures r.Some? ==> r.value.lo == r.value.at + |t.open| && LeftmostField(text, t, dotAll, r.value.at, r.value.hi)
    ensures r.None? <==> !HasField(text, t, dotAll)
  {
    SearchFieldFrom(text, t, dotAll, 0)
  }

  // ---------------------------------------------------------------------
  // `<parameters>\s*({.*?})\s*</parameters>` with DOTALL

  /** `<parameters>\s*{` matches with the marker at `p` and the brace at `b`. */
  ghost predicate OpensParams(text: string, p: int, b: int) {
    && OccursAt(text, Parameters.open, p)
    && p + |Parameters.open| <= b < |text|
    && (forall k :: p + |Parameters.open| <= k < b ==> IsSpace(text[k]))
    && text[b] == '{'
  }

  /** `}\s*</parameters>` matches with the brace at `e - 1` and the marker at `q`. */
  ghost predicate ClosesParams(text: string, e: int, q: int) {
    && 1 <= e <= q
    && OccursAt(text, Parameters.close, q)
    && text[e - 1] == '}'
    && (forall k :: e <= k < q ==> IsSpace(text[k]))
  }

  /** The whole parameters pattern matches, with group 1 equal to `text[b..e]`. */
  ghost predicate ParamsMatch(text: string, p: int, b: int, e: int, q: int) {
    OpensParams(text, p, b) && b + 2 <= e && ClosesParams(text, e, q)
  }

  ghost predicate LeftmostParams(text: string, p: int, b: int, e: int, q: int) {
    && ParamsMatch(text, p, b, e, q)
    && forall p', b', e', q' :: ParamsMatch(text, p', b', e', q') ==> p < p' || (p == p' && e <= e')
  }

  ghost predicate HasParams(text: string) {
    exists p, b, e, q :: ParamsMatch(text, p, b, e, q)
  }

  /** A maximal run of spaces ends where `SkipSpace` says. */
  lemma SkipSpaceUnique(text: string, i: nat, j: nat)
    requires i <= j < |text| && !IsSpace(text[j])
    requires forall k :: i <= k < j ==> IsSpace(text[k])
    ensures SkipSpace(text, i) == j
  {
  }

  /** A '}' at `j` followed by spaces and `</parameters>`. */
  predicate BraceCloses(text: string, j: nat) {
    j < |text| && text[j] == '}' && OccursAt(text, Parameters.close, SkipSpace(text, j + 1))
  }

  /** The trailing `}\s*</parameters>` is decided by the brace alone; the spaces after it are maximal. */
  lemma ClosesParamsAtBrace(text: string, e: int, q: int)
    requires ClosesParams(text, e, q)
    ensures BraceCloses(text, e - 1) && q == SkipSpace(text, e)
  {
    assert text[q..q + |Parameters.close|][0] == '<';
    SkipSpaceUnique(text, e, q);
  }

  /** Python's lazy `.*?` before `}\s*</parameters>`: the first closing brace at or after `k`. */
  function LazyBraceEnd(text: string, k: nat): (r: Option<nat>)
    ensures r.Some? ==> k <= r.value && BraceCloses(text, r.value)
    ensures r.Some? ==> forall j :: k <= j < r.value ==> !BraceCloses(text, j)
    ensures r.None? ==> forall j :: k <= j ==> !BraceCloses(text, j)
    decreases |text| - k
  {
    if k >= |text| then None
    else if BraceCloses(text, k) then Some(k)
    else LazyBraceEnd(text, k + 1)
  }

  /** Every parameters match at `p` starts its group after the maximal space run and ends it on a closing brace. */
  lemma ParamsMatchShape(text: string, p: nat)
    requires OccursAt(text, Parameters.open, p)
    ensures forall b, e, q :: ParamsMatch(text, p, b, e, q) ==>
              && b == SkipSpace(text, p + |Parameters.open|)
              && b + 1 <= e - 1
              && BraceCloses(text, e - 1)
  {
    forall b, e, q | ParamsMatch(text, p, b, e, q)
      ensures b == SkipSpace(text, p + |Parameters.open|) && BraceCloses(text, e - 1)
    {
      SkipSpaceUnique(text, p + |Parameters.open|, b);
      ClosesParamsAtBrace(text, e, q);
    }
  }

  /** A closing brace found after `<parameters>\s*{` completes a match. */
  lemma ParamsMatchAtBrace(text: string, p: nat, j: nat)
    requires OccursAt(text, Parameters.open, p)
    requires SkipSpace(text, p + |Parameters.open|) < j && BraceCloses(text, j)
    requires text[SkipSpace(text, p + |Parameters.open|)] == '{'
    ensures ParamsMatch(text, p, SkipSpace(text, p + |Parameters.open|), j + 1, SkipSpace(text, j + 1))
  {
  }

  /** The parameters pattern tried at one opening marker `p`: the match with the shortest group, if any. */
  function ParamsAt(text: string, p: nat): (r: Option<Match>)
    requires OccursAt(text, Parameters.open, p)
    ensures r.Some? ==> r.value.at == p && ParamsMatch(text, p, r.value.lo, r.value.hi, r.value.closeAt)
    ensures r.Some? ==> forall b, e, q :: ParamsMatch(text, p, b, e, q) ==> r.value.hi <= e
    ensures r.None? ==> forall b, e, q :: !ParamsMatch(text, p, b, e, q)
  {
    ParamsMatchShape(text, p);
    var b := SkipSpace(text, p + |Parameters.open|);
    if b < |text| && text[b] == '{' then
      match LazyBraceEnd(text, b + 1)
      case Some(j) =>
        ParamsMatchAtBrace(text, p, j);
        Some(Match(p, b, j + 1, SkipSpace(text, j + 1)))
      case None => None
    else None
  }

  /** `re.search` for the parameters pattern, trying opening markers from `from` on. */
  function SearchParamsFrom(text: string, from: nat): (r: Option<Match>)
    ensures r.Some? ==> && from <= r.value.at
                        && OccursAt(text, Parameters.open, r.value.at)
                        && ParamsAt(text, r.value.at) == r
    ensures r.Some? ==> forall p :: from <= p < r.value.at && OccursAt(text, Parameters.open, p) ==>
                          ParamsAt(text, p).None?
    ensures r.None? ==> forall p :: from <= p && OccursAt(text, Parameters.open, p) ==> ParamsAt(text, p).None?
    decreases |text| + 1 - from
  {
    if from > |text| then None
    else
      match FindFrom(text, Parameters.open, from)
      case None => None
      case Some(p) =>
        var here := ParamsAt(text, p);
        if here.Some? then here
        else
          var r := SearchParamsFrom(text, p + 1);
          assert forall p' :: from <= p' <= p && OccursAt(text, Parameters.open, p') ==> p' == p;
          r
  }

  function SearchParams(text: string): (r: Option<Match>)
    ensures r.Some? ==> LeftmostParams(text, r.value.at, r.value.lo, r.value.hi, r.value.closeAt)
    ensures r.None? <==> !HasParams(text)
  {
    var r := SearchParamsFrom(text, 0);
    assert forall p, b, e, q :: ParamsMatch(text, p, b, e, q) ==> OccursAt(text, Parameters.open, p);
    r
  }

  /**
    `<parameters>` with none before it, then a `{...}` group holding no '<'
    and ending in '}', then `</parameters>` straight after: that is the
    leftmost parameters match.
   */
  lemma ParamsFieldAt(text: string, p: nat, e: nat)
    requires OccursAt(text, Parameters.open, p) && !Contains(text[..p], Parameters.open)
    requires p + |Parameters.open| + 2 <= e && OccursAt(text, Parameters.close, e)
    requires text[p + |Parameters.open|] == '{' && text[e - 1] == '}'
    requires NoAngle(text[p + |Parameters.open|..e])
    ensures LeftmostParams(text, p, p + |Parameters.open|, e, e)
  {
    var b := p + |Parameters.open|;
    assert AngleOnlyFirst(Parameters.open);
    FindAtClean(text, Parameters.open, p);
    assert ParamsMatch(text, p, b, e, e);
    assert forall k :: b <= k < e ==> text[k] == text[b..e][k - b];
    forall p', b', e', q' | ParamsMatch(text, p', b', e', q')
      ensures p < p' || (p == p' && e <= e')
    {
      assert OccursAt(text, Parameters.open, p');
      if p' == p {
        SkipSpaceUnique(text, b, b');
        assert text[q'..q' + |Parameters.close|][0] == text[q'];
        assert text[q'] == '<';
        assert q' >= e;
        assert !IsSpace(text[e - 1]);
      }
    }
  }

  // ---------------------------------------------------------------------
  // The extractor

  /** The leftmost parameters match exists and its group does not decode. */
  ghost predicate ParamsUndecodable(text: string, decode: string -> Option<Json>) {
    exists p, b, e, q :: LeftmostParams(text, p, b, e, q) && decode(text[b..e]).None?
  }

  /** The four matches of one block, in the order instructions, id, name, parameters. */
  datatype Located = Located(instructions: Match, id: Match, name: Match, params: Match)

  /** Runs the four searches; succeeds exactly when every field is present. */
  function LocateFields(text: string, id: Tags): (r: Option<Located>)
    ensures r.None? <==>
              !HasField(text, Instructions, true) || !HasField(text, id, false) ||
              !HasField(text, Name, false) || !HasParams(text)
    ensures r.Some? ==>
              && r.value.instructions.lo == r.value.instructions.at + |Instructions.open|
              && LeftmostField(text, Instructions, true, r.value.instructions.at, r.value.instructions.hi)
              && r.value.id.lo == r.value.id.at + |id.open|
              && LeftmostField(text, id, false, r.value.id.at, r.value.id.hi)
              && r.value.name.lo == r.value.name.at + |Name.open|
              && LeftmostField(text, Name, false, r.value.name.at, r.value.name.hi)
              && LeftmostParams(text, r.value.params.at, r.value.params.lo, r.value.params.hi, r.value.params.closeAt)
  {
    match SearchField(text, Instructions, true)
    case None => None
    case Some(mi) =>
      match SearchField(text, id, false)
      case None => None
      case Some(md) =>
        match SearchField(text, Name, false)
        case None => None
        case Some(mn) =>
          match SearchParams(text)
          case None => None
          case Some(mp) => Some(Located(mi, md, mn, mp))
  }

  /**
    Pulls the four fields out of a block body. Each field is located on its
    own, so their order in the block does not matter; the captures are
    stripped, the parameters group is decoded as JSON.
   */
  function ExtractComponents(text: string, id: Tags, decode: string -> Option<Json>): (r: Option<Fields>)
    ensures r.None? <==>
              || !HasField(text, Instructions, true)
              || !HasField(text, id, false)
              || !HasField(text, Name, false)
              || !HasParams(text)
              || ParamsUndecodable(text, decode)
    ensures r.Some? ==> forall p, q :: LeftmostField(text, Instructions, true, p, q) ==>
                          r.value.instructions == Strip(text[p + |Instructions.open|..q])
    ensures r.Some? ==> forall p, q :: LeftmostField(text, id, false, p, q) ==>
                          r.value.id == Strip(text[p + |id.open|..q])
    ensures r.Some? ==> forall p, q :: LeftmostField(text, Name, false, p, q) ==>
                          r.value.name == Strip(text[p + |Name.open|..q])
    ensures r.Some? ==> forall p, b, e, q :: LeftmostParams(text, p, b, e, q) ==>
                          decode(text[b..e]) == Some(r.value.arguments)
  {
    match LocateFields(text, id)
    case None => None
    case Some(m) =>
      var mp := m.params;
      LeftmostParamsUnique(text, mp.at, mp.lo, mp.hi, mp.closeAt);
      match decode(text[mp.lo..mp.hi])
      case None =>
        assert ParamsUndecodable(text, decode) by {
          assert LeftmostParams(text, mp.at, mp.lo, mp.hi, mp.closeAt);
        }
        None
      case Some(args) =>
        assert !ParamsUndecodable(text, decode);
        var ins := Strip(text[m.instructions.lo..m.instructions.hi]);
        var idv := Strip(text[m.id.lo..m.id.hi]);
        var nm := Strip(text[m.name.lo..m.name.hi]);
        CaptureOfLeftmost(text, Instructions, true, m.instructions, ins);
        CaptureOfLeftmost(text, id, false, m.id, idv);
        CaptureOfLeftmost(text, Name, false, m.name, nm);
        Some(Fields(ins, idv, nm, args))
  }

  lemma CaptureOfLeftmost(text: string, t: Tags, dotAll: bool, m: Match, v: string)
    requires m.lo == m.at + |t.open| && LeftmostField(text, t, dotAll, m.at, m.hi)
    requires v == Strip(text[m.lo..m.hi])
    ensures forall p, q :: LeftmostField(text, t, dotAll, p, q) ==> v == Strip(text[p + |t.open|..q])
  {
    LeftmostFieldUnique(text, t, dotAll, m.at, m.hi);
  }

  lemma LeftmostFieldUnique(text: string, t: Tags, dotAll: bool, p: int, q: int)
    requires LeftmostField(text, t, dotAll, p, q)
    ensures forall p', q' :: LeftmostField(text, t, dotAll, p', q') ==> p' == p && q' == q
  {
  }

  lemma LeftmostParamsUnique(text: string, p: int, b: int, e: int, q: int)
    requires LeftmostParams(text, p, b, e, q)
    ensures forall p', b', e', q' :: LeftmostParams(text, p', b', e', q') ==> p' == p && b' == b && e' == e && q' == q
  {
    forall p', b', e', q' | LeftmostParams(text, p', b', e', q')
      ensures p' == p && b' == b && e' == e && q' == q
    {
      SkipSpaceUnique(text, p + |Parameters.open|, b);
      SkipSpaceUnique(text, p + |Parameters.open|, b');
      assert text[q..q + |Parameters.close|][0] == '<';
      assert text[q'..q' + |Parameters.close|][0] == '<';
      SkipSpaceUnique(text, e, q);
      SkipSpaceUnique(text, e, q');
    }
  }

  /** Extraction succeeds when all four fields match and the parameters decode. */
  lemma ExtractSucceeds(text: string, id: Tags, decode: string -> Option<Json>,
                        pi: int, qi: int, pd: int, qd: int, pn: int, qn: int, pp: int, b: int, e: int, q: int)
    requires LeftmostField(text, Instructions, true, pi, qi)
    requires LeftmostField(text, id, false, pd, qd)
    requires LeftmostField(text, Name, false, pn, qn)
    requires LeftmostParams(text, pp, b, e, q)
    requires decode(text[b..e]).Some?
    ensures ExtractComponents(text, id, decode).Some?
  {
    assert HasField(text, Instructions, true) && HasField(text, id, false) && HasField(text, Name, false);
    assert HasParams(text);
    LeftmostParamsUnique(text, pp, b, e, q);
    forall p', b', e', q' | LeftmostParams(text, p', b', e', q')
      ensures decode(text[b'..e']).Some?
    {
      assert b' == b && e' == e;
    }
  }

  lemma CapturedInstructions(text: string, id: Tags, decode: string -> Option<Json>, p: int, q: int)
    requires LeftmostField(text, Instructions, true, p, q)
    requires ExtractComponents(text, id, decode).Some?
    ensures ExtractComponents(text, id, decode).value.instructions == Strip(text[p + |Instructions.open|..q])
  {
  }

  lemma CapturedId(text: string, id: Tags, decode: string -> Option<Json>, p: int, q: int)
    requires LeftmostField(text, id, false, p, q)
    requires ExtractComponents(text, id, decode).Some?
    ensures ExtractComponents(text, id, decode).value.id == Strip(text[p + |id.open|..q])
  {
  }

  lemma CapturedName(text: string, id: Tags, decode: string -> Option<Json>, p: int, q: int)
    requires LeftmostField(text, Name, false, p, q)
    requires ExtractComponents(text, id, decode).Some?
    ensures ExtractComponents(text, id, decode).value.name == Strip(text[p + |Name.open|..q])
  {
  }

  lemma CapturedArguments(text: string, id: Tags, decode: string -> Option<Json>, p: int, b: int, e: int, q: int)
    requires LeftmostParams(text, p, b, e, q)
    requires ExtractComponents(text, id, decode).Some?
    ensures decode(text[b..e]) == Some(ExtractComponents(text, id, decode).value.arguments)
  {
  }

  /** When all four leftmost matches are known and the parameters decode, extraction returns their stripped captures. */
  lemma ExtractFromMatches(text: string, id: Tags, decode: string -> Option<Json>,
                           pi: int, qi: int, pd: int, qd: int, pn: int, qn: int, pp: int, b: int, e: int, q: int)
    requires LeftmostField(text, Instructions, true, pi, qi)
    requires LeftmostField(text, id, false, pd, qd)
    requires LeftmostField(text, Name, false, pn, qn)
    requires LeftmostParams(text, pp, b, e, q)
    requires decode(text[b..e]).Some?
    ensures ExtractComponents(text, id, decode) ==
            Some(Fields(Strip(text[pi + |Instructions.open|..qi]), Strip(text[pd + |id.open|..qd]),
                        Strip(text[pn + |Name.open|..qn]), decode(text[b..e]).value))
  {
    ExtractSucceeds(text, id, decode, pi, qi, pd, qd, pn, qn, pp, b, e, q);
    CapturedInstructions(text, id, decode, pi, qi);
    CapturedId(text, id, decode, pd, qd);
    CapturedName(text, id, decode, pn, qn);
    CapturedArguments(text, id, decode, pp, b, e, q);
  }

  /** Python `_parse_xml_tool_call`: the extractor with the `call_id` field. */
  function ParseXmlToolCall(text: string, decode: string -> Option<Json>): (r: Option<ToolCall>)
    ensures r.Some? <==> ExtractComponents(text, CallId, decode).Some?
    ensures r.Some? ==> var f := ExtractComponents(text, CallId, decode).value;
                        r.value == ToolCall(f.instructions, f.id, f.name, f.arguments)
  {
    match ExtractComponents(text, CallId, decode)
    case None => None
    case Some(f) => Some(ToolCall(f.instructions, f.id, f.name, f.arguments))
  }

  /** Python `_parse_xml_memory`: the extractor with the `memory_id` field. */
  function ParseXmlMemory(text: string, decode: string -> Option<Json>): (r: Option<MemoryCall>)
    ensures r.Some? <==> ExtractComponents(text, MemoryId, decode).Some?
    ensures r.Some? ==> var f := ExtractComponents(text, MemoryId, decode).value;
                        r.value == MemoryCall(f.instructions, f.id, f.name, f.arguments)
  {
    match ExtractComponents(text, MemoryId, decode)
    case None => None
    case Some(f) => Some(MemoryCall(f.instructions, f.id, f.name, f.arguments))
  }

  /**
    A tool block and a memory block differ only in the id field: on the same
    body both parsers agree on instructions, name and arguments, and once the
    tool parse succeeds the memory parse succeeds exactly when a
    `<memory_id>` field is present.
   */
  lemma ToolAndMemoryDifferOnlyInId(text: string, decode: string -> Option<Json>)
    ensures ParseXmlToolCall(text, decode).Some? && ParseXmlMemory(text, decode).Some? ==>
              var t := ParseXmlToolCall(text, decode).value;
              var m := ParseXmlMemory(text, decode).value;
              t.instructions == m.instructions && t.name == m.name && t.arguments == m.arguments
    ensures ParseXmlToolCall(text, decode).Some? ==>
              (ParseXmlMemory(text, decode).Some? <==> HasField(text, MemoryId, false))
  {
    if ParseXmlToolCall(text, decode).Some? && ParseXmlMemory(text, decode).Some? {
      var mi := SearchField(text, Instructions, true).value;
      var mn := SearchField(text, Name, false).value;
      var mp := SearchParams(text).value;
      assert LeftmostField(text, Instructions, true, mi.at, mi.hi);
      assert LeftmostField(text, Name, false, mn.at, mn.hi);
      assert LeftmostParams(text, mp.at, mp.lo, mp.hi, mp.closeAt);
    }
  }
}
