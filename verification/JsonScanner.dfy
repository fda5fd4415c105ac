/**
 The lenient scanner that cuts the raw command out of a request frame, so that
 its digest covers the bytes the caller sent.  It is written separately from the
 parser and accepts more; on every frame the parser accepts the two agree on where
 each value ends.
 */
module JsonScanner {
  import opened Base
  import opened StrictJson
  import opened JsonTransport

  // ---- What the scanner computes ---------------------------------------------------------

  /** From inside a string to just past its closing quote, remembering whether the last character was a backslash. */
  function StringScan(s: string, i: nat, escaped: bool): Option<nat>
    decreases |s| - i
  {
    if i >= |s| then None
    else if escaped then StringScan(s, i + 1, false)
    else if s[i] == '\\' then StringScan(s, i + 1, true)
    else if s[i] == '"' then Some(i + 1)
    else StringScan(s, i + 1, false)
  }

  lemma {:induction false} StringScanAdvances(s: string, i: nat, escaped: bool)
    ensures StringScan(s, i, escaped).Some? ==> i < StringScan(s, i, escaped).value <= |s|
    decreases |s| - i
  {
    if i < |s| {
      StringScanAdvances(s, i + 1, false);
      StringScanAdvances(s, i + 1, true);
    }
  }

  function ValueScan(s: string, i: nat): (e: Option<nat>)
    requires i <= |s|
    ensures e.Some? ==> i < e.value <= |s|
    decreases |s| - i, 0
  {
    if At(s, i, '"') then StringScanAdvances(s, i + 1, false); StringScan(s, i + 1, false)
    else if At(s, i, '{') then ContainerScan(s, i + 1, true)
    else if At(s, i, '[') then ContainerScan(s, i + 1, false)
    else if TokenEnd(s, i) == i then None
    else Some(TokenEnd(s, i))
  }

  function Closing(keyed: bool): char { if keyed then '}' else ']' }

  /** Past the key and colon of a member; an array has neither. */
  function KeyScan(s: string, p: nat, keyed: bool): (q: Option<nat>)
    requires p <= |s|
    ensures q.Some? ==> p <= q.value <= |s|
  {
    if !keyed then Some(p)
    else if !At(s, p, '"') then None
    else
      StringScanAdvances(s, p + 1, false);
      match StringScan(s, p + 1, false)
      case None => None
      case Some(e) =>
        var colon := SkipSpace(s, e);
        if At(s, colon, ':') then Some(SkipSpace(s, colon + 1)) else None
  }

  /** The rest of an object or array, from just after its opening bracket or a comma; a trailing comma passes. */
  function ContainerScan(s: string, i: nat, keyed: bool): (e: Option<nat>)
    requires i <= |s|
    ensures e.Some? ==> i < e.value <= |s|
    decreases |s| - i, 1
  {
    var p := SkipSpace(s, i);
    if At(s, p, Closing(keyed)) then Some(p + 1) else
    match KeyScan(s, p, keyed)
    case None => None
    case Some(q) =>
      match ValueScan(s, q)
      case None => None
      case Some(e) =>
        var f := SkipSpace(s, e);
        if At(s, f, ',') then ContainerScan(s, f + 1, keyed)
        else if At(s, f, Closing(keyed)) then Some(f + 1)
        else None
  }

  /** One element's end and the closing bracket of the array that holds nothing else. */
  function ParameterScan(s: string, i: nat): (r: Option<(nat, nat, nat)>)
    requires i <= |s|
    ensures r.Some? ==> i < r.value.0 < r.value.1 < r.value.2 <= |s|
  {
    if !At(s, i, '[') then None else
    var start := SkipSpace(s, i + 1);
    match ValueScan(s, start)
    case None => None
    case Some(end) =>
      var close := SkipSpace(s, end);
      if At(s, close, ']') then Some((start, end, close + 1)) else None
  }

  /** One member of the frame: where it ends, and the parameter it supplies if its key is "params". */
  function MemberScan(k: Codec, s: string, p: nat, parameter: Option<string>): (r: Option<(nat, Option<string>)>)
    requires p <= |s|
    ensures r.Some? ==> p < r.value.0 <= |s|
  {
    match KeyScan(s, p, true)
    case None => None
    case Some(v) =>
      StringScanAdvances(s, p + 1, false);
      match k.literal(s[p..StringScan(s, p + 1, false).value])
      case None => None
      case Some(key) =>
        if key == "params" then
          match ParameterScan(s, v)
          case None => None
          case Some((start, end, after)) => Some((after, Some(s[start..end])))
        else
          match ValueScan(s, v)
          case None => None
          case Some(e) => Some((e, parameter))
  }

  /** The members of the frame still to come, given the parameter found so far. */
  function ExtractFrom(k: Codec, s: string, i: nat, parameter: Option<string>): Option<string>
    requires i <= |s|
    decreases |s| - i
  {
    var p := SkipSpace(s, i);
    if At(s, p, '}') then parameter else
    match MemberScan(k, s, p, parameter)
    case None => None
    case Some((e, found)) =>
      var f := SkipSpace(s, e);
      if At(s, f, ',') then ExtractFrom(k, s, f + 1, found)
      else if At(s, f, '}') then found
      else None
  }

  /** The raw text of the single parameter of a request frame. */
  function Extract(k: Codec, s: string): Option<string> {
    var p := SkipSpace(s, 0);
    if At(s, p, '{') then ExtractFrom(k, s, p + 1, None) else None
  }

  // ---- The scanner as it runs ------------------------------------------------------------

  method SkipJSONWhitespace(text: string, start: nat) returns (index: nat)
    requires start <= |text|
    ensures index == SkipSpace(text, start)
  {
    index := start;
    while index < |text| && IsSpace(text[index])
      invariant start <= index <= |text|
      invariant SkipSpace(text, index) == SkipSpace(text, start)
    {
      index := index + 1;
    }
  }

  method ScanJSONString(text: string, start: nat) returns (end: Option<nat>)
    requires start < |text|
    ensures end == StringScan(text, start + 1, false)
  {
    var escaped := false;
    var index := start + 1;
    while index < |text|
      invariant start < index <= |text|
      invariant StringScan(text, index, escaped) == StringScan(text, start + 1, false)
    {
      var character := text[index];
      if escaped {
        escaped := false;
      } else if character == '\\' {
        escaped := true;
      } else if character == '"' {
        return Some(index + 1);
      }
      index := index + 1;
    }
    return None;
  }

  method ScanJSONValue(text: string, start: nat) returns (end: Option<nat>)
    requires start <= |text|
    ensures end == ValueScan(text, start)
    decreases |text| - start, 2
  {
    if start < |text| && text[start] == '"' {
      end := ScanJSONString(text, start);
      return;
    }
    if start < |text| && text[start] == '{' {
      end := ScanJSONContainer(text, start, '}');
      return;
    }
    if start < |text| && text[start] == '[' {
      end := ScanJSONContainer(text, start, ']');
      return;
    }
    var index := start;
    while index < |text| && !IsDelimiter(text[index])
      invariant start <= index <= |text|
      invariant TokenEnd(text, index) == TokenEnd(text, start)
    {
      index := index + 1;
    }
    return if index == start then None else Some(index);
  }

  method ScanJSONContainer(text: string, start: nat, closing: char) returns (end: Option<nat>)
    requires start < |text| && closing == Closing(text[start] == '{')
    ensures end == ContainerScan(text, start + 1, text[start] == '{')
    decreases |text| - start, 1
  {
    hide ValueScan, SkipSpace;
    var keyed := text[start] == '{';
    var index := start + 1;
    while true
      invariant start < index <= |text|
      invariant ContainerScan(text, index, keyed) == ContainerScan(text, start + 1, keyed)
      decreases |text| - index
    {
      index := SkipJSONWhitespace(text, index);
      if index < |text| && text[index] == closing { return Some(index + 1); }
      if keyed {
        var q := ScanKey(text, index);
        if q.None? { return None; }
        index := q.value;
      }
      var e := ScanJSONValue(text, index);
      if e.None? { return None; }
      index := SkipJSONWhitespace(text, e.value);
      if index < |text| && text[index] == ',' {
        index := index + 1;
        continue;
      }
      if index < |text| && text[index] == closing { return Some(index + 1); }
      return None;
    }
  }

  method ScanKey(text: string, index: nat) returns (next: Option<nat>)
    requires index <= |text|
    ensures next == KeyScan(text, index, true)
  {
    if !(index < |text| && text[index] == '"') { return None; }
    var e := ScanJSONString(text, index);
    if e.None? { return None; }
    StringScanAdvances(text, index + 1, false);
    var colon := SkipJSONWhitespace(text, e.value);
    if !(colon < |text| && text[colon] == ':') { return None; }
    var v := SkipJSONWhitespace(text, colon + 1);
    return Some(v);
  }

  method ScanParameter(text: string, index: nat) returns (found: Option<(nat, nat, nat)>)
    requires index <= |text|
    ensures found == ParameterScan(text, index)
  {
    if !(index < |text| && text[index] == '[') { return None; }
    var valueStart := SkipJSONWhitespace(text, index + 1);
    var valueEnd := ScanJSONValue(text, valueStart);
    if valueEnd.None? { return None; }
    var arrayEnd := SkipJSONWhitespace(text, valueEnd.value);
    if !(arrayEnd < |text| && text[arrayEnd] == ']') { return None; }
    return Some((valueStart, valueEnd.value, arrayEnd + 1));
  }

  method ScanMember(
      codec: Codec, text: string, index: nat, parameter: Option<string>) returns (r: Option<(nat, Option<string>)>)
    requires index <= |text|
    ensures r == MemberScan(codec, text, index, parameter)
  {
    var v := ScanKey(text, index);
    if v.None? { return None; }
    var keyEnd := ScanJSONString(text, index);
    StringScanAdvances(text, index + 1, false);
    var key := codec.literal(text[index..keyEnd.value]);
    if key.None? { return None; }
    if key.value == "params" {
      var found := ScanParameter(text, v.value);
      if found.None? { return None; }
      return Some((found.value.2, Some(text[found.value.0..found.value.1])));
    }
    var e := ScanJSONValue(text, v.value);
    if e.None? { return None; }
    return Some((e.value, parameter));
  }

  method ExtractSingleParameter(codec: Codec, text: string) returns (parameter: Option<string>)
    ensures parameter == Extract(codec, text)
  {
    hide MemberScan;
    parameter := None;
    var index := SkipJSONWhitespace(text, 0);
    if !(index < |text| && text[index] == '{') { return None; }
    index := index + 1;
    while true
      invariant index <= |text|
      invariant ExtractFrom(codec, text, index, parameter) == Extract(codec, text)
      decreases |text| - index
    {
      index := SkipJSONWhitespace(text, index);
      if index < |text| && text[index] == '}' { return; }
      var member := ScanMember(codec, text, index, parameter);
      if member.None? { return None; }
      parameter := member.value.1;
      index := SkipJSONWhitespace(text, member.value.0);
      if index < |text| && text[index] == ',' {
        index := index + 1;
        continue;
      }
      if index < |text| && text[index] == '}' { return; }
      return None;
    }
  }

  // ---- Agreement with the parser ---------------------------------------------------------

  lemma {:induction false} StringsAgree(s: string, i: nat)
    ensures StringScan(s, i, false) == StringEnd(s, i)
    decreases |s| - i
  {
    if i < |s| {
      if s[i] == '\\' && i + 1 < |s| {
        StringsAgree(s, i + 2);
      } else if s[i] != '\\' {
        StringsAgree(s, i + 1);
      }
    }
  }

  /** Wherever the parser reads a value, the scanner started at its first character ends it at the same place. */
  lemma {:induction false} ValuesAgree(k: Codec, s: string, i: nat, v: Json, e: nat)
    requires i <= |s| && ParseValue(k, s, i) == Parsed(v, e)
    ensures ValueScan(s, SkipSpace(s, i)) == Some(e)
    decreases |s| - i, 0
  {
    hide ParseMember, ParseMembers, ParseElements, StringEnd, StringScan, IsDelimiter, SkipSpace, ContainerScan;
    var a := SkipSpace(s, i);
    if At(s, a, '{') {
      var p := SkipSpace(s, a + 1);
      SkipSpaceStops(s, a + 1);
      if At(s, p, '}') {
        ContainerCloses(s, a + 1, true);
      } else {
        MembersAgree(k, s, p, map[], v, e);
        ContainerSkips(s, a + 1, true);
      }
    } else if At(s, a, '[') {
      var p := SkipSpace(s, a + 1);
      SkipSpaceStops(s, a + 1);
      if At(s, p, ']') {
        ContainerCloses(s, a + 1, false);
      } else {
        ElementsAgree(k, s, p, [], v, e);
        ContainerSkips(s, a + 1, false);
      }
    } else if At(s, a, '"') {
      StringsAgree(s, a + 1);
    }
  }

  lemma ContainerCloses(s: string, i: nat, keyed: bool)
    requires i <= |s| && At(s, SkipSpace(s, i), Closing(keyed))
    ensures ContainerScan(s, i, keyed) == Some(SkipSpace(s, i) + 1)
  {
  }

  lemma ContainerSkips(s: string, i: nat, keyed: bool)
    requires i <= |s| && SkipSpace(s, SkipSpace(s, i)) == SkipSpace(s, i)
    ensures ContainerScan(s, SkipSpace(s, i), keyed) == ContainerScan(s, i, keyed)
  {
    hide ValueScan, KeyScan, SkipSpace;
  }

  /** The scanner reads a member's key and colon as the parser does. */
  lemma MemberAgrees(k: Codec, s: string, i: nat, taken: set<string>, m: Member, e: nat)
    requires i <= |s| && ParseMember(k, s, i, taken) == Parsed(m, e)
    ensures var p := SkipSpace(s, i);
      && At(s, p, '"') && StringEnd(s, p + 1).Some? && k.literal(s[p..StringEnd(s, p + 1).value]) == Some(m.key)
      && KeyScan(s, p, true).Some?
      && var v := KeyScan(s, p, true).value; SkipSpace(s, v) == v && ParseValue(k, s, v) == Parsed(m.value, e)
  {
    hide ParseValue, SkipSpace, StringEnd, StringScan;
    var p := SkipSpace(s, i);
    StringsAgree(s, p + 1);
    var colon := SkipSpace(s, ParseString(k, s, p).end);
    SkipSpaceStops(s, colon + 1);
  }

  lemma {:induction false} MembersAgree(k: Codec, s: string, i: nat, acc: map<string, Json>, v: Json, e: nat)
    requires i <= |s| && ParseMembers(k, s, i, acc) == Parsed(v, e)
    ensures ContainerScan(s, i, true) == Some(e)
    decreases |s| - i, 2
  {
    hide ParseMember, ParseValue, SkipSpace, StringEnd, KeyScan, ValueScan;
    var Parsed(m, end) := ParseMember(k, s, i, acc.Keys);
    MemberAgrees(k, s, i, acc.Keys, m, end);
    ValuesAgree(k, s, KeyScan(s, SkipSpace(s, i), true).value, m.value, end);
    var f := SkipSpace(s, end);
    if At(s, f, ',') { MembersAgree(k, s, f + 1, acc[m.key := m.value], v, e); }
  }

  lemma {:induction false} ElementsAgree(k: Codec, s: string, i: nat, acc: seq<Json>, v: Json, e: nat)
    requires i <= |s| && ParseElements(k, s, i, acc) == Parsed(v, e)
    ensures ContainerScan(s, i, false) == Some(e)
    decreases |s| - i, 1
  {
    hide ParseValue, SkipSpace, ValueScan;
    var Parsed(x, end) := ParseValue(k, s, i);
    ValuesAgree(k, s, i, x, end);
    ValueNeverCloses(k, s, i, x, end);
    var f := SkipSpace(s, end);
    if At(s, f, ',') { ElementsAgree(k, s, f + 1, acc + [x], v, e); }
  }

  /** No value starts with a closing bracket. */
  lemma ValueNeverCloses(k: Codec, s: string, i: nat, v: Json, e: nat)
    requires i <= |s| && ParseValue(k, s, i) == Parsed(v, e)
    ensures !At(s, SkipSpace(s, i), ']') && !At(s, SkipSpace(s, i), '}') && !At(s, SkipSpace(s, i), ',')
  {
    hide ParseMember, ParseMembers, ParseElements, ParseString, SkipSpace;
  }

  // ---- The extracted parameter is the parsed one -----------------------------------------

  /** `raw` is the text from a to b, and there the parser reads p. */
  ghost predicate Spans(k: Codec, s: string, a: nat, b: nat, raw: string, p: Json) {
    a <= b <= |s| && raw == s[a..b] && ParseValue(k, s, a) == Parsed(p, b) && SkipSpace(s, a) == a
  }

  ghost predicate SourceOf(k: Codec, s: string, raw: string, p: Json) {
    exists a: nat, b: nat :: Spans(k, s, a, b, raw, p)
  }

  lemma {:induction false} MembersExtend(
      k: Codec, s: string, i: nat, acc: map<string, Json>, m: map<string, Json>, e: nat)
    requires i <= |s| && ParseMembers(k, s, i, acc) == Parsed(Obj(m), e)
    ensures forall key :: key in acc ==> key in m && m[key] == acc[key]
    decreases |s| - i
  {
    hide ParseMember, SkipSpace;
    var Parsed(mm, end) := ParseMember(k, s, i, acc.Keys);
    var f := SkipSpace(s, end);
    if At(s, f, ',') { MembersExtend(k, s, f + 1, acc[mm.key := mm.value], m, e); }
  }

  /** An array of one element, to the scanner. */
  lemma ArrayOfOne(k: Codec, s: string, v: nat, p: Json, e: nat)
    requires v <= |s| && SkipSpace(s, v) == v && ParseValue(k, s, v) == Parsed(Arr([p]), e)
    ensures ParameterScan(s, v).Some?
    ensures var (start, end, after) := ParameterScan(s, v).value;
        after == e && Spans(k, s, start, end, s[start..end], p)
  {
    hide ParseMember, ParseMembers, ParseElements, ParseString, SkipSpace, ValueScan, IsDelimiter;
    var start := SkipSpace(s, v + 1);
    SkipSpaceStops(s, v + 1);
    assert At(s, v, '[') && ParseElements(k, s, start, []) == Parsed(Arr([p]), e);
    OneElement(k, s, start, p, e);
    var end := ParseValue(k, s, start).end;
    ValuesAgree(k, s, start, p, end);
  }

  lemma OneElement(k: Codec, s: string, i: nat, p: Json, e: nat)
    requires i <= |s| && ParseElements(k, s, i, []) == Parsed(Arr([p]), e)
    ensures ParseValue(k, s, i).Parsed? && ParseValue(k, s, i).value == p
    ensures var f := SkipSpace(s, ParseValue(k, s, i).end); At(s, f, ']') && e == f + 1
  {
    hide ParseValue, SkipSpace;
    var Parsed(x, end) := ParseValue(k, s, i);
    var f := SkipSpace(s, end);
    assert !At(s, f, ',');
    assert [p][0] == ([] + [x])[0];
  }

  lemma {:induction false} ExtractFollows(
      k: Codec, s: string, i: nat, acc: map<string, Json>, m: map<string, Json>, e: nat, p: Json,
          parameter: Option<string>)
    requires i <= |s| && ParseMembers(k, s, i, acc) == Parsed(Obj(m), e)
    requires "params" in m && m["params"] == Arr([p])
    requires "params" in acc ==> parameter.Some? && SourceOf(k, s, parameter.value, p)
    ensures ExtractFrom(k, s, i, parameter).Some? && SourceOf(k, s, ExtractFrom(k, s, i, parameter).value, p)
    decreases |s| - i
  {
    hide ParseMember, ParseValue, SkipSpace, KeyScan, ValueScan, SourceOf, MemberScan, StringEnd;
    var Parsed(mm, end) := ParseMember(k, s, i, acc.Keys);
    var start := SkipSpace(s, i);
    var acc' := acc[mm.key := mm.value];
    var f := SkipSpace(s, end);
    MembersExtend(k, s, i, acc, m, e);
    if At(s, f, ',') { MembersExtend(k, s, f + 1, acc', m, e); }
    MemberFollows(k, s, i, acc.Keys, mm, end, p, parameter);
    var found := MemberScan(k, s, start, parameter).value.1;
    assert At(s, start, '"') by { MemberAgrees(k, s, i, acc.Keys, mm, end); }
    if At(s, f, ',') {
      ExtractFollows(k, s, f + 1, acc', m, e, p, found);
    }
  }

  /** One member of an accepted frame: the scanner ends it where the parser does and picks up the parameter. */
  lemma MemberFollows(
      k: Codec, s: string, i: nat, taken: set<string>, mm: Member, end: nat, p: Json, parameter: Option<string>)
    requires i <= |s| && ParseMember(k, s, i, taken) == Parsed(mm, end)
    requires mm.key == "params" ==> mm.value == Arr([p])
    ensures MemberScan(k, s, SkipSpace(s, i), parameter).Some?
    ensures var (e, found) := MemberScan(k, s, SkipSpace(s, i), parameter).value;
      && e == end
      && (if mm.key == "params" then found.Some? && SourceOf(k, s, found.value, p) else found == parameter)
  {
    hide ParseMember, ParseValue, SkipSpace, KeyScan, ValueScan, ParameterScan, StringEnd, StringScan;
    var start := SkipSpace(s, i);
    MemberAgrees(k, s, i, taken, mm, end);
    StringsAgree(s, start + 1);
    var v := KeyScan(s, start, true).value;
    if mm.key == "params" {
      ArrayOfOne(k, s, v, p, end);
      var (a, b, after) := ParameterScan(s, v).value;
      assert Spans(k, s, a, b, s[a..b], p);
    } else {
      ValuesAgree(k, s, v, mm.value, end);
    }
  }

  /** For every request frame the parser accepts, the scanner returns the source text of its single parameter, and that
      text alone parses to it. */
  lemma ExtractIsParameter(k: Codec, s: string, m: map<string, Json>, p: Json)
    requires Parse(k, s) == Some(Obj(m)) && "params" in m && m["params"] == Arr([p])
    ensures Extract(k, s).Some?
    ensures SourceOf(k, s, Extract(k, s).value, p) && Parse(k, Extract(k, s).value) == Some(p)
  {
    hide ParseMember, ParseMembers, ParseElements, ParseString, SkipSpace, MemberScan, IsDelimiter;
    var a := SkipSpace(s, 0);
    assert At(s, a, '{');
    var start := SkipSpace(s, a + 1);
    SkipSpaceStops(s, a + 1);
    var e := ParseValue(k, s, 0).end;
    assert ParseMembers(k, s, start, map[]) == Parsed(Obj(m), e);
    ExtractFollows(k, s, start, map[], m, e, p, None);
    assert ExtractFrom(k, s, a + 1, None) == ExtractFrom(k, s, start, None);
    SourceParses(k, s, Extract(k, s).value, p);
  }

  // ---- What it refuses -------------------------------------------------------------------

  predicate IsSingle(v: Json) {
    v.Arr? && |v.items| == 1
  }

  /** Anything but an array of one element is refused where a parameter is expected. */
  lemma NotSingle(k: Codec, s: string, v: nat, x: Json, e: nat)
    requires v <= |s| && SkipSpace(s, v) == v && ParseValue(k, s, v) == Parsed(x, e) && !IsSingle(x)
    ensures ParameterScan(s, v).None?
  {
    hide ParseMember, ParseMembers, ParseString, SkipSpace, ValueScan, IsDelimiter;
    if At(s, v, '[') {
      var start := SkipSpace(s, v + 1);
      SkipSpaceStops(s, v + 1);
      if At(s, start, ']') {
        NothingToScan(s, start);
      } else {
        assert ParseElements(k, s, start, []) == Parsed(x, e);
        var Parsed(first, end) := ParseValue(k, s, start);
        ValuesAgree(k, s, start, first, end);
      }
    }
  }

  lemma NothingToScan(s: string, i: nat)
    requires At(s, i, ']')
    ensures ValueScan(s, i).None?
  {
  }

  /** A frame without a single parameter yields none. */
  lemma {:induction false} ExtractFindsNone(
    k: Codec, s: string, i: nat, acc: map<string, Json>, m: map<string, Json>, e: nat)
    requires i <= |s| && ParseMembers(k, s, i, acc) == Parsed(Obj(m), e) && "params" !in acc
    requires "params" in m ==> !IsSingle(m["params"])
    ensures ExtractFrom(k, s, i, None).None?
    decreases |s| - i
  {
    hide ParseMember, ParseValue, SkipSpace, KeyScan, ValueScan, MemberScan, StringEnd, IsSingle;
    var Parsed(mm, end) := ParseMember(k, s, i, acc.Keys);
    var start := SkipSpace(s, i);
    var acc' := acc[mm.key := mm.value];
    var f := SkipSpace(s, end);
    if At(s, f, ',') { MembersExtend(k, s, f + 1, acc', m, e); }
    assert mm.key == "params" ==> "params" in m && m["params"] == mm.value;
    assert At(s, start, '"') by { MemberAgrees(k, s, i, acc.Keys, mm, end); }
    MemberYieldsNone(k, s, i, acc.Keys, mm, end);
    if mm.key != "params" && At(s, f, ',') { ExtractFindsNone(k, s, f + 1, acc', m, e); }
  }

  lemma MemberYieldsNone(k: Codec, s: string, i: nat, taken: set<string>, mm: Member, end: nat)
    requires i <= |s| && ParseMember(k, s, i, taken) == Parsed(mm, end)
    requires mm.key == "params" ==> !IsSingle(mm.value)
    ensures var r := MemberScan(k, s, SkipSpace(s, i), None);
      if mm.key == "params" then r.None? else r == Some((end, None))
  {
    hide ParseMember, ParseValue, SkipSpace, KeyScan, ValueScan, ParameterScan, StringEnd, StringScan, IsSingle;
    var start := SkipSpace(s, i);
    MemberAgrees(k, s, i, taken, mm, end);
    StringsAgree(s, start + 1);
    var v := KeyScan(s, start, true).value;
    if mm.key == "params" { NotSingle(k, s, v, mm.value, end); } else { ValuesAgree(k, s, v, mm.value, end); }
  }

  /** Of the texts the parser accepts, the scanner yields a parameter for exactly the objects with a single one. */
  lemma ExtractIsExact(k: Codec, s: string, v: Json)
    requires Parse(k, s) == Some(v)
    ensures Extract(k, s).Some? <==> v.Obj? && "params" in v.members && IsSingle(v.members["params"])
  {
    if v.Obj? && "params" in v.members && IsSingle(v.members["params"]) {
      assert v.members["params"] == Arr([v.members["params"].items[0]]);
      ExtractIsParameter(k, s, v.members, v.members["params"].items[0]);
    } else {
      var a, e := SkipSpace(s, 0), ParseValue(k, s, 0).end;
      hide ParseMember, ParseMembers, ParseElements, ParseString, SkipSpace, MemberScan, IsDelimiter, IsSingle;
      if At(s, a, '{') {
        var start := SkipSpace(s, a + 1);
        SkipSpaceStops(s, a + 1);
        assert ExtractFrom(k, s, a + 1, None) == ExtractFrom(k, s, start, None);
        if At(s, start, '}') {
          assert ExtractFrom(k, s, start, None) == None;
        } else {
          ExtractFindsNone(k, s, start, map[], v.members, e);
        }
      }
    }
  }

  lemma SourceParses(k: Codec, s: string, raw: string, p: Json)
    requires SourceOf(k, s, raw, p)
    ensures Parse(k, raw) == Some(p)
  {
    var a: nat, b: nat :| Spans(k, s, a, b, raw, p);
    SliceParses(k, s, a, p, b);
  }
}
