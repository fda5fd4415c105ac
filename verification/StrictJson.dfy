/**
 The strict JSON parser of the TypeScript SDK.  Positions index Unicode scalar
 values; none of the characters the parser looks at is split by UTF-16, so the
 positions of the original's code units correspond.
 */
module StrictJson {
  import opened Base

  datatype Primitive = Null | Boolean(truth: bool) | Number(number: real)

  datatype Json =
    | Leaf(primitive: Primitive)
    | Str(text: string)
    | Arr(items: seq<Json>)
    | Obj(members: map<string, Json>)

  /** The built-in decoder, which the parser applies to one string literal or one primitive token at a time. */
  datatype Codec = Codec(literal: string -> Option<string>, token: string -> Option<Primitive>)

  datatype Member = Member(key: string, value: Json)

  datatype Parsed<+T> = Fail | Parsed(value: T, end: nat)

  // ---- Characters ------------------------------------------------------------------------

  /** The four whitespace characters of section 2 of RFC 8259. */
  predicate IsSpace(c: char) {
    c == '\t' || c == '\n' || c == '\r' || c == ' '
  }

  /** The class that ends a primitive token: every ECMAScript white space, a comma or a closing bracket. */
  predicate IsDelimiter(c: char) {
    || IsSpace(c) || c == '\U{000B}' || c == '\U{000C}' || c == '\U{00A0}' || c == '\U{1680}'
    || '\U{2000}' <= c <= '\U{200A}' || c == '\U{2028}' || c == '\U{2029}' || c == '\U{202F}'
    || c == '\U{205F}' || c == '\U{3000}' || c == '\U{FEFF}'
    || c == ',' || c == '}' || c == ']'
  }

  /** Numbers and the three literal names use no other characters, so the built-in decoder refuses any other token. */
  predicate IsTokenChar(c: char) {
    'a' <= c <= 'z' || 'A' <= c <= 'Z' || '0' <= c <= '9' || c == '+' || c == '-' || c == '.'
  }

  function DecodeToken(k: Codec, token: string): Option<Primitive> {
    if forall c :: c in token ==> IsTokenChar(c) then k.token(token) else None
  }

  predicate At(s: string, i: nat, c: char) {
    i < |s| && s[i] == c
  }

  // ---- Lexical functions -----------------------------------------------------------------

  function SkipSpace(s: string, i: nat): (e: nat)
    requires i <= |s|
    ensures i <= e <= |s|
    decreases |s| - i
  {
    if i < |s| && IsSpace(s[i]) then SkipSpace(s, i + 1) else i
  }

  /** From just inside a string to just past its closing quote; a backslash takes the next character with it. */
  function StringEnd(s: string, i: nat): (e: Option<nat>)
    ensures e.Some? ==> i < e.value <= |s| && s[e.value - 1] == '"'
    decreases |s| - i
  {
    if i >= |s| then None
    else if s[i] == '"' then Some(i + 1)
    else if s[i] == '\\' then StringEnd(s, i + 2)
    else StringEnd(s, i + 1)
  }

  function TokenEnd(s: string, i: nat): (e: nat)
    requires i <= |s|
    ensures i <= e <= |s|
    decreases |s| - i
  {
    if i < |s| && !IsDelimiter(s[i]) then TokenEnd(s, i + 1) else i
  }

  /** Skipping stops at the first character that is not a space, and stays there. */
  lemma {:induction false} SkipSpaceStops(s: string, i: nat)
    requires i <= |s|
    ensures var e := SkipSpace(s, i); SkipSpace(s, e) == e && (e < |s| ==> !IsSpace(s[e])) && (i < e ==> IsSpace(s[i]))
    decreases |s| - i
  {
    if i < |s| && IsSpace(s[i]) { SkipSpaceStops(s, i + 1); }
  }

  // ---- The grammar the parser accepts ----------------------------------------------------

  /** A string literal whose opening quote is at i. */
  function ParseString(k: Codec, s: string, i: nat): (r: Parsed<string>)
    requires At(s, i, '"')
    ensures r.Parsed? ==> i + 1 < r.end <= |s|
  {
    match StringEnd(s, i + 1)
    case None => Fail
    case Some(e) =>
      match k.literal(s[i..e])
      case None => Fail
      case Some(text) => Parsed(text, e)
  }

  function ParseValue(k: Codec, s: string, i: nat): (r: Parsed<Json>)
    requires i <= |s|
    ensures r.Parsed? ==> i < r.end <= |s|
    decreases |s| - i, 0
  {
    var j := SkipSpace(s, i);
    if At(s, j, '{') then
      var p := SkipSpace(s, j + 1);
      if At(s, p, '}') then Parsed(Obj(map[]), p + 1) else ParseMembers(k, s, p, map[])
    else if At(s, j, '[') then
      var p := SkipSpace(s, j + 1);
      if At(s, p, ']') then Parsed(Arr([]), p + 1) else ParseElements(k, s, p, [])
    else if At(s, j, '"') then
      match ParseString(k, s, j)
      case Fail => Fail
      case Parsed(text, e) => Parsed(Str(text), e)
    else
      var e := TokenEnd(s, j);
      if e == j then Fail else
      match DecodeToken(k, s[j..e])
      case None => Fail
      case Some(p) => Parsed(Leaf(p), e)
  }

  /** One member: a key not taken yet, a colon and a value. */
  function ParseMember(k: Codec, s: string, i: nat, taken: set<string>): (r: Parsed<Member>)
    requires i <= |s|
    ensures r.Parsed? ==> i < r.end <= |s| && r.value.key !in taken
    decreases |s| - i, 1
  {
    var p := SkipSpace(s, i);
    if !At(s, p, '"') then Fail else
    match ParseString(k, s, p)
    case Fail => Fail
    case Parsed(key, q) =>
      if key in taken then Fail else
      var colon := SkipSpace(s, q);
      if !At(s, colon, ':') then Fail else
      match ParseValue(k, s, SkipSpace(s, colon + 1))
      case Fail => Fail
      case Parsed(v, e) => Parsed(Member(key, v), e)
  }

  /** The members still to come, given those already read; a repeated key is refused. */
  function ParseMembers(k: Codec, s: string, i: nat, acc: map<string, Json>): (r: Parsed<Json>)
    requires i <= |s|
    ensures r.Parsed? ==> i < r.end <= |s| && r.value.Obj?
    decreases |s| - i, 2
  {
    match ParseMember(k, s, i, acc.Keys)
    case Fail => Fail
    case Parsed(m, e) =>
      var f := SkipSpace(s, e);
      if At(s, f, '}') then Parsed(Obj(acc[m.key := m.value]), f + 1)
      else if At(s, f, ',') then ParseMembers(k, s, f + 1, acc[m.key := m.value])
      else Fail
  }

  /** The elements still to come, given those already read. */
  function ParseElements(k: Codec, s: string, i: nat, acc: seq<Json>): (r: Parsed<Json>)
    requires i <= |s|
    ensures r.Parsed? ==> i < r.end <= |s| && r.value.Arr? && acc < r.value.items
    decreases |s| - i, 1
  {
    match ParseValue(k, s, i)
    case Fail => Fail
    case Parsed(v, e) =>
      var f := SkipSpace(s, e);
      if At(s, f, ']') then Parsed(Arr(acc + [v]), f + 1)
      else if At(s, f, ',') then ParseElements(k, s, f + 1, acc + [v])
      else Fail
  }

  /** A whole document. */
  function Parse(k: Codec, s: string): Option<Json> {
    match ParseValue(k, s, 0)
    case Fail => None
    case Parsed(v, e) => if SkipSpace(s, e) == |s| then Some(v) else None
  }

  // ---- The parser as it runs -------------------------------------------------------------

  /** The parser moves `position` as it goes; a thrown error is a failed result, after which it is not used again. */
  class StrictJSONParser {
    const codec: Codec
    const source: string
    var position: nat

    constructor (codec: Codec, source: string)
      ensures this.codec == codec && this.source == source && position == 0
    {
      this.codec, this.source := codec, source;
      position := 0;
    }

    method ParseDocument() returns (r: Option<Json>)
      requires position == 0
      modifies this
      ensures r == Parse(codec, source)
    {
      SkipWhitespace();
      SkipSpaceStops(source, 0);
      var v := Value();
      if v.None? { return None; }
      SkipWhitespace();
      if position != |source| { return None; }
      return v;
    }

    method SkipWhitespace()
      requires position <= |source|
      modifies this
      ensures position == SkipSpace(source, old(position))
    {
      while position < |source| && IsSpace(source[position])
        invariant position <= |source|
        invariant SkipSpace(source, position) == SkipSpace(source, old(position))
      {
        position := position + 1;
      }
    }

    method String() returns (r: Option<string>)
      requires At(source, position, '"')
      modifies this
      ensures r.Some? <==> ParseString(codec, source, old(position)).Parsed?
      ensures r.Some? ==> ParseString(codec, source, old(position)) == Parsed(r.value, position)
    {
      var start := position;
      position := position + 1;
      while position < |source|
        invariant start < position
        invariant StringEnd(source, position) == StringEnd(source, start + 1)
        decreases |source| - position
      {
        var character := source[position];
        position := position + 1;
        if character == '"' { return codec.literal(source[start..position]); }
        if character == '\\' { position := position + 1; }
      }
      return None;
    }

    method Value() returns (r: Option<Json>)
      requires position <= |source|
      modifies this
      ensures r.Some? <==> ParseValue(codec, source, old(position)).Parsed?
      ensures r.Some? ==> ParseValue(codec, source, old(position)) == Parsed(r.value, position)
      decreases |source| - position, 1
    {
      SkipWhitespace();
      if position < |source| && source[position] == '{' {
        r := Object();
        return;
      }
      if position < |source| && source[position] == '[' {
        r := Array();
        return;
      }
      if position < |source| && source[position] == '"' {
        var text := String();
        return if text.Some? then Some(Str(text.value)) else None;
      }
      var primitiveStart := position;
      while position < |source| && !IsDelimiter(source[position])
        invariant primitiveStart <= position <= |source|
        invariant TokenEnd(source, position) == TokenEnd(source, primitiveStart)
      {
        position := position + 1;
      }
      if primitiveStart == position { return None; }
      var primitive := DecodeToken(codec, source[primitiveStart..position]);
      return if primitive.Some? then Some(Leaf(primitive.value)) else None;
    }

    method Object() returns (r: Option<Json>)
      requires At(source, position, '{')
      modifies this
      ensures r.Some? <==> ParseValue(codec, source, old(position)).Parsed?
      ensures r.Some? ==> ParseValue(codec, source, old(position)) == Parsed(r.value, position)
      decreases |source| - position, 0
    {
      hide ParseMember, ParseElements, ParseString, SkipSpace, IsDelimiter;
      SkipSpaceStops(source, position);
      position := position + 1;
      var result: map<string, Json> := map[];
      var keys: set<string> := {};
      SkipWhitespace();
      if position < |source| && source[position] == '}' {
        position := position + 1;
        return Some(Obj(result));
      }
      while true
        invariant old(position) < position <= |source| && keys == result.Keys
        invariant ParseValue(codec, source, old(position)) == ParseMembers(codec, source, position, result)
        decreases |source| - position
      {
        var member := NextMember(keys);
        if member.None? { return None; }
        keys := keys + {member.value.key};
        result := result[member.value.key := member.value.value];
        SkipWhitespace();
        if position == |source| { return None; }
        var separator := source[position];
        position := position + 1;
        if separator == '}' { return Some(Obj(result)); }
        if separator != ',' { return None; }
      }
    }

    method NextMember(keys: set<string>) returns (r: Option<Member>)
      requires position <= |source|
      modifies this
      ensures r.Some? <==> ParseMember(codec, source, old(position), keys).Parsed?
      ensures r.Some? ==> ParseMember(codec, source, old(position), keys) == Parsed(r.value, position)
      decreases |source| - position, 2
    {
      SkipWhitespace();
      if !(position < |source| && source[position] == '"') { return None; }
      var key := String();
      if key.None? || key.value in keys { return None; }
      SkipWhitespace();
      if !(position < |source| && source[position] == ':') { return None; }
      position := position + 1;
      SkipWhitespace();
      var value := Value();
      if value.None? { return None; }
      return Some(Member(key.value, value.value));
    }

    method Array() returns (r: Option<Json>)
      requires At(source, position, '[')
      modifies this
      ensures r.Some? <==> ParseValue(codec, source, old(position)).Parsed?
      ensures r.Some? ==> ParseValue(codec, source, old(position)) == Parsed(r.value, position)
      decreases |source| - position, 0
    {
      position := position + 1;
      var result: seq<Json> := [];
      SkipWhitespace();
      if position < |source| && source[position] == ']' {
        position := position + 1;
        return Some(Arr(result));
      }
      while true
        invariant old(position) < position <= |source|
        invariant ParseValue(codec, source, old(position)) == ParseElements(codec, source, position, result)
        decreases |source| - position
      {
        var value := Value();
        if value.None? { return None; }
        result := result + [value.value];
        SkipWhitespace();
        if position == |source| { return None; }
        var separator := source[position];
        position := position + 1;
        if separator == ']' { return Some(Arr(result)); }
        if separator != ',' { return None; }
      }
    }
  }
}
