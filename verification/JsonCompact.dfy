/** Whitespace-only compaction: what digests of embedded values are taken over. */
module JsonCompact {
  import opened Base
  import opened StrictJson
  import opened JsonTransport

  /** Where the compactor stands: outside strings, inside one, or just past a backslash in one. */
  datatype Place = Outside | Inside | Escaped

  function Next(at: Place, c: char): Place {
    match at
    case Outside => if c == '"' then Inside else Outside
    case Inside => if c == '\\' then Escaped else if c == '"' then Outside else Inside
    case Escaped => Inside
  }

  predicate Kept(at: Place, c: char) {
    !at.Outside? || !IsSpace(c)
  }

  function Compact(at: Place, s: string): string
    decreases |s|
  {
    if s == [] then []
    else (if Kept(at, s[0]) then [s[0]] else []) + Compact(Next(at, s[0]), s[1..])
  }

  function Leaves(at: Place, s: string): Place
    decreases |s|
  {
    if s == [] then at else Leaves(Next(at, s[0]), s[1..])
  }

  function PlaceOf(inString: bool, escaped: bool): Place {
    if !inString then Outside else if escaped then Escaped else Inside
  }

  method CompactJSON(raw: string) returns (compact: string)
    ensures compact == Compact(Outside, raw)
  {
    compact := "";
    var inString, escaped := false, false;
    for i := 0 to |raw|
      invariant !inString ==> !escaped
      invariant compact == Compact(Outside, raw[..i])
      invariant PlaceOf(inString, escaped) == Leaves(Outside, raw[..i])
    {
      hide Compact, Leaves;
      var character := raw[i];
      assert raw[..i + 1] == raw[..i] + [character];
      CompactOneMore(Outside, raw[..i], character);
      if inString {
        compact := compact + [character];
        if escaped { escaped := false; }
        else if character == '\\' { escaped := true; }
        else if character == '"' { inString := false; }
        continue;
      }
      if character == '"' {
        inString := true;
        compact := compact + [character];
      } else if !IsSpace(character) {
        compact := compact + [character];
      }
    }
    assert raw[..|raw|] == raw;
  }

  lemma CompactOneMore(at: Place, s: string, c: char)
    ensures Compact(at, s + [c]) == Compact(at, s) + (if Kept(Leaves(at, s), c) then [c] else [])
    ensures Leaves(at, s + [c]) == Next(Leaves(at, s), c)
  {
    CompactConcat(at, s, [c]);
    assert [c][1..] == [];
  }

  // ---- Idempotence and absence of outer whitespace ---------------------------------------

  predicate NoOuterSpace(at: Place, s: string)
    decreases |s|
  {
    s == [] || (Kept(at, s[0]) && NoOuterSpace(Next(at, s[0]), s[1..]))
  }

  /** Compacted text has no whitespace outside strings, and such text is exactly what compaction leaves alone. */
  lemma {:induction false} CompactHasNoOuterSpace(at: Place, s: string)
    ensures NoOuterSpace(at, Compact(at, s))
    decreases |s|
  {
    if s != [] {
      CompactHasNoOuterSpace(Next(at, s[0]), s[1..]);
      if Kept(at, s[0]) {
        assert Compact(at, s)[1..] == Compact(Next(at, s[0]), s[1..]);
      } else {
        assert Compact(at, s) == Compact(Next(at, s[0]), s[1..]);
      }
    }
  }

  lemma {:induction false} NoOuterSpaceIsFixed(at: Place, s: string)
    ensures NoOuterSpace(at, s) <==> Compact(at, s) == s
    decreases |s|
  {
    if s != [] {
      NoOuterSpaceIsFixed(Next(at, s[0]), s[1..]);
      if Kept(at, s[0]) {
        assert Compact(at, s)[1..] == Compact(Next(at, s[0]), s[1..]);
        assert s == [s[0]] + s[1..];
      } else {
        CompactShrinks(Next(at, s[0]), s[1..]);
      }
    }
  }

  lemma {:induction false} CompactShrinks(at: Place, s: string)
    ensures |Compact(at, s)| <= |s|
    decreases |s|
  {
    if s != [] { CompactShrinks(Next(at, s[0]), s[1..]); }
  }

  lemma CompactIdempotent(s: string)
    ensures Compact(Outside, Compact(Outside, s)) == Compact(Outside, s)
  {
    CompactHasNoOuterSpace(Outside, s);
    NoOuterSpaceIsFixed(Outside, Compact(Outside, s));
  }

  // ---- Compaction by pieces --------------------------------------------------------------

  lemma {:induction false} CompactConcat(at: Place, a: string, b: string)
    ensures Compact(at, a + b) == Compact(at, a) + Compact(Leaves(at, a), b)
    ensures Leaves(at, a + b) == Leaves(Leaves(at, a), b)
    decreases |a|
  {
    if a == [] {
      assert a + b == b;
    } else {
      assert (a + b)[1..] == a[1..] + b;
      CompactConcat(Next(at, a[0]), a[1..], b);
    }
  }

  /** A piece of a document that starts and ends outside strings, with its compacted form. */
  ghost predicate Piece(s: string, i: nat, e: nat, w: string) {
    i <= e <= |s| && Compact(Outside, s[i..e]) == w && Leaves(Outside, s[i..e]) == Outside
  }

  lemma PiecesJoin(s: string, i: nat, j: nat, e: nat, v: string, w: string)
    requires Piece(s, i, j, v) && Piece(s, j, e, w)
    ensures Piece(s, i, e, v + w)
  {
    assert s[i..e] == s[i..j] + s[j..e];
    CompactConcat(Outside, s[i..j], s[j..e]);
  }

  lemma {:induction false} SpacePiece(s: string, i: nat)
    requires i <= |s|
    ensures Piece(s, i, SkipSpace(s, i), "")
    decreases |s| - i
  {
    if i < |s| && IsSpace(s[i]) {
      SpacePiece(s, i + 1);
      assert s[i..i + 1] == [s[i]];
      assert Leaves(Outside, [s[i]]) == Outside;
      PiecesJoin(s, i, i + 1, SkipSpace(s, i), "", "");
    }
  }

  lemma CharPiece(s: string, i: nat)
    requires i < |s| && s[i] != '"' && !IsSpace(s[i])
    ensures Piece(s, i, i + 1, [s[i]])
  {
    assert s[i..i + 1] == [s[i]];
    assert Leaves(Outside, [s[i]]) == Outside;
    assert Compact(Outside, [s[i]]) == [s[i]];
  }

  lemma {:induction false} InsideString(s: string, i: nat, e: nat)
    requires StringEnd(s, i) == Some(e)
    ensures Compact(Inside, s[i..e]) == s[i..e] && Leaves(Inside, s[i..e]) == Outside
    decreases e - i
  {
    assert s[i..e][1..] == s[i + 1..e];
    if s[i] == '"' {
    } else if s[i] == '\\' {
      assert s[i + 1..e][1..] == s[i + 2..e];
      InsideString(s, i + 2, e);
      assert s[i..e] == [s[i]] + ([s[i + 1]] + s[i + 2..e]);
      assert Compact(Escaped, s[i + 1..e]) == [s[i + 1]] + Compact(Inside, s[i + 2..e]);
      assert Leaves(Escaped, s[i + 1..e]) == Leaves(Inside, s[i + 2..e]);
    } else {
      InsideString(s, i + 1, e);
      assert s[i..e] == [s[i]] + s[i + 1..e];
    }
  }

  lemma StringPiece(s: string, i: nat, e: nat)
    requires At(s, i, '"') && StringEnd(s, i + 1) == Some(e)
    ensures Piece(s, i, e, s[i..e])
  {
    assert s[i..e][1..] == s[i + 1..e];
    InsideString(s, i + 1, e);
    assert s[i..e] == [s[i]] + s[i + 1..e];
  }

  lemma {:induction false} TokenPiece(s: string, i: nat, e: nat)
    requires i <= e <= |s| && forall q :: i <= q < e ==> IsTokenChar(s[q])
    ensures Piece(s, i, e, s[i..e])
    decreases e - i
  {
    if i < e {
      TokenPiece(s, i + 1, e);
      CharPiece(s, i);
      PiecesJoin(s, i, i + 1, e, [s[i]], s[i + 1..e]);
      assert s[i..e] == [s[i]] + s[i + 1..e];
    }
  }

  // ---- Meaning is preserved --------------------------------------------------------------

  /** Text that is a value, member, or the rest of a container, and nothing more, and starts at once. */
  predicate StartsAtOnce(w: string) {
    w != [] && !IsSpace(w[0])
  }

  /** A literal and a token survive compaction as they are; a container is rebuilt from its compacted parts. */
  lemma {:induction false} ValueCompacts(k: Codec, s: string, i: nat, v: Json, e: nat) returns (w: string)
    requires i <= |s| && ParseValue(k, s, i) == Parsed(v, e)
    ensures Piece(s, i, e, w) && StartsAtOnce(w) && ParseValue(k, w, 0) == Parsed(v, |w|)
    decreases |s| - i, 0
  {
    hide Piece, ParseMember, ParseMembers, ParseElements, ParseString, IsDelimiter, SkipSpace, DecodeToken;
    var a := SkipSpace(s, i);
    SpacePiece(s, i);
    SkipSpaceStops(s, i);
    if At(s, a, '{') || At(s, a, '[') {
      w := ContainerCompacts(k, s, a, v, e);
    } else if At(s, a, '"') {
      w := s[a..e];
      LiteralCompacts(k, s, a, v, e);
    } else {
      w := s[a..e];
      TokenCompacts(k, s, a, v, e);
    }
    PiecesJoin(s, i, a, e, "", w);
    assert "" + w == w;
  }

  lemma LiteralCompacts(k: Codec, s: string, a: nat, v: Json, e: nat)
    requires At(s, a, '"') && v.Str? && ParseString(k, s, a) == Parsed(v.text, e)
    ensures Piece(s, a, e, s[a..e]) && StartsAtOnce(s[a..e]) && ParseValue(k, s[a..e], 0) == Parsed(v, e - a)
  {
    StringPiece(s, a, e);
    var d: int := 0 - a;
    StringTransport(k, s, s[a..e], d, a, e);
  }

  lemma TokenCompacts(k: Codec, s: string, a: nat, v: Json, e: nat)
    requires a < |s| && s[a] != '{' && s[a] != '[' && s[a] != '"' && !IsSpace(s[a])
    requires e == TokenEnd(s, a) != a && v.Leaf? && DecodeToken(k, s[a..e]) == Some(v.primitive)
    ensures Piece(s, a, e, s[a..e]) && StartsAtOnce(s[a..e]) && ParseValue(k, s[a..e], 0) == Parsed(v, e - a)
  {
    forall q | a <= q < e ensures IsTokenChar(s[q]) { assert s[a..e][q - a] in s[a..e]; }
    TokenPiece(s, a, e);
    var d: int := 0 - a;
    TokenEndTransport(s, s[a..e], d, a, e);
    assert s[a..e][0..e - a] == s[a..e];
  }

  lemma {:induction false} ContainerCompacts(k: Codec, s: string, a: nat, v: Json, e: nat) returns (w: string)
    requires a < |s| && (s[a] == '{' || s[a] == '[') && SkipSpace(s, a) == a && ParseValue(k, s, a) == Parsed(v, e)
    ensures Piece(s, a, e, w) && StartsAtOnce(w) && ParseValue(k, w, 0) == Parsed(v, |w|)
    decreases |s| - a, 0, 0
  {
    hide Piece, ParseMember, ParseMembers, ParseElements, SkipSpace;
    var p := SkipSpace(s, a + 1);
    var open := [s[a]];
    CharPiece(s, a);
    SpacePiece(s, a + 1);
    PiecesJoin(s, a, a + 1, p, open, "");
    assert open + "" == open;
    var rest: string;
    if At(s, p, '}') && s[a] == '{' {
      CharPiece(s, p);
      rest := "}";
    } else if At(s, p, ']') && s[a] == '[' {
      CharPiece(s, p);
      rest := "]";
    } else if s[a] == '{' {
      rest := MembersCompact(k, s, p, map[], v, e);
    } else {
      rest := ElementsCompact(k, s, p, [], v, e);
    }
    w := open + rest;
    PiecesJoin(s, a, p, e, open, rest);
    ContainerParses(k, open, rest, v);
  }

  /** An opening bracket in front of a rest that starts at once. */
  lemma ContainerParses(k: Codec, open: string, rest: string, v: Json)
    requires StartsAtOnce(rest)
    requires (open == "{" && ((rest == "}" && v == Obj(map[]))
          || (rest[0] == '"' && ParseMembers(k, rest, 0, map[]) == Parsed(v, |rest|))))
          || (open == "[" && ((rest == "]" && v == Arr([]))
                || (rest[0] != ']' && ParseElements(k, rest, 0, []) == Parsed(v, |rest|))))
    ensures ParseValue(k, open + rest, 0) == Parsed(v, |open + rest|)
  {
    hide ParseMember, ParseMembers, ParseElements;
    var w := open + rest;
    assert SkipSpace(w, 0) == 0 && SkipSpace(w, 1) == 1;
    if open == "{" && rest != "}" {
      MembersTransport(k, rest, w, 1, 0, map[], v, |rest|);
    } else if open == "[" && rest != "]" {
      ElementsTransport(k, rest, w, 1, 0, [], v, |rest|);
    }
  }

  lemma {:induction false} MemberCompacts(
      k: Codec, s: string, i: nat, taken: set<string>, m: Member, e: nat) returns (w: string)
    requires i <= |s| && ParseMember(k, s, i, taken) == Parsed(m, e)
    ensures Piece(s, i, e, w) && w != [] && w[0] == '"' && ParseMember(k, w, 0, taken) == Parsed(m, |w|)
    decreases |s| - i, 1
  {
    hide Piece, ParseValue, StringEnd, SkipSpace;
    var p := SkipSpace(s, i);
    var q := ParseString(k, s, p).end;
    var colon := SkipSpace(s, q);
    var start := SkipSpace(s, colon + 1);
    var literal := s[p..q];
    SpacePiece(s, i);
    StringPiece(s, p, q);
    PiecesJoin(s, i, p, q, "", literal);
    SpacePiece(s, q);
    PiecesJoin(s, i, q, colon, "" + literal, "");
    CharPiece(s, colon);
    PiecesJoin(s, i, colon, colon + 1, "" + literal + "", ":");
    SpacePiece(s, colon + 1);
    PiecesJoin(s, i, colon + 1, start, "" + literal + "" + ":", "");
    var wv := ValueCompacts(k, s, start, m.value, e);
    PiecesJoin(s, i, start, e, "" + literal + "" + ":" + "", wv);
    w := literal + ":" + wv;
    assert "" + literal + "" + ":" + "" + wv == w;
    MemberParses(k, s, p, q, taken, m, wv, w);
  }

  lemma MemberParses(k: Codec, s: string, p: nat, q: nat, taken: set<string>, m: Member, wv: string, w: string)
    requires At(s, p, '"') && ParseString(k, s, p) == Parsed(m.key, q) && m.key !in taken
    requires StartsAtOnce(wv) && ParseValue(k, wv, 0) == Parsed(m.value, |wv|)
    requires w == s[p..q] + ":" + wv
    ensures ParseMember(k, w, 0, taken) == Parsed(m, |w|)
  {
    hide ParseValue, ParseString, SkipSpace;
    var n := q - p;
    MemberSkips(s, p, q, wv, w);
    StringTransport(k, s, w, 0 - p, p, q);
    ValueTransport(k, wv, w, n + 1, 0, m.value, |wv|);
  }

  /** The parts of a compacted member follow each other without space. */
  lemma MemberSkips(s: string, p: nat, q: nat, wv: string, w: string)
    requires At(s, p, '"') && p < q <= |s| && StartsAtOnce(wv) && w == s[p..q] + ":" + wv
    ensures var n := q - p;
      SkipSpace(w, 0) == 0 && SkipSpace(w, n) == n && SkipSpace(w, n + 1) == n + 1 && At(w, n, ':')
  {
  }

  lemma {:induction false} MembersCompact(
      k: Codec, s: string, i: nat, acc: map<string, Json>, v: Json, e: nat) returns (w: string)
    requires i <= |s| && ParseMembers(k, s, i, acc) == Parsed(v, e)
    ensures Piece(s, i, e, w) && w != [] && w[0] == '"' && ParseMembers(k, w, 0, acc) == Parsed(v, |w|)
    decreases |s| - i, 2
  {
    hide Piece, ParseMember, SkipSpace;
    var Parsed(m, end) := ParseMember(k, s, i, acc.Keys);
    var f := SkipSpace(s, end);
    var wm := MemberCompacts(k, s, i, acc.Keys, m, end);
    SpacePiece(s, end);
    PiecesJoin(s, i, end, f, wm, "");
    assert wm + "" == wm;
    CharPiece(s, f);
    PiecesJoin(s, i, f, f + 1, wm, [s[f]]);
    if s[f] == '}' {
      w := wm + "}";
      MembersParse(k, wm, "}", acc, m, v);
    } else {
      var rest := MembersCompact(k, s, f + 1, acc[m.key := m.value], v, e);
      PiecesJoin(s, i, f + 1, e, wm + ",", rest);
      w := wm + "," + rest;
      assert w == wm + ("," + rest);
      MembersParse(k, wm, "," + rest, acc, m, v);
    }
  }

  lemma MembersParse(k: Codec, wm: string, rest: string, acc: map<string, Json>, m: Member, v: Json)
    requires wm != [] && ParseMember(k, wm, 0, acc.Keys) == Parsed(m, |wm|)
    requires (rest == "}" && v == Obj(acc[m.key := m.value]))
          || (rest != [] && rest[0] == ',' && ParseMembers(k, rest[1..], 0, acc[m.key := m.value]) ==
                Parsed(v, |rest| - 1))
    ensures ParseMembers(k, wm + rest, 0, acc) == Parsed(v, |wm + rest|)
  {
    hide ParseMember;
    var w := wm + rest;
    assert w[|wm|] == rest[0];
    MemberTransport(k, wm, w, 0, 0, acc.Keys, m, |wm|);
    assert SkipSpace(w, |wm|) == |wm|;
    if rest[0] == ',' {
      MembersTransport(k, rest[1..], w, |wm| + 1, 0, acc[m.key := m.value], v, |rest| - 1);
    }
  }

  lemma {:induction false} ElementsCompact(
      k: Codec, s: string, i: nat, acc: seq<Json>, v: Json, e: nat) returns (w: string)
    requires i <= |s| && ParseElements(k, s, i, acc) == Parsed(v, e)
    ensures Piece(s, i, e, w) && StartsAtOnce(w) && w[0] != ']' && ParseElements(k, w, 0, acc) == Parsed(v, |w|)
    decreases |s| - i, 1
  {
    hide Piece, ParseValue, SkipSpace;
    var Parsed(x, end) := ParseValue(k, s, i);
    var f := SkipSpace(s, end);
    var wx := ValueCompacts(k, s, i, x, end);
    assert wx[0] != ']' by { NoBracket(k, wx, x); }
    SpacePiece(s, end);
    PiecesJoin(s, i, end, f, wx, "");
    assert wx + "" == wx;
    CharPiece(s, f);
    PiecesJoin(s, i, f, f + 1, wx, [s[f]]);
    if s[f] == ']' {
      w := wx + "]";
      ElementsParse(k, wx, "]", acc, x, v);
    } else {
      var rest := ElementsCompact(k, s, f + 1, acc + [x], v, e);
      PiecesJoin(s, i, f + 1, e, wx + ",", rest);
      w := wx + "," + rest;
      assert w == wx + ("," + rest);
      ElementsParse(k, wx, "," + rest, acc, x, v);
    }
  }

  lemma NoBracket(k: Codec, w: string, v: Json)
    requires StartsAtOnce(w) && ParseValue(k, w, 0) == Parsed(v, |w|)
    ensures w[0] != ']'
  {
    hide ParseMember, ParseMembers, ParseElements, ParseString;
    assert SkipSpace(w, 0) == 0;
  }

  lemma ElementsParse(k: Codec, wx: string, rest: string, acc: seq<Json>, x: Json, v: Json)
    requires wx != [] && ParseValue(k, wx, 0) == Parsed(x, |wx|)
    requires (rest == "]" && v == Arr(acc + [x]))
          || (rest != [] && rest[0] == ',' && ParseElements(k, rest[1..], 0, acc + [x]) == Parsed(v, |rest| - 1))
    ensures ParseElements(k, wx + rest, 0, acc) == Parsed(v, |wx + rest|)
  {
    hide ParseValue;
    var w := wx + rest;
    assert w[|wx|] == rest[0];
    ValueTransport(k, wx, w, 0, 0, x, |wx|);
    assert SkipSpace(w, |wx|) == |wx|;
    if rest[0] == ',' {
      ElementsTransport(k, rest[1..], w, |wx| + 1, 0, acc + [x], v, |rest| - 1);
    }
  }

  /** Compacting any document the parser accepts yields a document with the same value and no whitespace outside
      strings. */
  lemma CompactPreservesMeaning(k: Codec, s: string, v: Json)
    requires Parse(k, s) == Some(v)
    ensures Parse(k, Compact(Outside, s)) == Some(v) && NoOuterSpace(Outside, Compact(Outside, s))
  {
    hide ParseValue, Compact;
    var e := ParseValue(k, s, 0).end;
    var w := ValueCompacts(k, s, 0, v, e);
    SpacePiece(s, e);
    PiecesJoin(s, 0, e, |s|, w, "");
    assert s[0..|s|] == s && w + "" == w;
    CompactHasNoOuterSpace(Outside, s);
  }
}
