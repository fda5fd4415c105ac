/** The parser reads nothing outside the text of a value, so a value parses alike wherever that text stands. */
module JsonTransport {
  import opened Base
  import opened StrictJson

  /** The characters of s from lo to hi stand in t, moved by d. */
  ghost predicate Same(s: string, t: string, d: int, lo: nat, hi: nat) {
    lo <= hi <= |s| && 0 <= lo + d && hi + d <= |t| && forall q :: lo <= q < hi ==> s[q] == t[q + d]
  }

  /** A primitive token needs something to end it. */
  predicate Bounded(t: string, j: nat) {
    j >= |t| || IsDelimiter(t[j])
  }

  lemma {:induction false} SkipSpaceTransport(s: string, t: string, d: int, i: nat, hi: nat)
    requires Same(s, t, d, i, hi) && SkipSpace(s, i) < hi
    ensures SkipSpace(t, i + d) == SkipSpace(s, i) + d
    decreases hi - i
  {
    if IsSpace(s[i]) { SkipSpaceTransport(s, t, d, i + 1, hi); }
  }

  lemma {:induction false} StringEndTransport(s: string, t: string, d: int, i: nat, hi: nat)
    requires Same(s, t, d, i, hi) && StringEnd(s, i).Some? && StringEnd(s, i).value <= hi
    ensures StringEnd(t, i + d) == Some(StringEnd(s, i).value + d)
    decreases hi - i
  {
    if s[i] == '"' {
    } else if s[i] == '\\' {
      StringEndTransport(s, t, d, i + 2, hi);
    } else {
      StringEndTransport(s, t, d, i + 1, hi);
    }
  }

  lemma {:induction false} TokenEndTransport(s: string, t: string, d: int, i: nat, hi: nat)
    requires Same(s, t, d, i, hi) && TokenEnd(s, i) == hi && Bounded(t, hi + d)
    ensures TokenEnd(t, i + d) == hi + d
    decreases hi - i
  {
    if i < hi { TokenEndTransport(s, t, d, i + 1, hi); }
  }

  lemma SameSlice(s: string, t: string, d: int, i: nat, hi: nat)
    requires Same(s, t, d, i, hi)
    ensures s[i..hi] == t[i + d..hi + d]
  {
    forall q | 0 <= q < hi - i ensures s[i..hi][q] == t[i + d..hi + d][q] { assert s[i + q] == t[i + q + d]; }
  }

  lemma StringTransport(k: Codec, s: string, t: string, d: int, i: nat, hi: nat)
    requires Same(s, t, d, i, hi) && At(s, i, '"') && ParseString(k, s, i).Parsed? && ParseString(k, s, i).end <= hi
    ensures At(t, i + d, '"') && ParseString(k, t, i + d) ==
        Parsed(ParseString(k, s, i).value, ParseString(k, s, i).end + d)
  {
    StringEndTransport(s, t, d, i + 1, hi);
    SameSlice(s, t, d, i, ParseString(k, s, i).end);
  }

  lemma ValueNotEmpty(k: Codec, s: string, i: nat, v: Json, e: nat)
    requires i <= |s| && ParseValue(k, s, i) == Parsed(v, e)
    ensures SkipSpace(s, i) < e
  {
    hide ParseMember, ParseMembers, ParseElements, SkipSpace, IsDelimiter;
  }

  /** A value parses alike in any text that holds it, provided a primitive is ended there too. */
  lemma {:induction false} ValueTransport(k: Codec, s: string, t: string, d: int, i: nat, v: Json, e: nat)
    requires i <= |s| && ParseValue(k, s, i) == Parsed(v, e)
    requires Same(s, t, d, i, e) && Bounded(t, e + d)
    ensures ParseValue(k, t, i + d) == Parsed(v, e + d)
    decreases |s| - i, 0
  {
    hide ParseMember, ParseMembers, ParseElements, ParseString, SkipSpace, IsDelimiter;
    var a := SkipSpace(s, i);
    ValueNotEmpty(k, s, i, v, e);
    SkipSpaceTransport(s, t, d, i, e);
    if s[a] == '{' || s[a] == '[' {
      var p := SkipSpace(s, a + 1);
      SkipSpaceTransport(s, t, d, a + 1, e);
      if s[a] == '{' && s[p] != '}' {
        MembersTransport(k, s, t, d, p, map[], v, e);
      } else if s[a] == '[' && s[p] != ']' {
        ElementsTransport(k, s, t, d, p, [], v, e);
      }
    } else if s[a] == '"' {
      StringTransport(k, s, t, d, a, e);
    } else {
      TokenEndTransport(s, t, d, a, e);
      SameSlice(s, t, d, a, e);
    }
  }

  lemma {:induction false} MemberTransport(
      k: Codec, s: string, t: string, d: int, i: nat, taken: set<string>, m: Member, e: nat)
    requires i <= |s| && ParseMember(k, s, i, taken) == Parsed(m, e)
    requires Same(s, t, d, i, e) && Bounded(t, e + d)
    ensures ParseMember(k, t, i + d, taken) == Parsed(m, e + d)
    decreases |s| - i, 1
  {
    hide ParseMembers, ParseValue, ParseElements, ParseString, SkipSpace, IsDelimiter;
    var p := SkipSpace(s, i);
    SkipSpaceTransport(s, t, d, i, e);
    StringTransport(k, s, t, d, p, e);
    var q := ParseString(k, s, p).end;
    var colon := SkipSpace(s, q);
    SkipSpaceTransport(s, t, d, q, e);
    SkipSpaceTransport(s, t, d, colon + 1, e);
    ValueTransport(k, s, t, d, SkipSpace(s, colon + 1), m.value, e);
  }

  /** After a value the text goes on with a space or a separator, either of which ends a primitive. */
  lemma AfterIsBounded(s: string, t: string, d: int, e: nat, hi: nat)
    requires Same(s, t, d, e, hi) && SkipSpace(s, e) < hi && s[SkipSpace(s, e)] in {',', ']', '}'}
    ensures Bounded(t, e + d)
  {
    assert s[e] == t[e + d];
  }

  lemma {:induction false} MembersTransport(
      k: Codec, s: string, t: string, d: int, i: nat, acc: map<string, Json>, v: Json, hi: nat)
    requires i <= |s| && ParseMembers(k, s, i, acc) == Parsed(v, hi)
    requires Same(s, t, d, i, hi)
    ensures ParseMembers(k, t, i + d, acc) == Parsed(v, hi + d)
    decreases |s| - i, 2
  {
    hide ParseMember, ParseValue, ParseElements, SkipSpace, IsDelimiter;
    var Parsed(m, e) := ParseMember(k, s, i, acc.Keys);
    var f := SkipSpace(s, e);
    assert f < hi;
    AfterIsBounded(s, t, d, e, hi);
    MemberTransport(k, s, t, d, i, acc.Keys, m, e);
    SkipSpaceTransport(s, t, d, e, hi);
    if s[f] == ',' {
      MembersTransport(k, s, t, d, f + 1, acc[m.key := m.value], v, hi);
    }
  }

  lemma {:induction false} ElementsTransport(
      k: Codec, s: string, t: string, d: int, i: nat, acc: seq<Json>, v: Json, hi: nat)
    requires i <= |s| && ParseElements(k, s, i, acc) == Parsed(v, hi)
    requires Same(s, t, d, i, hi)
    ensures ParseElements(k, t, i + d, acc) == Parsed(v, hi + d)
    decreases |s| - i, 1
  {
    hide ParseMember, ParseMembers, ParseValue, SkipSpace, IsDelimiter;
    var Parsed(x, e) := ParseValue(k, s, i);
    var f := SkipSpace(s, e);
    assert f < hi;
    AfterIsBounded(s, t, d, e, hi);
    ValueTransport(k, s, t, d, i, x, e);
    SkipSpaceTransport(s, t, d, e, hi);
    if s[f] == ',' {
      ElementsTransport(k, s, t, d, f + 1, acc + [x], v, hi);
    }
  }

  /** The text of a value, cut out of a document, is a document with that value. */
  lemma SliceParses(k: Codec, s: string, i: nat, v: Json, e: nat)
    requires i <= |s| && ParseValue(k, s, i) == Parsed(v, e)
    ensures Parse(k, s[i..e]) == Some(v)
  {
    var d: int := 0 - i;
    ValueTransport(k, s, s[i..e], d, i, v, e);
  }
}
