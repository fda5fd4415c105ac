/**
 JSON text as RFC 8259 writes it: a concrete syntax tree keeps the white space
 between tokens, so that reading a tree off as text and giving it a meaning need
 no parser.  The strict parser accepts exactly the texts of well-formed trees and
 gives each the meaning of its tree.
 */
module JsonGrammar {
  import opened Base
  import opened StrictJson

  // ---- Tokens ----------------------------------------------------------------------------

  /** Section 2: the four characters that may stand around any token. */
  predicate Blank(w: string) {
    forall i :: 0 <= i < |w| ==> w[i] == ' ' || w[i] == '\t' || w[i] == '\n' || w[i] == '\r'
  }

  /** Sections 3 and 6: the three names, and numbers in their four parts. */
  datatype Token = Name(name: string) | Number(sign: string, integer: string, fraction: string, exponent: string)

  predicate Digits(s: string) {
    |s| > 0 && forall i :: 0 <= i < |s| ==> '0' <= s[i] <= '9'
  }

  predicate ValidToken(t: Token) {
    match t
    case Name(name) => name == "null" || name == "true" || name == "false"
    case Number(sign, integer, fraction, exponent) =>
      && (sign == "" || sign == "-")
      && Digits(integer) && (integer[0] == '0' ==> |integer| == 1)
      && (fraction == "" || (fraction[0] == '.' && Digits(fraction[1..])))
      && (exponent == "" ||
          ((exponent[0] == 'e' || exponent[0] == 'E') &&
           (Digits(exponent[1..]) || (|exponent| > 1 && (exponent[1] == '+' || exponent[1] == '-')
                 && Digits(exponent[2..])))))
  }

  function TokenText(t: Token): string {
    match t
    case Name(name) => name
    case Number(sign, integer, fraction, exponent) => sign + integer + fraction + exponent
  }

  /** Section 7: no bare quote, and a backslash takes the next character with it. */
  predicate Body(b: string) {
    b == "" || (b[0] != '"' && (if b[0] == '\\' then |b| >= 2 && Body(b[2..]) else Body(b[1..])))
  }

  function Literal(body: string): string {
    ['"'] + body + ['"']
  }

  // ---- Trees -----------------------------------------------------------------------------

  /** `gap` is the white space inside empty brackets. */
  datatype Syntax =
    | Primitive(token: Token)
    | Quoted(body: string)
    | Array(gap: string, items: seq<Item>)
    | Object(gap: string, members: seq<Pair>)

  datatype Item = Item(before: string, value: Syntax, after: string)

  datatype Pair = Pair(before: string, key: string, beforeColon: string, afterColon: string, value: Syntax,
        after: string)

  function Text(x: Syntax): string
    decreases x
  {
    match x
    case Primitive(token) => TokenText(token)
    case Quoted(body) => Literal(body)
    case Array(gap, items) => "[" + (if items == [] then gap else ItemsText(items)) + "]"
    case Object(gap, members) => "{" + (if members == [] then gap else PairsText(members)) + "}"
  }

  function ItemsText(items: seq<Item>): string
    requires items != []
    decreases items
  {
    var first := items[0].before + Text(items[0].value) + items[0].after;
    if |items| == 1 then first else first + "," + ItemsText(items[1..])
  }

  function PairText(p: Pair): string
    decreases p, 0
  {
    p.before + Literal(p.key) + p.beforeColon + ":" + p.afterColon + Text(p.value) + p.after
  }

  function PairsText(members: seq<Pair>): string
    requires members != []
    decreases members
  {
    if |members| == 1 then PairText(members[0]) else PairText(members[0]) + "," + PairsText(members[1..])
  }

  /** Every token is valid and decodes, and no two members of an object have keys that decode alike. */
  predicate Valid(k: Codec, x: Syntax)
    decreases x
  {
    match x
    case Primitive(token) => ValidToken(token) && k.token(TokenText(token)).Some?
    case Quoted(body) => ValidLiteral(k, body)
    case Array(gap, items) =>
      Blank(gap) && forall i :: 0 <= i < |items| ==> ValidItem(k, items[i])
    case Object(gap, members) =>
      && Blank(gap) && (forall i :: 0 <= i < |members| ==> ValidPair(k, members[i]))
      && (forall i, j :: 0 <= i < j < |members| ==>
            k.literal(Literal(members[i].key)) != k.literal(Literal(members[j].key)))
  }

  predicate ValidLiteral(k: Codec, body: string) {
    Body(body) && k.literal(Literal(body)).Some?
  }

  predicate ValidItem(k: Codec, x: Item)
    decreases x
  {
    Blank(x.before) && Blank(x.after) && Valid(k, x.value)
  }

  predicate ValidPair(k: Codec, p: Pair)
    decreases p
  {
    && Blank(p.before) && Blank(p.beforeColon) && Blank(p.afterColon) && Blank(p.after)
    && ValidLiteral(k, p.key) && Valid(k, p.value)
  }

  function KeyOf(k: Codec, p: Pair): string
    requires ValidPair(k, p)
  {
    k.literal(Literal(p.key)).value
  }

  function Meaning(k: Codec, x: Syntax): Json
    requires Valid(k, x)
    decreases x
  {
    match x
    case Primitive(token) => Leaf(k.token(TokenText(token)).value)
    case Quoted(body) => Str(k.literal(Literal(body)).value)
    case Array(_, items) => Arr(ItemMeanings(k, items))
    case Object(_, members) => Obj(PairMeanings(k, members))
  }

  function ItemMeanings(k: Codec, items: seq<Item>): seq<Json>
    requires forall i :: 0 <= i < |items| ==> ValidItem(k, items[i])
    decreases items
  {
    if items == [] then []
    else
      var last := items[|items| - 1];
      assert ValidItem(k, last);
      ItemMeanings(k, items[..|items| - 1]) + [Meaning(k, last.value)]
  }

  /** Later members are entered over earlier ones; with distinct keys that makes no difference. */
  function PairMeanings(k: Codec, members: seq<Pair>): map<string, Json>
    requires forall i :: 0 <= i < |members| ==> ValidPair(k, members[i])
    decreases members
  {
    if members == [] then map[]
    else
      var last := members[|members| - 1];
      assert ValidPair(k, last);
      PairMeanings(k, members[..|members| - 1])[KeyOf(k, last) := Meaning(k, last.value)]
  }

  // ---- Text in place ---------------------------------------------------------------------

  /** The text w stands in s at position i. */
  predicate Stands(s: string, i: nat, w: string) {
    i + |w| <= |s| && s[i..i + |w|] == w
  }

  lemma StandsJoin(s: string, i: nat, a: string, b: string)
    ensures Stands(s, i, a + b) <==> Stands(s, i, a) && Stands(s, i + |a|, b)
  {
    if Stands(s, i, a + b) {
      assert s[i..i + |a|] == s[i..i + |a + b|][..|a|] == a;
      assert s[i + |a|..i + |a| + |b|] == s[i..i + |a + b|][|a|..] == b;
    }
    if Stands(s, i, a) && Stands(s, i + |a|, b) {
      assert s[i..i + |a + b|] == s[i..i + |a|] + s[i + |a|..i + |a| + |b|];
    }
  }

  /** What may follow a value: the end, white space, a comma or a closing bracket. */
  predicate Ends(s: string, e: nat) {
    e >= |s| || s[e] == ',' || s[e] == ']' || s[e] == '}' || Blank([s[e]])
  }

  lemma BlankIsSpace(c: char)
    ensures Blank([c]) <==> IsSpace(c)
  {
    assert [c][0] == c;
  }

  lemma {:induction false} SkipsBlank(s: string, i: nat, w: string)
    requires Stands(s, i, w) && Blank(w) && (i + |w| < |s| ==> !Blank([s[i + |w|]]))
    ensures SkipSpace(s, i) == i + |w|
    decreases |w|
  {
    if i < |s| { BlankIsSpace(s[i]); }
    if w != [] {
      assert s[i] == s[i..i + |w|][0] == w[0];
      assert w == [w[0]] + w[1..];
      StandsJoin(s, i, [w[0]], w[1..]);
      SkipsBlank(s, i + 1, w[1..]);
    }
  }

  lemma {:induction false} SkippedIsBlank(s: string, i: nat)
    requires i <= |s|
    ensures Blank(s[i..SkipSpace(s, i)])
    ensures SkipSpace(s, i) < |s| ==> !Blank([s[SkipSpace(s, i)]])
    decreases |s| - i
  {
    if i < |s| {
      BlankIsSpace(s[i]);
      if IsSpace(s[i]) {
        SkippedIsBlank(s, i + 1);
        assert s[i..SkipSpace(s, i)] == [s[i]] + s[i + 1..SkipSpace(s, i + 1)];
      }
    }
  }

  // ---- Tokens in place -------------------------------------------------------------------

  predicate AllTokenChars(w: string) {
    forall i :: 0 <= i < |w| ==> IsTokenChar(w[i])
  }

  lemma DigitsAreTokenChars(head: string, digits: string)
    requires AllTokenChars(head) && Digits(digits)
    ensures AllTokenChars(head + digits)
  {
  }

  lemma ExponentChars(e: string)
    requires e != "" && (e[0] == 'e' || e[0] == 'E')
    requires Digits(e[1..]) || (|e| > 1 && (e[1] == '+' || e[1] == '-') && Digits(e[2..]))
    ensures AllTokenChars(e)
  {
    if Digits(e[1..]) {
      assert e == e[..1] + e[1..];
      DigitsAreTokenChars(e[..1], e[1..]);
    } else {
      assert e == e[..2] + e[2..];
      DigitsAreTokenChars(e[..2], e[2..]);
    }
  }

  lemma FourParts(a: string, b: string, c: string, d: string)
    requires AllTokenChars(a) && AllTokenChars(b) && AllTokenChars(c) && AllTokenChars(d)
    ensures AllTokenChars(a + b + c + d)
  {
    hide IsTokenChar;
  }

  lemma TokenChars(t: Token)
    requires ValidToken(t)
    ensures |TokenText(t)| > 0 && AllTokenChars(TokenText(t))
  {
    if t.Number? {
      DigitsAreTokenChars("", t.integer);
      assert "" + t.integer == t.integer;
      if t.fraction != "" {
        assert t.fraction == t.fraction[..1] + t.fraction[1..];
        DigitsAreTokenChars(t.fraction[..1], t.fraction[1..]);
      }
      if t.exponent != "" { ExponentChars(t.exponent); }
      FourParts(t.sign, t.integer, t.fraction, t.exponent);
      hide IsTokenChar;
    }
  }

  lemma {:induction false} TokenEndsAt(s: string, i: nat, w: string)
    requires Stands(s, i, w) && AllTokenChars(w) && Ends(s, i + |w|)
    ensures TokenEnd(s, i) == i + |w|
    decreases |w|
  {
    if w == [] {
      if i < |s| { BlankIsSpace(s[i]); }
    } else {
      assert s[i] == s[i..i + |w|][0] == w[0];
      assert w == [w[0]] + w[1..];
      StandsJoin(s, i, [w[0]], w[1..]);
      TokenEndsAt(s, i + 1, w[1..]);
    }
  }

  lemma FirstStands(s: string, i: nat, w: string)
    requires Stands(s, i, w) && w != []
    ensures i < |s| && s[i] == w[0]
  {
    assert s[i] == s[i..i + |w|][0];
  }

  lemma {:induction false} BodyEndsAt(s: string, i: nat, b: string)
    requires Stands(s, i, b + ['"']) && Body(b)
    ensures StringEnd(s, i) == Some(i + |b| + 1)
    decreases |b|
  {
    hide Stands;
    var w := b + ['"'];
    FirstStands(s, i, w);
    if b != [] {
      var n := if b[0] == '\\' then 2 else 1;
      assert w == b[..n] + (b[n..] + ['"']);
      StandsJoin(s, i, b[..n], b[n..] + ['"']);
      BodyEndsAt(s, i + n, b[n..]);
    }
  }

  lemma {:induction false} BodyUpTo(s: string, i: nat, e: nat)
    requires StringEnd(s, i) == Some(e)
    ensures i < e <= |s| && Body(s[i..e - 1]) && s[e - 1] == '"'
    decreases |s| - i
  {
    if s[i] == '"' {
      assert s[i..e - 1] == [];
    } else {
      var n := if s[i] == '\\' then 2 else 1;
      BodyUpTo(s, i + n, e);
      assert s[i..e - 1][n..] == s[i + n..e - 1];
    }
  }

  lemma LiteralParses(k: Codec, s: string, i: nat, body: string)
    requires Stands(s, i, Literal(body)) && ValidLiteral(k, body)
    ensures At(s, i, '"') && ParseString(k, s, i) == Parsed(k.literal(Literal(body)).value, i + |Literal(body)|)
  {
    assert Literal(body) == ['"'] + (body + ['"']);
    StandsJoin(s, i, ['"'], body + ['"']);
    assert s[i] == s[i..i + 1][0];
    BodyEndsAt(s, i + 1, body);
  }

  // ---- Every text of a valid tree is accepted --------------------------------------------

  lemma TextStarts(k: Codec, x: Syntax)
    requires Valid(k, x)
    ensures var w := Text(x); |w| > 0 && !Blank([w[0]]) && w[0] != ',' && w[0] != ']' && w[0] != '}'
  {
    if x.Primitive? { TokenChars(x.token); }
    BlankIsSpace(Text(x)[0]);
  }

  /** Parsing starts at the first character that is not white space. */
  lemma ValueSkips(k: Codec, s: string, i: nat)
    requires i <= |s|
    ensures ParseValue(k, s, i) == ParseValue(k, s, SkipSpace(s, i))
  {
    SkipSpaceStops(s, i);
    hide ParseMembers, ParseElements, ParseString, SkipSpace, TokenEnd;
  }

  lemma ElementsSkip(k: Codec, s: string, i: nat, acc: seq<Json>)
    requires i <= |s|
    ensures ParseElements(k, s, i, acc) == ParseElements(k, s, SkipSpace(s, i), acc)
  {
    ValueSkips(k, s, i);
    hide ParseValue, SkipSpace;
  }

  lemma MembersSkip(k: Codec, s: string, i: nat, acc: map<string, Json>)
    requires i <= |s|
    ensures ParseMembers(k, s, i, acc) == ParseMembers(k, s, SkipSpace(s, i), acc)
  {
    SkipSpaceStops(s, i);
    hide ParseValue, ParseString, SkipSpace;
  }

  /** The end of a value in place: white space w and then a separator. */
  lemma SeparatorFollows(s: string, e: nat, w: string, sep: char)
    requires Stands(s, e, w + [sep]) && Blank(w) && (sep == ',' || sep == ']' || sep == '}' || sep == ':' || sep == '"')
    ensures SkipSpace(s, e) == e + |w| && At(s, e + |w|, sep) && (sep != ':' && sep != '"' ==> Ends(s, e))
  {
    StandsJoin(s, e, w, [sep]);
    assert s[e + |w|] == s[e + |w|..e + |w| + 1][0] == sep;
    BlankIsSpace(sep);
    SkipsBlank(s, e, w);
    if w != [] {
      assert s[e] == s[e..e + |w|][0] == w[0];
      assert Blank([s[e]]);
    }
  }

  /** White space and then a value. */
  lemma ValueAfterBlank(k: Codec, x: Syntax, s: string, i: nat, w: string)
    requires Valid(k, x) && Blank(w) && Stands(s, i, w + Text(x))
    ensures SkipSpace(s, i) == i + |w| && Stands(s, i + |w|, Text(x))
  {
    StandsJoin(s, i, w, Text(x));
    TextStarts(k, x);
    assert s[i + |w|] == s[i + |w|..i + |w| + |Text(x)|][0] == Text(x)[0];
    SkipsBlank(s, i, w);
  }

  lemma {:induction false} ValueParses(k: Codec, x: Syntax, s: string, i: nat)
    requires Valid(k, x) && Stands(s, i, Text(x)) && Ends(s, i + |Text(x)|)
    ensures ParseValue(k, s, i) == Parsed(Meaning(k, x), i + |Text(x)|)
    decreases x, 1
  {
    TextStarts(k, x);
    assert s[i] == s[i..i + |Text(x)|][0] == Text(x)[0];
    SkipsBlank(s, i, "");
    match x
    case Primitive(token) =>
      TokenChars(token);
      TokenEndsAt(s, i, TokenText(token));
      hide ParseMembers, ParseElements, ValidToken;
    case Quoted(body) =>
      LiteralParses(k, s, i, body);
      hide ParseMembers, ParseElements, ParseString;
    case Array(_, _) => ArrayParses(k, x, s, i);
    case Object(_, _) => ObjectParses(k, x, s, i);
  }

  /** A bracket opens a container, which is empty if the next token closes it. */
  lemma OpenContainer(k: Codec, s: string, i: nat)
    requires i < |s| && SkipSpace(s, i) == i
    ensures var p := SkipSpace(s, i + 1);
      && (s[i] == '[' ==>
            ParseValue(k, s, i) == if At(s, p, ']') then Parsed(Arr([]), p + 1) else ParseElements(k, s, p, []))
      && (s[i] == '{' ==>
            ParseValue(k, s, i) == if At(s, p, '}') then Parsed(Obj(map[]), p + 1) else ParseMembers(k, s, p, map[]))
  {
    hide ParseMembers, ParseElements, SkipSpace;
  }

  lemma {:induction false} ArrayParses(k: Codec, x: Syntax, s: string, i: nat)
    requires x.Array? && Valid(k, x) && Stands(s, i, Text(x)) && SkipSpace(s, i) == i && At(s, i, '[')
    ensures ParseValue(k, s, i) == Parsed(Meaning(k, x), i + |Text(x)|)
    decreases x, 0
  {
    hide ParseValue, ParseElements, SkipSpace, ItemsText, Blank, Stands;
    var inner := if x.items == [] then x.gap else ItemsText(x.items);
    assert Text(x) == "[" + (inner + "]");
    StandsJoin(s, i, "[", inner + "]");
    OpenContainer(k, s, i);
    if x.items == [] {
      SeparatorFollows(s, i + 1, x.gap, ']');
      NoItems(k);
    } else {
      assert x.items[0..] == x.items && x.items[..0] == [];
      NoItems(k);
      ItemsParse(k, x.items, 0, s, i + 1);
      NotAtBracket(k, x.items[0], s, i + 1, x.items);
      ElementsSkip(k, s, i + 1, []);
    }
  }

  /** The first item does not start with a closing bracket. */
  lemma NotAtBracket(k: Codec, x: Item, s: string, i: nat, items: seq<Item>)
    requires items != [] && x == items[0] && ValidItem(k, x) && Stands(s, i, ItemsText(items) + "]")
    ensures SkipSpace(s, i) < |s| && s[SkipSpace(s, i)] != ']'
  {
    var rest := ItemsText(items)[|x.before + Text(x.value)|..] + "]";
    assert ItemsText(items) + "]" == x.before + Text(x.value) + rest;
    StandsJoin(s, i, x.before + Text(x.value), rest);
    ValueAfterBlank(k, x.value, s, i, x.before);
    TextStarts(k, x.value);
    assert s[i + |x.before|] == s[i + |x.before|..i + |x.before| + |Text(x.value)|][0];
  }

  /** One item and the separator after it. */
  lemma {:induction false} ItemParses(k: Codec, x: Item, s: string, i: nat, sep: char)
    requires ValidItem(k, x) && Stands(s, i, x.before + Text(x.value) + x.after + [sep]) && (sep == ',' || sep == ']')
    ensures var e := i + |x.before + Text(x.value)|;
      && ParseValue(k, s, i) == Parsed(Meaning(k, x.value), e)
      && SkipSpace(s, e) == e + |x.after| && At(s, e + |x.after|, sep)
    decreases x, 0
  {
    hide Text, ParseValue, SkipSpace, Meaning;
    var e := i + |x.before + Text(x.value)|;
    assert x.before + Text(x.value) + x.after + [sep] == x.before + Text(x.value) + (x.after + [sep]);
    StandsJoin(s, i, x.before + Text(x.value), x.after + [sep]);
    SeparatorFollows(s, e, x.after, sep);
    ValueAfterBlank(k, x.value, s, i, x.before);
    ValueParses(k, x.value, s, i + |x.before|);
    ValueSkips(k, s, i);
  }

  lemma ItemsTextStep(items: seq<Item>, n: nat)
    requires n < |items|
    ensures var x := items[n];
      ItemsText(items[n..]) ==
        x.before + Text(x.value) + x.after + (if n + 1 == |items| then "" else "," + ItemsText(items[n + 1..]))
  {
    assert items[n..][0] == items[n] && items[n..][1..] == items[n + 1..];
  }

  lemma ItemMeaningsStep(k: Codec, items: seq<Item>, n: nat)
    requires n < |items| && forall j :: 0 <= j < |items| ==> ValidItem(k, items[j])
    ensures ValidItem(k, items[n]) && Valid(k, items[n].value)
    ensures ItemMeanings(k, items[..n + 1]) == ItemMeanings(k, items[..n]) + [Meaning(k, items[n].value)]
  {
    assert ValidItem(k, items[n]);
    assert items[..n + 1][..n] == items[..n] && items[..n + 1][n] == items[n];
    hide Meaning;
  }

  lemma ElementsUnfold(k: Codec, s: string, i: nat, acc: seq<Json>, v: Json, e: nat, f: nat)
    requires i <= |s| && ParseValue(k, s, i) == Parsed(v, e) && SkipSpace(s, e) == f
    ensures At(s, f, ']') ==> ParseElements(k, s, i, acc) == Parsed(Arr(acc + [v]), f + 1)
    ensures At(s, f, ',') ==> ParseElements(k, s, i, acc) == ParseElements(k, s, f + 1, acc + [v])
  {
    hide ParseValue, SkipSpace;
  }

  lemma {:induction false} ItemsParse(k: Codec, items: seq<Item>, n: nat, s: string, i: nat)
    requires (forall j :: 0 <= j < |items| ==> ValidItem(k, items[j])) && n < |items|
    requires Stands(s, i, ItemsText(items[n..]) + "]")
    ensures ParseElements(k, s, i, ItemMeanings(k, items[..n])) ==
              Parsed(Arr(ItemMeanings(k, items)), i + |ItemsText(items[n..])| + 1)
    decreases items, |items| - n
  {
    hide Text, ParseValue, ParseElements, SkipSpace, ItemsText, ItemMeanings, Meaning, ValidItem, Stands;
    var x, last := items[n], n + 1 == |items|;
    var first := x.before + Text(x.value) + x.after;
    var sep := if last then ']' else ',';
    var rest := if last then "" else ItemsText(items[n + 1..]) + "]";
    ItemsTextStep(items, n);
    assert ItemsText(items[n..]) + "]" == first + [sep] + rest;
    StandsJoin(s, i, first + [sep], rest);
    assert ValidItem(k, x);
    ItemParses(k, x, s, i, sep);
    ItemMeaningsStep(k, items, n);
    ElementsUnfold(k, s, i, ItemMeanings(k, items[..n]), Meaning(k, x.value), i + |x.before + Text(x.value)|,
          i + |first|);
    if last {
      assert items[..n + 1] == items;
    } else {
      ItemsParse(k, items, n + 1, s, i + |first| + 1);
    }
  }

  /** No earlier member has the key of member n. */
  ghost predicate Fresh(k: Codec, members: seq<Pair>, n: nat)
    requires n < |members| && forall i :: 0 <= i < |members| ==> ValidPair(k, members[i])
  {
    forall i :: 0 <= i < n ==> KeyOf(k, members[i]) != KeyOf(k, members[n])
  }

  lemma PairMeaningsStep(k: Codec, members: seq<Pair>, n: nat)
    requires n < |members| && forall j :: 0 <= j < |members| ==> ValidPair(k, members[j])
    ensures ValidPair(k, members[n]) && Valid(k, members[n].value)
    ensures PairMeanings(k, members[..n + 1]) ==
              PairMeanings(k, members[..n])[KeyOf(k, members[n]) := Meaning(k, members[n].value)]
  {
    assert ValidPair(k, members[n]);
    assert members[..n + 1][..n] == members[..n] && members[..n + 1][n] == members[n];
    hide Meaning, KeyOf;
  }

  lemma {:induction false} KeyAbsent(k: Codec, members: seq<Pair>, key: string)
    requires forall i :: 0 <= i < |members| ==> ValidPair(k, members[i]) && KeyOf(k, members[i]) != key
    ensures key !in PairMeanings(k, members)
    decreases |members|
  {
    if members != [] {
      hide PairMeanings, ValidPair, KeyOf;
      var n := |members| - 1;
      PairMeaningsStep(k, members, n);
      assert members[..n + 1] == members;
      KeyAbsent(k, members[..n], key);
    }
  }

  lemma {:induction false} KeyPresent(k: Codec, members: seq<Pair>, i: nat)
    requires i < |members| && forall j :: 0 <= j < |members| ==> ValidPair(k, members[j])
    ensures KeyOf(k, members[i]) in PairMeanings(k, members)
    decreases |members|
  {
    hide PairMeanings, ValidPair, KeyOf;
    var n := |members| - 1;
    PairMeaningsStep(k, members, n);
    assert members[..n + 1] == members;
    if i < n {
      KeyPresent(k, members[..n], i);
      assert members[..n][i] == members[i];
    }
  }

  lemma {:induction false} ObjectParses(k: Codec, x: Syntax, s: string, i: nat)
    requires x.Object? && Valid(k, x) && Stands(s, i, Text(x)) && SkipSpace(s, i) == i && At(s, i, '{')
    ensures ParseValue(k, s, i) == Parsed(Meaning(k, x), i + |Text(x)|)
    decreases x, 0
  {
    hide ParseValue, ParseMembers, SkipSpace, PairsText, Blank, Stands, Fresh, ValidPair;
    var inner := if x.members == [] then x.gap else PairsText(x.members);
    assert Text(x) == "{" + (inner + "}");
    StandsJoin(s, i, "{", inner + "}");
    OpenContainer(k, s, i);
    if x.members == [] {
      SeparatorFollows(s, i + 1, x.gap, '}');
      NoItems(k);
    } else {
      assert x.members[0..] == x.members && x.members[..0] == [];
      NoItems(k);
      AllFresh(k, x);
      PairsParse(k, x.members, 0, s, i + 1);
      NotAtBrace(k, x.members[0], s, i + 1, x.members);
      MembersSkip(k, s, i + 1, map[]);
    }
  }

  lemma AllFresh(k: Codec, x: Syntax)
    requires x.Object? && Valid(k, x)
    ensures forall n :: 0 <= n < |x.members| ==> ValidPair(k, x.members[n])
    ensures forall n :: 0 <= n < |x.members| ==> Fresh(k, x.members, n)
  {
    forall n | 0 <= n < |x.members| ensures Fresh(k, x.members, n) {
      forall j | 0 <= j < n ensures KeyOf(k, x.members[j]) != KeyOf(k, x.members[n]) {
        assert ValidPair(k, x.members[j]) && ValidPair(k, x.members[n]);
      }
    }
  }

  lemma NotAtBrace(k: Codec, p: Pair, s: string, i: nat, members: seq<Pair>)
    requires members != [] && p == members[0] && ValidPair(k, p) && Stands(s, i, PairsText(members) + "}")
    ensures SkipSpace(s, i) < |s| && s[SkipSpace(s, i)] != '}'
  {
    hide Text;
    var rest := PairsText(members)[|p.before| + 1..] + "}";
    assert PairText(p) == p.before + ['"'] + PairText(p)[|p.before| + 1..];
    assert PairsText(members) + "}" == p.before + ['"'] + rest;
    StandsJoin(s, i, p.before + ['"'], rest);
    SeparatorFollows(s, i, p.before, '"');
  }

  /** One member and the separator after it. */
  lemma {:induction false} PairParses(k: Codec, p: Pair, s: string, i: nat, sep: char, taken: set<string>)
    requires ValidPair(k, p) && KeyOf(k, p) !in taken && (sep == ',' || sep == '}') && Stands(s, i, PairText(p) + [sep])
    ensures var e := i + |PairText(p)| - |p.after|;
      && 0 <= e <= |s| && ParseMember(k, s, i, taken) == Parsed(Member(KeyOf(k, p), Meaning(k, p.value)), e)
      && SkipSpace(s, e) == e + |p.after| && At(s, e + |p.after|, sep)
    decreases p, 0
  {
    hide Text, ParseMember, ParseValue, ParseString, SkipSpace, Stands, Meaning, Literal, PairText, Body;
    var q := i + |p.before|;
    var afterKey := q + |Literal(p.key)|;
    var colon := afterKey + |p.beforeColon|;
    var v := colon + 1 + |p.afterColon|;
    var e := v + |Text(p.value)|;
    PairStands(p, s, i, sep);
    SeparatorFollows(s, i, p.before, '"');
    LiteralParses(k, s, q, p.key);
    SeparatorFollows(s, afterKey, p.beforeColon, ':');
    ValueAfterBlank(k, p.value, s, colon + 1, p.afterColon);
    SeparatorFollows(s, e, p.after, sep);
    ValueParses(k, p.value, s, v);
    MemberUnfolds(k, s, i, taken, KeyOf(k, p), q, afterKey, colon, v, Meaning(k, p.value), e);
  }

  /** One member, put together from its parts. */
  lemma MemberUnfolds(
    k: Codec, s: string, i: nat, taken: set<string>, key: string,
    q: nat, afterKey: nat, colon: nat, v: nat, value: Json, e: nat)
    requires i <= |s| && SkipSpace(s, i) == q && At(s, q, '"') && ParseString(k, s, q) == Parsed(key, afterKey)
    requires key !in taken && SkipSpace(s, afterKey) == colon && At(s, colon, ':') && SkipSpace(s, colon + 1) == v
    requires ParseValue(k, s, v) == Parsed(value, e)
    ensures ParseMember(k, s, i, taken) == Parsed(Member(key, value), e)
  {
    hide ParseValue, ParseString, SkipSpace;
  }

  lemma PairSplits(p: Pair, sep: char)
    ensures PairText(p) + [sep] ==
              p.before + (Literal(p.key) + (p.beforeColon + [':'] + (p.afterColon + Text(p.value) + (p.after + [sep]))))
  {
    hide Text, Literal;
    var lit, value := Literal(p.key), Text(p.value);
    var tail := p.after + [sep];
    assert PairText(p) + [sep] == p.before + lit + p.beforeColon + ":" + p.afterColon + value + tail;
    assert p.afterColon + value + tail == p.afterColon + (value + tail);
    assert p.beforeColon + ":" == p.beforeColon + [':'];
  }

  /** Where the parts of a member stand. */
  lemma PairStands(p: Pair, s: string, i: nat, sep: char)
    requires Stands(s, i, PairText(p) + [sep])
    ensures var q := i + |p.before|;
      var afterKey := q + |Literal(p.key)|;
      var colon := afterKey + |p.beforeColon|;
      var v := colon + 1 + |p.afterColon|;
      && Stands(s, i, p.before + ['"']) && Stands(s, q, Literal(p.key))
      && Stands(s, afterKey, p.beforeColon + [':']) && Stands(s, colon + 1, p.afterColon + Text(p.value))
      && Stands(s, v + |Text(p.value)|, p.after + [sep])
      && i + |PairText(p)| == v + |Text(p.value)| + |p.after|
  {
    PairSplits(p, sep);
    hide Text, PairText, Stands;
    var a, b, c, d, f := p.before, Literal(p.key), p.beforeColon + [':'], p.afterColon + Text(p.value), p.after + [sep];
    StandsJoin(s, i, a, b + (c + (d + f)));
    StandsJoin(s, i + |a|, b, c + (d + f));
    StandsJoin(s, i + |a| + |b|, c, d + f);
    StandsJoin(s, i + |a| + |b| + |c|, d, f);
    assert b == ['"'] + b[1..];
    StandsJoin(s, i + |a|, ['"'], b[1..]);
    StandsJoin(s, i, a, ['"']);
  }

  lemma PairsTextStep(members: seq<Pair>, n: nat)
    requires n < |members|
    ensures PairsText(members[n..]) ==
              PairText(members[n]) + (if n + 1 == |members| then "" else "," + PairsText(members[n + 1..]))
  {
    assert members[n..][0] == members[n] && members[n..][1..] == members[n + 1..];
  }

  lemma MembersUnfold(k: Codec, s: string, i: nat, acc: map<string, Json>, key: string, v: Json, e: nat, f: nat)
    requires i <= |s| && ParseMember(k, s, i, acc.Keys) == Parsed(Member(key, v), e) && SkipSpace(s, e) == f
    ensures At(s, f, '}') ==> ParseMembers(k, s, i, acc) == Parsed(Obj(acc[key := v]), f + 1)
    ensures At(s, f, ',') ==> ParseMembers(k, s, i, acc) == ParseMembers(k, s, f + 1, acc[key := v])
  {
    hide ParseMember, SkipSpace;
  }

  lemma {:induction false} PairsParse(k: Codec, members: seq<Pair>, n: nat, s: string, i: nat)
    requires (forall j :: 0 <= j < |members| ==> ValidPair(k, members[j])) && n < |members|
    requires forall j :: 0 <= j < |members| ==> Fresh(k, members, j)
    requires Stands(s, i, PairsText(members[n..]) + "}")
    ensures ParseMembers(k, s, i, PairMeanings(k, members[..n])) ==
              Parsed(Obj(PairMeanings(k, members)), i + |PairsText(members[n..])| + 1)
    decreases members, |members| - n
  {
    hide Text, ParseMember, ParseMembers, SkipSpace, PairsText, PairText, PairMeanings, Meaning, ValidPair, KeyOf,
        Stands;
    var p, last := members[n], n + 1 == |members|;
    var sep := if last then '}' else ',';
    var rest := if last then "" else PairsText(members[n + 1..]) + "}";
    PairsTextStep(members, n);
    assert PairsText(members[n..]) + "}" == PairText(p) + [sep] + rest;
    StandsJoin(s, i, PairText(p) + [sep], rest);
    assert ValidPair(k, p) && Fresh(k, members, n);
    KeyAbsent(k, members[..n], KeyOf(k, p));
    PairParses(k, p, s, i, sep, PairMeanings(k, members[..n]).Keys);
    PairMeaningsStep(k, members, n);
    MembersUnfold(k, s, i, PairMeanings(k, members[..n]), KeyOf(k, p), Meaning(k, p.value),
                  i + |PairText(p)| - |p.after|, i + |PairText(p)|);
    if last {
      assert members[..n + 1] == members;
    } else {
      PairsParse(k, members, n + 1, s, i + |PairText(p)| + 1);
    }
  }

  /** A document: white space, the text of a valid tree, white space. */
  ghost predicate Writes(k: Codec, s: string, v: Json, before: string, x: Syntax, after: string) {
    Blank(before) && Blank(after) && Valid(k, x) && Meaning(k, x) == v && s == before + Text(x) + after
  }

  /** The parser accepts every document and gives it the meaning of its tree. */
  lemma ParserIsComplete(k: Codec, s: string, v: Json, before: string, x: Syntax, after: string)
    requires Writes(k, s, v, before, x, after)
    ensures Parse(k, s) == Some(v)
  {
    hide Text, ParseValue, Meaning, SkipSpace, Valid;
    var w, e := before + Text(x), |before| + |Text(x)|;
    assert Stands(s, 0, w + after);
    StandsJoin(s, 0, w, after);
    ValueAfterBlank(k, x, s, 0, before);
    assert after != [] ==> s[e] == after[0];
    assert Ends(s, e);
    ValueParses(k, x, s, |before|);
    ValueSkips(k, s, 0);
    SkipsBlank(s, e, after);
  }

  // ---- Every accepted text is the text of a valid tree -----------------------------------

  predicate Spells(t: Token, text: string) {
    ValidToken(t) && TokenText(t) == text
  }

  /** The built-in decoder accepts no primitive but the names and numbers of RFC 8259. */
  ghost predicate Standard(k: Codec) {
    forall text :: k.token(text).Some? ==> exists t :: Spells(t, text)
  }

  lemma StandsSlice(s: string, i: nat, j: nat)
    requires i <= j <= |s|
    ensures Stands(s, i, s[i..j])
  {
  }

  lemma {:induction false} ItemMeaningsFirst(k: Codec, x: Item, rest: seq<Item>)
    requires ValidItem(k, x) && forall j :: 0 <= j < |rest| ==> ValidItem(k, rest[j])
    ensures ItemMeanings(k, [x] + rest) == [Meaning(k, x.value)] + ItemMeanings(k, rest)
    decreases |rest|
  {
    hide ItemMeanings, Meaning, ValidItem;
    var all, n := [x] + rest, |rest|;
    ItemMeaningsStep(k, all, n);
    assert all[..n + 1] == all;
    if n == 0 {
      NoItems(k);
      assert all[..0] == [] && rest == [];
    } else {
      assert all[..n] == [x] + rest[..n - 1] && all[n] == rest[n - 1] && rest[..n - 1 + 1] == rest;
      ItemMeaningsFirst(k, x, rest[..n - 1]);
      ItemMeaningsStep(k, rest, n - 1);
    }
  }

  lemma NoItems(k: Codec)
    ensures ItemMeanings(k, []) == [] && PairMeanings(k, []) == map[]
  {
  }

  lemma {:induction false} PairMeaningsFirst(k: Codec, p: Pair, rest: seq<Pair>)
    requires ValidPair(k, p) && forall j :: 0 <= j < |rest| ==> ValidPair(k, rest[j])
    ensures Valid(k, p.value)
    ensures PairMeanings(k, [p] + rest) == map[KeyOf(k, p) := Meaning(k, p.value)] + PairMeanings(k, rest)
    decreases |rest|
  {
    hide PairMeanings, Meaning, ValidPair, KeyOf;
    var all, n := [p] + rest, |rest|;
    PairMeaningsStep(k, all, 0);
    PairMeaningsStep(k, all, n);
    assert all[..n + 1] == all;
    if n == 0 {
      NoItems(k);
      assert all[..0] == [] && rest == [];
    } else {
      assert all[..n] == [p] + rest[..n - 1] && all[n] == rest[n - 1] && rest[..n - 1 + 1] == rest;
      PairMeaningsFirst(k, p, rest[..n - 1]);
      PairMeaningsStep(k, rest, n - 1);
    }
  }

  lemma {:induction false} ValueSound(k: Codec, s: string, i: nat, v: Json, e: nat) returns (w: string, x: Syntax)
    requires Standard(k) && i <= |s| && ParseValue(k, s, i) == Parsed(v, e)
    ensures Blank(w) && Valid(k, x) && Meaning(k, x) == v
    ensures Stands(s, i, w + Text(x)) && e == i + |w| + |Text(x)|
    decreases |s| - i, 3
  {
    var j := SkipSpace(s, i);
    w := s[i..j];
    SkippedIsBlank(s, i);
    StandsSlice(s, i, j);
    if At(s, j, '{') {
      x := ObjectSound(k, s, i, j, v, e);
    } else if At(s, j, '[') {
      x := ArraySound(k, s, i, j, v, e);
    } else if At(s, j, '"') {
      x := Quoted(s[j + 1..e - 1]);
      QuotedSound(k, s, j, v, e);
      hide ParseValue;
    } else {
      hide ParseMembers, ParseElements, ParseString, IsDelimiter;
      var text := s[j..e];
      var t :| Spells(t, text);
      x := Primitive(t);
      StandsSlice(s, j, e);
      hide ParseValue;
    }
    hide Text;
    StandsJoin(s, i, w, Text(x));
  }

  lemma QuotedSound(k: Codec, s: string, j: nat, v: Json, e: nat)
    requires At(s, j, '"') && SkipSpace(s, j) == j && ParseValue(k, s, j) == Parsed(v, e)
    ensures j + 1 < e <= |s| && s[j..e] == Literal(s[j + 1..e - 1]) && ValidLiteral(k, s[j + 1..e - 1])
    ensures Stands(s, j, Literal(s[j + 1..e - 1])) && v == Str(k.literal(s[j..e]).value)
  {
    hide ParseMembers, ParseElements, TokenEnd;
    BodyUpTo(s, j + 1, e);
    assert s[j..e] == ['"'] + s[j + 1..e - 1] + ['"'];
  }

  lemma BracketText(s: string, j: nat, p: nat, open: char, close: char)
    requires At(s, j, open) && j + 1 <= p && At(s, p, close)
    ensures Stands(s, j, [open] + s[j + 1..p] + [close])
  {
    assert s[j..p + 1] == [open] + s[j + 1..p] + [close];
  }

  lemma BracketJoin(s: string, j: nat, open: char, inner: string, close: string)
    requires At(s, j, open) && Stands(s, j + 1, inner + close)
    ensures Stands(s, j, [open] + inner + close)
  {
    assert s[j..j + 1] == [open];
    assert [open] + inner + close == [open] + (inner + close);
    StandsJoin(s, j, [open], inner + close);
  }

  lemma {:induction false} ArraySound(k: Codec, s: string, i: nat, j: nat, v: Json, e: nat) returns (x: Syntax)
    requires Standard(k) && i <= |s| && ParseValue(k, s, i) == Parsed(v, e) && j == SkipSpace(s, i) && At(s, j, '[')
    ensures Valid(k, x) && Meaning(k, x) == v && Stands(s, j, Text(x)) && e == j + |Text(x)|
    decreases |s| - i, 2
  {
    var p := SkipSpace(s, j + 1);
    hide ParseMembers, ParseElements, SkipSpace, Valid, Meaning, Text, ItemsText, Blank;
    if At(s, p, ']') {
      BlankGap(s, j + 1);
      x := Array(s[j + 1..p], []);
      BracketText(s, j, p, '[', ']');
      EmptyArray(k, s[j + 1..p]);
    } else {
      ElementsSkip(k, s, j + 1, []);
      hide ParseValue;
      var items := ElementsSound(k, s, j + 1, [], v, e);
      x := Array("", items);
      BracketJoin(s, j, '[', ItemsText(items), "]");
      hide ValidItem;
      ArrayOf(k, items);
    }
  }

  lemma EmptyArray(k: Codec, gap: string)
    requires Blank(gap)
    ensures var x := Array(gap, []); Valid(k, x) && Meaning(k, x) == Arr([]) && Text(x) == "[" + gap + "]"
  {
  }

  lemma ArrayOf(k: Codec, items: seq<Item>)
    requires items != [] && forall n :: 0 <= n < |items| ==> ValidItem(k, items[n])
    ensures var x := Array("", items);
      && Valid(k, x) && Meaning(k, x) == Arr([] + ItemMeanings(k, items))
      && Text(x) == "[" + ItemsText(items) + "]"
  {
    hide ItemsText, ItemMeanings, ValidItem;
    assert [] + ItemMeanings(k, items) == ItemMeanings(k, items);
  }

  lemma {:induction false} ElementsSound(k: Codec, s: string, i: nat, acc: seq<Json>, v: Json, e: nat)
    returns (items: seq<Item>)
    requires Standard(k) && i <= |s| && ParseElements(k, s, i, acc) == Parsed(v, e)
    ensures items != [] && (forall n :: 0 <= n < |items| ==> ValidItem(k, items[n]))
    ensures Stands(s, i, ItemsText(items) + "]") && e == i + |ItemsText(items)| + 1
    ensures v == Arr(acc + ItemMeanings(k, items))
    decreases |s| - i, 4
  {
    hide ParseValue, SkipSpace, Text, Stands, ItemMeanings, Meaning, Blank, Valid;
    var Parsed(v1, e1) := ParseValue(k, s, i);
    var f := SkipSpace(s, e1);
    var w, x := ValueSound(k, s, i, v1, e1);
    SkippedIsBlank(s, e1);
    var first := Item(w, x, s[e1..f]);
    assert ValidItem(k, first);
    var text := w + Text(x) + s[e1..f];
    StandsSlice(s, e1, f);
    StandsJoin(s, i, w + Text(x), s[e1..f]);
    StandsSlice(s, f, f + 1);
    assert s[f..f + 1] == [s[f]];
    StandsJoin(s, i, text, [s[f]]);
    if s[f] == ']' {
      items := [first];
      ItemMeaningsFirst(k, first, []);
      NoItems(k);
      assert [first] + [] == [first];
    } else {
      var rest := ElementsSound(k, s, f + 1, acc + [v1], v, e);
      items := [first] + rest;
      ItemMeaningsFirst(k, first, rest);
      assert items[1..] == rest;
      assert ItemsText(items) == text + "," + ItemsText(rest);
      assert text + "," + ItemsText(rest) + "]" == text + [s[f]] + (ItemsText(rest) + "]");
      StandsJoin(s, i, text + [s[f]], ItemsText(rest) + "]");
    }
  }

  lemma {:induction false} ObjectSound(k: Codec, s: string, i: nat, j: nat, v: Json, e: nat) returns (x: Syntax)
    requires Standard(k) && i <= |s| && ParseValue(k, s, i) == Parsed(v, e) && j == SkipSpace(s, i) && At(s, j, '{')
    ensures Valid(k, x) && Meaning(k, x) == v && Stands(s, j, Text(x)) && e == j + |Text(x)|
    decreases |s| - i, 2
  {
    var p := SkipSpace(s, j + 1);
    hide ParseMembers, ParseElements, SkipSpace, Valid, Meaning, Text, PairsText;
    if At(s, p, '}') {
      SkippedIsBlank(s, j + 1);
      x := Object(s[j + 1..p], []);
      BracketText(s, j, p, '{', '}');
      EmptyObject(k, s[j + 1..p]);
    } else {
      MembersSkip(k, s, j + 1, map[]);
      hide ParseValue;
      var members := MembersSound(k, s, j + 1, map[], v, e);
      x := Object("", members);
      BracketJoin(s, j, '{', PairsText(members), "}");
      hide Fresh, ValidPair;
      ObjectOf(k, members);
    }
  }

  lemma EmptyObject(k: Codec, gap: string)
    requires Blank(gap)
    ensures var x := Object(gap, []); Valid(k, x) && Meaning(k, x) == Obj(map[]) && Text(x) == "{" + gap + "}"
  {
  }

  lemma ObjectOf(k: Codec, members: seq<Pair>)
    requires members != [] && forall n :: 0 <= n < |members| ==> ValidPair(k, members[n])
    requires forall n :: 0 <= n < |members| ==> Fresh(k, members, n)
    ensures var x := Object("", members);
      && Valid(k, x) && Meaning(k, x) == Obj(map[] + PairMeanings(k, members))
      && Text(x) == "{" + PairsText(members) + "}"
  {
    KeysDistinct(k, members);
    hide PairsText, PairMeanings, ValidPair, Fresh;
    assert map[] + PairMeanings(k, members) == PairMeanings(k, members);
  }

  lemma KeysDistinct(k: Codec, members: seq<Pair>)
    requires forall n :: 0 <= n < |members| ==> ValidPair(k, members[n])
    requires forall n :: 0 <= n < |members| ==> Fresh(k, members, n)
    ensures forall m, n :: 0 <= m < n < |members| ==>
              k.literal(Literal(members[m].key)) != k.literal(Literal(members[n].key))
  {
    forall m, n | 0 <= m < n < |members|
      ensures k.literal(Literal(members[m].key)) != k.literal(Literal(members[n].key))
    {
      assert Fresh(k, members, n) && ValidPair(k, members[m]) && ValidPair(k, members[n]);
    }
  }

  /** Where the parts of an accepted member are. */
  lemma MemberParts(k: Codec, s: string, i: nat, taken: set<string>, m: Member, e: nat)
    returns (q: nat, afterKey: nat, colon: nat, v: nat)
    requires i <= |s| && ParseMember(k, s, i, taken) == Parsed(m, e)
    ensures i <= q < afterKey <= colon < v <= e <= |s| && q == SkipSpace(s, i) && At(s, q, '"')
    ensures ParseString(k, s, q) == Parsed(m.key, afterKey) && colon == SkipSpace(s, afterKey) && At(s, colon, ':')
    ensures v == SkipSpace(s, colon + 1) && ParseValue(k, s, v) == Parsed(m.value, e)
  {
    hide ParseValue, ParseString, SkipSpace;
    q := SkipSpace(s, i);
    afterKey := ParseString(k, s, q).end;
    colon := SkipSpace(s, afterKey);
    v := SkipSpace(s, colon + 1);
  }

  /** One member as it was read. */
  lemma {:induction false} MemberSound(k: Codec, s: string, i: nat, taken: set<string>, m: Member, e: nat, f: nat)
    returns (p: Pair)
    requires Standard(k) && i <= |s| && ParseMember(k, s, i, taken) == Parsed(m, e) && f == SkipSpace(s, e)
    ensures ValidPair(k, p) && KeyOf(k, p) == m.key && Meaning(k, p.value) == m.value
    ensures Stands(s, i, PairText(p)) && f == i + |PairText(p)|
    decreases |s| - i, 4
  {
    var q, afterKey, colon, v := MemberParts(k, s, i, taken, m, e);
    hide ParseMember, ParseValue, ParseString, SkipSpace, Text, Stands, Meaning, PairText, Valid, Blank, ValidPair,
        KeyOf,
         Standard;
    var w, x := ValueSound(k, s, v, m.value, e);
    StartOfValue(k, s, colon, v, w, x, e);
    p := MemberPair(k, s, i, q, afterKey, colon, v, e, f, m.key, x);
  }

  lemma MemberPair(
    k: Codec, s: string, i: nat, q: nat, afterKey: nat, colon: nat, v: nat, e: nat, f: nat, key: string, x: Syntax)
    returns (p: Pair)
    requires i <= q < afterKey <= colon < v <= e <= |s| && q == SkipSpace(s, i) && At(s, q, '"')
    requires ParseString(k, s, q) == Parsed(key, afterKey) && colon == SkipSpace(s, afterKey) && At(s, colon, ':')
    requires v == SkipSpace(s, colon + 1) && f == SkipSpace(s, e) && Valid(k, x) && s[v..e] == Text(x)
    ensures ValidPair(k, p) && KeyOf(k, p) == key && p.value == x
    ensures Stands(s, i, PairText(p)) && f == i + |PairText(p)|
  {
    hide ParseString, SkipSpace, Text, Body, Literal, PairText, Valid, Blank;
    p := Pair(s[i..q], s[q + 1..afterKey - 1], s[afterKey..colon], s[colon + 1..v], x, s[e..f]);
    BlankGap(s, i);
    BlankGap(s, afterKey);
    BlankGap(s, colon + 1);
    BlankGap(s, e);
    KeySound(k, s, q, key, afterKey);
    PairOfSlices(p, s, i, q, afterKey, colon, v, e, f);
    StandsSlice(s, i, f);
  }

  lemma BlankGap(s: string, i: nat)
    requires i <= |s|
    ensures Blank(s[i..SkipSpace(s, i)])
  {
    SkippedIsBlank(s, i);
  }

  lemma PairOfSlices(p: Pair, s: string, i: nat, q: nat, afterKey: nat, colon: nat, v: nat, e: nat, f: nat)
    requires i <= q <= afterKey <= colon < v <= e <= f <= |s| && s[colon] == ':'
    requires p.before == s[i..q] && Literal(p.key) == s[q..afterKey] && p.beforeColon == s[afterKey..colon]
    requires p.afterColon == s[colon + 1..v] && Text(p.value) == s[v..e] && p.after == s[e..f]
    ensures PairText(p) == s[i..f]
  {
    hide Text, Literal;
    assert s[i..q] + s[q..afterKey] == s[i..afterKey];
    assert s[i..afterKey] + s[afterKey..colon] == s[i..colon];
    assert s[i..colon] + ":" == s[i..colon + 1];
    assert s[i..colon + 1] + s[colon + 1..v] == s[i..v];
    assert s[i..v] + s[v..e] == s[i..e];
    assert s[i..e] + s[e..f] == s[i..f];
  }

  lemma StandsText(s: string, i: nat, e: nat, w: string)
    requires Stands(s, i, w) && e == i + |w|
    ensures e <= |s| && s[i..e] == w
  {
  }

  /** Past the white space, a value starts at once. */
  lemma StartOfValue(k: Codec, s: string, colon: nat, v: nat, w: string, x: Syntax, e: nat)
    requires colon < |s| && v == SkipSpace(s, colon + 1) && Blank(w) && Valid(k, x)
    requires Stands(s, v, w + Text(x)) && e == v + |w| + |Text(x)|
    ensures e <= |s| && s[v..e] == Text(x)
  {
    hide Text, Valid, SkipSpace;
    SkipSpaceStops(s, colon + 1);
    ValueAfterBlank(k, x, s, v, w);
  }

  lemma KeySound(k: Codec, s: string, q: nat, key: string, e: nat)
    requires At(s, q, '"') && ParseString(k, s, q) == Parsed(key, e)
    ensures q + 1 < e <= |s| && s[q..e] == Literal(s[q + 1..e - 1])
    ensures ValidLiteral(k, s[q + 1..e - 1]) && k.literal(s[q..e]) == Some(key)
  {
    BodyUpTo(s, q + 1, e);
    assert s[q..e] == ['"'] + s[q + 1..e - 1] + ['"'];
  }

  lemma {:induction false} MembersSound(k: Codec, s: string, i: nat, acc: map<string, Json>, v: Json, e: nat)
    returns (members: seq<Pair>)
    requires Standard(k) && i <= |s| && ParseMembers(k, s, i, acc) == Parsed(v, e)
    ensures members != [] && (forall n :: 0 <= n < |members| ==> ValidPair(k, members[n]))
    ensures forall n :: 0 <= n < |members| ==> KeyOf(k, members[n]) !in acc && Fresh(k, members, n)
    ensures Stands(s, i, PairsText(members) + "}") && e == i + |PairsText(members)| + 1
    ensures v == Obj(acc + PairMeanings(k, members))
    decreases |s| - i, 5
  {
    hide ParseMember, SkipSpace, PairText, Stands, PairMeanings, Meaning, ValidPair, KeyOf;
    var Parsed(m, e1) := ParseMember(k, s, i, acc.Keys);
    var f := SkipSpace(s, e1);
    var p := MemberSound(k, s, i, acc.Keys, m, e1, f);
    StandsSlice(s, f, f + 1);
    assert s[f..f + 1] == [s[f]];
    StandsJoin(s, i, PairText(p), [s[f]]);
    if s[f] == '}' {
      members := [p];
      PairMeaningsFirst(k, p, []);
      NoItems(k);
      assert [p] + [] == [p];
      assert acc + (map[m.key := m.value] + map[]) == acc[m.key := m.value];
    } else {
      var rest := MembersSound(k, s, f + 1, acc[m.key := m.value], v, e);
      members := [p] + rest;
      PairMeaningsFirst(k, p, rest);
      FreshFirst(k, p, rest);
      assert members[1..] == rest;
      assert PairsText(members) == PairText(p) + "," + PairsText(rest);
      assert PairText(p) + "," + PairsText(rest) + "}" == PairText(p) + [s[f]] + (PairsText(rest) + "}");
      StandsJoin(s, i, PairText(p) + [s[f]], PairsText(rest) + "}");
      assert acc[m.key := m.value] + PairMeanings(k, rest) == acc + (map[m.key := m.value] + PairMeanings(k, rest));
    }
  }

  lemma FreshFirst(k: Codec, p: Pair, rest: seq<Pair>)
    requires ValidPair(k, p) && forall n :: 0 <= n < |rest| ==> ValidPair(k, rest[n])
    requires forall n :: 0 <= n < |rest| ==> KeyOf(k, rest[n]) != KeyOf(k, p) && Fresh(k, rest, n)
    ensures forall n :: 0 <= n < |rest| + 1 ==> Fresh(k, [p] + rest, n)
  {
    hide ValidPair, KeyOf;
    var all := [p] + rest;
    forall n | 0 <= n < |all| ensures Fresh(k, all, n) {
      if n > 0 { assert Fresh(k, rest, n - 1) && all[n] == rest[n - 1]; }
      forall i | 0 <= i < n ensures KeyOf(k, all[i]) != KeyOf(k, all[n]) {
        if i > 0 { assert all[i] == rest[i - 1]; }
      }
    }
  }

  /** With a decoder that knows only the primitives of RFC 8259, the parser accepts exactly the documents of valid
      trees, with their meaning. */
  lemma ParserIsExact(k: Codec, s: string, v: Json)
    requires Standard(k)
    ensures Parse(k, s) == Some(v) <==> exists before, x, after :: Writes(k, s, v, before, x, after)
  {
    hide Text, Meaning, Valid, ParseValue, SkipSpace, Blank, Stands;
    if Parse(k, s) == Some(v) {
      var e := ParseValue(k, s, 0).end;
      var before, x := ValueSound(k, s, 0, v, e);
      BlankGap(s, e);
      StandsText(s, 0, e, before + Text(x));
      assert SkipSpace(s, e) == |s| && s[e..] == s[e..|s|] && s == s[0..e] + s[e..];
      assert Writes(k, s, v, before, x, s[e..]);
    }
    if before, x, after :| Writes(k, s, v, before, x, after) {
      ParserIsComplete(k, s, v, before, x, after);
    }
  }
}
