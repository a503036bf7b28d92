/**
 The string lexemes of the JSON lexer (json-lexer.c:71-147) against the strings of section 2.5 of
 RFC 4627, over the bytes of their UTF-8 encoding.
 */
module JsonStrings {
  import opened Common
  import opened JsonLexer

  /** What a string is made of: a character as it stands, a backslash and one character, or a backslash, the
      letter u and four hexadecimal digits. */
  datatype Item = Plain(c: byte) | Escaped(c: byte) | Unicode(a: byte, b: byte, c: byte, d: byte)

  const Slash: byte := 47

  const LetterU: byte := 117

  function ItemText(it: Item): seq<byte> {
    match it
    case Plain(c) => [c]
    case Escaped(c) => [Backslash, c]
    case Unicode(a, b, c, d) => [Backslash, LetterU, a, b, c, d]
  }

  function Body(items: seq<Item>): seq<byte> { if items == [] then [] else ItemText(items[0]) + Body(items[1..]) }

  function Quoted(q: byte, items: seq<Item>): seq<byte> { [q] + Body(items) + [q] }

  predicate IsQuote(q: byte) { q == Quote || q == Apostrophe }

  predicate AllHex(it: Item)
    requires it.Unicode?
  {
    IsHex(it.a) && IsHex(it.b) && IsHex(it.c) && IsHex(it.d)
  }

  /** What the table takes inside quotes of the kind q. */
  predicate TableItem(q: byte, it: Item) {
    match it
    case Plain(c) => c != 0 && c != Backslash && c != q
    case Escaped(c) => c in [98, 102, 110, 114, 116, Apostrophe, Quote]
    case Unicode(_, _, _, _) => AllHex(it)
  }

  /** char of the RFC: unescaped, or one of its escapes. */
  predicate RfcItem(it: Item) {
    match it
    case Plain(c) => 0x20 <= c && c != Quote && c != Backslash
    case Escaped(c) => c in [Quote, Backslash, Slash, 98, 102, 110, 114, 116]
    case Unicode(_, _, _, _) => AllHex(it)
  }

  /** string = quotation-mark *char quotation-mark. */
  ghost predicate RfcString(text: seq<byte>) {
    exists items :: (forall i :: 0 <= i < |items| ==> RfcItem(items[i])) && text == Quoted(Quote, items)
  }

  ghost predicate TableString(text: seq<byte>) {
    exists q: byte, items :: StringOf(text, q, items)
  }

  ghost predicate StringOf(text: seq<byte>, q: byte, items: seq<Item>) {
    IsQuote(q) && (forall i :: 0 <= i < |items| ==> TableItem(q, items[i])) && text == Quoted(q, items)
  }

  // ----- the table takes exactly these strings

  lemma {:induction false} PlainPath(q: byte, it: Item)
    requires IsQuote(q) && it.Plain? && TableItem(q, it)
    ensures Path(InString(q == Quote), ItemText(it)) == InString(q == Quote)
  {
    PathOne(InString(q == Quote), it.c);
  }

  lemma {:induction false} EscapedPath(q: bool, c: byte)
    ensures Path(InString(q), [Backslash, c]) == Target(Table(StringEscape(q), c))
  {
    PathOne(InString(q), Backslash);
    PathMore(InString(q), [Backslash], c);
    assert [Backslash] + [c] == [Backslash, c];
  }

  lemma {:induction false} HexStep(q: bool, n: nat, c: byte)
    requires n <= 3
    ensures Table(Ucode(q, n), c) == Go(if !IsHex(c) then Error else if n < 3 then Ucode(q, n + 1) else InString(q))
  {}

  lemma {:induction false} UnicodePath(q: bool, it: Item)
    requires it.Unicode?
    ensures Path(InString(q), ItemText(it)) == if AllHex(it) then InString(q) else Error
  {
    hide Table, Path;
    var head := [Backslash, LetterU];
    EscapedPath(q, LetterU);
    UcodeStart(q);
    assert ItemText(it) == head + [it.a] + [it.b] + [it.c] + [it.d];
    PathMore(InString(q), head, it.a);
    PathMore(InString(q), head + [it.a], it.b);
    PathMore(InString(q), head + [it.a] + [it.b], it.c);
    PathMore(InString(q), head + [it.a] + [it.b] + [it.c], it.d);
    HexStep(q, 0, it.a);
    HexStep(q, 1, it.b);
    HexStep(q, 2, it.c);
    HexStep(q, 3, it.d);
    ErrorEntry(it.b);
    ErrorEntry(it.c);
    ErrorEntry(it.d);
  }

  lemma {:induction false} UcodeStart(q: bool)
    ensures Table(StringEscape(q), LetterU) == Go(Ucode(q, 0))
  {}

  lemma {:induction false} ItemPath(q: byte, it: Item)
    requires IsQuote(q) && TableItem(q, it)
    ensures Path(InString(q == Quote), ItemText(it)) == InString(q == Quote)
  {
    match it
    case Plain(_) => PlainPath(q, it);
    case Escaped(c) => EscapedPath(q == Quote, c);
    case Unicode(_, _, _, _) => UnicodePath(q == Quote, it);
  }

  lemma {:induction false} BodyPath(q: byte, items: seq<Item>)
    requires IsQuote(q) && forall i :: 0 <= i < |items| ==> TableItem(q, items[i])
    ensures Path(InString(q == Quote), Body(items)) == InString(q == Quote)
  {
    hide Table, TableItem;
    if items == [] {
      NoPath(InString(q == Quote));
    } else {
      ItemPath(q, items[0]);
      BodyPath(q, items[1..]);
      PathConcat(InString(q == Quote), ItemText(items[0]), Body(items[1..]));
    }
  }

  lemma {:induction false} NoPath(s: State)
    ensures Path(s, []) == s
  {}

  /** A quoted body leads where the closing quote leads from the end of the body. */
  lemma {:induction false} QuotedPath(q: byte, items: seq<Item>)
    requires IsQuote(q)
    ensures Path(Start, Quoted(q, items)) == Target(Table(Path(InString(q == Quote), Body(items)), q))
  {
    hide Path;
    PathMore(Start, [q] + Body(items), q);
    PathConcat(Start, [q], Body(items));
    PathOne(Start, q);
    OpeningQuote(q);
  }

  lemma {:induction false} OpeningQuote(q: byte)
    requires IsQuote(q)
    ensures Target(Table(Start, q)) == InString(q == Quote) && Table(InString(q == Quote), q) == Go(DoneString)
  {}

  /** How far a text has come as a string: its quote, the items that are complete, and what follows them. */
  ghost predicate Within(s: State, q: byte, items: seq<Item>, rest: seq<byte>) {
    && IsQuote(q) && (forall i :: 0 <= i < |items| ==> TableItem(q, items[i]))
    && (match s
        case InString(dq) => dq == (q == Quote) && rest == []
        case StringEscape(dq) => dq == (q == Quote) && rest == [Backslash]
        case Ucode(dq, n) =>
          && dq == (q == Quote) && n <= 3 && |rest| == n + 2 && rest[0] == Backslash && rest[1] == LetterU
          && forall i :: 2 <= i < |rest| ==> IsHex(rest[i])
        case DoneString => rest == [q]
        case _ => false)
  }

  predicate StringState(s: State) { s.InString? || s.StringEscape? || s.Ucode? || s.DoneString? }

  lemma {:induction false} StringBefore(s: State, c: byte)
    requires StringState(Target(Table(s, c)))
    ensures s == Start || (StringState(s) && s != DoneString)
  {}

  lemma {:induction false} BodyMore(items: seq<Item>, it: Item)
    ensures Body(items + [it]) == Body(items) + ItemText(it)
  {
    if items == [] {
      assert [it][1..] == [] && [] + [it] == [it];
    } else {
      assert (items + [it])[1..] == items[1..] + [it];
      BodyMore(items[1..], it);
    }
  }

  /** The items and the rest after one more character. */
  function Taken(s: State, items: seq<Item>, rest: seq<byte>, c: byte): (seq<Item>, seq<byte>) {
    match s
    case InString(dq) => if Table(s, c) == Go(s) then (items + [Plain(c)], []) else (items, [c])
    case StringEscape(dq) => if c == LetterU then (items, rest + [c]) else (items + [Escaped(c)], [])
    case Ucode(dq, n) =>
      if n < 3 || |rest| != 5 then (items, rest + [c]) else (items + [Unicode(rest[2], rest[3], rest[4], c)], [])
    case _ => (items, rest)
  }

  lemma {:induction false} TakenWithin(s: State, q: byte, items: seq<Item>, rest: seq<byte>, c: byte)
    requires Within(s, q, items, rest) && StringState(Target(Table(s, c))) && s != DoneString
    ensures Within(Target(Table(s, c)), q, Taken(s, items, rest, c).0, Taken(s, items, rest, c).1)
  {
    match s
    case InString(dq) =>
    case StringEscape(dq) =>
    case Ucode(dq, n) => HexStep(dq, n, c);
  }

  lemma {:induction false} TakenText(s: State, q: byte, items: seq<Item>, rest: seq<byte>, c: byte)
    requires Within(s, q, items, rest) && StringState(Target(Table(s, c))) && s != DoneString
    ensures var taken := Taken(s, items, rest, c);
            Body(taken.0) + taken.1 == Body(items) + rest + [c]
  {
    var taken := Taken(s, items, rest, c);
    if taken.0 != items { BodyMore(items, taken.0[|items|]); }
    hide Body, Table;
    if taken.0 != items {
      assert taken.0 == items + [taken.0[|items|]];
      assert ItemText(taken.0[|items|]) == rest + [c];
      assert Body(items) + (rest + [c]) == Body(items) + rest + [c];
      assert Body(taken.0) + [] == Body(taken.0);
    } else {
      assert taken.1 == rest + [c];
    }
  }

  /** A text that leads from the start to a string state, taken apart. */
  lemma {:induction false} StringPieces(text: seq<byte>) returns (q: byte, items: seq<Item>, rest: seq<byte>)
    requires StringState(Path(Start, text))
    ensures Within(Path(Start, text), q, items, rest) && text == [q] + Body(items) + rest
    decreases |text|
  {
    hide Table, Within, Taken;
    var (init, c) := (text[..|text| - 1], text[|text| - 1]);
    var s := Path(Start, init);
    InitLast(text);
    StringBefore(s, c);
    if s == Start {
      NotStart(init);
      FirstQuote(c);
      q, items, rest := c, [], [];
      assert text == [q] + Body([]) + [];
    } else {
      q, items, rest := StringPieces(init);
      TakenWithin(s, q, items, rest, c);
      TakenText(s, q, items, rest, c);
      var taken := Taken(s, items, rest, c);
      Reassociate([q], Body(items), rest, c, Body(taken.0), taken.1);
      items, rest := taken.0, taken.1;
    }
  }

  lemma {:induction false} Reassociate(q: seq<byte>, b: seq<byte>, r: seq<byte>, c: byte, b': seq<byte>, r': seq<byte>)
    requires b' + r' == b + r + [c]
    ensures q + b + r + [c] == q + b' + r'
  {
    assert q + b + r + [c] == q + (b + r + [c]);
    assert q + (b' + r') == q + b' + r';
  }

  lemma {:induction false} FirstQuote(c: byte)
    requires StringState(Target(Table(Start, c)))
    ensures Within(Target(Table(Start, c)), c, [], [])
  {}

  lemma {:induction false} DoneRest(q: byte, items: seq<Item>, rest: seq<byte>)
    requires Within(DoneString, q, items, rest)
    ensures rest == [q] && IsQuote(q) && forall i :: 0 <= i < |items| ==> TableItem(q, items[i])
  {}

  /** The texts the lexer calls strings are exactly a quote, items the table takes, and the same quote. */
  lemma {:induction false} StringLexemes(text: seq<byte>)
    ensures Ends(Path(Start, text), String) <==> TableString(text)
  {
    hide Path, Table, Within;
    if Ends(Path(Start, text), String) {
      var q, items, rest := StringPieces(text);
      DoneRest(q, items, rest);
      assert StringOf(text, q, items);
    }
    if TableString(text) {
      var q: byte, items :| StringOf(text, q, items);
      QuotedPath(q, items);
      BodyPath(q, items);
      OpeningQuote(q);
    }
  }

  // ----- against the RFC, in both directions

  /** The escapes of the RFC that the table does not have. */
  predicate Unknown(it: Item) { it == Escaped(Backslash) || it == Escaped(Slash) }

  lemma {:induction false} RfcItemPath(it: Item)
    requires RfcItem(it)
    ensures Path(InString(true), ItemText(it)) == if Unknown(it) then Error else InString(true)
  {
    if Unknown(it) { EscapedPath(true, it.c); } else { ItemPath(Quote, it); }
  }

  lemma {:induction false} RfcBodyPath(items: seq<Item>)
    requires forall i :: 0 <= i < |items| ==> RfcItem(items[i])
    ensures Path(InString(true), Body(items))
         == if exists i :: 0 <= i < |items| && Unknown(items[i]) then Error else InString(true)
  {
    hide Table, RfcItem, Unknown;
    if items == [] {
      NoPath(InString(true));
    } else {
      RfcItemPath(items[0]);
      RfcBodyPath(items[1..]);
      PathConcat(InString(true), ItemText(items[0]), Body(items[1..]));
      ErrorStays(Body(items[1..]));
      assert forall i :: 0 <= i < |items[1..]| ==> items[1..][i] == items[i + 1];
      FirstOrRest(items);
    }
  }

  lemma {:induction false} FirstOrRest(items: seq<Item>)
    requires items != []
    ensures (exists i :: 0 <= i < |items| && Unknown(items[i])) <==>
            Unknown(items[0]) || exists i :: 0 <= i < |items[1..]| && Unknown(items[1..][i])
  {
    hide Unknown;
    if i :| 0 <= i < |items| && Unknown(items[i]) {
      if i > 0 { assert items[1..][i - 1] == items[i]; }
    }
    if i :| 0 <= i < |items[1..]| && Unknown(items[1..][i]) {
      assert items[i + 1] == items[1..][i];
    }
  }

  /** A string of the RFC is one lexeme exactly when it escapes neither a backslash nor a slash. */
  lemma {:induction false} RfcStringLexeme(items: seq<Item>)
    requires forall i :: 0 <= i < |items| ==> RfcItem(items[i])
    ensures Ends(Path(Start, Quoted(Quote, items)), String) <==> forall i :: 0 <= i < |items| ==> !Unknown(items[i])
  {
    QuotedPath(Quote, items);
    RfcBodyPath(items);
    OpeningQuote(Quote);
    ErrorEntry(Quote);
    hide Path, Table, Unknown, RfcItem;
  }

  /** An item that can be told apart by its first characters. */
  predicate Parsable(it: Item) {
    match it
    case Plain(c) => c != Backslash
    case Escaped(c) => c != LetterU
    case Unicode(_, _, _, _) => true
  }

  /** A body can be taken apart in one way only. */
  lemma {:induction false} BodyOnce(a: seq<Item>, b: seq<Item>)
    requires forall i :: 0 <= i < |a| ==> Parsable(a[i])
    requires forall i :: 0 <= i < |b| ==> Parsable(b[i])
    requires Body(a) == Body(b)
    ensures a == b
  {
    if a != [] && b != [] {
      ItemOnce(a[0], b[0], Body(a[1..]), Body(b[1..]));
      BodyOnce(a[1..], b[1..]);
      assert a == [a[0]] + a[1..] && b == [b[0]] + b[1..];
    }
  }

  lemma {:induction false} ItemOnce(x: Item, y: Item, a: seq<byte>, b: seq<byte>)
    requires Parsable(x) && Parsable(y) && ItemText(x) + a == ItemText(y) + b
    ensures x == y && a == b
  {
    var (s, t) := (ItemText(x) + a, ItemText(y) + b);
    assert s[0] == ItemText(x)[0] && t[0] == ItemText(y)[0];
    if !x.Plain? && !y.Plain? { assert s[1] == ItemText(x)[1] && t[1] == ItemText(y)[1]; }
    assert |ItemText(x)| == |ItemText(y)|;
    assert s[..|ItemText(x)|] == ItemText(x) && t[..|ItemText(y)|] == ItemText(y);
    assert s[|ItemText(x)|..] == a && t[|ItemText(y)|..] == b;
    if x.Unicode? { assert forall i :: 2 <= i < 6 ==> ItemText(x)[i] == ItemText(y)[i]; }
  }

  /** What the table takes beyond the RFC. */
  predicate Foreign(it: Item) { (it.Plain? && it.c < 0x20) || it == Escaped(Apostrophe) }

  lemma {:induction false} ItemKinds(q: byte, it: Item)
    ensures TableItem(q, it) || RfcItem(it) ==> Parsable(it)
    ensures TableItem(Quote, it) ==> (RfcItem(it) <==> !Foreign(it))
    ensures RfcItem(it) ==> (TableItem(Quote, it) <==> !Unknown(it))
  {}

  /** A string lexeme is a string of the RFC exactly when its quotes are double, and it holds neither a raw control
      character nor an escaped apostrophe. */
  lemma {:induction false} StringConforms(text: seq<byte>, q: byte, items: seq<Item>)
    requires StringOf(text, q, items)
    ensures RfcString(text) <==> q == Quote && forall i :: 0 <= i < |items| ==> !Foreign(items[i])
  {
    hide TableItem, RfcItem, Foreign, Parsable, Body;
    forall i | 0 <= i < |items|
      ensures Parsable(items[i]) && (q == Quote ==> (RfcItem(items[i]) <==> !Foreign(items[i])))
    {
      ItemKinds(q, items[i]);
    }
    if RfcString(text) {
      var rfc :| (forall i :: 0 <= i < |rfc| ==> RfcItem(rfc[i])) && text == Quoted(Quote, rfc);
      forall i | 0 <= i < |rfc| ensures Parsable(rfc[i]) { ItemKinds(q, rfc[i]); }
      Unquoted(q, items, Quote, rfc);
      BodyOnce(items, rfc);
    }
  }

  lemma {:induction false} Unquoted(q: byte, a: seq<Item>, r: byte, b: seq<Item>)
    requires Quoted(q, a) == Quoted(r, b)
    ensures q == r && Body(a) == Body(b)
  {
    hide Body;
    var (s, t) := (Quoted(q, a), Quoted(r, b));
    assert s[0] == q && t[0] == r;
    assert s[1..|s| - 1] == Body(a) && t[1..|t| - 1] == Body(b);
  }

  /** The RFC string that is an escaped backslash is refused at its second backslash. */
  lemma {:induction false} EscapedBackslashRun()
    ensures RfcString([Quote] + [Backslash] + [Backslash] + [Quote])
    ensures Feed(Init, [Quote] + [Backslash] + [Backslash] + [Quote])
         == Run(Lexer(Error, [Quote, Backslash]), [], 2, false)
  {
    var items := [Escaped(Backslash)];
    assert items[1..] == [] && Body(items) == [Backslash, Backslash];
    assert RfcItem(items[0]) && [Quote] + [Backslash] + [Backslash] + [Quote] == Quoted(Quote, items);
    BackslashSteps();
    hide Feed, FeedChar, Body;
    FeedSingle(Init, Quote);
    FeedSingle(Lexer(InString(true), [Quote]), Backslash);
    FeedSingle(Lexer(StringEscape(true), [Quote, Backslash]), Backslash);
    FeedConcat(Init, [Quote], [Backslash]);
    FeedConcat(Init, [Quote] + [Backslash], [Backslash]);
    FeedConcat(Init, [Quote] + [Backslash] + [Backslash], [Quote]);
  }

  lemma {:induction false} BackslashSteps()
    ensures FeedChar(Init, Quote) == Fed(Lexer(InString(true), [Quote]), [])
    ensures FeedChar(Lexer(InString(true), [Quote]), Backslash)
         == Fed(Lexer(StringEscape(true), [Quote, Backslash]), [])
    ensures FeedChar(Lexer(StringEscape(true), [Quote, Backslash]), Backslash)
         == Refused(Lexer(Error, [Quote, Backslash]))
  {
    assert [] + [Quote] == [Quote] && [Quote] + [Backslash] == [Quote, Backslash];
  }

  /** A raw control character between quotes is a string lexeme and no string of the RFC. */
  lemma {:induction false} ControlCharacterTaken()
    ensures Ends(Path(Start, [Quote, 1, Quote]), String) && !RfcString([Quote, 1, Quote])
  {
    var items := [Plain(1)];
    assert items[1..] == [] && Body(items) == [1];
    assert [Quote, 1, Quote] == Quoted(Quote, items) && TableItem(Quote, items[0]) && Foreign(items[0]);
    assert StringOf([Quote, 1, Quote], Quote, items);
    StringLexemes([Quote, 1, Quote]);
    StringConforms([Quote, 1, Quote], Quote, items);
  }
}
