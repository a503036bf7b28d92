/**
 The JSON lexer (json-lexer.c:32-340): a table-driven automaton that is fed characters in pieces
 of any size and emits a lexeme when the next character cannot continue it.

 Characters are bytes. A lexeme's text is kept as a C string, so inputs are free of NUL.
 */
module JsonLexer {
  import opened Common

  datatype State =
    | Error | Start
    | InString(double: bool) | StringEscape(double: bool) | Ucode(double: bool, seen: nat) | DoneString
    | Zero | Nonzero | NegNonzero | Mantissa | MantissaDigits | ExpE | Digit | Digits
    | InKeyword | Whitespace | OperatorDone
    | Escape | EscapeL | EscapeLL | EscapeI | EscapeI6 | EscapeI64 | EscapeDone

  datatype Kind = Operator | Integer | Float | Keyword | String | EscapeSpec | Skip

  /** A table entry: the next state, or the kind of the lexeme that has ended. */
  datatype Entry = Go(state: State) | Emit(kind: Kind)

  const Quote: byte := 34

  const Apostrophe: byte := 39

  const Backslash: byte := 92

  predicate IsDigit(c: byte) { 48 <= c <= 57 }

  predicate IsNonzeroDigit(c: byte) { 49 <= c <= 57 }

  predicate IsHex(c: byte) { IsDigit(c) || 97 <= c <= 102 || 65 <= c <= 70 }

  predicate IsLower(c: byte) { 97 <= c <= 122 }

  predicate IsExp(c: byte) { c == 101 || c == 69 }

  predicate IsSign(c: byte) { c == 43 || c == 45 }

  predicate IsBlank(c: byte) { c == 32 || c == 9 || c == 13 || c == 10 }

  predicate IsOperator(c: byte) { c in [123, 125, 91, 93, 44, 58] }

  /** TERMINAL covers the first half of the character set; everything else not listed is an error. */
  function Terminal(kind: Kind, c: byte): Entry { if c <= 0x7f then Emit(kind) else Go(Error) }

  function Table(s: State, c: byte): Entry {
    match s
    case Error => Go(Error)
    case Start =>
      if c == Quote || c == Apostrophe then Go(InString(c == Quote))
      else if c == 48 then Go(Zero)
      else if IsNonzeroDigit(c) then Go(Nonzero)
      else if c == 45 then Go(NegNonzero)
      else if IsOperator(c) then Go(OperatorDone)
      else if IsLower(c) then Go(InKeyword)
      else if c == 37 then Go(Escape)
      else if IsBlank(c) then Go(Whitespace)
      else Go(Error)
    case InString(q) =>
      if c == Backslash then Go(StringEscape(q))
      else if c == (if q then Quote else Apostrophe) then Go(DoneString)
      else if c != 0 then Go(InString(q))
      else Go(Error)
    case StringEscape(q) =>
      if c in [98, 102, 110, 114, 116, Apostrophe, Quote] then Go(InString(q))
      else if c == 117 then Go(Ucode(q, 0))
      else Go(Error)
    case Ucode(q, n) =>
      if !IsHex(c) then Go(Error) else if n < 3 then Go(Ucode(q, n + 1)) else Go(InString(q))
    case DoneString => Terminal(String, c)
    case Zero => if IsDigit(c) then Go(Error) else if c == 46 then Go(Mantissa) else Terminal(Integer, c)
    case Nonzero =>
      if IsDigit(c) then Go(Nonzero)
      else if IsExp(c) then Go(ExpE)
      else if c == 46 then Go(Mantissa)
      else Terminal(Integer, c)
    case NegNonzero => if c == 48 then Go(Zero) else if IsNonzeroDigit(c) then Go(Nonzero) else Go(Error)
    case Mantissa => if IsDigit(c) then Go(MantissaDigits) else Go(Error)
    case MantissaDigits =>
      if IsDigit(c) then Go(MantissaDigits) else if IsExp(c) then Go(ExpE) else Terminal(Float, c)
    case ExpE => if IsSign(c) then Go(Digit) else if IsDigit(c) then Go(Digits) else Go(Error)
    case Digit => if IsDigit(c) then Go(Digits) else Go(Error)
    case Digits => if IsDigit(c) then Go(Digits) else Terminal(Float, c)
    case InKeyword => if IsLower(c) then Go(InKeyword) else Terminal(Keyword, c)
    case Whitespace => if IsBlank(c) then Go(Whitespace) else Terminal(Skip, c)
    case OperatorDone => Terminal(Operator, c)
    case Escape =>
      if c in [100, 105, 112, 115, 102] then Go(EscapeDone)
      else if c == 108 then Go(EscapeL)
      else if c == 73 then Go(EscapeI)
      else Go(Error)
    case EscapeL => if c == 100 then Go(EscapeDone) else if c == 108 then Go(EscapeLL) else Go(Error)
    case EscapeLL => if c == 100 then Go(EscapeDone) else Go(Error)
    case EscapeI => if c == 54 then Go(EscapeI6) else Go(Error)
    case EscapeI6 => if c == 52 then Go(EscapeI64) else Go(Error)
    case EscapeI64 => if c == 100 then Go(EscapeDone) else Go(Error)
    case EscapeDone => Terminal(EscapeSpec, c)
  }

  /** The entry as a state, with Error for an ended lexeme. */
  function Target(e: Entry): State { if e.Go? then e.state else Error }

  // ----- one step, and a run of steps

  datatype Lexeme = Lexeme(kind: Kind, text: seq<byte>)

  datatype Lexer = Lexer(state: State, token: seq<byte>)

  const Init := Lexer(Start, [])

  /** What feeding one character does: the new lexer, the lexeme that ended if one did, or a refusal. */
  datatype Fed = Fed(lexer: Lexer, ended: seq<Lexeme>) | Refused(lexer: Lexer)

  function FeedChar(l: Lexer, c: byte): Fed {
    match Table(l.state, c)
    case Emit(kind) => Fed(Lexer(Target(Table(Start, c)), [c]), [Lexeme(kind, l.token)])
    case Go(s) => if s == Error then Refused(Lexer(Error, l.token)) else Fed(Lexer(s, l.token + [c]), [])
  }

  /** A run over a piece of input: it stops at the first refusal. */
  datatype Run = Run(lexer: Lexer, lexemes: seq<Lexeme>, taken: nat, ok: bool)

  function Feed(l: Lexer, s: seq<byte>): (r: Run)
    ensures r.taken <= |s| && (r.ok <==> r.taken == |s|)
    decreases |s|
  {
    if s == [] then Run(l, [], 0, true)
    else
      match FeedChar(l, s[0])
      case Refused(l') => Run(l', [], 0, false)
      case Fed(l', ended) => var r := Feed(l', s[1..]); Run(r.lexer, ended + r.lexemes, r.taken + 1, r.ok)
  }

  /** Feeding in two pieces is feeding at once, up to the first refusal. */
  lemma {:induction false} FeedConcat(l: Lexer, a: seq<byte>, b: seq<byte>)
    ensures var ra := Feed(l, a);
            if ra.ok then
              var rb := Feed(ra.lexer, b);
              Feed(l, a + b) == Run(rb.lexer, ra.lexemes + rb.lexemes, |a| + rb.taken, rb.ok)
            else Feed(l, a + b) == ra
    decreases |a|
  {
    hide FeedChar;
    if a == [] {
      assert a + b == b;
    } else {
      assert (a + b)[0] == a[0] && (a + b)[1..] == a[1..] + b;
      match FeedChar(l, a[0])
      case Refused(_) =>
      case Fed(l', ended) =>
        FeedConcat(l', a[1..], b);
        var (ra, r1) := (Feed(l, a), Feed(l', a[1..]));
        if ra.ok {
          var rb := Feed(ra.lexer, b);
          assert ended + (r1.lexemes + rb.lexemes) == (ended + r1.lexemes) + rb.lexemes;
        }
    }
  }

  // ----- nothing is lost

  ghost function Text(ls: seq<Lexeme>): seq<byte> { if ls == [] then [] else ls[0].text + Text(ls[1..]) }

  lemma {:induction false} TextConcat(a: seq<Lexeme>, b: seq<Lexeme>)
    ensures Text(a + b) == Text(a) + Text(b)
  {
    if a == [] {
      assert a + b == b;
    } else {
      assert (a + b)[1..] == a[1..] + b;
      TextConcat(a[1..], b);
    }
  }

  /** Lexemes, whitespace among them, and the pending token spell out exactly the characters taken. */
  lemma {:induction false} NothingLost(l: Lexer, s: seq<byte>)
    ensures var r := Feed(l, s); Text(r.lexemes) + r.lexer.token == l.token + s[..r.taken]
    decreases |s|
  {
    hide FeedChar, Text;
    if s == [] {
      NoText();
    } else if FeedChar(l, s[0]).Fed? {
      NothingLost(FeedChar(l, s[0]).lexer, s[1..]);
      NothingLostStep(l, s);
    } else {
      NoText();
      RefusedKeeps(l, s[0]);
    }
  }

  lemma {:induction false} NoText()
    ensures Text([]) == []
  {}

  lemma {:induction false} RefusedKeeps(l: Lexer, c: byte)
    requires FeedChar(l, c).Refused?
    ensures FeedChar(l, c).lexer.token == l.token
  {}

  lemma {:induction false} FeedUnfolds(l: Lexer, s: seq<byte>)
    requires s != [] && FeedChar(l, s[0]).Fed?
    ensures var (f, r) := (FeedChar(l, s[0]), Feed(l, s));
            var r1 := Feed(f.lexer, s[1..]);
            r.lexemes == f.ended + r1.lexemes && r.lexer == r1.lexer && r.taken == r1.taken + 1
  {
    hide FeedChar;
  }

  lemma {:induction false} NothingLostStep(l: Lexer, s: seq<byte>)
    requires s != [] && FeedChar(l, s[0]).Fed?
    requires var (l', r) := (FeedChar(l, s[0]).lexer, Feed(FeedChar(l, s[0]).lexer, s[1..]));
             Text(r.lexemes) + r.lexer.token == l'.token + s[1..][..r.taken]
    ensures var r := Feed(l, s); Text(r.lexemes) + r.lexer.token == l.token + s[..r.taken]
  {
    hide Feed, FeedChar, Text;
    var (l', ended) := (FeedChar(l, s[0]).lexer, FeedChar(l, s[0]).ended);
    OneTaken(l, s[0]);
    FeedUnfolds(l, s);
    var (r, r1) := (Feed(l, s), Feed(l', s[1..]));
    TextConcat(ended, r1.lexemes);
    var rest := s[1..][..r1.taken];
    assert s[..r.taken] == [s[0]] + rest;
    Spell(Text(ended), Text(r1.lexemes), r1.lexer.token, l'.token, rest, l.token, [s[0]]);
  }

  lemma {:induction false} OneTaken(l: Lexer, c: byte)
    requires FeedChar(l, c).Fed?
    ensures Text(FeedChar(l, c).ended) + FeedChar(l, c).lexer.token == l.token + [c]
  {
    var ended := FeedChar(l, c).ended;
    if ended != [] {
      assert ended[1..] == [];
      assert l.token + [] == l.token;
    } else {
      assert [] + (l.token + [c]) == l.token + [c];
    }
  }

  lemma {:induction false} Spell(e: seq<byte>, r: seq<byte>, t: seq<byte>, mid: seq<byte>, rest: seq<byte>,
                                 tok: seq<byte>, c: seq<byte>)
    requires r + t == mid + rest && e + mid == tok + c
    ensures (e + r) + t == tok + (c + rest)
  {
    assert (e + r) + t == e + (r + t);
    assert e + (mid + rest) == (e + mid) + rest;
    assert (tok + c) + rest == tok + (c + rest);
  }

  // ----- errors

  /** An error is final: nothing more is taken or emitted. */
  lemma {:induction false} ErrorIsFinal(l: Lexer, s: seq<byte>)
    requires l.state == Error && s != []
    ensures Feed(l, s) == Run(l, [], 0, false)
  {}

  /** Flushing feeds NUL, which ends any lexeme that may end and starts none, so a lexer is good for one
      flush. */
  lemma {:induction false} FlushIsFinal(l: Lexer)
    ensures FeedChar(l, 0).lexer.state == Error
  {}

  // ----- what a lexeme may be

  /** The state a text leads to, with Error for one that goes on past the end of a lexeme. */
  function Path(s: State, text: seq<byte>): State {
    if text == [] then s else Target(Table(Path(s, text[..|text| - 1]), text[|text| - 1]))
  }

  /** The kind of a text that leads to this state, if it may end there. */
  predicate Ends(s: State, kind: Kind) {
    match s
    case DoneString => kind == String
    case Zero | Nonzero => kind == Integer
    case MantissaDigits | Digits => kind == Float
    case InKeyword => kind == Keyword
    case Whitespace => kind == Skip
    case OperatorDone => kind == Operator
    case EscapeDone => kind == EscapeSpec
    case _ => false
  }

  /** The pending token leads to the lexer's state. */
  ghost predicate Tracks(l: Lexer) { Path(Start, l.token) == l.state }

  lemma {:induction false} EmitEnds(s: State, c: byte)
    requires Table(s, c).Emit?
    ensures Ends(s, Table(s, c).kind)
  {}

  lemma {:induction false} PathMore(s: State, text: seq<byte>, c: byte)
    ensures Path(s, text + [c]) == Target(Table(Path(s, text), c))
  {
    assert (text + [c])[..|text|] == text;
  }

  lemma {:induction false} FeedCharTracks(l: Lexer, c: byte)
    requires Tracks(l) && FeedChar(l, c).Fed?
    ensures Tracks(FeedChar(l, c).lexer)
    ensures forall x :: x in FeedChar(l, c).ended ==> Ends(Path(Start, x.text), x.kind)
  {
    PathMore(Start, l.token, c);
    PathMore(Start, [], c);
    assert [] + [c] == [c];
    if Table(l.state, c).Emit? { EmitEnds(l.state, c); }
    hide Table, Path;
  }

  /** Every lexeme of every run is a text that the table accepts for its kind. */
  lemma {:induction false} LexemesAccepted(l: Lexer, s: seq<byte>)
    requires Tracks(l)
    ensures forall x :: x in Feed(l, s).lexemes ==> Ends(Path(Start, x.text), x.kind)
    decreases |s|
  {
    hide Tracks, FeedChar, Ends, Path;
    if s != [] && FeedChar(l, s[0]).Fed? {
      FeedCharTracks(l, s[0]);
      LexemesAccepted(FeedChar(l, s[0]).lexer, s[1..]);
    }
  }

  lemma {:induction false} PathConcat(s: State, a: seq<byte>, b: seq<byte>)
    ensures Path(s, a + b) == Path(Path(s, a), b)
    decreases |b|
  {
    hide Table, Target;
    if b == [] {
      assert a + b == a;
    } else {
      assert (a + b)[..|a + b| - 1] == a + b[..|b| - 1];
      PathConcat(s, a, b[..|b| - 1]);
    }
  }

  // ----- where a run is refused

  /** The character cannot go on with the pending token, which is the front of some lexeme. */
  ghost predicate CannotContinue(token: seq<byte>, c: byte) {
    Path(Start, token) != Error && Table(Path(Start, token), c) == Go(Error)
  }

  /** The character ended the lexeme before it and starts none. */
  ghost predicate EndsAndStartsNone(token: seq<byte>, c: byte) {
    Table(Path(Start, token), c).Emit? && Path(Start, [c]) == Error
  }

  /** A lexer that was fed from the start is in the error state, without having refused anything, exactly after a
      character that ended a lexeme and starts none. */
  lemma {:induction false} LateError(s: seq<byte>)
    ensures var r := Feed(Init, s);
            r.ok && r.lexer.state == Error <==>
              s != [] && var front := Feed(Init, s[..|s| - 1]);
                         front.ok && EndsAndStartsNone(front.lexer.token, s[|s| - 1])
    ensures Feed(Init, s).ok ==> Tracks(Feed(Init, s).lexer)
  {
    hide Feed, Table, Path, FeedChar;
    if s == [] {
      StartRun(Init, s);
      assert s[..0] == s;
      StartsAtStart();
    } else {
      var (init, c) := (s[..|s| - 1], s[|s| - 1]);
      var front := Feed(Init, init);
      LateError(init);
      InitLast(s);
      FeedConcat(Init, init, [c]);
      if front.ok {
        FeedSingle(front.lexer, c);
        FedState(front.lexer, c);
      }
    }
  }

  lemma {:induction false} StartsAtStart()
    ensures Path(Start, []) == Start && Tracks(Init)
  {}

  /** What one character does to the state, in terms of the pending token. */
  lemma {:induction false} FedState(l: Lexer, c: byte)
    requires Tracks(l)
    ensures FeedChar(l, c).Fed? ==> Tracks(FeedChar(l, c).lexer)
    ensures FeedChar(l, c).Fed? && FeedChar(l, c).lexer.state == Error <==> EndsAndStartsNone(l.token, c)
    ensures FeedChar(l, c).Refused? <==> CannotContinue(l.token, c) || l.state == Error
  {
    if FeedChar(l, c).Fed? { FeedCharTracks(l, c); }
    PathOne(Start, c);
    ErrorEntry(c);
    hide Path, Table, Target;
    TargetIs(Table(Start, c));
  }

  lemma {:induction false} ErrorEntry(c: byte)
    ensures Table(Error, c) == Go(Error)
  {}

  lemma {:induction false} TargetIs(e: Entry)
    ensures Target(e) == if e.Go? then e.state else Error
  {}

  /** A run from the start is refused either at a character that cannot go on with the pending token, or one
      character after one that ended a lexeme and starts none. */
  lemma {:induction false} RefusedWhere(s: seq<byte>)
    requires !Feed(Init, s).ok
    ensures var r := Feed(Init, s);
            var front := Feed(Init, s[..r.taken]);
            && front.ok && front.lexemes == r.lexemes && front.lexer.token == r.lexer.token
            && (|| CannotContinue(r.lexer.token, s[r.taken])
                || (r.taken > 0 && EndsAndStartsNone(Feed(Init, s[..r.taken - 1]).lexer.token, s[r.taken - 1])
                    && r.lexer.token == [s[r.taken - 1]]))
    decreases |s|
  {
    hide Feed, Table, Path, FeedChar, Tracks;
    var (init, c) := (s[..|s| - 1], s[|s| - 1]);
    var front := Feed(Init, init);
    InitLast(s);
    FeedConcat(Init, init, [c]);
    if !front.ok {
      RefusedWhere(init);
      assert init[..front.taken] == s[..front.taken];
      if front.taken > 0 { assert init[..front.taken - 1] == s[..front.taken - 1]; }
    } else {
      LateError(init);
      FeedSingle(front.lexer, c);
      FedState(front.lexer, c);
      RefusedKeeps(front.lexer, c);
      if front.lexer.state == Error { LateToken(init); }
      if init != [] { assert init[..|init| - 1] == s[..|init| - 1]; }
    }
  }

  /** After a late error the pending token is the character that starts nothing. */
  lemma {:induction false} LateToken(s: seq<byte>)
    requires Feed(Init, s).ok && Feed(Init, s).lexer.state == Error
    ensures s != [] && Feed(Init, s).lexer.token == [s[|s| - 1]]
  {
    hide Feed, Table, Path, FeedChar;
    LateError(s);
    var (init, c) := (s[..|s| - 1], s[|s| - 1]);
    InitLast(s);
    FeedConcat(Init, init, [c]);
    LateError(init);
    FeedSingle(Feed(Init, init).lexer, c);
    EmitToken(Feed(Init, init).lexer, c);
  }

  lemma {:induction false} EmitToken(l: Lexer, c: byte)
    requires Tracks(l) && EndsAndStartsNone(l.token, c)
    ensures FeedChar(l, c).Fed? && FeedChar(l, c).lexer.token == [c]
  {}

  /** The two characters 1$ are taken without complaint, and the next one is refused. */
  lemma {:induction false} LateErrorExample(c: byte)
    ensures Feed(Init, [49] + [36]) == Run(Lexer(Error, [36]), [Lexeme(Integer, [49])], 2, true)
    ensures Feed(Init, [49] + [36] + [c]) == Run(Lexer(Error, [36]), [Lexeme(Integer, [49])], 2, false)
  {
    OneDollar();
    ErrorIsFinal(Lexer(Error, [36]), [c]);
    FeedSingle(Init, 49);
    FeedSingle(Lexer(Nonzero, [49]), 36);
    hide Feed, FeedChar;
    FeedConcat(Init, [49], [36]);
    FeedConcat(Init, [49] + [36], [c]);
    assert [] + [Lexeme(Integer, [49])] == [Lexeme(Integer, [49])];
  }

  lemma {:induction false} OneDollar()
    ensures FeedChar(Init, 49) == Fed(Lexer(Nonzero, [49]), [])
    ensures FeedChar(Lexer(Nonzero, [49]), 36) == Fed(Lexer(Error, [36]), [Lexeme(Integer, [49])])
  {
    assert [] + [49] == [49];
  }

  // ----- numbers, after section 2.4 of RFC 4627

  predicate AllDigits(s: seq<byte>) { forall i :: 0 <= i < |s| ==> IsDigit(s[i]) }

  /** The pieces of a number: minus, int, the point, the digits of frac, the e, its sign and its digits. */
  datatype Number = Number(minus: seq<byte>, whole: seq<byte>, point: seq<byte>, frac: seq<byte>, e: seq<byte>,
                           sign: seq<byte>, exp: seq<byte>)

  function Spelled(n: Number): seq<byte> { n.minus + n.whole + n.point + n.frac + n.e + n.sign + n.exp }

  /** int: a zero, or digits that do not start with one. */
  predicate IsWhole(s: seq<byte>) { s == [48] || (s != [] && IsNonzeroDigit(s[0]) && AllDigits(s)) }

  predicate HasFrac(n: Number) { n.point != [] }

  predicate HasExp(n: Number) { n.e != [] }

  /** number = [ minus ] int [ frac ] [ exp ]. */
  predicate IsNumber(n: Number) {
    && (n.minus == [] || n.minus == [45])
    && IsWhole(n.whole)
    && (if HasFrac(n) then n.point == [46] && n.frac != [] && AllDigits(n.frac) else n.frac == [])
    && (if HasExp(n) then
          && (n.e == [101] || n.e == [69]) && (n.sign == [] || n.sign == [43] || n.sign == [45])
          && n.exp != [] && AllDigits(n.exp)
        else n.sign == [] && n.exp == [])
  }

  /** A zero with an exponent and no fraction: a number of the RFC that the table does not take as one lexeme. */
  predicate ZeroExp(n: Number) { n.whole == [48] && !HasFrac(n) && HasExp(n) }

  lemma {:induction false} DigitsStay(s: State, text: seq<byte>)
    requires AllDigits(text) && (s == Nonzero || s == MantissaDigits || s == Digits)
    ensures Path(s, text) == s
  {
    if text != [] { DigitsStay(s, text[..|text| - 1]); }
  }

  /** Digits after a state that takes the first one. */
  lemma {:induction false} DigitsLead(s: State, text: seq<byte>, to: State)
    requires text != [] && AllDigits(text) && Table(s, text[0]) == Go(to) &&
             (to == Nonzero || to == MantissaDigits || to == Digits)
    ensures Path(s, text) == to
  {
    assert text == [text[0]] + text[1..];
    PathConcat(s, [text[0]], text[1..]);
    assert Path(s, [text[0]]) == to by { PathMore(s, [], text[0]); assert [] + [text[0]] == [text[0]]; }
    hide Path, Table;
    DigitsStay(to, text[1..]);
  }

  lemma {:induction false} PathOne(s: State, c: byte)
    ensures Path(s, [c]) == Target(Table(s, c))
  {
    PathMore(s, [], c);
    assert [] + [c] == [c];
  }

  lemma {:induction false} WholePath(minus: seq<byte>, whole: seq<byte>)
    requires (minus == [] || minus == [45]) && IsWhole(whole)
    ensures Path(Start, minus + whole) == if whole == [48] then Zero else Nonzero
  {
    PathConcat(Start, minus, whole);
    PathOne(Start, 45);
    var s := Path(Start, minus);
    assert s == if minus == [] then Start else NegNonzero;
    if whole == [48] { PathOne(s, 48); } else { DigitsLead(s, whole, Nonzero); }
  }

  lemma {:induction false} FracPath(s: State, frac: seq<byte>)
    requires (s == Zero || s == Nonzero) && frac != [] && AllDigits(frac)
    ensures Path(s, [46] + frac) == MantissaDigits
  {
    PathConcat(s, [46], frac);
    PathOne(s, 46);
    assert Path(s, [46]) == Mantissa;
    assert Table(Mantissa, frac[0]) == Go(MantissaDigits);
    hide Path;
    DigitsLead(Mantissa, frac, MantissaDigits);
  }

  lemma {:induction false} ExpPath(s: State, e: seq<byte>, sign: seq<byte>, exp: seq<byte>)
    requires (s == Nonzero || s == MantissaDigits) && (e == [101] || e == [69])
    requires (sign == [] || sign == [43] || sign == [45]) && exp != [] && AllDigits(exp)
    ensures Path(s, e + sign + exp) == Digits
  {
    hide Path, Table;
    PathConcat(s, e + sign, exp);
    PathConcat(s, e, sign);
    EPath(s, e);
    SignPath(sign);
    FirstExpDigit(exp[0]);
    DigitsLead(Path(ExpE, sign), exp, Digits);
  }

  lemma {:induction false} EPath(s: State, e: seq<byte>)
    requires (s == Nonzero || s == MantissaDigits) && (e == [101] || e == [69])
    ensures Path(s, e) == ExpE
  {
    PathOne(s, e[0]);
    assert e == [e[0]];
  }

  lemma {:induction false} SignPath(sign: seq<byte>)
    requires sign == [] || sign == [43] || sign == [45]
    ensures Path(ExpE, sign) == if sign == [] then ExpE else Digit
  {
    if sign != [] {
      PathOne(ExpE, sign[0]);
      assert sign == [sign[0]];
    }
  }

  lemma {:induction false} FirstExpDigit(c: byte)
    requires IsDigit(c)
    ensures Table(ExpE, c) == Go(Digits) && Table(Digit, c) == Go(Digits)
  {}

  /** Every number of the RFC but a zero with a bare exponent is taken whole, as an integer exactly when it has
      neither fraction nor exponent. */
  lemma {:induction false} NumbersAccepted(n: Number)
    requires IsNumber(n) && !ZeroExp(n)
    ensures Ends(Path(Start, Spelled(n)), if HasFrac(n) || HasExp(n) then Float else Integer)
  {
    hide Path, Table;
    var base := n.minus + n.whole;
    WholePath(n.minus, n.whole);
    var s := Path(Start, base);
    if HasFrac(n) { FracPath(s, n.frac); }
    PathConcat(Start, base, n.point + n.frac);
    var mid := base + (n.point + n.frac);
    var s' := Path(Start, mid);
    assert !HasFrac(n) ==> base + (n.point + n.frac) == base;
    assert s' == if HasFrac(n) then MantissaDigits else s;
    if HasExp(n) {
      ExpPath(s', n.e, n.sign, n.exp);
      PathConcat(Start, mid, n.e + n.sign + n.exp);
    }
    SpelledParts(n);
    assert !HasExp(n) ==> mid + (n.e + n.sign + n.exp) == mid;
  }

  lemma {:induction false} SpelledParts(n: Number)
    ensures Spelled(n) == (n.minus + n.whole + (n.point + n.frac)) + (n.e + n.sign + n.exp)
  {}

  lemma {:induction false} ErrorStays(text: seq<byte>)
    ensures Path(Error, text) == Error
  {
    if text != [] { ErrorStays(text[..|text| - 1]); }
  }

  /** A zero with a bare exponent is not one lexeme. */
  lemma {:induction false} ZeroExpRefused(n: Number)
    requires IsNumber(n) && ZeroExp(n)
    ensures Path(Start, Spelled(n)) == Error
  {
    hide Path, Table;
    var (base, rest) := (n.minus + n.whole, n.sign + n.exp);
    WholePath(n.minus, n.whole);
    PathMore(Start, base, n.e[0]);
    ZeroThenE(n.e[0]);
    assert n.e == [n.e[0]];
    PathConcat(Start, base + n.e, rest);
    ErrorStays(rest);
    assert Spelled(n) == (base + n.e) + rest;
  }

  lemma {:induction false} ZeroThenE(c: byte)
    requires IsExp(c)
    ensures Target(Table(Zero, c)) == Error
  {}

  lemma {:induction false} FeedStep(l: Lexer, c: byte, rest: seq<byte>, l': Lexer, ended: seq<Lexeme>)
    requires FeedChar(l, c) == Fed(l', ended)
    ensures Feed(l, [c] + rest).lexemes == ended + Feed(l', rest).lexemes
  {
    assert ([c] + rest)[1..] == rest;
  }

  /** The four characters 0e1 and a blank are three lexemes. */
  lemma {:induction false} ZeroExpSplits()
    ensures Feed(Init, [48] + ([101] + ([49] + ([32] + [])))).lexemes
         == [Lexeme(Integer, [48]), Lexeme(Keyword, [101]), Lexeme(Integer, [49])]
  {
    hide Feed, FeedChar, Table;
    var (a, b, c, d) := (Lexer(Zero, [48]), Lexer(InKeyword, [101]), Lexer(Nonzero, [49]), Lexer(Whitespace, [32]));
    ZeroExpSteps();
    FeedStep(Init, 48, [101] + ([49] + ([32] + [])), a, []);
    FeedStep(a, 101, [49] + ([32] + []), b, [Lexeme(Integer, [48])]);
    FeedStep(b, 49, [32] + [], c, [Lexeme(Keyword, [101])]);
    FeedStep(c, 32, [], d, [Lexeme(Integer, [49])]);
    NothingFed(d);
  }

  lemma {:induction false} ZeroExpSteps()
    ensures FeedChar(Init, 48) == Fed(Lexer(Zero, [48]), [])
    ensures FeedChar(Lexer(Zero, [48]), 101) == Fed(Lexer(InKeyword, [101]), [Lexeme(Integer, [48])])
    ensures FeedChar(Lexer(InKeyword, [101]), 49) == Fed(Lexer(Nonzero, [49]), [Lexeme(Keyword, [101])])
    ensures FeedChar(Lexer(Nonzero, [49]), 32) == Fed(Lexer(Whitespace, [32]), [Lexeme(Integer, [49])])
  {
    assert [] + [48] == [48];
  }

  lemma {:induction false} NothingFed(l: Lexer)
    ensures Feed(l, []).lexemes == []
  {}

  // ----- and nothing else is taken for a number

  /** How far a text has come as a number: the pieces from some point on are still missing. */
  ghost predicate PartOf(s: State, n: Number) {
    && (n.minus == [] || n.minus == [45])
    && (match s
        case NegNonzero => n == Number([45], [], [], [], [], [], [])
        case Zero => n == Number(n.minus, [48], [], [], [], [], [])
        case Nonzero => IsWhole(n.whole) && n.whole != [48] && n == Number(n.minus, n.whole, [], [], [], [], [])
        case Mantissa => IsWhole(n.whole) && n == Number(n.minus, n.whole, [46], [], [], [], [])
        case MantissaDigits => IsNumber(n) && HasFrac(n) && !HasExp(n)
        case ExpE => HasBase(n) && IsE(n.e) && n.sign == [] && n.exp == []
        case Digit => HasBase(n) && IsE(n.e) && (n.sign == [43] || n.sign == [45]) && n.exp == []
        case Digits => IsNumber(n) && !ZeroExp(n) && HasExp(n)
        case _ => false)
  }

  predicate IsE(e: seq<byte>) { e == [101] || e == [69] }

  /** The part before an exponent. */
  predicate HasBase(n: Number) {
    && IsWhole(n.whole) && (HasFrac(n) || n.whole != [48])
    && (if HasFrac(n) then n.point == [46] && n.frac != [] && AllDigits(n.frac) else n.frac == [])
  }

  predicate NumberState(s: State) {
    s in {NegNonzero, Zero, Nonzero, Mantissa, MantissaDigits, ExpE, Digit, Digits}
  }

  /** One more character: which piece it joins. */
  function Grown(s: State, n: Number, c: byte): Number {
    match s
    case Start => if c == 45 then Number([45], [], [], [], [], [], []) else Number([], [c], [], [], [], [], [])
    case NegNonzero => n.(whole := [c])
    case Zero => n.(point := [c])
    case Nonzero =>
      if IsDigit(c) then n.(whole := n.whole + [c]) else if c == 46 then n.(point := [c]) else n.(e := [c])
    case Mantissa => n.(frac := [c])
    case MantissaDigits => if IsDigit(c) then n.(frac := n.frac + [c]) else n.(e := [c])
    case ExpE => if IsDigit(c) then n.(exp := [c]) else n.(sign := [c])
    case _ => n.(exp := n.exp + [c])
  }

  lemma {:induction false} DigitJoins(s: seq<byte>, c: byte)
    requires AllDigits(s) && IsDigit(c)
    ensures AllDigits(s + [c])
  {}

  lemma {:induction false} GrownWhole(s: State, n: Number, c: byte)
    requires NumberState(Target(Table(s, c))) && (s == Start || (s in {NegNonzero, Zero, Nonzero} && PartOf(s, n)))
    ensures PartOf(Target(Table(s, c)), Grown(s, n, c))
  {
    if s == Nonzero && IsDigit(c) { DigitJoins(n.whole, c); }
  }

  lemma {:induction false} GrownFrac(s: State, n: Number, c: byte)
    requires NumberState(Target(Table(s, c))) && s in {Mantissa, MantissaDigits} && PartOf(s, n)
    ensures PartOf(Target(Table(s, c)), Grown(s, n, c))
  {
    if s == MantissaDigits && IsDigit(c) { DigitJoins(n.frac, c); }
    hide IsWhole;
  }

  lemma {:induction false} GrownExp(s: State, n: Number, c: byte)
    requires NumberState(Target(Table(s, c))) && s in {ExpE, Digit, Digits} && PartOf(s, n)
    ensures PartOf(Target(Table(s, c)), Grown(s, n, c))
  {
    if s == Digits { DigitJoins(n.exp, c); }
    hide IsWhole;
  }

  lemma {:induction false} GrownPart(s: State, n: Number, c: byte)
    requires NumberState(Target(Table(s, c))) && (s == Start || PartOf(s, n))
    ensures PartOf(Target(Table(s, c)), Grown(s, n, c))
  {
    NumberBefore(s, c);
    hide Table, Grown, PartOf;
    if s in {ExpE, Digit, Digits} {
      GrownExp(s, n, c);
    } else if s in {Mantissa, MantissaDigits} {
      GrownFrac(s, n, c);
    } else {
      GrownWhole(s, n, c);
    }
  }

  const NoNumber := Number([], [], [], [], [], [], [])

  /** The pieces a number state has not come to yet. */
  lemma {:induction false} Missing(s: State, n: Number)
    requires if s == Start then n == NoNumber else PartOf(s, n)
    ensures n.exp != [] ==> s == Digits
    ensures n.sign != [] ==> s == Digits || s == Digit
    ensures n.e != [] ==> s in {ExpE, Digit, Digits}
    ensures n.frac != [] ==> s in {MantissaDigits, ExpE, Digit, Digits}
    ensures n.point != [] ==> s in {Mantissa, MantissaDigits, ExpE, Digit, Digits}
    ensures s in {Start, NegNonzero} ==> n.whole == []
    ensures s == Start ==> n.minus == []
  {
    hide IsWhole, AllDigits;
  }

  lemma {:induction false} GrownSpelled(s: State, n: Number, c: byte)
    requires NumberState(Target(Table(s, c))) && (if s == Start then n == NoNumber else PartOf(s, n))
    ensures Spelled(Grown(s, n, c)) == Spelled(n) + [c]
  {
    NumberBefore(s, c);
    OnlyDigits(s, c);
    Missing(s, n);
    hide Table, PartOf;
    if s in {ExpE, Digit, Digits} {
      SpelledExp(s, n, c);
    } else if s in {Mantissa, MantissaDigits} {
      SpelledFrac(s, n, c);
    } else {
      SpelledWhole(s, n, c);
    }
  }

  lemma {:induction false} SpelledExp(s: State, n: Number, c: byte)
    requires s in {ExpE, Digit, Digits} && (s == ExpE ==> n.sign == []) && (s != Digits ==> n.exp == [])
    ensures Spelled(Grown(s, n, c)) == Spelled(n) + [c]
  {}

  lemma {:induction false} SpelledFrac(s: State, n: Number, c: byte)
    requires s in {Mantissa, MantissaDigits} && n.e == n.sign == n.exp == [] && (s == Mantissa ==> n.frac == [])
    ensures Spelled(Grown(s, n, c)) == Spelled(n) + [c]
  {}

  lemma {:induction false} SpelledWhole(s: State, n: Number, c: byte)
    requires s in {Start, NegNonzero, Zero, Nonzero} && n.point == n.frac == n.e == n.sign == n.exp == []
    requires (s in {Start, NegNonzero} ==> n.whole == []) && (s == Start ==> n.minus == [])
    ensures Spelled(Grown(s, n, c)) == Spelled(n) + [c]
  {}

  /** After these states only a digit goes on. */
  lemma {:induction false} OnlyDigits(s: State, c: byte)
    requires NumberState(Target(Table(s, c)))
    ensures s == Mantissa || s == Digit || s == Digits ==> IsDigit(c)
  {}

  /** Only number states lead to number states. */
  lemma {:induction false} NumberBefore(s: State, c: byte)
    requires NumberState(Target(Table(s, c)))
    ensures s == Start || NumberState(s)
  {}

  /** A text that leads from the start to a number state is the front of a number, and here are its pieces. */
  lemma {:induction false} NumberPieces(text: seq<byte>) returns (n: Number)
    requires NumberState(Path(Start, text))
    ensures PartOf(Path(Start, text), n) && Spelled(n) == text
    decreases |text|
  {
    hide Table, PartOf, Grown;
    var (init, c) := (text[..|text| - 1], text[|text| - 1]);
    var s := Path(Start, init);
    NumberBefore(s, c);
    n := NoNumber;
    if s != Start {
      n := NumberPieces(init);
    } else {
      NotStart(init);
    }
    GrownPart(s, n, c);
    GrownSpelled(s, n, c);
    assert text == init + [c];
    n := Grown(s, n, c);
  }

  lemma {:induction false} NotStart(text: seq<byte>)
    requires Path(Start, text) == Start
    ensures text == []
  {}

  /** The lexemes the lexer calls integers and floats are exactly the numbers of the RFC, without and with a
      fraction or exponent, except a zero with a bare exponent. */
  lemma {:induction false} NumberLexemes(text: seq<byte>)
    ensures Ends(Path(Start, text), Integer) <==>
              exists n :: IsNumber(n) && Spelled(n) == text && !HasFrac(n) && !HasExp(n)
    ensures Ends(Path(Start, text), Float) <==>
              exists n :: IsNumber(n) && Spelled(n) == text && (HasFrac(n) || HasExp(n)) && !ZeroExp(n)
  {
    var s := Path(Start, text);
    if Ends(s, Integer) || Ends(s, Float) {
      var n := NumberPieces(text);
      assert IsNumber(n) && !ZeroExp(n) && Spelled(n) == text;
    }
    forall n | IsNumber(n) && Spelled(n) == text && !ZeroExp(n)
      ensures Ends(s, if HasFrac(n) || HasExp(n) then Float else Integer)
    {
      NumbersAccepted(n);
    }
  }

  // ----- the object

  function Newlines(s: seq<byte>): nat {
    if s == [] then 0 else Newlines(s[..|s| - 1]) + if s[|s| - 1] == 10 then 1 else 0
  }

  /** Characters since the last newline. */
  function Column(s: seq<byte>): nat { if s == [] || s[|s| - 1] == 10 then 0 else Column(s[..|s| - 1]) + 1 }

  class Scanner {
    var l: Lexer
    var x: int
    var y: int
    var emitted: seq<Lexeme>     // what the emitter was called with, in order
    ghost var lexemes: seq<Lexeme>   // the same with skipped whitespace
    ghost var taken: seq<byte>
    ghost var offered: seq<byte>

    ghost predicate Valid()
      reads this
    {
      && Text(lexemes) + l.token == taken && emitted == Visible(lexemes)
      && (forall k :: k in lexemes ==> Ends(Path(Start, k.text), k.kind))
      && (l.state != Error ==> Tracks(l))
      && x == Column(offered) && y == Newlines(offered)
    }

    constructor ()
      ensures Valid() && l == Init && taken == [] && emitted == []
    {
      l, x, y, emitted, lexemes, taken, offered := Init, 0, 0, [], [], [], [];
    }

    /** json_lexer_feed_char. */
    method FeedOne(c: byte) returns (ret: int)
      requires Valid()
      modifies this
      ensures Valid() && offered == old(offered) + [c]
      ensures var f := FeedChar(old(l), c);
              l == f.lexer && (ret == if f.Fed? then 0 else -EINVAL) &&
              lexemes == old(lexemes) + (if f.Fed? then f.ended else []) &&
              taken == old(taken) + if f.Fed? then [c] else []
      ensures emitted == old(emitted) || (|emitted| == |old(emitted)| + 1 && emitted[..|old(emitted)|] == old(emitted))
    {
      EndedOne(l, c);
      hide Table, Path, Ends, FeedChar, Text, Visible, Tracks, Newlines, Column;
      PlaceStep(offered, c);
      FedOk(l, c, lexemes, taken);
      x := x + 1;
      if c == 10 { x, y := 0, y + 1; }
      offered := offered + [c];
      match FeedChar(l, c)
      case Refused(l') =>
        l := l';
        ret := -EINVAL;
      case Fed(l', ended) =>
        if |ended| > 0 && ended[0].kind != Skip { emitted := emitted + ended; }
        lexemes := lexemes + ended;
        taken := taken + [c];
        l := l';
        ret := 0;
    }

    /** json_lexer_feed: the same as one run, whatever was fed before. */
    method FeedAll(s: seq<byte>) returns (ret: int)
      requires Valid()
      modifies this
      ensures Valid()
      ensures var r := Feed(old(l), s);
              l == r.lexer && lexemes == old(lexemes) + r.lexemes && taken == old(taken) + s[..r.taken] &&
              ret == if r.ok then 0 else -EINVAL
    {
      hide Feed, FeedChar, Path, Ends, Text, Visible, Newlines, Column, Tracks;
      var i := 0;
      ghost var ls: seq<Lexeme> := [];
      StartRun(l, s);
      while i < |s|
        invariant i <= |s| && Valid() && Feed(old(l), s[..i]) == Run(l, ls, i, true)
        invariant lexemes == old(lexemes) + ls && taken == old(taken) + s[..i]
      {
        ghost var f := FeedChar(l, s[i]);
        RunStep(old(l), s, i, l, ls);
        ret := FeedOne(s[i]);
        if ret < 0 { return; }
        ls := ls + f.ended;
        i := i + 1;
      }
      assert s[..i] == s;
      ret := 0;
    }
  }

  lemma {:induction false} EndedOne(l: Lexer, c: byte)
    ensures FeedChar(l, c).Fed? ==> |FeedChar(l, c).ended| <= 1
  {}

  /** An accepted text is never empty. */
  lemma {:induction false} AcceptedNotEmpty(text: seq<byte>, kind: Kind)
    requires Ends(Path(Start, text), kind)
    ensures text != []
  {}

  lemma {:induction false} PlaceStep(s: seq<byte>, c: byte)
    ensures Column(s + [c]) == (if c == 10 then 0 else Column(s) + 1)
    ensures Newlines(s + [c]) == Newlines(s) + if c == 10 then 1 else 0
  {
    assert (s + [c])[..|s|] == s;
  }

  lemma {:induction false} StartRun(l: Lexer, s: seq<byte>)
    ensures Feed(l, s[..0]) == Run(l, [], 0, true)
  {}

  /** One more character of a run that has gone well so far. */
  lemma {:induction false} RunStep(l0: Lexer, s: seq<byte>, i: nat, l: Lexer, ls: seq<Lexeme>)
    requires i < |s| && Feed(l0, s[..i]) == Run(l, ls, i, true)
    ensures var f := FeedChar(l, s[i]);
            if f.Fed? then Feed(l0, s[..i + 1]) == Run(f.lexer, ls + f.ended, i + 1, true)
            else Feed(l0, s) == Run(f.lexer, ls, i, false)
  {
    hide Feed, FeedChar;
    var c := s[i];
    SplitNext(s, i);
    FeedConcat(l0, s[..i], [c]);
    FeedSingle(l, c);
    FeedConcat(l0, s[..i + 1], s[i + 1..]);
    assert ls + [] == ls;
  }

  lemma {:induction false} FeedSingle(l: Lexer, c: byte)
    ensures var f := FeedChar(l, c);
            Feed(l, [c]) == if f.Fed? then Run(f.lexer, f.ended, 1, true) else Run(f.lexer, [], 0, false)
  {
    assert [c][1..] == [];
    hide FeedChar;
  }

  /** What one character does to the record of a lexer. */
  lemma {:induction false} FedOk(l: Lexer, c: byte, lexemes: seq<Lexeme>, taken: seq<byte>)
    requires Text(lexemes) + l.token == taken && (l.state != Error ==> Tracks(l))
    requires forall k :: k in lexemes ==> Ends(Path(Start, k.text), k.kind)
    ensures var f := FeedChar(l, c);
            if f.Fed? then
              && Text(lexemes + f.ended) + f.lexer.token == taken + [c] && Tracks(f.lexer)
              && (forall k :: k in lexemes + f.ended ==> Ends(Path(Start, k.text), k.kind))
              && Visible(lexemes + f.ended)
                 == Visible(lexemes) + (if |f.ended| > 0 && f.ended[0].kind != Skip then f.ended else [])
            else f.lexer.state == Error && f.lexer.token == l.token
  {
    var f := FeedChar(l, c);
    if f.Fed? {
      ErrorRefuses(l, c);
      FeedCharTracks(l, c);
      OneTaken(l, c);
      TextConcat(lexemes, f.ended);
      EndedVisible(l, c, lexemes);
      hide FeedChar, Text, Path, Ends, Visible, Tracks;
      Spell(Text(lexemes), Text(f.ended), f.lexer.token, l.token, [c], Text(lexemes) + l.token, []);
    }
  }

  /** The lexemes that are not whitespace. */
  function Visible(ls: seq<Lexeme>): seq<Lexeme> {
    if ls == [] then []
    else Visible(ls[..|ls| - 1]) + if ls[|ls| - 1].kind == Skip then [] else [ls[|ls| - 1]]
  }

  lemma {:induction false} ErrorRefuses(l: Lexer, c: byte)
    ensures l.state == Error ==> FeedChar(l, c).Refused?
  {}

  lemma {:induction false} VisibleMembers(ls: seq<Lexeme>)
    ensures forall x :: x in Visible(ls) ==> x in ls
  {
    if ls != [] { VisibleMembers(ls[..|ls| - 1]); }
  }

  lemma {:induction false} EndedVisible(l: Lexer, c: byte, lexemes: seq<Lexeme>)
    requires FeedChar(l, c).Fed?
    ensures var ended := FeedChar(l, c).ended;
            Visible(lexemes + ended) == Visible(lexemes) + (if |ended| > 0 && ended[0].kind != Skip then ended else [])
  {
    var ended := FeedChar(l, c).ended;
    if |ended| > 0 {
      assert ended == [ended[0]];
      assert (lexemes + ended)[..|lexemes|] == lexemes;
    } else {
      assert lexemes + ended == lexemes;
    }
  }
}
