/**
 Splitting the token stream into messages (json-streamer.c:21-81): a message ends at every token
 after which as many braces and brackets have been closed as opened.
 */
module JsonStreamer {
  import opened Common
  import opened JsonLexer

  /** How a token changes the number of open braces or brackets. */
  function Change(t: Lexeme, open: byte, close: byte): int {
    if t.kind != Operator || t.text == [] then 0
    else if t.text[0] == open then 1
    else if t.text[0] == close then -1
    else 0
  }

  function Braces(t: Lexeme): int { Change(t, 123, 125) }

  function Brackets(t: Lexeme): int { Change(t, 91, 93) }

  function NetBraces(ts: seq<Lexeme>): int { if ts == [] then 0 else NetBraces(ts[..|ts| - 1]) + Braces(ts[|ts| - 1]) }

  function NetBrackets(ts: seq<Lexeme>): int {
    if ts == [] then 0 else NetBrackets(ts[..|ts| - 1]) + Brackets(ts[|ts| - 1])
  }

  predicate Balanced(ts: seq<Lexeme>) { NetBraces(ts) == 0 && NetBrackets(ts) == 0 }

  function Concat(ms: seq<seq<Lexeme>>): seq<Lexeme> {
    if ms == [] then [] else Concat(ms[..|ms| - 1]) + ms[|ms| - 1]
  }

  /** The tokens cut after every balanced front: the complete messages and the rest. */
  function Cut(ts: seq<Lexeme>): (seq<seq<Lexeme>>, seq<Lexeme>) {
    if ts == [] then ([], [])
    else
      var (ms, rest) := Cut(ts[..|ts| - 1]);
      var more := rest + [ts[|ts| - 1]];
      if Balanced(ts) then (ms + [more], []) else (ms, more)
  }

  lemma {:induction false} ConcatMore(ms: seq<seq<Lexeme>>, m: seq<Lexeme>)
    ensures Concat(ms + [m]) == Concat(ms) + m
  {
    assert (ms + [m])[..|ms|] == ms;
  }

  /** Cutting loses nothing, and no message is empty. */
  lemma {:induction false} CutCovers(ts: seq<Lexeme>)
    ensures Concat(Cut(ts).0) + Cut(ts).1 == ts && (forall k :: 0 <= k < |Cut(ts).0| ==> Cut(ts).0[k] != [])
  {
    hide Balanced;
    if ts != [] {
      var (init, t) := (ts[..|ts| - 1], ts[|ts| - 1]);
      CutCovers(init);
      var (ms, rest) := Cut(init);
      ConcatMore(ms, rest + [t]);
      assert ts == init + [t];
      assert Concat(ms) + (rest + [t]) == (Concat(ms) + rest) + [t];
    }
  }

  /** Some number of whole messages make up the first p tokens. */
  ghost predicate EndsAt(ms: seq<seq<Lexeme>>, p: nat) {
    exists k :: 0 < k <= |ms| && |Concat(ms[..k])| == p
  }

  /** Messages end exactly after the balanced fronts of the stream. */
  lemma {:induction false} MessageEnds(ts: seq<Lexeme>, p: nat)
    requires 0 < p <= |ts|
    ensures EndsAt(Cut(ts).0, p) <==> Balanced(ts[..p])
    decreases |ts|
  {
    hide Balanced;
    var (init, t) := (ts[..|ts| - 1], ts[|ts| - 1]);
    var (ms, rest) := Cut(init);
    CutCovers(init);
    if p < |ts| {
      MessageEnds(init, p);
      assert init[..p] == ts[..p];
    } else {
      assert ts[..p] == ts;
    }
    if Balanced(ts) {
      MoreEnds(ms, rest + [t], p);
    } else {
      EndBound(ms, p);
    }
  }

  lemma {:induction false} ConcatFront(ms: seq<seq<Lexeme>>, k: nat)
    requires k <= |ms|
    ensures |Concat(ms[..k])| <= |Concat(ms)|
    decreases |ms|
  {
    if k == |ms| {
      assert ms[..k] == ms;
    } else {
      assert ms[..|ms| - 1][..k] == ms[..k];
      ConcatFront(ms[..|ms| - 1], k);
    }
  }

  lemma {:induction false} EndBound(ms: seq<seq<Lexeme>>, p: nat)
    ensures EndsAt(ms, p) ==> p <= |Concat(ms)|
  {
    if EndsAt(ms, p) {
      var k :| 0 < k <= |ms| && |Concat(ms[..k])| == p;
      ConcatFront(ms, k);
    }
  }

  /** One more message adds one end. */
  lemma {:induction false} MoreEnds(ms: seq<seq<Lexeme>>, m: seq<Lexeme>, p: nat)
    ensures EndsAt(ms + [m], p) <==> EndsAt(ms, p) || p == |Concat(ms)| + |m|
  {
    var ms' := ms + [m];
    ConcatMore(ms, m);
    if EndsAt(ms, p) {
      var k :| 0 < k <= |ms| && |Concat(ms[..k])| == p;
      assert ms'[..k] == ms[..k];
    }
    if p == |Concat(ms)| + |m| {
      assert ms'[..|ms'|] == ms';
    }
    if EndsAt(ms', p) {
      var k :| 0 < k <= |ms'| && |Concat(ms'[..k])| == p;
      if k <= |ms| { assert ms'[..k] == ms[..k]; } else { assert ms'[..k] == ms'; }
    }
  }

  class Streamer {
    const scanner: Scanner
    var braceCount: int
    var bracketCount: int
    var tokens: seq<Lexeme>
    var messages: seq<seq<Lexeme>>   // what the emitter was called with, in order
    ghost var seen: seq<Lexeme>

    /** The counts are the net counts of all tokens, and the messages are the stream cut at balance. */
    ghost predicate Valid()
      reads this
    {
      && braceCount == NetBraces(seen) && bracketCount == NetBrackets(seen)
      && (messages, tokens) == Cut(seen)
    }

    constructor ()
      ensures Valid() && seen == [] && fresh(scanner) && scanner.Valid() && scanner.emitted == []
    {
      scanner := new Scanner();
      braceCount, bracketCount, tokens, messages, seen := 0, 0, [], [], [];
    }

    /** json_message_process_token. */
    method ProcessToken(t: Lexeme)
      requires Valid() && t.text != []
      modifies this
      ensures Valid() && seen == old(seen) + [t]
    {
      if t.kind == Operator {
        match t.text[0]
        case 123 => braceCount := braceCount + 1;
        case 125 => braceCount := braceCount - 1;
        case 91 => bracketCount := bracketCount + 1;
        case 93 => bracketCount := bracketCount - 1;
        case _ =>
      }
      tokens := tokens + [t];
      seen := seen + [t];
      assert seen[..|seen| - 1] == old(seen);
      if braceCount == 0 && bracketCount == 0 {
        messages := messages + [tokens];
        tokens := [];
      }
    }

    /** json_message_parser_feed: every token the lexer emits is processed at once. */
    method FeedAll(s: seq<byte>) returns (ret: int)
      requires Valid() && scanner.Valid() && seen == scanner.emitted
      modifies this, scanner
      ensures Valid() && scanner.Valid() && seen == scanner.emitted
      ensures var r := Feed(old(scanner.l), s);
              scanner.l == r.lexer && scanner.lexemes == old(scanner.lexemes) + r.lexemes &&
              ret == if r.ok then 0 else -EINVAL
    {
      hide Feed, FeedChar, Path, Ends, Text, Visible, Newlines, Column, Tracks, Cut, NetBraces, NetBrackets;
      var i := 0;
      ghost var (l0, ls) := (scanner.l, []);
      StartRun(l0, s);
      while i < |s|
        invariant i <= |s| && Valid() && scanner.Valid() && seen == scanner.emitted
        invariant Feed(l0, s[..i]) == Run(scanner.l, ls, i, true) && scanner.lexemes == old(scanner.lexemes) + ls
      {
        ghost var f := FeedChar(scanner.l, s[i]);
        RunStep(l0, s, i, scanner.l, ls);
        var n := |scanner.emitted|;
        ret := scanner.FeedOne(s[i]);
        if |scanner.emitted| > n {
          EmittedText(scanner, n);
          ProcessToken(scanner.emitted[n]);
        }
        if ret < 0 { return; }
        ls := ls + f.ended;
        i := i + 1;
      }
      assert s[..i] == s;
      ret := 0;
    }
  }

  lemma {:induction false} EmittedText(s: Scanner, n: nat)
    requires s.Valid() && n < |s.emitted|
    ensures s.emitted[n].text != []
  {
    VisibleMembers(s.lexemes);
    var x := s.emitted[n];
    assert x in s.lexemes;
    hide Visible, Text, Path, Ends;
    AcceptedNotEmpty(x.text, x.kind);
  }
}
