/** The lexer (src/lexer.c:30-142): bytes to tokens, with white space, `#` comments, and a token
    array that doubles up to a fixed limit. */
module Lexer {
  import opened Syntax
  import opened Ast

  datatype LexError = BadChar | UnexpectedEof | Unprintable | TooLong

  datatype LexResult = Lexed(tokens: seq<Token>) | Rejected(error: LexError) {
    function After(first: seq<Token>): LexResult {
      if Lexed? then Lexed(first + tokens) else this
    }
  }

  const INIT_LEN: nat := 4 * 1024

  const MAX_LEN: nat := INIT_LEN * 1024

  const NEWLINE: byte := 10

  const HASH: byte := 35

  function Ascii(c: char): byte
    requires c as int < 128
  {
    c as int
  }

  predicate IsSpace(b: byte) {
    b == 32 || 9 <= b <= 13
  }

  /** What may follow `.` and `?`: a printable character or a newline. */
  predicate IsPlain(b: byte) {
    32 <= b <= 126 || b == NEWLINE
  }

  /** The primitives written as one letter, in either case, or as one sign. */
  function Single(b: byte): Option<Token> {
    if b == Ascii('`') then Some(TApp)
    else if b == Ascii('S') || b == Ascii('s') then Some(TFn(S))
    else if b == Ascii('K') || b == Ascii('k') then Some(TFn(K))
    else if b == Ascii('I') || b == Ascii('i') then Some(TFn(I))
    else if b == Ascii('V') || b == Ascii('v') then Some(TFn(V))
    else if b == Ascii('R') || b == Ascii('r') then Some(TFn(Out(NEWLINE)))
    else if b == Ascii('C') || b == Ascii('c') then Some(TFn(C))
    else if b == Ascii('D') || b == Ascii('d') then Some(TFn(D))
    else if b == Ascii('@') then Some(TFn(In))
    else if b == Ascii('|') then Some(TFn(Pipe))
    else if b == Ascii('E') || b == Ascii('e') then Some(TFn(E))
    else None
  }

  /** The primitives that take the next byte literally. */
  function Double(b: byte, ch: byte): Option<Token> {
    if b == Ascii('.') then Some(TFn(Out(ch)))
    else if b == Ascii('?') then Some(TFn(Cmp(ch)))
    else None
  }

  predicate TakesByte(b: byte) {
    b == Ascii('.') || b == Ascii('?')
  }

  /** What is left after the rest of a comment line. */
  function SkipLine(s: seq<byte>): (rest: seq<byte>)
    ensures |rest| <= |s|
  {
    if s == [] then [] else if s[0] == NEWLINE then s[1..] else SkipLine(s[1..])
  }

  /** The tokens of `s`, when `n` tokens have been read before it. */
  function Scan(s: seq<byte>, n: nat): LexResult
    decreases |s|
  {
    if s == [] then Lexed([])
    else if s[0] == HASH then Scan(SkipLine(s[1..]), n)
    else if IsSpace(s[0]) then Scan(s[1..], n)
    else if n >= MAX_LEN then Rejected(TooLong)
    else if TakesByte(s[0]) then
      if |s| == 1 then Rejected(UnexpectedEof)
      else if !IsPlain(s[1]) then Rejected(Unprintable)
      else Scan(s[2..], n + 1).After([Double(s[0], s[1]).value])
    else if Single(s[0]).None? then Rejected(BadChar)
    else Scan(s[1..], n + 1).After([Single(s[0]).value])
  }

  /** `w` is a way to write `tok`. */
  predicate Spells(w: seq<byte>, tok: Token) {
    || (|w| == 1 && Single(w[0]) == Some(tok))
    || (|w| == 2 && Double(w[0], w[1]) == Some(tok) && IsPlain(w[1]))
  }

  /** White space and comments; only at the end of the source may a comment lack its newline. */
  predicate Blank(g: seq<byte>, last: bool)
    decreases |g|
  {
    if g == [] then true
    else if g[0] == HASH then
      if NEWLINE in g[1..] then Blank(SkipLine(g[1..]), last) else last
    else IsSpace(g[0]) && Blank(g[1..], last)
  }

  /** A piece of source: something blank, then a word, and so on, something blank at the end. */
  function Render(gaps: seq<seq<byte>>, words: seq<seq<byte>>): seq<byte>
    requires |gaps| == |words| + 1
  {
    if words == [] then gaps[0] else gaps[0] + words[0] + Render(gaps[1..], words[1..])
  }

  /** `gaps` and `words` are a way to write `tokens`. */
  ghost predicate Writes(gaps: seq<seq<byte>>, words: seq<seq<byte>>, tokens: seq<Token>) {
    && |gaps| == |words| + 1 && |words| == |tokens|
    && (forall i :: 0 <= i < |words| ==> Spells(words[i], tokens[i]))
    && (forall i :: 0 <= i < |gaps| ==> Blank(gaps[i], i == |words|))
  }

  lemma {:induction false} SkipLineAppend(s: seq<byte>, t: seq<byte>)
    requires NEWLINE in s
    ensures SkipLine(s + t) == SkipLine(s) + t
    decreases s
  {
    assert (s + t)[0] == s[0];
    if s[0] == NEWLINE {
      assert (s + t)[1..] == s[1..] + t;
    } else {
      assert (s + t)[1..] == s[1..] + t;
      SkipLineAppend(s[1..], t);
    }
  }

  lemma {:induction false} SkipLineEnd(s: seq<byte>)
    requires NEWLINE !in s
    ensures SkipLine(s) == []
    decreases s
  {
    if s != [] {
      SkipLineEnd(s[1..]);
    }
  }

  /** Blanks make no difference, wherever the lexer is between two tokens. */
  lemma {:induction false} BlankScan(g: seq<byte>, s: seq<byte>, n: nat)
    requires Blank(g, s == [])
    ensures Scan(g + s, n) == Scan(s, n)
    decreases |g|
  {
    var t := g + s;
    if g == [] {
      assert t == s;
    } else {
      assert t[0] == g[0] && t[1..] == g[1..] + s;
      if g[0] == HASH {
        if NEWLINE in g[1..] {
          SkipLineAppend(g[1..], s);
          BlankScan(SkipLine(g[1..]), s, n);
        } else {
          assert t[1..] == g[1..];
          SkipLineEnd(g[1..]);
        }
      } else {
        BlankScan(g[1..], s, n);
      }
    }
  }

  lemma WordScan(w: seq<byte>, tok: Token, s: seq<byte>, n: nat)
    requires Spells(w, tok) && n < MAX_LEN
    ensures Scan(w + s, n) == Scan(s, n + 1).After([tok])
  {
    var t := w + s;
    assert t[0] == w[0];
    assert t[|w|..] == s;
    if |w| == 2 {
      assert t[1] == w[1];
    }
  }

  /** Every way to write a list of tokens is read back as those tokens. */
  lemma {:induction false} ScanRender(gaps: seq<seq<byte>>, words: seq<seq<byte>>, tokens: seq<Token>, n: nat)
    requires Writes(gaps, words, tokens) && n + |tokens| <= MAX_LEN
    ensures Scan(Render(gaps, words), n) == Lexed(tokens)
    decreases |words|
  {
    if words == [] {
      BlankScan(gaps[0], [], n);
      assert gaps[0] + [] == gaps[0];
    } else {
      var rest := Render(gaps[1..], words[1..]);
      BlankScan(gaps[0], words[0] + rest, n);
      assert gaps[0] + words[0] + rest == gaps[0] + (words[0] + rest);
      WordScan(words[0], tokens[0], rest, n);
      ScanRender(gaps[1..], words[1..], tokens[1..], n + 1);
      assert [tokens[0]] + tokens[1..] == tokens;
    }
  }

  /** A comment up to and including its newline. */
  lemma {:induction false} SkipLineSplit(s: seq<byte>)
    requires NEWLINE in s
    ensures var c := s[..|s| - |SkipLine(s)|];
            s == c + SkipLine(s) && NEWLINE in c && SkipLine(c) == []
    decreases s
  {
    if s[0] != NEWLINE {
      SkipLineSplit(s[1..]);
      var c := s[..|s| - |SkipLine(s)|];
      assert c[1..] == s[1..][..|s[1..]| - |SkipLine(s[1..])|];
    } else {
      assert s[..1] == [NEWLINE];
    }
  }

  lemma RenderWiden(g: seq<byte>, gaps: seq<seq<byte>>, words: seq<seq<byte>>)
    requires |gaps| == |words| + 1
    ensures Render([g + gaps[0]] + gaps[1..], words) == g + Render(gaps, words)
  {
    var wide := [g + gaps[0]] + gaps[1..];
    if words != [] {
      assert wide[1..] == gaps[1..];
      var rest := Render(gaps[1..], words[1..]);
      assert g + gaps[0] + words[0] + rest == g + (gaps[0] + words[0] + rest);
    }
  }

  /** A line comment or a space in front of something blank is blank. */
  lemma BlankWiden(c: seq<byte>, g: seq<byte>, last: bool)
    requires Skipped(c) && Blank(g, last)
    ensures Blank(c + g, last)
  {
    var t := c + g;
    assert t[0] == c[0] && t[1..] == c[1..] + g;
    if c[0] == HASH {
      SkipLineAppend(c[1..], g);
      assert SkipLine(t[1..]) == [] + g == g;
    } else {
      assert t[1..] == g;
    }
  }

  /** Something blank in front of a written source. */
  lemma WidenWrites(c: seq<byte>, gaps: seq<seq<byte>>, words: seq<seq<byte>>, tokens: seq<Token>)
      returns (wide: seq<seq<byte>>)
    requires Writes(gaps, words, tokens) && Skipped(c)
    ensures Writes(wide, words, tokens) && Render(wide, words) == c + Render(gaps, words)
  {
    wide := [c + gaps[0]] + gaps[1..];
    BlankWiden(c, gaps[0], |words| == 0);
    RenderWiden(c, gaps, words);
    assert forall i :: 1 <= i < |gaps| ==> wide[i] == gaps[i];
  }

  /** A word in front of a written source. */
  lemma PrependWrites(w: seq<byte>, tok: Token, gaps: seq<seq<byte>>, words: seq<seq<byte>>, tokens: seq<Token>)
    requires Writes(gaps, words, tokens) && Spells(w, tok)
    ensures Writes([[]] + gaps, [w] + words, [tok] + tokens)
    ensures Render([[]] + gaps, [w] + words) == w + Render(gaps, words)
  {
    var g, ws, ts := [[]] + gaps, [w] + words, [tok] + tokens;
    assert g[1..] == gaps && ws[1..] == words;
    assert [] + w == w;
    forall i | 0 <= i < |ws|
      ensures Spells(ws[i], ts[i])
    {
      if i > 0 {
        assert ws[i] == words[i - 1] && ts[i] == tokens[i - 1];
      }
    }
    forall i | 0 <= i < |g|
      ensures Blank(g[i], i == |ws|)
    {
      if i > 0 {
        assert g[i] == gaps[i - 1];
      }
    }
  }

  predicate Skipped(c: seq<byte>) {
    && c != []
    && ((c[0] == HASH && NEWLINE in c[1..] && SkipLine(c[1..]) == []) || (|c| == 1 && IsSpace(c[0])))
  }

  lemma Behind<T>(x: T, d: seq<T>, rest: seq<T>)
    ensures ([x] + d)[1..] == d && [x] + d + rest == [x] + (d + rest)
  {
  }

  lemma ScanSkips(s: seq<byte>, n: nat)
    requires s != [] && (s[0] == HASH || IsSpace(s[0]))
    ensures Scan(s, n) == Scan(if s[0] == HASH then SkipLine(s[1..]) else s[1..], n)
  {
  }

  /** The piece that the lexer drops at the start of a source, if it is complete. */
  lemma SkipSplit(s: seq<byte>, n: nat) returns (c: seq<byte>, rest: seq<byte>)
    requires s != [] && (if s[0] == HASH then NEWLINE in s[1..] else IsSpace(s[0]))
    ensures s == c + rest && Skipped(c) && Scan(s, n) == Scan(rest, n)
  {
    hide SkipLine, Scan;
    ScanSkips(s, n);
    if s[0] == HASH {
      rest := SkipLine(s[1..]);
      SkipLineSplit(s[1..]);
      var d := s[1..][..|s[1..]| - |rest|];
      c := [HASH] + d;
      Behind(HASH, d, rest);
      assert s == [HASH] + s[1..];
    } else {
      c, rest := s[..1], s[1..];
    }
  }

  lemma WordSplit(s: seq<byte>, n: nat) returns (w: seq<byte>, tok: Token, rest: seq<byte>)
    requires s != [] && s[0] != HASH && !IsSpace(s[0]) && Scan(s, n).Lexed?
    ensures s == w + rest && w != [] && Spells(w, tok) && n < MAX_LEN
    ensures Scan(rest, n + 1).Lexed? && Scan(s, n).tokens == [tok] + Scan(rest, n + 1).tokens
  {
    var k := if TakesByte(s[0]) then 2 else 1;
    w, rest, tok := s[..k], s[k..], Scan(s, n).tokens[0];
  }

  /** Whatever the lexer accepts is a way to write the tokens it returns. */
  lemma {:induction false} ScanReads(s: seq<byte>, n: nat) returns (gaps: seq<seq<byte>>, words: seq<seq<byte>>)
    requires Scan(s, n).Lexed?
    ensures Writes(gaps, words, Scan(s, n).tokens) && Render(gaps, words) == s
    ensures Scan(s, n).tokens == [] || n + |Scan(s, n).tokens| <= MAX_LEN
    decreases |s|
  {
    if s == [] {
      gaps, words := [[]], [];
    } else if s[0] == HASH && NEWLINE !in s[1..] {
      SkipLineEnd(s[1..]);
      gaps, words := [s], [];
    } else if s[0] == HASH || IsSpace(s[0]) {
      var c, rest := SkipSplit(s, n);
      gaps, words := ScanReads(rest, n);
      gaps := WidenWrites(c, gaps, words, Scan(s, n).tokens);
    } else {
      var w, tok, rest := WordSplit(s, n);
      gaps, words := ScanReads(rest, n + 1);
      PrependWrites(w, tok, gaps, words, Scan(rest, n + 1).tokens);
      gaps, words := [[]] + gaps, [w] + words;
    }
  }

  /** The lexer accepts a source with given tokens exactly if the source writes these tokens and
      they are not too many. */
  lemma LexExactly(s: seq<byte>, tokens: seq<Token>)
    ensures Scan(s, 0) == Lexed(tokens)
       <==> |tokens| <= MAX_LEN && exists gaps, words :: Writes(gaps, words, tokens) && Render(gaps, words) == s
  {
    if Scan(s, 0) == Lexed(tokens) {
      var gaps, words := ScanReads(s, 0);
    }
    forall gaps, words | |tokens| <= MAX_LEN && Writes(gaps, words, tokens) && Render(gaps, words) == s
      ensures Scan(s, 0) == Lexed(tokens)
    {
      ScanRender(gaps, words, tokens, 0);
    }
  }

  /** A token that can be written at all. */
  predicate Plain(tok: Token) {
    tok.TApp? || !(tok.p.Out? || tok.p.Cmp?) || IsPlain(tok.p.ch)
  }

  /** Characters after `.` and `?` come through the lexer only if they are printable or newlines. */
  lemma ScanPlain(s: seq<byte>)
    requires Scan(s, 0).Lexed?
    ensures forall i :: 0 <= i < |Scan(s, 0).tokens| ==> Plain(Scan(s, 0).tokens[i])
  {
    var gaps, words := ScanReads(s, 0);
    var tokens := Scan(s, 0).tokens;
    forall i | 0 <= i < |tokens|
      ensures Plain(tokens[i])
    {
      assert Spells(words[i], tokens[i]);
    }
  }

  /** Letters mean the same in either case, and `r` is short for `.` and a newline. */
  lemma CaseBlind(b: byte)
    ensures Ascii('A') <= b <= Ascii('Z') ==> Single(b) == Single(b + 32)
    ensures Single(Ascii('r')) == Double(Ascii('.'), NEWLINE)
    ensures Single(b).Some? ==> !IsSpace(b) && b != HASH && !TakesByte(b)
  {
  }

  /** The plain way to write a token. */
  function Spell(tok: Token): seq<byte> {
    match tok
    case TApp => [Ascii('`')]
    case TFn(S) => [Ascii('s')]
    case TFn(K) => [Ascii('k')]
    case TFn(I) => [Ascii('i')]
    case TFn(V) => [Ascii('v')]
    case TFn(C) => [Ascii('c')]
    case TFn(D) => [Ascii('d')]
    case TFn(E) => [Ascii('e')]
    case TFn(In) => [Ascii('@')]
    case TFn(Pipe) => [Ascii('|')]
    case TFn(Out(ch)) => [Ascii('.'), ch]
    case TFn(Cmp(ch)) => [Ascii('?'), ch]
  }

  /** Printing tokens, with anything blank between them, and lexing gives them back. */
  lemma PrintLex(gaps: seq<seq<byte>>, tokens: seq<Token>)
    requires |gaps| == |tokens| + 1 && |tokens| <= MAX_LEN
    requires forall i :: 0 <= i < |tokens| ==> Plain(tokens[i])
    requires forall i :: 0 <= i < |gaps| ==> Blank(gaps[i], i == |tokens|)
    ensures Scan(Render(gaps, seq(|tokens|, i requires 0 <= i < |tokens| => Spell(tokens[i]))), 0) == Lexed(tokens)
  {
    var words := seq(|tokens|, i requires 0 <= i < |tokens| => Spell(tokens[i]));
    forall i | 0 <= i < |words|
      ensures Spells(words[i], tokens[i])
    {
      SpellSpells(tokens[i]);
    }
    ScanRender(gaps, words, tokens, 0);
  }

  lemma SpellSpells(tok: Token)
    requires Plain(tok)
    ensures Spells(Spell(tok), tok)
  {
  }

  lemma AfterAfter(a: seq<Token>, b: seq<Token>, r: LexResult)
    ensures r.After(b).After(a) == r.After(a + b)
  {
    if r.Lexed? {
      assert a + (b + r.tokens) == a + b + r.tokens;
    }
  }

  /** The sizes the token array can have. */
  predicate Doubled(size: nat) {
    size in {0x1000, 0x2000, 0x4000, 0x8000, 0x10000, 0x20000, 0x40000, 0x80000, 0x100000, 0x200000, 0x400000}
  }

  lemma DoubledTwice(size: nat)
    requires Doubled(size)
    ensures if size * 2 > MAX_LEN then size == MAX_LEN else Doubled(size * 2)
  {
  }

  /** Moves to the newline that ends a comment, or to the end of the source. */
  method SkipComment(input: seq<byte>, p: nat, ghost n: nat) returns (q: nat)
    requires p < |input| && input[p] == HASH
    ensures p < q <= |input| && (q < |input| ==> input[q] == NEWLINE)
    ensures Scan(input[q..], n) == Scan(input[p..], n)
  {
    q := p + 1;
    assert input[p..][1..] == input[q..];
    while q < |input| && input[q] != NEWLINE
      invariant p < q <= |input|
      invariant SkipLine(input[q..]) == SkipLine(input[p + 1..])
      decreases |input| - q
    {
      assert input[q..][1..] == input[q + 1..];
      q := q + 1;
    }
    if q < |input| {
      assert input[q..][1..] == input[q + 1..];
    }
  }

  /** Reads the token that starts with `fn`, the byte before `p`. */
  method ReadToken(fn: byte, input: seq<byte>, p: nat, ghost n: nat) returns (r: LexResult, q: nat)
    requires n < MAX_LEN
    requires 0 < p <= |input| && input[p - 1] == fn && fn != HASH && !IsSpace(fn)
    ensures p <= q <= |input|
    ensures r.Lexed? ==> |r.tokens| == 1
    ensures Scan(input[p - 1..], n) == if r.Lexed? then Scan(input[q..], n + 1).After(r.tokens) else r
  {
    ghost var s := input[p - 1..];
    q := p;
    assert s[1..] == input[p..];
    if TakesByte(fn) {
      if p == |input| {
        return Rejected(UnexpectedEof), q;
      }
      var ch := input[p];
      q := p + 1;
      assert s[2..] == input[q..] && s[1] == ch;
      if !IsPlain(ch) {
        return Rejected(Unprintable), q;
      }
      return Lexed([Double(fn, ch).value]), q;
    }
    if Single(fn).None? {
      return Rejected(BadChar), q;
    }
    return Lexed([Single(fn).value]), q;
  }

  /** realloc to twice the size. */
  method Grow(tokens: array<Token>, len: nat) returns (larger: array<Token>)
    requires len <= tokens.Length
    ensures fresh(larger) && larger.Length == 2 * tokens.Length && larger[..len] == tokens[..len]
  {
    larger := new Token[2 * tokens.Length](_ => TApp);
    for k := 0 to len
      invariant larger[..k] == tokens[..k]
    {
      larger[k] := tokens[k];
    }
  }

  /** `u6a_lex`: reads the tokens that `Scan` describes. */
  method Lex(input: seq<byte>) returns (result: LexResult)
    ensures result == Scan(input, 0)
  {
    hide Scan;
    var tokens := new Token[INIT_LEN](_ => TApp);
    var len: nat, p: nat := 0, 0;
    assert input[0..] == input;
    AfterNone(Scan(input, 0));
    while true
      invariant p <= |input| && len <= tokens.Length && Doubled(tokens.Length) && fresh(tokens)
      invariant Scan(input[p..], len).After(tokens[..len]) == Scan(input, 0)
      decreases |input| - p
    {
      if p < |input| && input[p] == HASH {
        p := SkipComment(input, p, len);
      }
      if p == |input| {
        ScanEnd(input[p..], len);
        return Lexed(tokens[..len]);
      }
      var fn := input[p];
      p := p + 1;
      if IsSpace(fn) {
        ScanSpace(input, p - 1, len);
        continue;
      }
      if len >= tokens.Length {
        DoubledTwice(tokens.Length);
        if tokens.Length * 2 > MAX_LEN {
          ScanTooLong(input[p - 1..], len);
          return Rejected(TooLong);
        }
        tokens := Grow(tokens, len);
      }
      var r, q := ReadToken(fn, input, p, len);
      if r.Rejected? {
        return r;
      }
      AfterAfter(tokens[..len], r.tokens, Scan(input[q..], len + 1));
      tokens[len] := r.tokens[0];
      assert tokens[..len + 1] == tokens[..len] + r.tokens;
      len := len + 1;
      p := q;
    }
  }

  lemma AfterNone(r: LexResult)
    ensures r.After([]) == r
  {
    if r.Lexed? {
      assert [] + r.tokens == r.tokens;
    }
  }

  lemma ScanEnd(s: seq<byte>, n: nat)
    requires s == []
    ensures Scan(s, n) == Lexed([])
  {
  }

  lemma ScanSpace(input: seq<byte>, p: nat, n: nat)
    requires p < |input| && IsSpace(input[p])
    ensures Scan(input[p..], n) == Scan(input[p + 1..], n)
  {
    assert input[p..][1..] == input[p + 1..];
  }

  lemma ScanTooLong(s: seq<byte>, n: nat)
    requires s != [] && s[0] != HASH && !IsSpace(s[0]) && n >= MAX_LEN
    ensures Scan(s, n) == Rejected(TooLong)
  {
  }
}
