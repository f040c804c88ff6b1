/** The lexer's alphabet in byte values (src/lexer.c:30-41, 56-134): what each byte does at the start of
    a source, and which error each bad source gets. */
module Alphabet {
  import opened Syntax
  import opened Ast
  import opened Lexer
  import opened Correctness
  import Programs

  /** A token in front of whatever the rest comes to. */
  function Front(tok: Token, rest: LexResult): LexResult {
    match rest
    case Lexed(tokens) => Lexed([tok] + tokens)
    case Rejected(_) => rest
  }

  /** The token a byte stands for by itself. */
  function Letter(b: byte): Option<Token> {
    match b
    case 96 => Some(TApp)
    case 83 => Some(TFn(S)) case 115 => Some(TFn(S))
    case 75 => Some(TFn(K)) case 107 => Some(TFn(K))
    case 73 => Some(TFn(I)) case 105 => Some(TFn(I))
    case 86 => Some(TFn(V)) case 118 => Some(TFn(V))
    case 82 => Some(TFn(Out(10))) case 114 => Some(TFn(Out(10)))
    case 67 => Some(TFn(C)) case 99 => Some(TFn(C))
    case 68 => Some(TFn(D)) case 100 => Some(TFn(D))
    case 64 => Some(TFn(In))
    case 124 => Some(TFn(Pipe))
    case 69 => Some(TFn(E)) case 101 => Some(TFn(E))
    case _ => None
  }

  lemma EmptySource(n: nat)
    ensures Scan([], n) == Lexed([])
  {
  }

  /** Space, tab, newline, vertical tab, form feed and carriage return are skipped. */
  lemma BlankByte(b: byte, s: seq<byte>, n: nat)
    requires b in {9, 10, 11, 12, 13, 32}
    ensures Scan([b] + s, n) == Scan(s, n)
  {
    assert ([b] + s)[1..] == s;
  }

  /** `#` skips everything up to the first newline, or the rest of the source if there is none. */
  lemma CommentByte(line: seq<byte>, s: seq<byte>, n: nat)
    requires 10 !in line
    ensures Scan([35] + line + [10] + s, n) == Scan(s, n)
    ensures Scan([35] + line, n) == Lexed([])
  {
    LineSkipped(line, s);
    assert ([35] + line + [10] + s)[1..] == line + [10] + s;
    assert ([35] + line)[1..] == line;
  }

  lemma {:induction false} LineSkipped(line: seq<byte>, s: seq<byte>)
    requires 10 !in line
    ensures SkipLine(line + [10] + s) == s && SkipLine(line) == []
    decreases |line|
  {
    var t := line + [10] + s;
    if line == [] {
      assert t[1..] == s;
    } else {
      assert t[1..] == line[1..] + [10] + s && t[0] == line[0];
      LineSkipped(line[1..], s);
    }
  }

  /** With four mebi tokens read, nothing but blanks and comments may follow. */
  lemma TokenTooMany(b: byte, s: seq<byte>, n: nat)
    requires b !in {9, 10, 11, 12, 13, 32, 35} && n >= 4194304
    ensures Scan([b] + s, n) == Rejected(TooLong)
  {
  }

  /** After `.` and `?` exactly the printable bytes and the newline are accepted. */
  lemma LiteralByte(b: byte, s: seq<byte>, n: nat)
    requires b in {46, 63} && n < 4194304
    ensures
      Scan([b] + s, n)
      == if s == [] then Rejected(UnexpectedEof)
         else if !(32 <= s[0] <= 126 || s[0] == 10) then Rejected(Unprintable)
         else Front(TFn(if b == 46 then Out(s[0]) else Cmp(s[0])), Scan(s[1..], n + 1))
  {
    var t := [b] + s;
    if s != [] {
      assert t[1] == s[0] && t[2..] == s[1..];
    }
  }

  /** Any other byte is a token by itself, or none. */
  lemma LetterByte(b: byte, s: seq<byte>, n: nat)
    requires b !in {9, 10, 11, 12, 13, 32, 35, 46, 63} && n < 4194304
    ensures
      Scan([b] + s, n)
      == if Letter(b).None? then Rejected(BadChar) else Front(Letter(b).value, Scan(s, n + 1))
  {
    assert ([b] + s)[1..] == s;
  }

  lemma {:induction false} Letters(s: seq<byte>, n: nat)
    requires n + |s| <= 4194304
    requires forall k :: 0 <= k < |s| ==> Letter(s[k]).Some?
    ensures Scan(s, n) == Lexed(seq(|s|, k requires 0 <= k < |s| => Letter(s[k]).value))
    decreases |s|
  {
    if s == [] {
      EmptySource(n);
    } else {
      hide Scan;
      assert s == [s[0]] + s[1..];
      LetterByte(s[0], s[1..], n);
      Letters(s[1..], n + 1);
      assert seq(|s|, k requires 0 <= k < |s| => Letter(s[k]).value)
          == [Letter(s[0]).value] + seq(|s| - 1, k requires 0 <= k < |s| - 1 => Letter(s[1..][k]).value);
    }
  }

  /** The thirteen bytes of a program that copies its input. */
  lemma CatSource(input: seq<byte>)
    ensures
      var source := [96, 96, 96, 115, 96, 100, 96, 64, 124, 105, 96, 99, 105];
      Means(source, Programs.CAT) && Programs.Writes(Programs.CAT, input, input)
  {
    hide Scan, Letter, Programs.Writes;
    var source: seq<byte> := [96, 96, 96, 115, 96, 100, 96, 64, 124, 105, 96, 99, 105];
    CatLetters();
    Letters(source, 0);
    Programs.CatCopies(input);
    CatTokens();
    assert seq(|source|, k requires 0 <= k < |source| => Letter(source[k]).value) == Flatten(Programs.CAT);
  }

  lemma CatLetters()
    ensures
      var source: seq<byte> := [96, 96, 96, 115, 96, 100, 96, 64, 124, 105, 96, 99, 105];
      var tokens := [TApp, TApp, TApp, TFn(S), TApp, TFn(D), TApp, TFn(In), TFn(Pipe), TFn(I), TApp, TFn(C), TFn(I)];
      |source| == |tokens| && forall k :: 0 <= k < |source| ==> Letter(source[k]) == Some(tokens[k])
  {
  }

  lemma CatTokens()
    ensures Flatten(Programs.CAT)
         == [TApp, TApp, TApp, TFn(S), TApp, TFn(D), TApp, TFn(In), TFn(Pipe), TFn(I), TApp, TFn(C), TFn(I)]
  {
    var read := App(Leaf(In), Leaf(Pipe));
    assert Flatten(read) == [TApp, TFn(In), TFn(Pipe)];
    assert Flatten(App(Leaf(D), read)) == [TApp, TFn(D)] + Flatten(read);
    var s := App(Leaf(S), App(Leaf(D), read));
    assert Flatten(s) == [TApp, TFn(S)] + Flatten(App(Leaf(D), read));
    assert Flatten(App(s, Leaf(I))) == [TApp] + Flatten(s) + [TFn(I)];
    assert Flatten(App(Leaf(C), Leaf(I))) == [TApp, TFn(C), TFn(I)];
  }
}
