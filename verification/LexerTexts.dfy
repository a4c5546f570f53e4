/**
 What the two lexers, of tools/var_hoist.py and tools/hw_audit.py, make of comments,
 literals and plain code, stated on texts.  Every text is made up of such pieces.
 */
module LexerTexts {
  import opened Skeleton
  import opened HwAudit

  /** How a lexer writes a character read on its own, and two read together. */
  type Keep = (char, Mode) -> char
  type KeepPair = (char, char, Mode) -> seq<char>

  /** Either lexer, from a mode on. */
  function Lexed(t: seq<char>, m: Mode, k: Keep, p: KeepPair): seq<char> {
    if |t| == 0 then []
    else if StartsPair(t, m) then p(t[0], t[1], m) + Lexed(t[2..], AfterPair(t[1], m), k, p)
    else [k(t[0], m)] + Lexed(t[1..], AfterChar(t[0], m), k, p)
  }

  function Two(a: char, b: char, m: Mode): seq<char> { [' ', ' '] }

  lemma {:induction false} StripIsLexed(t: seq<char>, m: Mode)
    ensures Strip(t, m) == Lexed(t, m, Kept, Two)
  {
    if |t| > 0 {
      if StartsPair(t, m) {
        StripIsLexed(t[2..], AfterPair(t[1], m));
      } else {
        StripIsLexed(t[1..], AfterChar(t[0], m));
      }
    }
  }

  lemma {:induction false} DecommentIsLexed(t: seq<char>, m: Mode)
    ensures Decomment(t, m) == Lexed(t, m, KeptHere, PairHere)
  {
    if |t| > 0 {
      if StartsPair(t, m) {
        DecommentIsLexed(t[2..], AfterPair(t[1], m));
      } else {
        DecommentIsLexed(t[1..], AfterChar(t[0], m));
      }
    }
  }

  /** Comments are blanked and code is kept. */
  ghost predicate CommentsBlank(k: Keep, p: KeepPair) {
    && (forall c :: k(c, Code) == c && k(c, Line) == Blank(c) && k(c, Block) == Blank(c))
    && (forall a, b :: p(a, b, Code) == [' ', ' '] && p(a, b, Block) == [' ', ' '])
  }

  lemma BothBlankComments()
    ensures CommentsBlank(Kept, Two) && CommentsBlank(KeptHere, PairHere)
  {
  }

  lemma LexChar(c: char, r: seq<char>, m: Mode, k: Keep, p: KeepPair)
    requires |r| > 0 ==> !IsPair(c, r[0], m)
    ensures Lexed([c] + r, m, k, p) == [k(c, m)] + Lexed(r, AfterChar(c, m), k, p)
  {
    assert ([c] + r)[1..] == r;
  }

  lemma LexPair(a: char, b: char, r: seq<char>, m: Mode, k: Keep, p: KeepPair)
    requires IsPair(a, b, m)
    ensures Lexed([a, b] + r, m, k, p) == p(a, b, m) + Lexed(r, AfterPair(b, m), k, p)
  {
    assert ([a, b] + r)[2..] == r;
  }

  // ----- pieces of a text -----

  function Spaces(n: nat): seq<char> {
    seq(n, _ => ' ')
  }

  /** All blank but the line breaks. */
  function Blanked(t: seq<char>): seq<char> {
    seq(|t|, i requires 0 <= i < |t| => if t[i] == '\n' then '\n' else ' ')
  }

  /** The rest of a line comment, up to the line's end or the text's. */
  lemma {:induction false} RestOfLine(l: seq<char>, r: seq<char>, k: Keep, p: KeepPair)
    requires CommentsBlank(k, p) && '\n' !in l
    ensures Lexed(l + ['\n'] + r, Line, k, p) == Spaces(|l|) + ['\n'] + Lexed(r, Code, k, p)
    ensures Lexed(l, Line, k, p) == Spaces(|l|)
  {
    hide Lexed;
    if |l| == 0 {
      LexChar('\n', r, Line, k, p);
      assert l + ['\n'] + r == ['\n'] + r && Spaces(0) + ['\n'] == ['\n'];
      LexNothing(Line, k, p);
    } else {
      var rest := l[1..];
      RestOfLine(rest, r, k, p);
      LexChar(l[0], rest + ['\n'] + r, Line, k, p);
      LexChar(l[0], rest, Line, k, p);
      assert l + ['\n'] + r == [l[0]] + (rest + ['\n'] + r) && l == [l[0]] + rest;
      assert Spaces(|l|) == [' '] + Spaces(|rest|);
      assert Spaces(|l|) + ['\n'] + Lexed(r, Code, k, p) == [' '] + (Spaces(|rest|) + ['\n'] + Lexed(r, Code, k, p));
    }
  }

  lemma LexNothing(m: Mode, k: Keep, p: KeepPair)
    ensures Lexed([], m, k, p) == []
  {
  }

  predicate NoClose(b: seq<char>) {
    forall i :: 0 <= i < |b| - 1 ==> !(b[i] == '*' && b[i + 1] == '/')
  }

  /** The rest of a block comment, up to its end or the text's. */
  lemma {:induction false} RestOfBlock(b: seq<char>, r: seq<char>, k: Keep, p: KeepPair)
    requires CommentsBlank(k, p) && NoClose(b)
    ensures Lexed(b + ['*', '/'] + r, Block, k, p) == Blanked(b) + [' ', ' '] + Lexed(r, Code, k, p)
    ensures Lexed(b, Block, k, p) == Blanked(b)
  {
    hide Lexed;
    if |b| == 0 {
      LexPair('*', '/', r, Block, k, p);
      assert b + ['*', '/'] + r == ['*', '/'] + r && Blanked(b) + [' ', ' '] == [' ', ' '];
      LexNothing(Block, k, p);
    } else {
      var rest := b[1..];
      assert NoClose(rest) by {
        assert forall i :: 0 <= i < |rest| ==> rest[i] == b[i + 1];
      }
      RestOfBlock(rest, r, k, p);
      assert !(b[0] == '*' && |rest| > 0 && rest[0] == '/');
      LexChar(b[0], rest + ['*', '/'] + r, Block, k, p);
      LexChar(b[0], rest, Block, k, p);
      assert b + ['*', '/'] + r == [b[0]] + (rest + ['*', '/'] + r) && b == [b[0]] + rest;
      assert Blanked(b) == [Blank(b[0])] + Blanked(rest);
      assert Blanked(b) + [' ', ' '] + Lexed(r, Code, k, p) == [Blank(b[0])] + (Blanked(rest) + [' ', ' '] + Lexed(r, Code, k, p));
    }
  }

  /** A character of a literal, or a backslash with whatever follows it. */
  datatype Item = Plain(c: char) | Escaped(c: char)

  function Written(items: seq<Item>): seq<char> {
    if |items| == 0 then []
    else (if items[0].Plain? then [items[0].c] else ['\\', items[0].c]) + Written(items[1..])
  }

  predicate Inside(items: seq<Item>, quote: char) {
    forall i :: 0 <= i < |items| && items[i].Plain? ==> items[i].c != quote && items[i].c != '\\'
  }

  /** How a lexer writes them. */
  function Seen(items: seq<Item>, m: Mode, k: Keep, p: KeepPair): seq<char> {
    if |items| == 0 then []
    else (if items[0].Plain? then [k(items[0].c, m)] else p('\\', items[0].c, m)) + Seen(items[1..], m, k, p)
  }

  /** The rest of a literal, up to its quote or the text's end. */
  lemma {:induction false} RestOfLiteral(items: seq<Item>, r: seq<char>, m: Mode, k: Keep, p: KeepPair)
    requires (m == Str || m == Chr) && Inside(items, Quote(m))
    ensures Lexed(Written(items) + [Quote(m)] + r, m, k, p) == Seen(items, m, k, p) + [k(Quote(m), m)] + Lexed(r, Code, k, p)
    ensures Lexed(Written(items), m, k, p) == Seen(items, m, k, p)
    ensures Lexed(Written(items) + ['\\'], m, k, p) == Seen(items, m, k, p) + [k('\\', m)]
  {
    hide Lexed, Written, Seen;
    var q := Quote(m);
    FirstItem(items, m, k, p);
    if |items| == 0 {
      LiteralEnds(r, m, k, p);
    } else {
      var rest, s := Written(items[1..]), Seen(items[1..], m, k, p);
      RestOfLiteral(items[1..], r, m, k, p);
      ItemThen(items[0], rest + [q] + r, m, k, p);
      ItemThen(items[0], rest, m, k, p);
      ItemThen(items[0], rest + ['\\'], m, k, p);
      var o, x := One(items[0]), Shown(items[0], m, k, p);
      assert Written(items) + [q] + r == o + (rest + [q] + r) && Written(items) + ['\\'] == o + (rest + ['\\']);
      assert x + s + [k(q, m)] + Lexed(r, Code, k, p) == x + (s + [k(q, m)] + Lexed(r, Code, k, p));
      assert x + s + [k('\\', m)] == x + (s + [k('\\', m)]);
    }
  }

  function Shown(item: Item, m: Mode, k: Keep, p: KeepPair): seq<char> {
    if item.Plain? then [k(item.c, m)] else p('\\', item.c, m)
  }

  lemma FirstItem(items: seq<Item>, m: Mode, k: Keep, p: KeepPair)
    ensures |items| == 0 ==> Written(items) == [] && Seen(items, m, k, p) == []
    ensures |items| > 0 ==>
      && Written(items) == One(items[0]) + Written(items[1..])
      && Seen(items, m, k, p) == Shown(items[0], m, k, p) + Seen(items[1..], m, k, p)
  {
  }

  lemma LiteralEnds(r: seq<char>, m: Mode, k: Keep, p: KeepPair)
    requires m == Str || m == Chr
    ensures Lexed([] + [Quote(m)] + r, m, k, p) == [] + [k(Quote(m), m)] + Lexed(r, Code, k, p)
    ensures Lexed([], m, k, p) == [] && Lexed([] + ['\\'], m, k, p) == [] + [k('\\', m)]
  {
    hide Lexed;
    LexChar(Quote(m), r, m, k, p);
    LexChar('\\', [], m, k, p);
    LexNothing(m, k, p);
    assert [] + [Quote(m)] + r == [Quote(m)] + r && [] + ['\\'] == ['\\'] + [];
    assert [k('\\', m)] + [] == [] + [k('\\', m)];
  }

  function One(item: Item): seq<char> {
    if item.Plain? then [item.c] else ['\\', item.c]
  }

  lemma ItemThen(item: Item, r: seq<char>, m: Mode, k: Keep, p: KeepPair)
    requires (m == Str || m == Chr) && (item.Plain? ==> item.c != Quote(m) && item.c != '\\')
    ensures Lexed(One(item) + r, m, k, p) == Shown(item, m, k, p) + Lexed(r, m, k, p)
  {
    hide Lexed;
    if item.Plain? {
      LexChar(item.c, r, m, k, p);
    } else {
      LexPair('\\', item.c, r, m, k, p);
    }
  }

  // ----- the skeleton -----

  /** A line comment becomes blanks up to its line break. */
  lemma LineComment(l: seq<char>, r: seq<char>)
    requires '\n' !in l
    ensures StripComments(['/', '/'] + l + ['\n'] + r) == Spaces(2 + |l|) + ['\n'] + StripComments(r)
    ensures StripComments(['/', '/'] + l) == Spaces(2 + |l|)
    ensures Decomment(['/', '/'] + l + ['\n'] + r, Code) == Spaces(2 + |l|) + ['\n'] + Decomment(r, Code)
    ensures Decomment(['/', '/'] + l, Code) == Spaces(2 + |l|)
  {
    BothBlankComments();
    LexedLineComment(l, r, Kept, Two);
    LexedLineComment(l, r, KeptHere, PairHere);
    Both(['/', '/'] + l + ['\n'] + r);
    Both(['/', '/'] + l);
    Both(r);
  }

  lemma Both(t: seq<char>)
    ensures StripComments(t) == Lexed(t, Code, Kept, Two) && Decomment(t, Code) == Lexed(t, Code, KeptHere, PairHere)
  {
    StripIsLexed(t, Code);
    DecommentIsLexed(t, Code);
  }

  lemma LexedLineComment(l: seq<char>, r: seq<char>, k: Keep, p: KeepPair)
    requires CommentsBlank(k, p) && '\n' !in l
    ensures Lexed(['/', '/'] + l + ['\n'] + r, Code, k, p) == Spaces(2 + |l|) + ['\n'] + Lexed(r, Code, k, p)
    ensures Lexed(['/', '/'] + l, Code, k, p) == Spaces(2 + |l|)
  {
    hide Lexed;
    RestOfLine(l, r, k, p);
    LexPair('/', '/', l + ['\n'] + r, Code, k, p);
    LexPair('/', '/', l, Code, k, p);
    assert ['/', '/'] + l + ['\n'] + r == ['/', '/'] + (l + ['\n'] + r);
    assert Spaces(2 + |l|) == [' ', ' '] + Spaces(|l|);
    assert Spaces(2 + |l|) + ['\n'] + Lexed(r, Code, k, p) == [' ', ' '] + (Spaces(|l|) + ['\n'] + Lexed(r, Code, k, p));
  }

  /** A block comment becomes blanks and its line breaks, up to its end. */
  lemma BlockComment(b: seq<char>, r: seq<char>)
    requires NoClose(b)
    ensures StripComments(['/', '*'] + b + ['*', '/'] + r) == [' ', ' '] + Blanked(b) + [' ', ' '] + StripComments(r)
    ensures StripComments(['/', '*'] + b) == [' ', ' '] + Blanked(b)
    ensures Decomment(['/', '*'] + b + ['*', '/'] + r, Code) == [' ', ' '] + Blanked(b) + [' ', ' '] + Decomment(r, Code)
    ensures Decomment(['/', '*'] + b, Code) == [' ', ' '] + Blanked(b)
  {
    BothBlankComments();
    LexedBlockComment(b, r, Kept, Two);
    LexedBlockComment(b, r, KeptHere, PairHere);
    Both(['/', '*'] + b + ['*', '/'] + r);
    Both(['/', '*'] + b);
    Both(r);
  }

  lemma LexedBlockComment(b: seq<char>, r: seq<char>, k: Keep, p: KeepPair)
    requires CommentsBlank(k, p) && NoClose(b)
    ensures Lexed(['/', '*'] + b + ['*', '/'] + r, Code, k, p) == [' ', ' '] + Blanked(b) + [' ', ' '] + Lexed(r, Code, k, p)
    ensures Lexed(['/', '*'] + b, Code, k, p) == [' ', ' '] + Blanked(b)
  {
    hide Lexed;
    RestOfBlock(b, r, k, p);
    LexPair('/', '*', b + ['*', '/'] + r, Code, k, p);
    LexPair('/', '*', b, Code, k, p);
    assert ['/', '*'] + b + ['*', '/'] + r == ['/', '*'] + (b + ['*', '/'] + r);
    assert [' ', ' '] + Blanked(b) + [' ', ' '] + Lexed(r, Code, k, p) == [' ', ' '] + (Blanked(b) + [' ', ' '] + Lexed(r, Code, k, p));
  }

  /** What the skeleton shows of the inside of a literal. */
  function Hidden(items: seq<Item>): seq<char> {
    if |items| == 0 then []
    else (if items[0] == Plain('\n') then ['\n'] else if items[0].Plain? then [' '] else [' ', ' ']) + Hidden(items[1..])
  }

  lemma {:induction false} SeenIs(items: seq<Item>, m: Mode)
    requires (m == Str || m == Chr) && Inside(items, Quote(m))
    ensures Seen(items, m, Kept, Two) == Hidden(items)
    ensures Seen(items, m, KeptHere, PairHere) == Written(items)
  {
    if |items| > 0 {
      SeenIs(items[1..], m);
    }
  }

  /** A literal keeps its quotes, and the skeleton blanks what is between; the second lexer
      keeps it all.  Without a closing quote it goes on to the text's end. */
  lemma Literal(m: Mode, items: seq<Item>, r: seq<char>)
    requires (m == Str || m == Chr) && Inside(items, if m == Str then '"' else '\'')
    ensures var q := if m == Str then '"' else '\'';
            && StripComments([q] + Written(items) + [q] + r) == [q] + Hidden(items) + [q] + StripComments(r)
            && StripComments([q] + Written(items)) == [q] + Hidden(items)
            && StripComments([q] + Written(items) + ['\\']) == [q] + Hidden(items) + [' ']
            && Decomment([q] + Written(items) + [q] + r, Code) == [q] + Written(items) + [q] + Decomment(r, Code)
            && Decomment([q] + Written(items), Code) == [q] + Written(items)
            && Decomment([q] + Written(items) + ['\\'], Code) == [q] + Written(items) + ['\\']
  {
    hide Lexed, Strip, Decomment, StripComments, Written, Hidden, Seen, Inside, StartsPair;
    var q := Quote(m);
    SeenIs(items, m);
    LexedLiteral(m, items, r, Kept, Two);
    LexedLiteral(m, items, r, KeptHere, PairHere);
    Both([q] + Written(items) + [q] + r);
    Both([q] + Written(items));
    Both([q] + Written(items) + ['\\']);
    Both(r);
  }

  lemma LexedLiteral(m: Mode, items: seq<Item>, r: seq<char>, k: Keep, p: KeepPair)
    requires (m == Str || m == Chr) && Inside(items, Quote(m))
    ensures var q, s := Quote(m), Seen(items, m, k, p);
            && Lexed([q] + Written(items) + [q] + r, Code, k, p) == [k(q, Code)] + s + [k(q, m)] + Lexed(r, Code, k, p)
            && Lexed([q] + Written(items), Code, k, p) == [k(q, Code)] + s
            && Lexed([q] + Written(items) + ['\\'], Code, k, p) == [k(q, Code)] + s + [k('\\', m)]
  {
    hide Lexed, Written, Seen;
    var q, s := Quote(m), Seen(items, m, k, p);
    RestOfLiteral(items, r, m, k, p);
    LexChar(q, Written(items) + [q] + r, Code, k, p);
    LexChar(q, Written(items), Code, k, p);
    LexChar(q, Written(items) + ['\\'], Code, k, p);
    assert [q] + Written(items) + [q] + r == [q] + (Written(items) + [q] + r);
    assert [q] + Written(items) + ['\\'] == [q] + (Written(items) + ['\\']);
    assert [k(q, Code)] + s + [k(q, m)] + Lexed(r, Code, k, p) == [k(q, Code)] + (s + [k(q, m)] + Lexed(r, Code, k, p));
    assert [k(q, Code)] + s + [k('\\', m)] == [k(q, Code)] + (s + [k('\\', m)]);
  }

  predicate PlainCode(t: seq<char>) {
    '/' !in t && '"' !in t && '\'' !in t
  }

  /** Code without slashes and quotes is kept, and so is a slash that opens no comment. */
  lemma {:induction false} KeptCode(t: seq<char>, r: seq<char>)
    requires PlainCode(t)
    ensures StripComments(t + r) == t + StripComments(r) && Decomment(t + r, Code) == t + Decomment(r, Code)
    ensures StripComments(t) == t && Decomment(t, Code) == t
  {
    BothBlankComments();
    LexedCode(t, r, Kept, Two);
    LexedCode(t, r, KeptHere, PairHere);
    LexedCode(t, [], Kept, Two);
    LexedCode(t, [], KeptHere, PairHere);
    assert t + [] == t;
    Both(t + r);
    Both(r);
    Both(t);
  }

  lemma {:induction false} LexedCode(t: seq<char>, r: seq<char>, k: Keep, p: KeepPair)
    requires PlainCode(t) && CommentsBlank(k, p)
    ensures Lexed(t + r, Code, k, p) == t + Lexed(r, Code, k, p)
  {
    hide Lexed;
    if |t| == 0 {
      assert t + r == r;
    } else {
      LexedCode(t[1..], r, k, p);
      LexChar(t[0], t[1..] + r, Code, k, p);
      assert t + r == [t[0]] + (t[1..] + r);
      assert t + Lexed(r, Code, k, p) == [t[0]] + (t[1..] + Lexed(r, Code, k, p));
    }
  }

  lemma LexedSlash(r: seq<char>, k: Keep, p: KeepPair)
    requires CommentsBlank(k, p) && (|r| > 0 ==> r[0] != '/' && r[0] != '*')
    ensures Lexed(['/'] + r, Code, k, p) == ['/'] + Lexed(r, Code, k, p)
  {
    hide Lexed;
    LexChar('/', r, Code, k, p);
  }

  lemma KeptSlash(r: seq<char>)
    requires |r| > 0 ==> r[0] != '/' && r[0] != '*'
    ensures StripComments(['/'] + r) == ['/'] + StripComments(r) && Decomment(['/'] + r, Code) == ['/'] + Decomment(r, Code)
  {
    BothBlankComments();
    hide Lexed, Strip, StripComments, Decomment, CommentsBlank;
    LexedSlash(r, Kept, Two);
    LexedSlash(r, KeptHere, PairHere);
    Both(['/'] + r);
    Both(r);
  }
}
