/**
 The rule of blank_pass in tools/var_hoist.py, stated on texts: after which braces an
 empty line goes, and before which lines it does not.
 */
module BlankTexts {
  import opened Texts
  import opened BlankLines

  // ----- what follows the brace -----

  predicate OnlyOf(t: Text, cr: bool) {
    forall i :: 0 <= i < |t| ==> IsBlank(t[i], cr)
  }

  lemma {:induction false} BlanksOf(t: Text, r: Text, cr: bool)
    requires OnlyOf(t, cr) && (|r| > 0 ==> !IsBlank(r[0], cr))
    ensures Blanks(t + r, cr) == |t|
  {
    if |t| == 0 {
      assert t + r == r;
    } else {
      assert (t + r)[1..] == t[1..] + r;
      BlanksOf(t[1..], r, cr);
    }
  }

  /** The text is this word, or goes on after it with no word character. */
  predicate BeginsWith(word: char -> bool, r: Text, w: Text) {
    w <= r && (|r| > |w| ==> !word(r[|w|]))
  }

  lemma {:induction false} StartsWithIs(word: char -> bool, r: Text, w: Text)
    ensures StartsWith(word, r, w) <==> BeginsWith(word, r, w)
  {
    if |w| > 0 && |r| > 0 {
      StartsWithIs(word, r[1..], w[1..]);
      assert w <= r <==> w[0] == r[0] && w[1..] <= r[1..];
    }
  }

  /** A brace that ends its line asks for an empty line exactly when the next line, past its
      indentation, starts with something else than a closing brace, a preprocessor line, or
      the words "else" and "while". */
  lemma NextLineDecides(word: char -> bool, gap: Text, indent: Text, r: Text)
    requires OnlyOf(gap, false) && OnlyOf(indent, true) && |r| > 0 && !IsBlank(r[0], true)
    requires |indent| == 0 ==> r[0] != '\n'
    ensures Asks(word, gap + ['\n'] + indent + r)
            <==> r[0] != '}' && r[0] != '#' && !BeginsWith(word, r, "else") && !BeginsWith(word, r, "while")
  {
    var line := indent + r;
    var all := gap + ['\n'] + line;
    assert gap + ['\n'] + indent + r == all && all == gap + (['\n'] + line);
    BlanksOf(gap, ['\n'] + line, false);
    assert all[|gap|] == '\n' && all[|gap| + 1..] == line && line[0] == all[|gap| + 1];
    BlanksOf(indent, r, true);
    assert line[|indent|..] == r;
    StartsWithIs(word, r, "else");
    StartsWithIs(word, r, "while");
  }

  /** Nothing is asked for when the brace does not end its line, when an empty line follows
      already, or when nothing follows. */
  lemma NothingAsked(word: char -> bool, gap: Text, r: Text)
    requires OnlyOf(gap, false) && (|r| > 0 ==> !IsBlank(r[0], false))
    ensures |r| == 0 || r[0] != '\n' || |r| == 1 || r[1] == '\n' || OnlyOf(r[1..], true) ==> !Asks(word, gap + r)
  {
    BlanksOf(gap, r, false);
    var all := gap + r;
    assert |r| > 0 ==> all[|gap|] == r[0];
    assert |r| > 1 ==> all[|gap| + 1] == r[1];
    if |r| > 1 && OnlyOf(r[1..], true) {
      BlanksOf(r[1..], [], true);
      assert r[1..] + [] == r[1..] && all[|gap| + 1..] == r[1..];
    }
  }

  // ----- what comes before it -----

  /** Opening braces less closing ones. */
  function Level(t: Text): int {
    if |t| == 0 then 0
    else Level(t[..|t| - 1]) + if t[|t| - 1] == '{' then 1 else if t[|t| - 1] == '}' then -1 else 0
  }

  predicate Balanced(t: Text) {
    Level(t) == 0 && forall k :: 0 <= k <= |t| ==> Level(t[..k]) >= 0
  }

  /** The last character that is not white space. */
  function LastSign(t: Text): char {
    if |t| == 0 then ' ' else if IsWhite(t[|t| - 1]) then LastSign(t[..|t| - 1]) else t[|t| - 1]
  }

  lemma {:induction false} ScannedIs(t: Text)
    ensures Scanned(t).depth == Level(t) && Scanned(t).last == LastSign(t)
  {
    if |t| > 0 {
      ScannedIs(t[..|t| - 1]);
    }
  }

  /** Reading on from `t` without going below it keeps what is open there. */
  lemma {:induction false} ScanOver(t: Text, b: Text, k: nat)
    requires k <= |b| && forall j :: 0 <= j <= k ==> Level(b[..j]) >= 0
    ensures var s, u := Scanned(t), Scanned(t + b[..k]);
            u.depth == s.depth + Level(b[..k]) && |u.inits| == |s.inits| + Level(b[..k]) && s.inits <= u.inits
  {
    hide Scanned;
    if k == 0 {
      assert t + b[..0] == t;
    } else {
      ScanOver(t, b, k - 1);
      assert b[..k] == b[..k - 1] + [b[k - 1]] && t + b[..k] == (t + b[..k - 1]) + [b[k - 1]];
      ScannedSnoc(t + b[..k - 1], b[k - 1]);
      LevelSnoc(b[..k - 1], b[k - 1]);
    }
  }

  lemma LevelSnoc(t: Text, c: char)
    ensures Level(t + [c]) == Level(t) + if c == '{' then 1 else if c == '}' then -1 else 0
  {
    assert (t + [c])[..|t|] == t;
  }

  /** The brace that closes the one after `a`, past the balanced text `b`, ends a block at
      the top of the body exactly when that one was opened at the top, and not as an
      initializer: after an equals sign, a comma or another brace. */
  lemma TopBlocks(a: Text, b: Text)
    requires Balanced(b)
    ensures EndsTopBlock(Scanned(a + ['{'] + b))
            <==> Level(a) == 1 && LastSign(a) != '=' && LastSign(a) != ',' && LastSign(a) != '{'
  {
    var t := a + ['{'];
    ScannedSnoc(a, '{');
    ScannedIs(a);
    ScanOver(t, b, |b|);
    assert b[..|b|] == b;
    var s, u := Scanned(t), Scanned(t + b);
    assert u.inits == s.inits && s.inits[|s.inits| - 1] == (LastSign(a) == '=' || LastSign(a) == ',' || LastSign(a) == '{');
  }
}
