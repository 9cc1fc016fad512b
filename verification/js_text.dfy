/**
 * The JavaScript string operations the application relies on:
 * `String.prototype.trim` (and the `trim() === ''` blank test) and
 * `String.prototype.split('\n')`, together with its inverse `join('\n')`.
 */
module JsText {
  import opened Base

  /**
   * The characters `trim()` removes: ECMAScript's WhiteSpace
   * (TAB, VT, FF, SP, NBSP, ZWNBSP and the Unicode space separators)
   * and LineTerminator (LF, CR, LS, PS).
   */
  predicate IsJsSpace(c: char) {
    || c == '\t' || c == '\n' || c == '\U{000B}' || c == '\U{000C}' || c == '\r'
    || c == ' ' || c == '\U{00A0}' || c == '\U{1680}'
    || ('\U{2000}' <= c <= '\U{200A}')
    || c == '\U{2028}' || c == '\U{2029}' || c == '\U{202F}' || c == '\U{205F}'
    || c == '\U{3000}' || c == '\U{FEFF}'
  }

  /** `s.trim() === ''`: the string holds nothing but white space. */
  predicate Blank(s: string) {
    forall i | 0 <= i < |s| :: IsJsSpace(s[i])
  }

  /** The position of the first character at or after `i` that is not white space (`|s|` if none). */
  function TextStart(s: string, i: nat): (k: nat)
    requires i <= |s|
    ensures i <= k <= |s|
    ensures forall j | i <= j < k :: IsJsSpace(s[j])
    ensures k < |s| ==> !IsJsSpace(s[k])
    decreases |s| - i
  {
    if i == |s| || !IsJsSpace(s[i]) then i else TextStart(s, i + 1)
  }

  /**
   * The position just after the last character before `e` (and not before
   * `lo`) that is not white space (`lo` if none).
   */
  function TextEnd(s: string, lo: nat, e: nat): (k: nat)
    requires lo <= e <= |s|
    ensures lo <= k <= e
    ensures forall j | k <= j < e :: IsJsSpace(s[j])
    ensures k > lo ==> !IsJsSpace(s[k - 1])
    decreases e
  {
    if e == lo || !IsJsSpace(s[e - 1]) then e else TextEnd(s, lo, e - 1)
  }

  /** `r` occurs in `s` at offset `k`, with nothing but white space before and after it. */
  predicate Surrounded(s: string, k: nat, r: string) {
    && k + |r| <= |s|
    && r == s[k..k + |r|]
    && Blank(s[..k])
    && Blank(s[k + |r|..])
  }

  /**
   * `s.trim()`: the part of `s` between its leading and its trailing
   * white space. It is empty exactly when `s` is blank, and otherwise it
   * starts and ends with a character that is not white space.
   */
  function Trim(s: string): (r: string)
    ensures Surrounded(s, TextStart(s, 0), r)
    ensures Blank(s) <==> |r| == 0
    ensures |r| > 0 ==> !IsJsSpace(r[0]) && !IsJsSpace(r[|r| - 1])
  {
    var k := TextStart(s, 0);
    var e := TextEnd(s, k, |s|);
    TextBounds(s);
    s[k..e]
  }

  /** Only white space lies outside the text bounds, and they coincide exactly when `s` is blank. */
  lemma TextBounds(s: string)
    ensures
      var k := TextStart(s, 0);
      var e := TextEnd(s, k, |s|);
      Blank(s[..k]) && Blank(s[e..]) && (Blank(s) <==> e == k)
  {
    var k := TextStart(s, 0);
    var e := TextEnd(s, k, |s|);
    assert Blank(s) ==> k == |s|;
    assert Blank(s[..k]) by {
      forall i | 0 <= i < k ensures IsJsSpace(s[..k][i]) {
        assert s[..k][i] == s[i];
      }
    }
    assert Blank(s[e..]) by {
      forall i | 0 <= i < |s| - e ensures IsJsSpace(s[e..][i]) {
        assert s[e..][i] == s[e + i];
      }
    }
    if e == k {
      assert k == |s|;
    }
  }

  /** Trimming is idempotent: a trimmed string has nothing left to trim. */
  lemma TrimIdempotent(s: string)
    ensures Trim(Trim(s)) == Trim(s)
  {
    var r := Trim(s);
    if |r| > 0 {
      assert TextStart(r, 0) == 0;
      assert TextEnd(r, 0, |r|) == |r|;
      assert r[0..|r|] == r;
    }
  }

  /**
   * `s.split('\n')`: the pieces of `s` between line feeds, in order.
   * There is always at least one piece, and no piece holds a line feed.
   */
  function Split(s: string): (r: seq<string>)
    ensures |r| >= 1
    ensures forall k | 0 <= k < |r| :: '\n' !in r[k]
  {
    if |s| == 0 then [""]
    else
      var rest := Split(s[1..]);
      if s[0] == '\n' then [""] + rest
      else [[s[0]] + rest[0]] + rest[1..]
  }

  /** `parts.join('\n')`. */
  function Join(parts: seq<string>): string
    requires |parts| >= 1
  {
    if |parts| == 1 then parts[0] else parts[0] + "\n" + Join(parts[1..])
  }

  /** Joining can equally be read from the last piece backwards. */
  lemma {:induction false} JoinLast(parts: seq<string>)
    requires |parts| >= 2
    ensures Join(parts) == Join(Init(parts)) + "\n" + Last(parts)
  {
    if |parts| > 2 {
      JoinLast(parts[1..]);
      assert Init(parts)[1..] == Init(parts[1..]);
    }
  }

  /** A string without a line feed splits into itself. */
  lemma {:induction false} SplitWithoutNewline(s: string)
    requires '\n' !in s
    ensures Split(s) == [s]
  {
    if |s| > 0 {
      SplitWithoutNewline(s[1..]);
      assert [s[0]] + s[1..] == s;
    }
  }

  /** Joining the pieces of a split gives back the original string. */
  lemma {:induction false} JoinSplit(s: string)
    ensures Join(Split(s)) == s
  {
    if |s| > 0 {
      var rest := Split(s[1..]);
      JoinSplit(s[1..]);
      if s[0] == '\n' {
        assert ([""] + rest)[1..] == rest;
        assert "" + "\n" + Join(rest) == s;
      } else {
        var r := [[s[0]] + rest[0]] + rest[1..];
        if |rest| == 1 {
          assert Join(r) == [s[0]] + rest[0];
        } else {
          assert r[1..] == rest[1..];
          assert Join(rest) == rest[0] + "\n" + Join(rest[1..]);
          assert Join(r) == [s[0]] + rest[0] + "\n" + Join(rest[1..]);
        }
        assert [s[0]] + s[1..] == s;
      }
    }
  }

  /** A piece without a line feed followed by a line feed starts a split. */
  lemma {:induction false} SplitLine(p: string, t: string)
    requires '\n' !in p
    ensures Split(p + "\n" + t) == [p] + Split(t)
  {
    if |p| == 0 {
      assert p + "\n" + t == "\n" + t;
      assert ("\n" + t)[1..] == t;
    } else {
      SplitLine(p[1..], t);
      assert (p + "\n" + t)[1..] == p[1..] + "\n" + t;
      assert (p + "\n" + t)[0] == p[0];
      assert [p[0]] + p[1..] == p;
    }
  }

  /**
   * Splitting undoes joining, provided no piece holds a line feed:
   * together with `JoinSplit` this makes `Split` and `Join` inverse.
   */
  lemma {:induction false} SplitJoin(parts: seq<string>)
    requires |parts| >= 1
    requires forall k | 0 <= k < |parts| :: '\n' !in parts[k]
    ensures Split(Join(parts)) == parts
  {
    if |parts| == 1 {
      SplitWithoutNewline(parts[0]);
    } else {
      SplitJoin(parts[1..]);
      SplitLine(parts[0], Join(parts[1..]));
      assert [parts[0]] + parts[1..] == parts;
    }
  }

  /** How `Split` treats the first character of a string. */
  lemma SplitCons(c: char, t: string)
    ensures Split([c] + t) ==
      if c == '\n' then [""] + Split(t) else [[c] + Split(t)[0]] + Split(t)[1..]
  {
    assert ([c] + t)[1..] == t;
  }

  /**
   * Splitting a concatenation: the complete pieces of `x` come out
   * unchanged, and the last (unterminated) piece of `x` is glued to the
   * front of `y` before `y` is split.
   */
  lemma {:induction false} SplitAppend(x: string, y: string)
    ensures Split(x + y) == Init(Split(x)) + Split(Last(Split(x)) + y)
  {
    if |x| == 0 {
      assert x + y == y;
    } else {
      var c, x' := x[0], x[1..];
      assert x == [c] + x';
      SplitAppend(x', y);
      SplitAppendCons(c, x', y);
    }
  }

  /** The inductive step of `SplitAppend`: from `x'` to `[c] + x'`. */
  lemma SplitAppendCons(c: char, x': string, y: string)
    requires Split(x' + y) == Init(Split(x')) + Split(Last(Split(x')) + y)
    ensures Split([c] + x' + y) == Init(Split([c] + x')) + Split(Last(Split([c] + x')) + y)
  {
    assert [c] + x' + y == [c] + (x' + y);
    if c == '\n' {
      SplitAppendNewline(x', y);
    } else {
      SplitAppendLetter(c, x', y);
    }
  }

  /** `SplitAppendCons` for a leading line feed. */
  lemma SplitAppendNewline(x': string, y: string)
    requires Split(x' + y) == Init(Split(x')) + Split(Last(Split(x')) + y)
    ensures Split(['\n'] + (x' + y)) == Init(Split(['\n'] + x')) + Split(Last(Split(['\n'] + x')) + y)
  {
    SplitCons('\n', x');
    SplitCons('\n', x' + y);
    PrependPiece("", Split(x'), Split(x' + y), Split(Last(Split(x')) + y));
  }

  /** `SplitAppendCons` for a leading character that is not a line feed. */
  lemma SplitAppendLetter(c: char, x': string, y: string)
    requires c != '\n'
    requires Split(x' + y) == Init(Split(x')) + Split(Last(Split(x')) + y)
    ensures Split([c] + (x' + y)) == Init(Split([c] + x')) + Split(Last(Split([c] + x')) + y)
  {
    var pieces := Split(x');
    SplitCons(c, x');
    SplitCons(c, x' + y);
    if |pieces| == 1 {
      SplitAppendSingle(c, pieces[0], y);
    } else {
      GlueFirst(c, pieces, Split(x' + y), Split(Last(pieces) + y));
    }
  }

  /** The step of `SplitAppend` for a leading line feed, on the pieces alone. */
  lemma PrependPiece(p: string, pieces: seq<string>, r: seq<string>, tail: seq<string>)
    requires |pieces| >= 1
    requires r == Init(pieces) + tail
    ensures [p] + r == Init([p] + pieces) + tail && Last([p] + pieces) == Last(pieces)
  {
    assert Init([p] + pieces) == [p] + Init(pieces);
  }

  /** The step of `SplitAppend` when `x'` has no line feed. */
  lemma SplitAppendSingle(c: char, p: string, y: string)
    requires c != '\n'
    ensures Split([[c] + p][0] + y) == [[c] + Split(p + y)[0]] + Split(p + y)[1..]
  {
    assert [[c] + p][0] + y == [c] + (p + y);
    SplitCons(c, p + y);
  }

  /**
   * The step of `SplitAppend` for a first character that is not a line
   * feed and a string with at least one line feed, on the pieces alone:
   * gluing the character to the first piece commutes with the append.
   */
  lemma GlueFirst(c: char, pieces: seq<string>, r: seq<string>, tail: seq<string>)
    requires |pieces| >= 2
    requires r == Init(pieces) + tail
    ensures
      var glued := [[c] + pieces[0]] + pieces[1..];
      [[c] + r[0]] + r[1..] == Init(glued) + tail && Last(glued) == Last(pieces)
  {
    var glued := [[c] + pieces[0]] + pieces[1..];
    assert r[0] == pieces[0];
    assert r[1..] == Init(pieces)[1..] + tail;
    assert Init(glued) == [[c] + pieces[0]] + Init(pieces)[1..];
  }
}
