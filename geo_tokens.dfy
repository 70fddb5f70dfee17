/**
 * The text layer of the WKT reader: strings.Join, the replacer that puts
 * spaces around "(", ")" and ",", and bufio.ScanWords, which splits the
 * padded text into whitespace-separated words.
 *
 * Assoc only regroups a concatenation so that the proofs stay cheap; it
 * states nothing about the source.
 */
module Tokens {

  /** strings.Join, for any element type: the parts with sep between neighbours. */
  function Join<T>(parts: seq<seq<T>>, sep: seq<T>): (r: seq<T>)
    ensures |parts| == 1 ==> r == parts[0]
  {
    if |parts| == 0 then []
    else if |parts| == 1 then parts[0]
    else parts[0] + sep + Join(parts[1..], sep)
  }

  /** The white space of bufio.ScanWords: ASCII \t \n \v \f \r and space, U+0085, U+00A0 and the Unicode spaces above U+00FF. */
  predicate IsSpace(c: char)
  {
    || c == ' ' || c == '\t' || c == '\n' || c == '\U{B}' || c == '\U{C}' || c == '\r'
    || c == '\U{85}' || c == '\U{A0}'
    || ('\U{2000}' <= c <= '\U{200A}')
    || c == '\U{1680}' || c == '\U{2028}' || c == '\U{2029}' || c == '\U{202F}'
    || c == '\U{205F}' || c == '\U{3000}'
  }

  /** What the WKT replacer writes for one character. */
  function PadChar(c: char): (r: string)
  {
    if c == '(' then " [ "
    else if c == ')' then " ] "
    else if c == ',' then " , "
    else [c]
  }

  /** The replacer of WKTToGeoJSON: "(" to " [ ", ")" to " ] ", "," to " , ". */
  function Pad(s: string): (r: string)
    ensures |r| >= |s|
  {
    if |s| == 0 then "" else PadChar(s[0]) + Pad(s[1..])
  }

  /** The end of the word that starts before i: the first space at or after i, or the end of s. */
  function WordEnd(s: string, i: nat): (n: nat)
    requires i <= |s|
    ensures i <= n <= |s|
    ensures forall k :: i <= k < n ==> !IsSpace(s[k])
    ensures n == |s| || IsSpace(s[n])
    decreases |s| - i
  {
    if i == |s| || IsSpace(s[i]) then i else WordEnd(s, i + 1)
  }

  /** bufio.ScanWords: the maximal runs of non-space characters, in order. */
  function Words(s: string): (w: seq<string>)
    decreases |s|
  {
    if |s| == 0 then []
    else if IsSpace(s[0]) then Words(s[1..])
    else
      var n := WordEnd(s, 1);
      [s[..n]] + Words(s[n..])
  }

  /** The words the scanner of WKTToGeoJSON returns for the text wkt. */
  function Lex(wkt: string): seq<string>
  {
    Words(Pad(wkt))
  }

  /** A word is never empty and holds no space. */
  predicate IsWord(w: string)
  {
    |w| > 0 && forall k :: 0 <= k < |w| ==> !IsSpace(w[k])
  }

  lemma {:induction false} WordsAreWords(s: string)
    ensures forall i :: 0 <= i < |Words(s)| ==> IsWord(Words(s)[i])
    decreases |s|
  {
    if |s| == 0 {
    } else if IsSpace(s[0]) {
      WordsAreWords(s[1..]);
    } else {
      var n := WordEnd(s, 1);
      WordsAreWords(s[n..]);
    }
  }

  /** A character after which, or before which, no word can continue across a join. */
  predicate IsBreak(c: char)
  {
    IsSpace(c) || c == '(' || c == ')' || c == ','
  }

  lemma {:induction false} PadAppend(a: string, b: string)
    ensures Pad(a + b) == Pad(a) + Pad(b)
    decreases |a|
  {
    if |a| == 0 {
      assert a + b == b;
    } else {
      assert (a + b)[1..] == a[1..] + b;
      PadAppend(a[1..], b);
    }
  }

  lemma {:induction false} PadBreakFirst(s: string)
    requires |s| > 0 && IsBreak(s[0])
    ensures |Pad(s)| > 0 && IsSpace(Pad(s)[0])
  {
  }

  lemma {:induction false} PadBreakLast(s: string)
    requires |s| > 0 && IsBreak(s[|s| - 1])
    ensures |Pad(s)| > 0 && IsSpace(Pad(s)[|Pad(s)| - 1])
  {
    var m := |s| - 1;
    assert s == s[..m] + [s[m]];
    PadAppend(s[..m], [s[m]]);
    assert Pad([s[m]]) == PadChar(s[m]);
  }

  lemma {:induction false} WordEndAppend(x: string, y: string, i: nat)
    requires 0 < i <= |x|
    requires |y| == 0 || IsSpace(y[0]) || (i < |x| && IsSpace(x[|x| - 1]))
    ensures WordEnd(x + y, i) == WordEnd(x, i)
    decreases |x| - i
  {
    if i == |x| {
      assert |y| == 0 || (x + y)[i] == y[0];
    } else if IsSpace(x[i]) {
    } else {
      WordEndAppend(x, y, i + 1);
    }
  }

  /** Words of a concatenation split at a space are the words of the two parts. */
  lemma {:induction false} WordsAppend(x: string, y: string)
    requires |x| == 0 || |y| == 0 || IsSpace(x[|x| - 1]) || IsSpace(y[0])
    ensures Words(x + y) == Words(x) + Words(y)
    decreases |x|, 1
  {
    if |x| == 0 {
      assert x + y == y;
    } else if IsSpace(x[0]) {
      var t := x[1..];
      assert (x + y)[0] == x[0] && (x + y)[1..] == t + y;
      assert |t| == 0 || t[|t| - 1] == x[|x| - 1];
      WordsAppend(t, y);
    } else {
      WordsAppendWord(x, y);
    }
  }

  /** The case of WordsAppend where x starts with a word. */
  lemma {:induction false} WordsAppendWord(x: string, y: string)
    requires |x| > 0 && !IsSpace(x[0])
    requires |y| == 0 || IsSpace(x[|x| - 1]) || IsSpace(y[0])
    ensures Words(x + y) == Words(x) + Words(y)
    decreases |x|, 0
  {
    var n := WordEnd(x, 1);
    var t := x[n..];
    WordEndAppend(x, y, 1);
    assert Words(x + y) == [x[..n]] + Words(t + y) by {
      assert (x + y)[0] == x[0];
      assert (x + y)[..n] == x[..n];
      assert (x + y)[n..] == t + y;
    }
    assert |t| == 0 || t[|t| - 1] == x[|x| - 1];
    WordsAppend(t, y);
    Assoc([x[..n]], Words(t), Words(y));
  }

  /** Lex of a concatenation split at "(", ")", "," or a space is the lexes of the two parts. */
  lemma LexAppend(a: string, b: string)
    requires |a| == 0 || |b| == 0 || IsBreak(a[|a| - 1]) || IsBreak(b[0])
    ensures Lex(a + b) == Lex(a) + Lex(b)
  {
    PadAppend(a, b);
    if |a| > 0 && IsBreak(a[|a| - 1]) {
      PadBreakLast(a);
    } else if |b| > 0 && IsBreak(b[0]) {
      PadBreakFirst(b);
    }
    WordsAppend(Pad(a), Pad(b));
  }

  /** A text with no break character in it is one word, unchanged. */
  predicate IsPlain(w: string)
  {
    |w| > 0 && forall k :: 0 <= k < |w| ==> !IsBreak(w[k])
  }

  lemma {:induction false} PadPlain(w: string)
    requires forall k :: 0 <= k < |w| ==> w[k] != '(' && w[k] != ')' && w[k] != ','
    ensures Pad(w) == w
    decreases |w|
  {
    if |w| > 0 {
      PadPlain(w[1..]);
    }
  }

  lemma LexPlain(w: string)
    requires IsPlain(w)
    ensures Lex(w) == [w]
  {
    PadPlain(w);
    assert !IsSpace(w[0]);
    assert WordEnd(w, 1) == |w|;
    assert w[..|w|] == w;
    assert Words(w[|w|..]) == [];
    assert Words(w) == [w];
  }

  /** A one-character word followed by a space. */
  lemma WordsStep(p: char, s: string)
    requires !IsSpace(p) && |s| > 0 && IsSpace(s[0])
    ensures Words([p] + s) == [[p]] + Words(s)
  {
    var t := [p] + s;
    assert WordEnd(t, 1) == 1;
    assert t[..1] == [p] && t[1..] == s;
  }

  lemma {:induction false} WordsOfSpaces(s: string)
    requires forall k :: 0 <= k < |s| ==> IsSpace(s[k])
    ensures Words(s) == []
    decreases |s|
  {
    if |s| > 0 {
      WordsOfSpaces(s[1..]);
    }
  }

  /** A punctuation character alone, or followed by a space, is one word. */
  lemma LexOne(c: char, p: char)
    requires (c == '(' && p == '[') || (c == ')' && p == ']') || (c == ',' && p == ',')
    ensures Lex([c]) == [[p]] && Lex([c, ' ']) == [[p]]
  {
    assert Pad([c]) == [' ', p, ' '] by {
      assert [c][1..] == [];
    }
    assert Pad([c, ' ']) == [' ', p, ' ', ' '] by {
      assert [c, ' '][1..] == [' '] && [' '][1..] == [];
    }
    SpaceWord(p, []);
    SpaceWord(p, [' ']);
    assert [' ', p, ' '] + [] == [' ', p, ' '];
    assert [' ', p, ' '] + [' '] == [' ', p, ' ', ' '];
  }

  /** A space, one non-space character, then spaces: that one character is the only word. */
  lemma SpaceWord(p: char, more: string)
    requires !IsSpace(p) && (more == [] || more == [' '])
    ensures Words([' ', p, ' '] + more) == [[p]]
  {
    var t := [' ', p, ' '] + more;
    assert t[1..] == [p] + ([' '] + more);
    WordsStep(p, [' '] + more);
    WordsOfSpaces([' '] + more);
  }

  lemma LexSpace()
    ensures Lex(" ") == []
  {
    PadPlain(" ");
    WordsOfSpaces(" ");
  }

  lemma LexPunctuation()
    ensures Lex("(") == ["["] && Lex("( ") == ["["] && Lex(")") == ["]"]
    ensures Lex(",") == [","] && Lex(", ") == [","] && Lex(" ") == []
  {
    LexOne('(', '[');
    LexOne(')', ']');
    LexOne(',', ',');
    assert "(" == ['('] && "( " == ['(', ' '] && ")" == [')'];
    assert "," == [','] && ", " == [',', ' '];
    LexSpace();
  }

  /** Lex of every text, in order. */
  function LexAll(texts: seq<string>): (r: seq<seq<string>>)
    ensures |r| == |texts|
  {
    seq(|texts|, i requires 0 <= i < |texts| => Lex(texts[i]))
  }

  /** A join with "," or ", " lexes to the joined lexes of its parts, separated by "," words. */
  lemma {:induction false} LexJoin(texts: seq<string>, sep: string)
    requires sep == "," || sep == ", "
    ensures Lex(Join(texts, sep)) == Join(LexAll(texts), [","])
    decreases |texts|
  {
    if |texts| == 0 {
      assert Pad("") == "";
    } else if |texts| == 1 {
    } else {
      var rest := Join(texts[1..], sep);
      LexSeparated(texts[0], sep, rest);
      LexJoin(texts[1..], sep);
      assert LexAll(texts[1..]) == LexAll(texts)[1..];
    }
  }

  lemma LexSeparated(a: string, sep: string, b: string)
    requires sep == "," || sep == ", "
    ensures Lex(a + sep + b) == Lex(a) + [","] + Lex(b)
  {
    LexSep(sep, b);
    LexAppend(sep, b);
    LexAppend(a, sep + b);
    Assoc(a, sep, b);
    Assoc(Lex(a), [","], Lex(b));
  }

  lemma LexSep(sep: string, b: string)
    requires sep == "," || sep == ", "
    ensures Lex(sep) == [","] && IsBreak(sep[|sep| - 1]) && (sep + b)[0] == ','
  {
    LexPunctuation();
  }

  lemma Assoc<T>(a: seq<T>, b: seq<T>, c: seq<T>)
    ensures a + b + c == a + (b + c)
  {
  }

  /** "(" + x + ")" lexes to "[", the words of x, "]". */
  lemma LexParens(open: string, x: string)
    requires open == "(" || open == "( "
    ensures Lex(open + x + ")") == ["["] + Lex(x) + ["]"]
  {
    assert Lex(open) == ["["] && Lex(")") == ["]"] by {
      LexPunctuation();
    }
    assert IsBreak(open[|open| - 1]);
    LexAppend(open + x, ")");
    LexAppend(open, x);
  }
}
