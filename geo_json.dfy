/**
 * JSON text of nested arrays of numbers, the only JSON the geometry code
 * writes (json.Marshal of coordinate slices) and reads (json.Unmarshal into
 * [][][][]float64). A number is kept as its text: turning text into a
 * float64 and back is left to the callers.
 *
 * Regroup5 only regroups a concatenation so that the proofs stay cheap; it
 * states nothing about the source.
 */
module JsonText {
  import opened Text
  import opened Tokens

  datatype Json = Num(text: string) | Arr(items: seq<Json>)

  /** Compact JSON text: "[" items joined by "," "]", numbers as their text. */
  function Print(j: Json): (s: string)
    decreases j
  {
    match j
    case Num(t) => t
    case Arr(items) => "[" + Join(PrintAll(items), ",") + "]"
  }

  /** The texts of a list of values. */
  function PrintAll(items: seq<Json>): (r: seq<string>)
    ensures |r| == |items|
    ensures forall i :: 0 <= i < |items| ==> r[i] == Print(items[i])
    decreases items
  {
    seq(|items|, i requires 0 <= i < |items| => Print(items[i]))
  }

  /** A character that ends the text of a number. */
  predicate IsDelimiter(c: char)
  {
    c == '[' || c == ']' || c == ','
  }

  /** A number text that reads back as itself: non-empty, no bracket and no comma. */
  predicate IsNumText(t: string)
  {
    |t| > 0 && forall k :: 0 <= k < |t| ==> !IsDelimiter(t[k])
  }

  /** Every number in j has a text that reads back as itself. */
  predicate Clean(j: Json)
    decreases j
  {
    match j
    case Num(t) => IsNumText(t)
    case Arr(items) => forall i :: 0 <= i < |items| ==> Clean(items[i])
  }

  /** The first delimiter of s at or after i, or the end of s. */
  function NumEnd(s: string, i: nat): (n: nat)
    requires i <= |s|
    ensures i <= n <= |s|
    ensures forall k :: i <= k < n ==> !IsDelimiter(s[k])
    ensures n == |s| || IsDelimiter(s[n])
    decreases |s| - i
  {
    if i == |s| || IsDelimiter(s[i]) then i else NumEnd(s, i + 1)
  }

  /** One value at the start of s, and what follows it. */
  function ParseValue(s: string): (r: Option<(Json, string)>)
    ensures r.Some? ==> |r.value.1| < |s|
    decreases |s|, 0
  {
    if |s| == 0 then None
    else if s[0] == '[' then
      if |s| >= 2 && s[1] == ']' then Some((Arr([]), s[2..]))
      else
        match ParseItems(s[1..])
        case None => None
        case Some((items, rest)) => Some((Arr(items), rest))
    else if s[0] == ']' || s[0] == ',' then None
    else
      var n := NumEnd(s, 1);
      Some((Num(s[..n]), s[n..]))
  }

  /** One or more values separated by "," and closed by "]", and what follows the "]". */
  function ParseItems(s: string): (r: Option<(seq<Json>, string)>)
    ensures r.Some? ==> |r.value.1| < |s|
    decreases |s|, 1
  {
    match ParseValue(s)
    case None => None
    case Some((v, rest)) =>
      if |rest| == 0 then None
      else if rest[0] == ']' then Some(([v], rest[1..]))
      else if rest[0] == ',' then
        match ParseItems(rest[1..])
        case None => None
        case Some((vs, rest2)) => Some(([v] + vs, rest2))
      else None
  }

  /** The whole of s as one value; anything left over is an error. */
  function Parse(s: string): (r: Option<Json>)
  {
    match ParseValue(s)
    case None => None
    case Some((j, rest)) => if rest == "" then Some(j) else None
  }

  lemma PrintStart(j: Json)
    requires Clean(j)
    ensures |Print(j)| > 0 && Print(j)[0] != ']' && Print(j)[0] != ','
  {
  }

  /** A clean value reads back from its text, whatever delimiter follows it. */
  lemma {:induction false} ParsePrint(j: Json, rest: string)
    requires Clean(j)
    requires rest == "" || rest[0] == ']' || rest[0] == ','
    ensures ParseValue(Print(j) + rest) == Some((j, rest))
    decreases j, 1
  {
    var s := Print(j) + rest;
    match j
    case Num(t) =>
      assert s[..|t|] == t && s[|t|..] == rest;
      assert NumEnd(s, 1) == |t| by {
        NumEndOf(t, rest, 1);
      }
    case Arr(items) =>
      if |items| == 0 {
        assert s[2..] == rest;
      } else {
        ParsePrintArr(items, rest);
      }
  }

  /** The case of ParsePrint for a non-empty array. */
  lemma {:induction false} ParsePrintArr(items: seq<Json>, rest: string)
    requires |items| > 0
    requires forall i :: 0 <= i < |items| ==> Clean(items[i])
    requires rest == "" || rest[0] == ']' || rest[0] == ','
    ensures ParseValue(Print(Arr(items)) + rest) == Some((Arr(items), rest))
    decreases Arr(items), 0
  {
    var body := Join(PrintAll(items), ",");
    var tail := body + "]" + rest;
    assert Print(Arr(items)) + rest == "[" + tail by {
      Assoc("[", body, "]");
      Assoc("[", body + "]", rest);
    }
    assert ("[" + tail)[0] == '[' && ("[" + tail)[1..] == tail;
    PrintStart(items[0]);
    JoinStart(PrintAll(items), ",");
    assert tail[0] == body[0] == Print(items[0])[0];
    ParsePrintItems(items, rest);
  }

  lemma {:induction false} NumEndOf(t: string, rest: string, i: nat)
    requires IsNumText(t) && 0 < i <= |t|
    requires rest == "" || IsDelimiter(rest[0])
    ensures NumEnd(t + rest, i) == |t|
    decreases |t| - i
  {
    var s := t + rest;
    if i < |t| {
      assert s[i] == t[i];
      NumEndOf(t, rest, i + 1);
    } else {
      assert rest == "" || s[i] == rest[0];
    }
  }

  /** The items of a non-empty clean list read back from their joined text and the closing "]". */
  lemma {:induction false} ParsePrintItems(items: seq<Json>, rest: string)
    requires |items| > 0
    requires forall i :: 0 <= i < |items| ==> Clean(items[i])
    ensures ParseItems(Join(PrintAll(items), ",") + "]" + rest) == Some((items, rest))
    decreases items, 0
  {
    var head := Print(items[0]);
    if |items| == 1 {
      var more := "]" + rest;
      assert Join(PrintAll(items), ",") + "]" + rest == head + more by {
        assert Join(PrintAll(items), ",") == head;
        Assoc(head, "]", rest);
      }
      ParsePrint(items[0], more);
      assert more[0] == ']' && more[1..] == rest;
      assert [items[0]] == items;
    } else {
      var tail := Join(PrintAll(items[1..]), ",");
      var more := "," + (tail + "]" + rest);
      assert Join(PrintAll(items), ",") == head + "," + tail by {
        assert PrintAll(items)[1..] == PrintAll(items[1..]);
      }
      assert Join(PrintAll(items), ",") + "]" + rest == head + more by {
        Regroup5(head, ",", tail, "]", rest);
      }
      ParsePrint(items[0], more);
      assert more[0] == ',' && more[1..] == tail + "]" + rest;
      ParsePrintItems(items[1..], rest);
      assert [items[0]] + items[1..] == items;
    }
  }

  lemma Regroup5(a: string, b: string, c: string, d: string, e: string)
    ensures a + b + c + d + e == a + (b + (c + d + e))
  {
  }

  lemma JoinStart(parts: seq<string>, sep: string)
    requires |parts| > 0 && |parts[0]| > 0
    ensures |Join(parts, sep)| > 0 && Join(parts, sep)[0] == parts[0][0]
  {
  }

  /** Print and Parse are inverse on clean values. */
  lemma ParseOfPrint(j: Json)
    requires Clean(j)
    ensures Parse(Print(j)) == Some(j)
  {
    ParsePrint(j, "");
    assert Print(j) + "" == Print(j);
  }
}
