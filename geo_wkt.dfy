/**
 * WKTToGeoJSON: the WKT text is split into words, the first word names the
 * geometry type and the rest are rewritten one by one into a JSON array
 * literal, pairing up coordinates with the help of a single flag.
 *
 * Regroup only regroups a concatenation so that the proofs stay cheap; it
 * states nothing about the source.
 */
module WktToJson {
  import opened Text
  import opened Tokens

  /** The words written through unchanged: brackets and commas. */
  predicate IsPunct(w: string)
  {
    |w| == 1 && (w[0] == '[' || w[0] == ']' || w[0] == ',')
  }

  /**
   * The JSON text written for the words toks when flag says whether the word
   * before them was a coordinate: a bracket or comma is copied, a coordinate
   * after a coordinate closes a pair as ",w]", any other coordinate opens
   * one as "[w".
   */
  function Emit(toks: seq<string>, flag: bool): string
    decreases |toks|
  {
    if |toks| == 0 then ""
    else Piece(toks[0], flag) + Emit(toks[1..], !IsPunct(toks[0]))
  }

  /** The text written for one word w. */
  function Piece(w: string, flag: bool): string
  {
    if flag && !IsPunct(w) then "," + w + "]"
    else if !IsPunct(w) then "[" + w
    else w
  }

  /** The flag after the words a, starting from flag. */
  function FlagAfter(a: seq<string>, flag: bool): bool
  {
    if |a| == 0 then flag else !IsPunct(a[|a| - 1])
  }

  /** The type word: upper-cased and mapped to its GeoJSON name. */
  function TypeName(w: string): string
  {
    ReplaceKeywords(ToUpper(w))
  }

  /** The first word of the scanner, or "" when there is none. */
  function Head(words: seq<string>): string
  {
    if |words| == 0 then "" else words[0]
  }

  /** The words after the first. */
  function Tail(words: seq<string>): seq<string>
  {
    if |words| == 0 then [] else words[1..]
  }

  /**
   * WKTToGeoJSON. The scanner over the padded text is Lex: its first word
   * is the type, and the loop over the remaining words is EmitWords.
   */
  method WKTToGeoJSON(wkt: string) returns (typ: string, coordinates: string)
    ensures typ == TypeName(Head(Lex(wkt)))
    ensures coordinates == Emit(Tail(Lex(wkt)), false)
  {
    var words := Lex(wkt);
    var first := if |words| > 0 then words[0] else "";
    var rest := if |words| > 0 then words[1..] else [];
    coordinates := EmitWords(rest);
    typ := TypeName(first);
  }

  /** The loop of WKTToGeoJSON over the words after the type. */
  method EmitWords(rest: seq<string>) returns (out: string)
    ensures out == Emit(rest, false)
  {
    out := "";
    var flag := false;
    for i := 0 to |rest|
      invariant out + Emit(rest[i..], flag) == Emit(rest, false)
    {
      var w := rest[i];
      EmitStep(rest, i, flag);
      ghost var before := flag;
      var piece: string;
      if flag && !IsPunct(w) {
        piece := "," + w + "]";
        flag := true;
      } else if !IsPunct(w) {
        piece := "[" + w;
        flag := true;
      } else {
        piece := w;
        flag := false;
      }
      assert piece == Piece(w, before) && flag == !IsPunct(w);
      Regroup(out, piece, Emit(rest[i + 1..], flag));
      out := out + piece;
    }
  }

  lemma Regroup(a: string, b: string, c: string)
    ensures a + (b + c) == (a + b) + c
  {
  }

  lemma EmitStep(rest: seq<string>, i: nat, flag: bool)
    requires i < |rest|
    ensures Emit(rest[i..], flag) == Piece(rest[i], flag) + Emit(rest[i + 1..], !IsPunct(rest[i]))
  {
    assert rest[i..][1..] == rest[i + 1..];
  }

  // ---------------------------------------------------------------- the type names

  /**
   * The replacer of the type word: at each position the first pattern, in
   * the order the replacer was given them, that starts there.
   */
  function KeywordAt(s: string): (r: Option<(string, string)>)
    ensures r.Some? ==> |r.value.0| > 0 && r.value.0 <= s
  {
    if "POINT" <= s then Some(("POINT", "Point"))
    else if "LINESTRING" <= s then Some(("LINESTRING", "LineString"))
    else if "MULTILINESTRING" <= s then Some(("MULTILINESTRING", "MultiLineString"))
    else if "POLYGON" <= s then Some(("POLYGON", "Polygon"))
    else if "MULTIPOLYGON" <= s then Some(("MULTIPOLYGON", "MultiPolygon"))
    else if "MULTIPOINT" <= s then Some(("MULTIPOINT", "MultiPoint"))
    else None
  }

  /** strings.Replacer.Replace with the six type patterns, left to right without overlaps. */
  function ReplaceKeywords(s: string): string
    decreases |s|
  {
    if |s| == 0 then ""
    else
      match KeywordAt(s)
      case Some((k, name)) => name + ReplaceKeywords(s[|k|..])
      case None => [s[0]] + ReplaceKeywords(s[1..])
  }

  /** The WKT keyword of each GeoJSON type name, as the WKT writer spells it. */
  function Keyword(name: string): string
  {
    if name == "Point" then "POINT"
    else if name == "MultiPoint" then "MULTIPOINT"
    else if name == "LineString" then "LINESTRING"
    else if name == "MultiLineString" then "MULTILINESTRING"
    else if name == "Polygon" then "POLYGON"
    else if name == "MultiPolygon" then "MULTIPOLYGON"
    else ""
  }

  /** The six type names. */
  predicate IsTypeName(name: string)
  {
    name in {"Point", "MultiPoint", "LineString", "MultiLineString", "Polygon", "MultiPolygon"}
  }

  lemma UpperOfUpper(s: string)
    requires forall k :: 0 <= k < |s| ==> 'A' <= s[k] <= 'Z'
    ensures ToUpper(s) == s
  {
  }

  /** Each WKT keyword reads back as its type name, although "MULTIPOINT" and "MULTIPOLYGON" share a prefix and "POINT" is tried first. */
  lemma TypeNameOfKeyword(name: string)
    requires IsTypeName(name)
    ensures TypeName(Keyword(name)) == name
  {
    var k := Keyword(name);
    UpperOfUpper(k);
    KeywordAtKeyword(name);
    ReplaceWhole(k, name);
  }

  lemma ReplaceWhole(k: string, name: string)
    requires |k| > 0 && KeywordAt(k) == Some((k, name))
    ensures ReplaceKeywords(k) == name
  {
    assert k[|k|..] == "";
  }

  /** The pattern the replacer picks at the start of each keyword is that keyword. */
  lemma KeywordAtKeyword(name: string)
    requires IsTypeName(name)
    ensures |Keyword(name)| > 0 && KeywordAt(Keyword(name)) == Some((Keyword(name), name))
  {
    var k := Keyword(name);
    if name == "MultiPoint" {
      NotPrefix("POINT", k, 0);
      NotPrefix("LINESTRING", k, 0);
      NotPrefix("MULTILINESTRING", k, 5);
      NotPrefix("POLYGON", k, 0);
      NotPrefix("MULTIPOLYGON", k, 7);
    } else if name == "LineString" {
      NotPrefix("POINT", k, 0);
    } else if name == "MultiLineString" {
      NotPrefix("POINT", k, 0);
      NotPrefix("LINESTRING", k, 0);
    } else if name == "Polygon" {
      NotPrefix("POINT", k, 2);
      NotPrefix("LINESTRING", k, 0);
      NotPrefix("MULTILINESTRING", k, 0);
    } else if name == "MultiPolygon" {
      NotPrefix("POINT", k, 0);
      NotPrefix("LINESTRING", k, 0);
      NotPrefix("MULTILINESTRING", k, 5);
      NotPrefix("POLYGON", k, 0);
    }
  }

  lemma NotPrefix(a: string, b: string, i: nat)
    requires i < |a| && i < |b| && a[i] != b[i]
    ensures !(a <= b)
  {
    if |a| <= |b| {
      assert b[..|a|][i] == b[i];
    }
  }

  /** The type word is case-insensitive: "point" reads as Point. */
  lemma TypeNameLowerCase()
    ensures TypeName("point") == "Point"
  {
    var u := ToUpper("point");
    assert u[0] == 'P' && u[1] == 'O' && u[2] == 'I' && u[3] == 'N' && u[4] == 'T';
    assert u == "POINT";
    TypeNameOfKeyword("Point");
  }

  /** A keyword followed by more letters keeps them: "POINTZ" becomes "PointZ", which is no type name. */
  lemma TypeNameKeepsSuffix()
    ensures TypeName("POINTZ") == "PointZ"
    ensures !IsTypeName(TypeName("POINTZ"))
  {
    UpperOfUpper("POINTZ");
    assert "POINTZ"[5..] == "Z";
    assert KeywordAt("Z") == None;
    assert "Z"[1..] == "";
  }

  // ---------------------------------------------------------------- what Emit writes

  /** Emit of a concatenation: the second part starts from the flag the first part leaves. */
  lemma {:induction false} EmitAppend(a: seq<string>, b: seq<string>, flag: bool)
    ensures Emit(a + b, flag) == Emit(a, flag) + Emit(b, FlagAfter(a, flag))
    decreases |a|
  {
    if |a| == 0 {
      assert a + b == b;
    } else {
      var f := !IsPunct(a[0]);
      var p := Piece(a[0], flag);
      assert Emit(a + b, flag) == p + Emit(a[1..] + b, f) by {
        assert (a + b)[0] == a[0];
        assert (a + b)[1..] == a[1..] + b;
      }
      EmitAppend(a[1..], b, f);
      assert FlagAfter(a[1..], f) == FlagAfter(a, flag);
      Regroup(p, Emit(a[1..], f), Emit(b, FlagAfter(a, flag)));
    }
  }

  /** Brackets and commas are copied whatever the flag. */
  lemma EmitPunct(p: string, rest: seq<string>, flag: bool)
    requires IsPunct(p)
    ensures Emit([p] + rest, flag) == p + Emit(rest, false)
  {
    assert ([p] + rest)[1..] == rest;
  }

  /** Two coordinates after a bracket or comma become one JSON pair. */
  lemma EmitPair(x: string, y: string, rest: seq<string>)
    requires !IsPunct(x) && !IsPunct(y)
    ensures Emit([x, y] + rest, false) == "[" + x + "," + y + "]" + Emit(rest, true)
  {
    assert ([x, y] + rest)[1..] == [y] + rest;
    assert ([y] + rest)[1..] == rest;
  }

  /** The flag stays set after a pair, so a third coordinate is written as ",z]". */
  lemma EmitThird(x: string, y: string, z: string)
    requires !IsPunct(x) && !IsPunct(y) && !IsPunct(z)
    ensures Emit([x, y, z], false) == "[" + x + "," + y + "]," + z + "]"
  {
    EmitPair(x, y, [z]);
    assert [z][1..] == [];
  }

  /** What Emit writes for each part on its own, starting after a bracket or comma. */
  function EmitAll(parts: seq<seq<string>>): (r: seq<string>)
    ensures |r| == |parts|
  {
    seq(|parts|, i requires 0 <= i < |parts| => Emit(parts[i], false))
  }

  /** Parts separated by comma words are written as their own texts separated by commas. */
  lemma {:induction false} EmitJoin(parts: seq<seq<string>>)
    ensures Emit(Join(parts, [","]), false) == Join(EmitAll(parts), ",")
    decreases |parts|
  {
    if |parts| == 0 {
    } else if |parts| == 1 {
    } else {
      var rest := Join(parts[1..], [","]);
      assert Join(parts, [","]) == parts[0] + ([","] + rest);
      EmitAppend(parts[0], [","] + rest, false);
      EmitPunct(",", rest, FlagAfter(parts[0], false));
      EmitJoin(parts[1..]);
      assert EmitAll(parts[1..]) == EmitAll(parts)[1..];
    }
  }

  /** The words "[" p1 "," p2 … "]". */
  function Bracketed(parts: seq<seq<string>>): seq<string>
  {
    ["["] + Join(parts, [","]) + ["]"]
  }

  /** A bracketed list of parts is written as a JSON array of the parts' texts. */
  lemma EmitBracketed(parts: seq<seq<string>>, flag: bool)
    ensures Emit(Bracketed(parts), flag) == "[" + Join(EmitAll(parts), ",") + "]"
  {
    var body := Join(parts, [","]);
    var f := FlagAfter(body, false);
    assert Bracketed(parts) == ["["] + (body + ["]"]);
    EmitPunct("[", body + ["]"], flag);
    EmitAppend(body, ["]"], false);
    assert Emit(["]"], f) == "]" by {
      EmitPunct("]", [], f);
      assert ["]"] + [] == ["]"];
    }
    EmitJoin(parts);
    Regroup("[", Join(EmitAll(parts), ","), "]");
  }
}
