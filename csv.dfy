/**
 * The list logic of the CSV merge tool (csv.go), lifted out of its file I/O:
 * the defaults CSVTools.init fills in, the column remapping of RowKVind and
 * RowReOrder, the header decision of RowsKVFile and the rows it writes, and
 * the loop of ParseZip that cuts the merged rows into output files.
 */
module Csv {

  import opened Text

  type Row = seq<string>

  // ---------------------------------------------------------------- columns

  /**
   * The name a header column is filed under in RowKVind: the lower-cased
   * column is looked up in kv; when present, its lower-cased value is the
   * name, otherwise the lower-cased column itself.
   */
  function HeaderKey(col: string, kv: map<string, string>): string
  {
    var lc := ToLower(col);
    if lc in kv then ToLower(kv[lc]) else ToLower(lc)
  }

  /**
   * The header column filed under name, or -1 when there is none. When
   * several columns share the name the last one wins, as later map writes
   * overwrite earlier ones.
   */
  function ColumnFor(header: Row, kv: map<string, string>, name: string): (c: int)
    ensures -1 <= c < |header|
  {
    if header == [] then -1
    else if HeaderKey(header[|header| - 1], kv) == name then |header| - 1
    else ColumnFor(header[..|header| - 1], kv, name)
  }

  /**
   * ColumnFor is -1 exactly when no column is filed under name; otherwise
   * it is a column filed under name with no such column after it.
   */
  lemma {:induction false} ColumnForSpec(header: Row, kv: map<string, string>, name: string)
    ensures var c := ColumnFor(header, kv, name);
      && (c == -1 <==> forall i :: 0 <= i < |header| ==> HeaderKey(header[i], kv) != name)
      && (c >= 0 ==> HeaderKey(header[c], kv) == name)
      && (c >= 0 ==> forall i :: c < i < |header| ==> HeaderKey(header[i], kv) != name)
  {
    if header != [] && HeaderKey(header[|header| - 1], kv) != name {
      var init := header[..|header| - 1];
      ColumnForSpec(init, kv, name);
      assert forall i :: 0 <= i < |init| ==> init[i] == header[i];
    }
  }

  /** Adding a column at the end: it wins when it is filed under name. */
  lemma ColumnForSnoc(row: Row, i: nat, kv: map<string, string>, name: string)
    requires i < |row|
    ensures ColumnFor(row[..i + 1], kv, name)
      == if HeaderKey(row[i], kv) == name then i else ColumnFor(row[..i], kv, name)
  {
    var r := row[..i + 1];
    assert r[|r| - 1] == row[i] && r[..|r| - 1] == row[..i];
  }

  /**
   * RowKVind: one index per output column, found through a map from
   * header names to positions.
   */
  method RowKVind(row: Row, kv: map<string, string>, outhead: Row) returns (outind: seq<int>)
    ensures |outind| == |outhead|
    ensures forall j :: 0 <= j < |outhead| ==> outind[j] == ColumnFor(row, kv, ToLower(outhead[j]))
  {
    var colmap: map<string, int> := map[];
    for i := 0 to |row|
      invariant forall name :: ColumnFor(row[..i], kv, name) == if name in colmap then colmap[name] else -1
    {
      var key := HeaderKey(row[i], kv);
      colmap := colmap[key := i];
      forall name
        ensures ColumnFor(row[..i + 1], kv, name) == if name in colmap then colmap[name] else -1
      {
        ColumnForSnoc(row, i, kv, name);
      }
    }
    assert row[..|row|] == row;
    outind := [];
    for j := 0 to |outhead|
      invariant |outind| == j
      invariant forall k :: 0 <= k < j ==> outind[k] == ColumnFor(row, kv, ToLower(outhead[k]))
    {
      var name := ToLower(outhead[j]);
      if name in colmap {
        outind := outind + [colmap[name]];
      } else {
        outind := outind + [-1];
      }
    }
  }

  /** RowReOrder: cell i is row[outind[i]], or "" for a missing column (-1). */
  method RowReOrder(row: Row, outind: seq<int>) returns (newrow: Row)
    requires forall i :: 0 <= i < |outind| ==> outind[i] < |row|
    ensures |newrow| == |outind|
    ensures forall i :: 0 <= i < |outind| ==> newrow[i] == if outind[i] >= 0 then row[outind[i]] else ""
  {
    var cells := new string[|outind|];
    for i := 0 to |outind|
      invariant forall k :: 0 <= k < i ==> cells[k] == if outind[k] >= 0 then row[outind[k]] else ""
    {
      if outind[i] >= 0 {
        cells[i] := row[outind[i]];
      } else {
        cells[i] := "";
      }
    }
    newrow := cells[..];
  }

  // ---------------------------------------------------------------- one output file

  /** Column names equal pairwise, ignoring case. */
  predicate SameNames(a: Row, b: Row)
  {
    |a| == |b| && forall i :: 0 <= i < |a| ==> ToLower(a[i]) == ToLower(b[i])
  }

  /**
   * The sameHeaders decision of RowsKVFile: no output header was asked for,
   * or it names the input columns in order, ignoring case.
   */
  method SameHeaders(outhead: Row, header: Row) returns (same: bool)
    ensures same <==> outhead == [] || SameNames(outhead, header)
  {
    if |outhead| == 0 {
      return true;
    }
    same := |outhead| == |header|;
    if same {
      for i := 0 to |outhead|
        invariant forall k :: 0 <= k < i ==> ToLower(outhead[k]) == ToLower(header[k])
      {
        if ToLower(outhead[i]) != ToLower(header[i]) {
          same := false;
          break;
        }
      }
    }
  }

  /** A data row rearranged under the output header head. */
  function Reordered(row: Row, header: Row, kv: map<string, string>, head: Row): (r: Row)
    requires forall j :: 0 <= j < |head| ==> ColumnFor(header, kv, ToLower(head[j])) < |row|
    ensures |r| == |head|
  {
    seq(|head|, j requires 0 <= j < |head| =>
      var c := ColumnFor(header, kv, ToLower(head[j]));
      if c >= 0 then row[c] else "")
  }

  /** The row RowReOrder builds from the indices of RowKVind is the rearranged row. */
  lemma ReorderedRow(row: Row, header: Row, kv: map<string, string>, head: Row, outind: seq<int>, newRow: Row)
    requires |outind| == |head|
    requires forall j :: 0 <= j < |head| ==> outind[j] == ColumnFor(header, kv, ToLower(head[j]))
    requires forall j :: 0 <= j < |head| ==> ColumnFor(header, kv, ToLower(head[j])) < |row|
    requires |newRow| == |outind|
    requires forall i :: 0 <= i < |outind| ==> newRow[i] == if outind[i] >= 0 then row[outind[i]] else ""
    ensures newRow == Reordered(row, header, kv, head)
  {
  }

  /** Every data row has every column the output header draws on. */
  predicate RowsCover(rawdat: seq<Row>, kv: map<string, string>, outhead: Row)
    requires |rawdat| > 0
  {
    forall k, j :: 1 <= k < |rawdat| && 0 <= j < |outhead| ==>
      ColumnFor(rawdat[0], kv, ToLower(outhead[j])) < |rawdat[k]|
  }

  /**
   * RowsKVFile, without the file: the rows it hands to the CSV writer. An
   * empty outhead means the input header. The header row is written only
   * when outheadKeep is "true"; the data rows are copied when the headers
   * are the same and rearranged through RowKVind and RowReOrder otherwise.
   * Go panics when a row is too short for a column the header draws on.
   */
  method RowsKVFile(rawdat: seq<Row>, kv: map<string, string>, outhead: Row, outheadKeep: string)
    returns (lines: seq<Row>)
    requires |rawdat| > 0
    requires !(outhead == [] || SameNames(outhead, rawdat[0])) ==> RowsCover(rawdat, kv, outhead)
    ensures var head := if outhead == [] then rawdat[0] else outhead;
            var off := if outheadKeep == "true" then 1 else 0;
            && |lines| == off + |rawdat| - 1
            && (off == 1 ==> lines[0] == head)
            && (outhead == [] || SameNames(outhead, rawdat[0]) ==> lines[off..] == rawdat[1..])
            && (!(outhead == [] || SameNames(outhead, rawdat[0])) ==>
                  lines[off..] == ReorderedAll(rawdat, kv, head))
  {
    var same := SameHeaders(outhead, rawdat[0]);
    var head := if outhead == [] then rawdat[0] else outhead;
    var outind: seq<int> := [];
    if !same {
      outind := RowKVind(rawdat[0], kv, head);
    }
    lines := if outheadKeep == "true" then [head] else [];
    ghost var off := |lines|;
    if same {
      lines := lines + rawdat[1..];
      assert lines[off..] == rawdat[1..];
    } else {
      assert head == outhead && RowsCover(rawdat, kv, head);
      var reordered := ReorderRows(rawdat, kv, head, outind);
      lines := lines + reordered;
      assert lines[off..] == reordered;
    }
  }

  /** The loop of RowsKVFile over the data rows when the headers differ. */
  method ReorderRows(rawdat: seq<Row>, kv: map<string, string>, head: Row, outind: seq<int>)
    returns (out: seq<Row>)
    requires |rawdat| > 0 && RowsCover(rawdat, kv, head)
    requires |outind| == |head|
    requires forall j :: 0 <= j < |head| ==> outind[j] == ColumnFor(rawdat[0], kv, ToLower(head[j]))
    ensures out == ReorderedAll(rawdat, kv, head)
  {
    out := [];
    for k := 1 to |rawdat|
      invariant |out| == k - 1
      invariant forall m :: 1 <= m < k ==> out[m - 1] == Reordered(rawdat[m], rawdat[0], kv, head)
    {
      assert forall j :: 0 <= j < |outind| ==> outind[j] < |rawdat[k]|;
      var newRow := RowReOrder(rawdat[k], outind);
      ReorderedRow(rawdat[k], rawdat[0], kv, head, outind, newRow);
      out := out + [newRow];
    }
  }

  /** Every data row rearranged under the output header head. */
  function ReorderedAll(rawdat: seq<Row>, kv: map<string, string>, head: Row): (r: seq<Row>)
    requires |rawdat| > 0 && RowsCover(rawdat, kv, head)
    ensures |r| == |rawdat| - 1
    ensures forall m :: 1 <= m < |rawdat| ==> r[m - 1] == Reordered(rawdat[m], rawdat[0], kv, head)
  {
    seq(|rawdat| - 1, m requires 0 <= m < |rawdat| - 1 => Reordered(rawdat[m + 1], rawdat[0], kv, head))
  }

  // ---------------------------------------------------------------- splitting into files

  /** The merged rows cut into consecutive slices of at most max rows, from index start on. */
  function Slices(data: seq<Row>, start: nat, max: int): (s: seq<seq<Row>>)
    requires max > 0
    decreases |data| - start
  {
    if start >= |data| then []
    else [data[start..if start + max < |data| then start + max else |data|]] + Slices(data, start + max, max)
  }

  /** The concatenation of a list of row lists. */
  function Flatten(s: seq<seq<Row>>): seq<Row>
  {
    if s == [] then [] else s[0] + Flatten(s[1..])
  }

  /**
   * The slices give back the rows in order; each holds between 1 and max
   * rows, and all but the last exactly max. Their number k is ceil(n / max)
   * for the n rows from start on, stated as (k - 1) * max < n <= k * max.
   */
  lemma {:induction false} SlicesCover(data: seq<Row>, start: nat, max: int)
    requires max > 0 && start <= |data|
    ensures Flatten(Slices(data, start, max)) == data[start..]
    ensures var k := |Slices(data, start, max)|;
      (k - 1) * max < |data| - start <= k * max
    ensures forall f :: 0 <= f < |Slices(data, start, max)| ==> 1 <= |Slices(data, start, max)[f]| <= max
    ensures forall f :: 0 <= f < |Slices(data, start, max)| - 1 ==> |Slices(data, start, max)[f]| == max
    decreases |data| - start
  {
    var s := Slices(data, start, max);
    if start < |data| {
      var rest := Slices(data, start + max, max);
      assert s[1..] == rest;
      if start + max < |data| {
        SlicesCover(data, start + max, max);
        assert data[start..] == data[start..start + max] + data[start + max..];
        assert (|s| - 1) * max == (|rest| - 1) * max + max;
      } else {
        assert rest == [];
        assert data[start..] == data[start..|data|];
      }
    }
  }

  /**
   * The chunk loop of ParseZip: the first output file gets the first slice,
   * which starts with the header row; each later file gets the header row
   * followed by its slice.
   */
  method Chunks(allData: seq<Row>, fileMaxLines: int) returns (chunks: seq<seq<Row>>)
    requires fileMaxLines > 0
    ensures var slices := Slices(allData, 0, fileMaxLines);
            && |chunks| == |slices|
            && (|chunks| > 0 ==> chunks[0] == slices[0])
            && forall f :: 1 <= f < |chunks| ==> chunks[f] == [allData[0]] + slices[f]
  {
    chunks := [];
    ghost var done: seq<seq<Row>> := [];
    var fileIndex := 1;
    var i := 0;
    while i < |allData|
      invariant 0 <= i
      invariant done + Slices(allData, i, fileMaxLines) == Slices(allData, 0, fileMaxLines)
      invariant fileIndex == |chunks| + 1 && |chunks| == |done|
      invariant |chunks| > 0 ==> chunks[0] == done[0]
      invariant forall f :: 1 <= f < |chunks| ==> chunks[f] == [allData[0]] + done[f]
      decreases |allData| - i
    {
      var end := i + fileMaxLines;
      if end > |allData| {
        end := |allData|;
      }
      var current: seq<Row>;
      if fileIndex == 1 {
        current := allData[i..end];
      } else {
        current := [allData[0]] + allData[i..end];
      }
      chunks := chunks + [current];
      done := done + [allData[i..end]];
      fileIndex := fileIndex + 1;
      i := i + fileMaxLines;
    }
  }

  /** Concrete case: five rows, at most two per file. */
  lemma ChunksExample(h: Row, a: Row, b: Row, c: Row, d: Row)
    ensures Slices([h, a, b, c, d], 0, 2) == [[h, a], [b, c], [d]]
  {
    var rows := [h, a, b, c, d];
    assert Slices(rows, 6, 2) == [];
    assert rows[4..5] == [d] && rows[2..4] == [b, c];
    assert Slices(rows, 4, 2) == [rows[4..5]] == [[d]];
    assert Slices(rows, 2, 2) == [rows[2..4]] + Slices(rows, 4, 2) == [[b, c], [d]];
    assert rows[0..2] == [h, a];
  }

  // ---------------------------------------------------------------- the tool's settings

  /**
   * Every lower-case key of m holds the lower-cased value of some entry of
   * base whose key lower-cases to it.
   */
  ghost predicate LoweredFrom(m: map<string, string>, base: map<string, string>)
  {
    forall l {:trigger m[l]} :: l in m && ToLower(l) == l ==>
      exists k :: k in base && ToLower(k) == l && m[l] == ToLower(base[k])
  }

  /**
   * m is base with every entry also stored under its lower-cased key with a
   * lower-cased value: it holds every key of base and its lower-cased form,
   * any other key is lower case (and so, by LoweredFrom, the lower-cased
   * form of a key of base), keys that are not lower case keep their value,
   * and every lower-case key holds a value LoweredFrom allows.
   */
  ghost predicate LowerCopy(m: map<string, string>, base: map<string, string>)
  {
    && (forall k {:trigger base[k]} :: k in base ==> k in m && ToLower(k) in m)
    && (forall l {:trigger m[l]} :: l in m && l !in base ==> ToLower(l) == l)
    && (forall k {:trigger m[k]} :: k in base && ToLower(k) != k ==> m[k] == base[k])
    && LoweredFrom(m, base)
  }

  /** Each name of cols mapped to itself: the seed of an empty ColsKV. */
  method IdentityKV(cols: Row) returns (kv: map<string, string>)
    ensures forall v :: v in kv <==> v in cols
    ensures forall v :: v in kv ==> kv[v] == v
  {
    kv := map[];
    for i := 0 to |cols|
      invariant forall v :: v in kv <==> v in cols[..i]
      invariant forall v :: v in kv ==> kv[v] == v
    {
      kv := kv[cols[i] := cols[i]];
    }
  }

  /** The ColsKV init starts lower-casing from. */
  function SeedKV(kv: map<string, string>, cols: Row): map<string, string>
  {
    if |kv| == 0 && |cols| > 0 then map v | v in cols :: v else kv
  }

  /** An empty map is seeded with each column name mapped to itself; any other map is kept. */
  lemma SeedKVSpec(kv: map<string, string>, cols: Row)
    ensures |kv| == 0 && |cols| > 0 ==> forall v :: v in SeedKV(kv, cols) <==> v in cols
    ensures |kv| == 0 && |cols| > 0 ==> forall v :: v in SeedKV(kv, cols) ==> SeedKV(kv, cols)[v] == v
    ensures |kv| != 0 || |cols| == 0 ==> SeedKV(kv, cols) == kv
  {
  }

  /**
   * The loop of init that copies every entry of ColsKV under its lower-cased
   * key with its value lower-cased, visiting the keys in any order. A value
   * read late may already have been overwritten by an earlier entry with the
   * same lower-cased key, as in Go.
   */
  method LowerEntries(base: map<string, string>) returns (m: map<string, string>)
    ensures LowerCopy(m, base)
  {
    m := base;
    ghost var src: map<string, string> := map[];
    var todo := base.Keys;
    while todo != {}
      invariant LowerInv(base, m, src, todo)
      decreases |todo|
    {
      var k :| k in todo;
      ghost var w := SourceKey(src, k);
      LowerStep(base, m, src, todo, k);
      m := m[ToLower(k) := ToLower(m[k])];
      src := src[ToLower(k) := w];
      todo := todo - {k};
    }
    LowerDone(base, m, src);
  }

  /**
   * The loop state of LowerEntries: src names, for every lower-case key
   * written so far, the entry of base whose lower-cased value it holds;
   * keys not yet written keep their original value.
   */
  ghost predicate LowerInv(base: map<string, string>, m: map<string, string>,
                           src: map<string, string>, todo: set<string>)
  {
    && LowerKeysInv(base, m, src, todo)
    && LowerSrcInv(base, m, src, todo)
    && LowerTodoInv(base, m, src, todo)
  }

  ghost predicate LowerKeysInv(base: map<string, string>, m: map<string, string>,
                               src: map<string, string>, todo: set<string>)
  {
    && todo <= base.Keys
    && base.Keys <= m.Keys
    && (forall l :: l in m ==> l in base || l in src)
    && (forall k :: k in base && ToLower(k) != k ==> m[k] == base[k])
  }

  ghost predicate LowerSrcInv(base: map<string, string>, m: map<string, string>,
                              src: map<string, string>, todo: set<string>)
  {
    && (forall l :: l in src ==> src[l] in base && src[l] !in todo && ToLower(src[l]) == l)
    && (forall l :: l in src ==> l in m && m[l] == ToLower(base[src[l]]))
  }

  ghost predicate LowerTodoInv(base: map<string, string>, m: map<string, string>,
                               src: map<string, string>, todo: set<string>)
  {
    && (forall l :: l in m && ToLower(l) == l && l !in src ==> l in todo && l in base && m[l] == base[l])
    && (forall k :: k in base.Keys - todo ==> ToLower(k) in src)
  }

  /** The entry of base whose value visiting k writes under ToLower(k). */
  ghost function SourceKey(src: map<string, string>, k: string): string
  {
    if ToLower(k) == k && k in src then src[k] else k
  }

  /** One visit of LowerEntries keeps LowerInv. */
  lemma LowerStep(base: map<string, string>, m: map<string, string>,
                  src: map<string, string>, todo: set<string>, k: string)
    requires LowerInv(base, m, src, todo) && k in todo
    ensures LowerInv(base, m[ToLower(k) := ToLower(m[k])],
                     src[ToLower(k) := SourceKey(src, k)], todo - {k})
  {
    LowerStepSource(base, m, src, todo, k);
    LowerStepKeys(base, m, src, todo, k);
    LowerStepSrc(base, m, src, todo, k);
    LowerStepTodo(base, m, src, todo, k);
  }

  /** The entry visiting k reads from lower-cases to ToLower(k) and is done. */
  lemma LowerStepSource(base: map<string, string>, m: map<string, string>,
                        src: map<string, string>, todo: set<string>, k: string)
    requires LowerInv(base, m, src, todo) && k in todo
    ensures SourceKey(src, k) in base && SourceKey(src, k) !in todo - {k}
    ensures ToLower(SourceKey(src, k)) == ToLower(k)
    ensures ToLower(m[k]) == ToLower(base[SourceKey(src, k)])
  {
    var l := ToLower(k);
    var w := SourceKey(src, k);
    ToLowerIdempotent(k);
    if l != k {
      assert m[k] == base[w];
    } else if l in src {
      assert m[k] == ToLower(base[w]);
      ToLowerIdempotent(base[w]);
    } else {
      assert m[k] == base[w];
    }
  }

  lemma LowerStepKeys(base: map<string, string>, m: map<string, string>,
                      src: map<string, string>, todo: set<string>, k: string)
    requires LowerInv(base, m, src, todo) && k in todo
    ensures LowerKeysInv(base, m[ToLower(k) := ToLower(m[k])],
                         src[ToLower(k) := SourceKey(src, k)], todo - {k})
  {
    ToLowerIdempotent(k);
  }

  lemma LowerStepSrc(base: map<string, string>, m: map<string, string>,
                     src: map<string, string>, todo: set<string>, k: string)
    requires LowerInv(base, m, src, todo) && k in todo
    ensures LowerSrcInv(base, m[ToLower(k) := ToLower(m[k])],
                        src[ToLower(k) := SourceKey(src, k)], todo - {k})
  {
    LowerStepSource(base, m, src, todo, k);
    var l, w := ToLower(k), SourceKey(src, k);
    var m', src', todo' := m[l := ToLower(m[k])], src[l := w], todo - {k};
    forall l' | l' in src'
      ensures src'[l'] in base && src'[l'] !in todo' && ToLower(src'[l']) == l'
      ensures l' in m' && m'[l'] == ToLower(base[src'[l']])
    {
      if l' != l {
        assert src'[l'] == src[l'] && m'[l'] == m[l'];
      }
    }
  }

  lemma LowerStepTodo(base: map<string, string>, m: map<string, string>,
                      src: map<string, string>, todo: set<string>, k: string)
    requires LowerInv(base, m, src, todo) && k in todo
    ensures LowerTodoInv(base, m[ToLower(k) := ToLower(m[k])],
                         src[ToLower(k) := SourceKey(src, k)], todo - {k})
  {
    ToLowerIdempotent(k);
  }

  lemma LowerDone(base: map<string, string>, m: map<string, string>, src: map<string, string>)
    requires LowerInv(base, m, src, {})
    ensures LowerCopy(m, base)
  {
    LowerDoneKeys(base, m, src);
    LowerDoneLower(base, m, src);
    LowerDoneValues(base, m, src);
  }

  lemma LowerDoneKeys(base: map<string, string>, m: map<string, string>, src: map<string, string>)
    requires LowerInv(base, m, src, {})
    ensures forall k {:trigger base[k]} :: k in base ==> k in m && ToLower(k) in m
  {
    forall k | k in base
      ensures k in m && ToLower(k) in m
    {
      assert k in base.Keys - {};
    }
  }

  lemma LowerDoneLower(base: map<string, string>, m: map<string, string>, src: map<string, string>)
    requires LowerInv(base, m, src, {})
    ensures forall l {:trigger m[l]} :: l in m && l !in base ==> ToLower(l) == l
  {
    forall l | l in m && l !in base
      ensures ToLower(l) == l
    {
      assert l in src && ToLower(src[l]) == l;
      ToLowerIdempotent(src[l]);
    }
  }

  lemma LowerDoneValues(base: map<string, string>, m: map<string, string>, src: map<string, string>)
    requires LowerInv(base, m, src, {})
    ensures forall k {:trigger m[k]} :: k in base && ToLower(k) != k ==> m[k] == base[k]
    ensures LoweredFrom(m, base)
  {
    forall l | l in m && ToLower(l) == l
      ensures exists k :: k in base && ToLower(k) == l && m[l] == ToLower(base[k])
    {
      assert l in src;
      var k := src[l];
      assert k in base && ToLower(k) == l && m[l] == ToLower(base[k]);
    }
  }

  /** The separator after init: an empty one becomes ",". */
  function Separator(field: string): (r: string)
    ensures r != "" && (field != "" ==> r == field)
  {
    if field == "" then "," else field
  }

  /** The thread count after init: a non-positive one becomes 10. */
  function Threads(n: int): (r: int)
    ensures r > 0 && (n > 0 ==> r == n)
  {
    if n <= 0 then 10 else n
  }

  /** The line limit per output file after init: a non-positive one becomes 100000. */
  function MaxLines(n: int): (r: int)
    ensures r > 0 && (n > 0 ==> r == n)
  {
    if n <= 0 then 100000 else n
  }

  /**
   * FileHeadKeep after init: only the literal "fase" survives, anything
   * else (including "false") becomes "true".
   */
  function HeadKeep(keep: string): (r: string)
    ensures r == "true" || r == "fase"
    ensures r == "fase" <==> keep == "fase"
  {
    if keep != "fase" then "true" else "fase"
  }

  /** The settings of a CSVTools value that init and the split read and write. */
  class CSVTools {
    var Field: string
    var FileField: string
    var ThreadSize: int
    var FileMaxLines: int
    var FileHeadKeep: string
    var ColsKV: map<string, string>
    var FileCols: Row
    var Cols: Row
    var Rows: int
    var InputInfo: map<string, seq<string>>
    var OutputInfo: map<string, seq<string>>

    /** A CSVTools literal: the given settings, everything else at Go's zero value. */
    constructor (field: string, fileField: string, threadSize: int, fileMaxLines: int,
                 fileHeadKeep: string, colsKV: map<string, string>, fileCols: Row)
      ensures Field == field && FileField == fileField && ThreadSize == threadSize
      ensures FileMaxLines == fileMaxLines && FileHeadKeep == fileHeadKeep
      ensures ColsKV == colsKV && FileCols == fileCols
      ensures Cols == [] && Rows == 0 && InputInfo == map[] && OutputInfo == map[]
    {
      Field, FileField, ThreadSize, FileMaxLines := field, fileField, threadSize, fileMaxLines;
      FileHeadKeep, ColsKV, FileCols := fileHeadKeep, colsKV, fileCols;
      Cols, Rows, InputInfo, OutputInfo := [], 0, map[], map[];
    }

    /**
     * init: fill in the defaults. An empty separator becomes ",", a
     * non-positive thread count 10, a non-positive line limit 100000, and any
     * FileHeadKeep other than the literal "fase" becomes "true". An empty
     * ColsKV is seeded with each FileCols name mapped to itself, and then
     * every entry is copied under its lower-cased key with its value
     * lower-cased. Go visits map entries in an unspecified order; the model
     * visits the original keys in an arbitrary order. Entries created during
     * that loop may also be visited in Go, but rewriting a lower-case key
     * with its lower-case value changes nothing. The ColsKV step reads and
     * writes no field the defaults touch, so it is done first here.
     */
    method Init()
      modifies this
      ensures Field == Separator(old(Field)) && FileField == Separator(old(FileField))
      ensures ThreadSize == Threads(old(ThreadSize)) && FileMaxLines == MaxLines(old(FileMaxLines))
      ensures FileHeadKeep == HeadKeep(old(FileHeadKeep))
      ensures InputInfo == map[] && OutputInfo == map[]
      ensures FileCols == old(FileCols) && Cols == old(Cols) && Rows == old(Rows)
      ensures LowerCopy(ColsKV, SeedKV(old(ColsKV), old(FileCols)))
    {
      LowerColsKV();
      InputInfo, OutputInfo := map[], map[];
      Field, FileField := Separator(Field), Separator(FileField);
      ThreadSize, FileMaxLines := Threads(ThreadSize), MaxLines(FileMaxLines);
      FileHeadKeep := HeadKeep(FileHeadKeep);
    }

    /** The ColsKV part of init: seed it from FileCols when empty, then lower-case it. */
    method LowerColsKV()
      modifies this`ColsKV
      ensures LowerCopy(ColsKV, SeedKV(old(ColsKV), FileCols))
    {
      if |ColsKV| == 0 && |FileCols| > 0 {
        ColsKV := IdentityKV(FileCols);
      }
      SeedKVSpec(old(ColsKV), FileCols);
      assert ColsKV == SeedKV(old(ColsKV), FileCols);
      ColsKV := LowerEntries(ColsKV);
    }

    /**
     * The part of ParseZip after the merge: record the data row count and
     * the header when there is at least one data row, default the output
     * columns to the header, and cut the rows into output files.
     */
    method Collate(allData: seq<Row>) returns (chunks: seq<seq<Row>>)
      requires FileMaxLines > 0
      modifies this`Rows, this`Cols, this`FileCols
      ensures Rows == if |allData| > 1 then |allData| - 1 else old(Rows)
      ensures Cols == if |allData| > 1 then allData[0] else old(Cols)
      ensures FileCols == if |allData| > 0 && old(FileCols) == [] then Cols else old(FileCols)
      ensures var slices := Slices(allData, 0, FileMaxLines);
              && |chunks| == |slices|
              && (|chunks| > 0 ==> chunks[0] == slices[0])
              && forall f :: 1 <= f < |chunks| ==> chunks[f] == [allData[0]] + slices[f]
    {
      if |allData| > 1 {
        Rows := |allData| - 1;
        Cols := allData[0];
      }
      chunks := Chunks(allData, FileMaxLines);
      if |allData| > 0 && |FileCols| == 0 {
        FileCols := Cols;
      }
    }
  }
}
