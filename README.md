# xutil core in Dafny

A model of the sequential logic of the Go helper package `xutil`, with
proofs of what that logic promises:

- **Geometry** (`geo.go`). The `Geo` container is a type name plus
  coordinates nested four deep. The model covers:
  - its WKT reader `FromWKT`, including the token rewriter
    `WKTToGeoJSON`, and its WKT writer `ToWKT`;
  - its GeoJSON writer;
  - the in-place point transforms `ReserveLngLat`, `Wgs2gcj`, `Gcj2bd`
    and `Wgs2bd`;
  - the bounding box `Box`.
- **Block padding** (`crypto.go`). PKCS#5/PKCS#7 padding (section 6.3
  of RFC 5652), zero padding and the `Crypto` selector between them.
- **Resident ID check character** (`idcard.go`). The weighted mod-11
  check character of GB 11643-1999, the 15-to-18 upgrade, the validity
  check and the shape pattern.
- **IPv4 packing** (`net.go`). `Ip2long` and `Long2ip`.
- **String-list set operations** (`strings.go`). Minus, intersect and
  union.
- **CSV remapping and chunking** (`csv.go`):
  - the defaults of `CSVTools.init`;
  - column remapping through `RowKVind` and `RowReOrder`;
  - the header decision of `RowsKVFile`;
  - the loop of `ParseZip` that cuts the merged rows into output files.

## Files

| file | module | contents |
|---|---|---|
| text.dfy | `Text` | `Option`, ASCII `ToUpper` and `ToLower` |
| geo_tokens.dfy | `Tokens` | `strings.Join`, the padding replacer, `bufio.ScanWords` and lemmas about how they split concatenated text |
| geo_wkt.dfy | `WktToJson` | `WKTToGeoJSON`: the word loop with its flag, and the type-name replacer |
| geo_json.dfy | `JsonText` | JSON of nested number arrays: the printer, the parser, and their round trip |
| geo.dfy | `Geometry` | `class Geo` with `ToWKT`, `Transform`, `ReserveLngLat`, `Box` and `GeoJSON`; `FromWKT`; the round trips |
| crypto.dfy | `BlockPadding` | padding functions and the `Crypto` selector |
| idcard.dfy | `IdCard` | check character (`sumY`), `ID15to18`, `IDisValid`, `IDisPattern` |
| net.dfy | `Net` | `Ip2long`, `Long2ip` |
| strings.dfy | `StringSets` | `StringsMinus`, `StringsIntersect`, `StringsUnion` |
| csv.dfy | `Csv` | `class CSVTools` (`init` and the split), `RowKVind`, `RowReOrder`, `RowsKVFile`, `Chunks` |

Go code that changes state step by step is modelled as methods with loops:
- `ToWKT`, the transforms, `Box` and the word loop of `WKTToGeoJSON`;
- `sumY`;
- the string-set functions;
- `RowKVind`, `RowReOrder`, `RowsKVFile`, the chunk loop and `init`.

Each such method is proved against a specification function. The
properties are then proved about that function.

Numbers are reals. The Go number formatting is a parameter of the model:
- `fmt` for `%g`;
- `num` for `json.Marshal`;
- `read` for the number parser of `json.Unmarshal`.

The round-trip lemmas state the conditions they need of these
parameters. The number must come back from its own text, and its text
must contain no bracket, comma or space.

The coordinate-system conversions of `gis.go` are a parameter `f` of
`Geo.Transform`. `Wgs2gcj`, `Gcj2bd` and `Wgs2bd` are `Transform` with
the matching `gis.go` function. `ReserveLngLat` is `Transform` with
`Swap`.

Quirks of the code that the model keeps:
- **GeoJSON output.** `GeoJSON` writes the coordinates inside a quoted
  string (`"coordinates":"[[1,2]]"`).
- **Ring text.** `ToWKT` writes a ring as `"( p1, p2)"`, with a space
  after the parenthesis.
- **Rings written by `ToWKT`.** Because `points` and `polygon` are
  started afresh in every iteration, `ToWKT` writes only:
  - for Point, the first point of the last ring;
  - for LineString and MultiPoint, the points of the last ring;
  - for Polygon and MultiLineString, the rings of the last group.
- **Decoding.** `FromWKT` adds two, one or no outer brackets according
  to the type it has read; it never infers the nesting from the data.

## Model

| member | source | states |
|---|---|---|
| Geometry.Geo.constructor | geo.go:11-14 | a Geo holds the given type and coordinates |
| WktToJson.WKTToGeoJSON | geo.go:16-48 | the type is the first scanner word, upper-cased and mapped through the keyword replacer; the coordinates are the word loop applied to the remaining words of the padded text |
| WktToJson.EmitWords | geo.go:26-41 | the loop writes exactly Emit of the words: the flag is the invariant link between the pieces written so far and the rest |
| WktToJson.EmitPair | geo.go:28-36 | two coordinate words after a bracket or comma are written as the pair "[x,y]", and the flag stays set |
| WktToJson.EmitThird | geo.go:28-32 | a third coordinate after a pair is written as ",z]" |
| WktToJson.EmitPunct | geo.go:37-39 | brackets and commas are copied whatever the flag, and clear it |
| WktToJson.EmitAppend | geo.go:26-41 | the text written for a concatenation of words is the text of the first part followed by that of the second, started from the flag the first part leaves |
| WktToJson.EmitJoin | geo.go:26-41 | parts separated by comma words are written as their own texts separated by commas |
| WktToJson.EmitBracketed | geo.go:26-41 | a bracketed, comma-separated list of parts is written as the JSON array of the parts' texts |
| WktToJson.KeywordAt | geo.go:44-45 | the replacer matches a non-empty pattern that is a prefix of the text |
| WktToJson.TypeNameOfKeyword | geo.go:44-45 | each of the six WKT keywords is mapped to its GeoJSON type name, though POINT is tried before MULTIPOINT |
| WktToJson.TypeNameLowerCase | geo.go:45 | the keyword is case-insensitive: "point" reads as Point |
| WktToJson.TypeNameKeepsSuffix | geo.go:44-45 | a keyword followed by more letters keeps them ("POINTZ" gives "PointZ"), which is no type name |
| Tokens.Pad | geo.go:17 | the replacer never shortens the text |
| Tokens.PadAppend | geo.go:17 | the replacer works character by character: padding a concatenation is the concatenation of the paddings |
| Tokens.WordEnd | geo.go:19-20 | a word runs to the first white-space character or the end of the text |
| Tokens.WordsAreWords | geo.go:19-20 | every scanner word is non-empty and holds no white space |
| Tokens.WordsAppend | geo.go:19-20 | words of texts split at a space are the words of each part in turn |
| Tokens.LexAppend | geo.go:17-20 | padding and scanning a text split at a bracket, comma or space gives the words of the two parts in turn |
| Tokens.LexPlain | geo.go:17-20 | a text without brackets, commas or spaces is one word, unchanged |
| Tokens.LexPunctuation | geo.go:17 | "(" becomes the word "[", ")" the word "]", "," the word ",", and a space no word |
| Tokens.LexJoin | geo.go:17-20 | a list joined by "," or ", " scans to the words of each item separated by "," words |
| Tokens.LexParens | geo.go:17-20 | a parenthesised text scans to "[", its words, "]" |
| JsonText.ParsePrint | geo.go:64 | the JSON text of a value with clean number texts parses back to that value, whatever delimiter follows |
| JsonText.ParseOfPrint | geo.go:64 | Parse is the inverse of Print on clean values |
| Geometry.Geo.ToWKT | geo.go:87-117 | the text is WktText of the type and coordinates: per type the keyword and the last ring, the last group or every group, joined by "," |
| Geometry.FormatGroup | geo.go:90-97 | the middle loop gives the text of every ring of one group, and leaves points as the last ring's texts, or unchanged when the group has no ring |
| Geometry.FormatRing | geo.go:92-95 | the inner loop gives a fresh list with the "%g %g" text of every point of one ring, in order |
| Geometry.LastRingStep | geo.go:89-99 | after one more group, the points ToWKT holds are that group's last ring, or the earlier ones when the group is empty |
| Geometry.WktKeepsLastRing | geo.go:89-108 | for a LineString only the last ring is written: earlier rings do not change the text |
| Geometry.WktUnknownType | geo.go:102-116 | an unknown type is written as the empty text |
| Geometry.Geo.Transform | geo.go:131-165 | every point is replaced in place by f of its longitude and latitude, so the new coordinates are MapCoords of the old ones; the type is untouched |
| Geometry.Geo.ReserveLngLat | geo.go:120-129 | every point has its longitude and latitude exchanged |
| Geometry.MapCoordsPointwise | geo.go:120-165 | a transform keeps the nesting and the number of ordinates of every point; each point's first two ordinates become f of them and the rest are kept |
| Geometry.SwapTwice | geo.go:120-129 | exchanging longitude and latitude twice gives back the coordinates |
| Geometry.MapCompose | geo.go:131-165 | two transforms in a row are one transform by their composition |
| Geometry.Geo.Box | geo.go:168-190 | the four numbers bound every point (minx <= x <= maxx, miny <= y <= maxy) and each is the ordinate of some point |
| Geometry.BoundsOf | geo.go:170-188 | starting from the first point, the loops over all points give bounds that hold every point and are attained |
| Geometry.WidenGroup | geo.go:172-187 | the loop over one group's rings keeps the bounds tight over the points seen |
| Geometry.WidenRing | geo.go:173-186 | the loop over one ring's points keeps the bounds tight over the points seen |
| Geometry.WidenStep | geo.go:174-185 | the four comparisons widen tight bounds to one more point and keep them tight |
| Geometry.FlatMembers | geo.go:171-173 | the points visited are exactly the points of the coordinates |
| Geometry.FromWKT | geo.go:51-66 | the type is the one read from the text; the decode succeeds exactly when the wrapped JSON text decodes, and then the coordinates are the decoded ones |
| Geometry.Decode | geo.go:53-65 | an unrecognised type gives no coordinates, since the wrapped text is empty and fails to decode |
| Geometry.WrapLevels | geo.go:54-61 | Point, LineString and MultiPoint gain two outer levels, Polygon and MultiLineString one, and MultiPolygon none |
| Geometry.PointExample | geo.go:54-61 | "POINT (x y)" reads as Point and the JSON text [[[[x,y]]]] |
| Geometry.ReadCoordsJson | geo.go:64 | coordinates written as JSON are read back by Unmarshal as themselves, when every ordinate's number text reads back as that ordinate |
| Geometry.EmitLexPoint | geo.go:95 | a point's WKT text "x y" is rewritten to its JSON pair, when both ordinates are written as plain number texts that read back |
| Geometry.EmitLexRing | geo.go:97 | a ring's WKT text is rewritten to the JSON of the ring, when its ordinates are written as plain number texts that read back |
| Geometry.EmitLexGroup | geo.go:99 | a group's WKT text is rewritten to the JSON of the group, under the same condition on its ordinates |
| Geometry.EmitLexTop | geo.go:104-114 | a keyword, a space and a parenthesised list scan to the keyword and a list that is rewritten to the JSON array of the items |
| Geometry.WktBody | geo.go:51-117 | for every type, the type read back from ToWKT's text is the type, and the wrapped coordinates are the JSON of all the coordinates |
| Geometry.WktRoundTrip | geo.go:51-117 | FromWKT of ToWKT gives back the type and the coordinates, for each type holding the coordinates it writes, points of two ordinates, and ordinates whose plain number texts read back |
| Geometry.ToWKTFromWKT | geo.go:51-117 | a Geo written by ToWKT and read by FromWKT decodes without error and comes back with the same type and coordinates |
| Geometry.WktRoundTripExample | geo.go:51-117 | the point (1, 2) is written as "POINT (1 2)" and read back as itself |
| Geometry.CoordinatesJSON | geo.go:70-78 | an unknown type writes no coordinates |
| Geometry.Geo.GeoJSON | geo.go:69-81 | the text is the envelope {"type":…,"coordinates":"…"} around the JSON of the part of the coordinates the type selects; an unknown type gets an empty coordinates string |
| Geometry.GeoJSONReadsBack | geo.go:69-81 | GeoJSON writes Coords[0][0], Coords[0] or Coords by type, as JSON that reads back as exactly that part, inside the quoted coordinates field, when the ordinates of that part have number texts that read back |
| Geometry.GeoJSONExample | geo.go:69-81 | the Point (1, 2) is written as {"type":"Point","coordinates":"[[1,2]]"}, and the quoted text reads back as its ring |
| BlockPadding.Repeat | crypto.go:41 | n copies of the byte |
| BlockPadding.PadCount | crypto.go:40 | the padding count is between 1 and the block size and brings the length to the next multiple of the block size |
| BlockPadding.PKCS5Padding | crypto.go:39-43 | the data is an unchanged prefix; 1 to blockSize bytes are appended, each the padding count as a byte; the length is a multiple of the block size |
| BlockPadding.PKCS5UnPadding | crypto.go:46-50 | removes as many trailing bytes as the last byte says; the result is a prefix |
| BlockPadding.ZeroPadding | crypto.go:53-57 | the data is an unchanged prefix followed by 1 to blockSize zero bytes; the length is a multiple of the block size |
| BlockPadding.TrimLeftZerosIsSuffix | crypto.go:60-65 | trimming leading zeros leaves a suffix that starts with a non-zero byte, after only zero bytes |
| BlockPadding.TrimRightZerosIsPrefix | crypto.go:60-65 | trimming trailing zeros leaves a prefix that ends with a non-zero byte, before only zero bytes |
| BlockPadding.ZeroUnPadding | crypto.go:60-65 | the result is the data with zero bytes stripped from both ends |
| BlockPadding.PKCS5RoundTrip | crypto.go:39-50 | unpadding a PKCS5 padding gives back the data for block sizes 1 to 255 |
| BlockPadding.PKCS5RoundTripFailsAt256 | crypto.go:39-50 | with block size 256 the padding count wraps to 0 and the round trip fails |
| BlockPadding.ZeroRoundTrip | crypto.go:53-65 | zero unpadding gives back the data when it neither starts nor ends with a zero byte |
| BlockPadding.StripZeroTail | crypto.go:60-65 | any data followed only by zero bytes comes back from zero unpadding when it neither starts nor ends with a zero byte |
| BlockPadding.ZeroRoundTripOnlyIf | crypto.go:53-65 | and only then: data with a leading or trailing zero byte does not come back |
| BlockPadding.NewCrypto | crypto.go:76-78 | the IV is the key; AES, CBC and PKCS5 are the defaults |
| BlockPadding.Pad | crypto.go:80-86 | the data is an unchanged prefix; 1 to blockSize bytes are appended; the length is a multiple of the block size; the appended bytes are the count (as a byte) under "PKCS5" and zero under any other name |
| BlockPadding.Unpad | crypto.go:87-92 | under "PKCS5" the result is the prefix that drops as many bytes as the last byte says; under any other name it is a slice of the data with only zero bytes cut from either end, and it neither starts nor ends with a zero byte |
| BlockPadding.CryptoRoundTrip | crypto.go:80-92 | unpad after pad gives back the data, under each scheme's condition |
| IdCard.DigitValue | idcard.go:61 | a digit's value, and 0 for any other character since the Atoi error is ignored |
| IdCard.CheckChar | idcard.go:56-67 | the check character is always one of the eleven of the table |
| IdCard.SumY | idcard.go:56-67 | the two loops return the check character: the table entry at the weighted digit sum mod 11 |
| IdCard.WeightedSumPrefix | idcard.go:60-65 | the weighted sum depends only on the characters it weighs |
| IdCard.CheckCharFirst17 | idcard.go:56-67 | the check character depends only on the first 17 characters |
| IdCard.WeightedSumUpper | idcard.go:60-65 | upper-casing does not change the weighted sum |
| IdCard.CheckCharUpper | idcard.go:76-78 | upper-casing does not change the check character |
| IdCard.ID15to18 | idcard.go:70-73 | three characters longer: the first six kept, "19" inserted, the rest kept, and the check character of that appended |
| IdCard.IDisValid | idcard.go:76-82 | true exactly when the upper-cased 18th character is the check character, so a lower-case x is accepted |
| IdCard.UpgradeIsValid | idcard.go:70-82 | every upgraded 15-character number is valid |
| IdCard.ExampleCheckChar | idcard.go:56-67 | the check character of 21021219831019104 is 4 |
| IdCard.ExampleUpgrade | idcard.go:70-82 | 210212831019104 upgrades to 210212198310191044, which is valid |
| IdCard.UpgradePattern | idcard.go:70-89 | an upgraded number matches the pattern exactly when the 15-character number has the corresponding shape |
| IdCard.PatternShape | idcard.go:84-89 | a matching number has 18 characters, all digits except the day's first (a digit or a bar) and the last (a digit, x, X or a bar) |
| IdCard.PatternExamples | idcard.go:84-89 | 210212198310191044 matches; a 17-character number, month 13, day 32 and a leading zero do not |
| IdCard.PatternAcceptsBar | idcard.go:86 | the pattern's character class also accepts "|" as the last character |
| Net.IPv4 | net.go:21 | sixteen bytes: the IPv4-in-IPv6 prefix and the four bytes at 12 to 15 |
| Net.Ip2long | net.go:8-14 | bytes 12 to 15 packed big-endian into 32 bits |
| Net.Long2ip | net.go:16-22 | the four bytes of the number, most significant first, at 12 to 15 |
| Net.Ip2longLong2ip | net.go:8-22 | packing the unpacked address gives back the number |
| Net.Long2ipIp2long | net.go:8-22 | unpacking the packed address gives back its bytes 12 to 15 behind the IPv4 prefix |
| StringSets.Select | strings.go:11-15 | a filter keeps at most the elements it is given |
| StringSets.SelectCounts | strings.go:11-15 | each string occurs in the filtered list as often as in the input when it passes the test, and never otherwise |
| StringSets.SelectMembers | strings.go:11-15 | a string is in the filtered list exactly when it is in the input and passes the test |
| StringSets.SelectComplement | strings.go:11-31 | the two filters of minus and intersect split the input between them |
| StringSets.KeysOf | strings.go:7-9 | the map's keys are exactly the strings of the list |
| StringSets.StringsMinus | strings.go:4-17 | the elements of s1 not in s2, in order and with duplicates |
| StringSets.MinusDisjoint | strings.go:4-17 | the difference shares no element with s2 |
| StringSets.StringsIntersect | strings.go:20-33 | the elements of s1 in s2, in order and with duplicates |
| StringSets.IntersectKeepsDuplicates | strings.go:19-33 | despite the comment, intersect does not remove duplicates |
| StringSets.DistinctCard | strings.go:48-51 | a list without duplicates is as long as its set of elements |
| StringSets.ListKeys | strings.go:48-50 | the listed keys are exactly the keys, each once |
| StringSets.StringsUnion | strings.go:36-52 | the union of the element sets of s1 and s2, each once |
| Csv.ColumnFor | csv.go:286-294 | the column index is -1 or a valid column |
| Csv.ColumnForSpec | csv.go:286-294 | -1 exactly when no header column maps to the name, otherwise the last column that does |
| Csv.RowKVind | csv.go:285-305 | one index per output column: the last header column that maps to it case-insensitively, or -1 |
| Csv.RowReOrder | csv.go:272-282 | cell i is row[outind[i]], or "" where the index is negative |
| Csv.SameHeaders | csv.go:308-323 | true exactly when the output header is empty, or equal to the input header in length and pairwise ignoring case |
| Csv.Reordered | csv.go:357-366 | a rearranged row has one cell per output column |
| Csv.ReorderedAll | csv.go:358-365 | one rearranged row per data row, in order, each drawn through the column map of the header row |
| Csv.ReorderRows | csv.go:358-365 | the loop over the data rows yields exactly the rearranged rows |
| Csv.RowsKVFile | csv.go:307-375 | the header is written only for "true"; the data rows are copied when the headers are the same, and rearranged through RowKVind and RowReOrder otherwise |
| Csv.SlicesCover | csv.go:206-221 | the slices give back the rows in order; each holds 1 to FileMaxLines rows, all but the last exactly FileMaxLines; there are ceil(n / FileMaxLines) of them |
| Csv.Chunks | csv.go:206-238 | the first file gets the first slice, which starts with the header; every later file gets the header followed by its slice |
| Csv.ChunksExample | csv.go:206-221 | five rows, at most two per file, make the slices [h,a], [b,c], [d] |
| Csv.IdentityKV | csv.go:65-70 | each output column name mapped to itself |
| Csv.SeedKVSpec | csv.go:65-70 | an empty map is seeded from FileCols when there are any; otherwise it is kept |
| Csv.LowerEntries | csv.go:71-73 | every key is also present lower-cased; a key that is not lower case keeps its value; a lower-case key holds the lower-cased value of some key that lowers to it, which one depending on map order |
| Csv.Separator | csv.go:44-49 | the separator after init is never empty, and a non-empty one is kept |
| Csv.Threads | csv.go:50-52 | the thread count after init is positive, and a positive one is kept |
| Csv.MaxLines | csv.go:53-55 | the line limit after init is positive, and a positive one is kept |
| Csv.HeadKeep | csv.go:62-64 | after init FileHeadKeep is "true" or "fase", and "fase" exactly when it was "fase" before |
| Csv.CSVTools.constructor | csv.go:19-38 | a CSVTools literal with the given settings |
| Csv.CSVTools.Init | csv.go:41-74 | the separators, thread count, line limit and FileHeadKeep take their defaults; InputInfo and OutputInfo are emptied; ColsKV is seeded from FileCols when empty; then every key is also present lower-cased, a key that is not lower case keeps its value, and a lower-case key holds the lower-cased value of some key that lowers to it, which one depending on map order; the columns and row count are unchanged |
| Csv.CSVTools.LowerColsKV | csv.go:65-73 | the ColsKV part of init |
| Csv.CSVTools.Collate | csv.go:199-238 | the row count and header are recorded when there is a data row; FileCols defaults to the header; the rows are cut into files as Chunks does |

## Left out

- I/O of every kind: file, archive, gzip and CSV reading and writing,
  `fmt.Print*`, FTP, SFTP, HTTP, `sqlldr`. The CSV functions are modelled
  on the rows they would write.
- `gis.go`, `math.go`, `map.go`, `time.go`, `db.go`, `file.go`,
  `archive.go`, `ftp.go` and `sftp.go` are not part of this model. They
  hold floating-point geodesy, statistics, network clients, calendar
  arithmetic and file handling.
- The coordinate-system conversions are left abstract: `Transform` takes
  the point function as a parameter.
- Floating-point numbers are modelled as reals:
  - `%g` and `json.Marshal` formatting become parameters;
  - `json.Unmarshal` number parsing becomes a parameter;
  - NaN, infinities and the `json.Marshal` error they cause are not
    modelled.
- JSON reading handles only arrays and number texts with no white
  space. `null`, strings, objects and white space between tokens are
  not modelled.
- Geometry.FromWKT: on a decode error Go may return partially filled
  coordinates. The model states the coordinates only when decoding
  succeeds.
- Nil slices are modelled as empty sequences. Go's `json.Marshal` writes
  a nil slice as `null` and an empty one as `[]`; the model writes `[]`
  for both. Two places where Go writes `null` are not modelled: the
  GeoJSON of a `Geo` whose coordinates are nil (`Geo{Type:
  "MultiPolygon"}`), and the coordinates after `FromWKT` fails to decode
  (they stay nil).
- Geometry.WktRoundTrip: proved only for the coordinates each type
  writes in full and for points of exactly two ordinates. `ToWKT`
  drops earlier rings and groups and any third ordinate, so nothing
  more can come back.
- Geometry.Geo.Box, Geometry.Geo.ToWKT, Geometry.Geo.Transform and
  Geometry.Geo.ReserveLngLat require that every point has two ordinates,
  and `Box` requires a first point. Go panics otherwise (`c[0], c[1]` on
  a shorter point).
- Geometry.Geo.ToWKT for a Point requires a point in the last ring. Go
  panics at `points[0]` otherwise.
- Geometry.CoordinatesJSON requires the first group (and for Point,
  LineString and MultiPoint the first ring). Go panics otherwise.
- BlockPadding.PKCS5UnPadding, BlockPadding.Unpad and
  BlockPadding.CryptoRoundTrip require, under PKCS5, non-empty data whose
  last byte is at most its length. Go panics on empty data and on a
  larger last byte, which is what decrypting with a wrong key usually
  gives.
- IdCard.CheckChar and IdCard.SumY require at least 17 characters,
  IdCard.ID15to18 at least 15 and IdCard.IDisValid at least 18. Go panics
  on shorter ids.
- Net.Ip2long requires at least 16 bytes, the form net.IPv4 builds. Go
  panics on the 4-byte form that `To4` returns.
- Csv.RowReOrder, Csv.ReorderRows and Csv.RowsKVFile require that every
  data row is long enough for each column the output header draws on.
  Go panics on a shorter row. Csv.ReorderRows and Csv.RowsKVFile also
  require a header row; Go panics at `rawdat[0]` on no rows.
- Go slice aliasing is not modelled. The Geo methods have value
  receivers, yet the transforms reach the caller's coordinates through
  shared backing arrays. The model has the transforms update `Coords` of
  the object they are called on.
- `bufio.Scanner` limits are not modelled: its 64 KiB token limit and
  its handling of invalid UTF-8. Strings are sequences of characters,
  not of bytes.
- Case mapping (`strings.ToUpper` and `strings.ToLower`) is ASCII only.
- The iteration order of Go maps is not modelled:
  - `StringsUnion` is specified by its element set and the absence of
    duplicates;
  - `init` lowers the `ColsKV` keys in an arbitrary order.
- `CSVTools.ErrorHandler`, the concurrent merge of `ParseZip` and the
  output file names are not modelled.
- Block ciphers and hashes are not modelled: `Encrypt`, `Decrypt`, `MD5`
  and `SHA1` call the standard library.
- The ID card table and `NewIDCard` are not modelled. They need
  idaddr.json and the clock.
