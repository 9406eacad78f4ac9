# QTextImage parse, modelled in Dafny

`QTextImage::parse` reads an ASCII-art picture and turns it into a list of shapes.

- The picture is a grid of characters: rows are separated by `'\n'`, blanks other than `'\n'` take no column, and every other character takes one cell.
- Each of the 61 glyphs `1-9A-Za-z` marks the cells of one shape:
  - one occurrence makes a point;
  - two occurrences make a line;
  - three or more make an ellipse, stored as the corners of its bounding box;
  - a run of alphabet-consecutive glyphs that occur once each makes a polygon, tagged with its first glyph.
- A row whose width differs from the first row's stops the parse.
- `isValid` asks for a non-zero extent.

The model follows the two loops of `parse` as written and proves them equal to declarative descriptions:

- **Byte loop.** `Scanner.Run` is the loop. `Scanner.ScanSpec` splits the input at `'\n'` and reads off the completed rows.
- **Glyph loop.** `Classifier.ClassifyFrom` is the loop, with its pending-polygon accumulator. `Classifier.Scene` says, glyph by glyph, which component each glyph tags.
- **Derived properties.** Everything in `ScannerFacts`, `ClassifierFacts` and `TextImage` is stated about those descriptions and carried back to the loops: row widths, cell bounds, the shape per occurrence count, polygon runs, tag order and validity.

Modules:

| file | modules | what they model |
|---|---|---|
| alphabet.dfy | `Options`, `Alphabet` | the glyph table, `indexOf`, `next` as written and corrected |
| geometry.dfy | `Geometry` | `Component`, `rectPoints` |
| scanner.dfy | `Scanner`, `ScannerFacts` | the byte loop, its row-level description and what it promises |
| occurrences.dfy | `Occurrences` | the `QMultiHash<char, QPoint>` as a sequence of observations |
| classifier.dfy | `Classifier`, `ClassifierFacts` | the glyph loop, the per-glyph scene and what it promises |
| textimage.dfy | `TextImage` | `parse`, `isValid`, the `QString` and `QStringList` overloads, both loops as methods |
| examples.dfy | `Examples` | small inputs traced end to end |
| sample.dfy | `Sample` | the 11x11 sample of the `render` documentation, traced end to end |

Bytes are `char` values below 256 (`Alphabet.Byte`), read as Latin-1, so `parse` takes exactly the texts a `QByteArray` can hold. The parser only compares bytes with ASCII constants, so the upper half never matters except to `QChar::isSpace`. `Scanner.IsSpace` gives the Latin-1 whitespace set.

## Behaviour as coded

The model follows the code where a prose description of this parser could suggest otherwise:

- **Multi-hash order.** `QMultiHash::values` answers the most recently inserted value first. A line's end points therefore come in reverse scan order (`Occurrences.ValuesReversePositions`, `Examples.ParseDiagonals`).
- **Trailing blank.** A blank that is the last byte skips the end-of-input check, because of the `continue` at qtextimage.cpp:91. The final row is then left open: its glyphs are recorded, but it is not counted and its width is never checked (`ScannerFacts.TrailingBlankLeavesRowOpen`, `Examples.ParseOpenRow`).
- **Whole runs.** `"1 2 3\n"` gives one polygon through all three cells, not a two-vertex polygon followed by a point. A run ends only when the following glyph does not occur exactly once (`Examples.ParseChain`).
- **Two-vertex polygons.** A polygon may have as few as two vertices (`Geometry.WellFormed`).
- **Width counts cells.** `"1 1\n1"` fails on widths 2 and 1; blanks do not count (`Examples.ParseMismatch`).
- **One string, one row, not always.** The `QStringList` overload is documented to parse each string as a row (qtextimage.h:53). The code joins the strings with '\n' and scans the bytes, so a last string that is empty or ends in a blank completes no row. `{"1", ""}` joins to `"1\n"` and parses with one row (`Examples.ParseShortList`). `{"1", "1 "}` joins to `"1\n1 "` and also gives one row, because of the `continue` at qtextimage.cpp:91. `TextImage.CompletedLines` therefore promises one row per string only when the last string ends in a cell.
- **Ragged input.** On ragged input the code returns an image whose extent was never assigned. The model's `Parse` returns rows = columns = 0 with no shapes instead (see Findings).

## Model

| member | source | states |
|---|---|---|
| Alphabet.GlyphReadsTable | qtextimage.cpp:18-21 | the table has 61 entries and entry i is `Glyph(i)`: 1-9, then A-Z, then a-z |
| Alphabet.GlyphsIncreasing | qtextimage.cpp:18-21 | the table is strictly increasing, so no glyph appears twice |
| Alphabet.InAlphabetIsMembership | qtextimage.cpp:18-21 | a byte is a glyph exactly when it occurs in the table, exactly when some `Glyph(i)` equals it |
| Alphabet.IndexFromFinds | qtextimage.cpp:24 | the linear search answers the first position holding the byte, or -1 when no position does |
| Alphabet.IndexOfIsSearch | qtextimage.cpp:24 | the closed-form index equals the result of `glyphs().indexOf` |
| Alphabet.IndexOfGlyph | qtextimage.cpp:24 | the index of the i-th glyph is i |
| Alphabet.IndexOfCharacterises | qtextimage.cpp:24-26 | the index is -1 exactly for bytes outside the alphabet; otherwise the table holds the byte there |
| Alphabet.SentinelNotGlyph | qtextimage.cpp:26 | the byte '0' that `next` answers for non-glyphs is not itself a glyph |
| Alphabet.NextAsWritten | qtextimage.cpp:23-30 | `next` as written answers '0' or a glyph for every byte except 'z', the last glyph, where it reads outside the table |
| Alphabet.NextAsWrittenReadsPastEnd | qtextimage.cpp:25-28 | the guard `index >= length` never holds, so `next('z')` reads past the table |
| Alphabet.Next | qtextimage.cpp:23-30 | the successor of a glyph is the following glyph; the last glyph and every non-glyph map to '0' |
| Alphabet.NextOfGlyph | qtextimage.cpp:23-30 | glyph i is followed by glyph i+1, and the last glyph by '0', which is no glyph |
| Alphabet.NextAgreesWhereDefined | qtextimage.cpp:23-30 | the corrected successor agrees with the code wherever the code stays inside the table, and only 'z' leaves it |
| Geometry.WidenAll | qtextimage.cpp:36-41 | the running minima and maxima contain every point, and each side of the box lies on the start box or on a point |
| Geometry.RectPoints | qtextimage.cpp:32-45 | for three or more points, the result is two corners of the tight box: it contains every point and each side touches one |
| Geometry.TightUnique | qtextimage.cpp:32-45 | only one box is tight around a given set of points |
| Geometry.TightIsRectPoints | qtextimage.cpp:32-45 | any tight box around the points is the one `rectPoints` answers |
| Geometry.TightSameMembers | qtextimage.cpp:32-45 | whether a box is tight depends only on which points there are, not on their order or repetitions |
| Geometry.RectPointsOrderFree | qtextimage.cpp:32-45 | `rectPoints` gives the same corners for any two lists with the same members, whatever order it visits them in |
| Geometry.RectPointsLoop | qtextimage.cpp:32-45 | the `foreach` loop of `rectPoints` returns the two corners of the tight box, which are `RectPoints` |
| Scanner.Step | qtextimage.cpp:91-105 | one byte of the loop keeps the observations so far, adds at most one, never lowers the row count, and can stop the scan only where a '\n' or the final byte closes a row after the first |
| Scanner.Run | qtextimage.cpp:90-107 | the loop over the remaining bytes keeps the observations so far, adds at most one per byte, and never lowers the row count |
| Scanner.Scan | qtextimage.cpp:86-111 | the scan records at most one observation per byte, and an empty input gives the empty 0x0 grid |
| Scanner.Split | qtextimage.cpp:98 | the pieces between '\n' bytes: at least one piece, none holding '\n', and a non-empty input gives more than one piece or a non-empty one |
| Scanner.JoinSplit | qtextimage.cpp:98 | joining the pieces with '\n' gives the input back |
| Scanner.SplitJoin | qtextimage.h:116-118 | splitting newline-free pieces joined with '\n' gives the pieces back |
| Scanner.RowObs | qtextimage.cpp:92-96 | a piece records only glyphs, all in its row and within the columns it occupies |
| Scanner.ObsOfRows | qtextimage.cpp:92-96 | each glyph is recorded in one of the pieces' rows, within that row's width |
| Scanner.Completed | qtextimage.cpp:98 | every piece is a row except the last, which is one exactly when it ends in a byte that takes a column |
| Scanner.CompletedAll | qtextimage.cpp:98 | when the last piece is completed by the end of input, every piece is a row |
| Scanner.AdvanceByte | qtextimage.cpp:91-97 | consuming a piece byte by byte is consuming its first byte and then the rest |
| Scanner.RunByRows | qtextimage.cpp:90-107 | the byte loop is the same as consuming the input piece by piece, closing a row after each '\n' |
| Scanner.RowsFromStart | qtextimage.cpp:99-105 | the first completed row fixes `columns`; the scan fails exactly when a later completed row has another width |
| Scanner.ScanMatchesSpec | qtextimage.cpp:88-107 | the byte loop and the row-level description agree on every input |
| ScannerFacts.ScanRowWidths | qtextimage.cpp:98-106 | the scan fails exactly when some completed row differs in width from the first; on success `rows` counts the completed rows, all exactly `columns` wide, and no completed row means no columns |
| ScannerFacts.ScanObservationBounds | qtextimage.cpp:91-97 | every recorded glyph is in the alphabet, at row at most `rows`, and below `columns` on a completed row |
| ScannerFacts.ScanRecordsEveryPiece | qtextimage.cpp:92-95 | the recorded glyphs are those of the pieces, in scan order, piece k in row k |
| ScannerFacts.TrailingBlankLeavesRowOpen | qtextimage.cpp:91 | an input ending in a blank other than '\n' leaves its final piece out of the row count |
| ScannerFacts.WhitespaceIsTransparent | qtextimage.cpp:91 | deleting a blank other than '\n' (short of the last byte) leaves the scan unchanged |
| ScannerFacts.BlankCellsInterchangeable | qtextimage.cpp:92-96 | a byte that is neither blank nor glyph takes a column and records nothing, so any two such bytes give the same scan |
| Occurrences.Values | qtextimage.cpp:115 | `points.values(glyph)` holds at most one cell per observation; `ValuesReversePositions` and `ValuesAreOccurrences` state which cells and in what order |
| Occurrences.ValuesReversePositions | qtextimage.cpp:94 | the multi-hash answers a glyph's cells newest first: the scan order reversed |
| Occurrences.PositionsConcat | qtextimage.cpp:90-94 | scanning one stretch of input after another lists a glyph's cells from the first stretch, then those from the second |
| Occurrences.PositionsAreObservations | qtextimage.cpp:94 | a glyph's cells in scan order are exactly the cells where it was recorded |
| Occurrences.ValuesAreOccurrences | qtextimage.cpp:115 | `values(g)` holds each recorded cell of g as often as it was recorded, and nothing else |
| Occurrences.NonGlyphHasNoValues | qtextimage.cpp:93-94 | a byte outside the alphabet, the sentinel '0' among them, has no cells |
| Classifier.Classify | qtextimage.cpp:112-142 | the glyph loop, started from the empty polygon `{'0', Polygon, {}}`, yields at most one component per glyph of the table, so at most 61 |
| Classifier.Visit | qtextimage.cpp:114-141 | one turn of the glyph loop keeps the assertion at line 117 true for the next glyph, and only appends to the output |
| Classifier.ClassifyFrom | qtextimage.cpp:113-142 | the rest of the loop only appends to the components already emitted |
| Classifier.NextCountAt | qtextimage.cpp:119 | the successor's count seen at glyph i is the count of glyph i+1, taken as 0 after the last glyph |
| Classifier.RunEnd | qtextimage.cpp:119 | the end of a run of single-occurrence glyphs: every glyph before it occurs once, and the glyph at it does not |
| Classifier.Vertices | qtextimage.cpp:118 | a run's vertex list has one cell per glyph, the k-th being the only cell of the k-th glyph |
| Classifier.VisitOpens | qtextimage.cpp:128-130 | with no polygon open, a singleton followed by a singleton opens a polygon tagged with it |
| Classifier.VisitEmits | qtextimage.cpp:125-140 | with no polygon open and none to open, the turn appends exactly the glyph's own component |
| Classifier.VisitGrows | qtextimage.cpp:116-123 | with a polygon open, the turn adds the glyph's cell and closes the polygon when the successor does not occur once |
| Classifier.ClassifyIdle | qtextimage.cpp:113-142 | with no polygon open, the rest of the loop appends the scene from that glyph on |
| Classifier.ClassifyBusy | qtextimage.cpp:116-123 | with a run's polygon open, the rest of the loop appends that whole polygon and then the scene after the run |
| Classifier.ClassifyMatchesScene | qtextimage.cpp:112-142 | the glyph loop yields exactly the glyph-by-glyph scene |
| ClassifierFacts.SingletonValues | qtextimage.cpp:115-118 | for a glyph that occurs once, the multi-hash and the scan order agree |
| ClassifierFacts.EmittedWellFormed | qtextimage.cpp:125-141 | each glyph yields at most one component, tagged with that glyph, carrying the number of points its kind needs |
| ClassifierFacts.TaggedEmitted | qtextimage.cpp:125-141 | what glyph i yields carries tag j exactly when i is j |
| ClassifierFacts.SceneTagged | qtextimage.cpp:113-142 | the components tagged j in the scene from i are those glyph j yields when j is not before i, and none otherwise |
| ClassifierFacts.SceneOrdered | qtextimage.cpp:113-142 | the scene from i lists well-formed components tagged at or after i, in strictly increasing tag order |
| ClassifierFacts.ClassifyByGlyph | qtextimage.cpp:113-142 | in the loop's output, glyph j tags exactly the components the scene assigns it, at most one |
| ClassifierFacts.ClassifyOrdered | qtextimage.cpp:113-142 | the loop's output is in strictly increasing tag order, every component well formed and tagged with a glyph |
| ClassifierFacts.AbsentGlyph | qtextimage.cpp:126-127 | a glyph that does not occur tags nothing |
| ClassifierFacts.TwoOccurrencesLine | qtextimage.cpp:135-137 | two occurrences give one line whose points are exactly those two cells |
| ClassifierFacts.ManyOccurrencesEllipse | qtextimage.cpp:138-140 | three or more occurrences give one ellipse whose two points are corners of the tight box around all of them |
| ClassifierFacts.SingletonInsideRun | qtextimage.cpp:116-123 | a single occurrence preceded by another singleton tags nothing itself; its cell is a vertex of the polygon tagged by an earlier glyph |
| ClassifierFacts.LoneSingletonPoint | qtextimage.cpp:128-133 | a single occurrence with no singleton on either side is a point at that cell |
| ClassifierFacts.RunPolygon | qtextimage.cpp:116-133 | a maximal run of two or more singletons gives one polygon tagged with its first glyph, with one vertex per glyph in alphabet order |
| ClassifierFacts.EmittedAtOrBefore | qtextimage.cpp:113-142 | no occurrence is dropped: for every glyph that occurs, one glyph at or before it in the alphabet tags a component that accounts for all its cells. The cells are among the points of a point, line or polygon, or inside the box of an ellipse |
| ClassifierFacts.ClassifyEmptyIff | qtextimage.cpp:113-142 | the loop yields no component exactly when no glyph was recorded |
| ClassifierFacts.SceneGap | qtextimage.cpp:126-127 | glyphs that were never recorded leave the scene unchanged |
| TextImage.IsValid | qtextimage.cpp:146-148 | an image is valid exactly when its grid has at least one cell (rows times columns is not zero); the empty image of ragged input is never valid |
| TextImage.Parse | qtextimage.cpp:86-144 | the parse has a non-negative extent and well-formed shapes in strictly increasing tag order |
| TextImage.ParseAsWritten | qtextimage.cpp:99-103 | as written, a ragged input returns an image with no shapes whose extent is whatever memory held |
| TextImage.RaggedValidityIsIndeterminate | qtextimage.cpp:101-102 | on one ragged input the as-written result is valid or invalid depending on that memory |
| TextImage.ParseValidIff | qtextimage.cpp:146-148 | the image is valid exactly when at least one row was completed, the first occupies a column, and all completed rows are equally wide |
| TextImage.ParseValidComplete | qtextimage.cpp:146-148 | when every piece is a row, the image is valid exactly when the pieces form a rectangle of non-zero width |
| TextImage.ParseEmpty | qtextimage.cpp:86-111 | empty input parses to an invalid image with no shapes |
| TextImage.ParseIsScene | qtextimage.cpp:110-142 | when the byte loop succeeds, the image has the grid's extent and the glyph-by-glyph scene of its occurrences |
| TextImage.ParseByGlyph | qtextimage.cpp:110-142 | when the byte loop succeeds, the image has the grid's extent and glyph j tags exactly what the scene assigns it |
| TextImage.Latin1Of | qtextimage.h:113 | a character below 256 converts to itself, and any other to one or two Latin-1 bytes that are not the character itself |
| TextImage.ToLatin1 | qtextimage.h:113 | conversion gives Latin-1 bytes, at least one per character and at most two |
| TextImage.ToLatin1Concat | qtextimage.h:113 | conversion distributes over concatenation |
| TextImage.ToLatin1Identity | qtextimage.h:113 | conversion leaves a string unchanged exactly when all its characters are Latin-1 |
| TextImage.ToLatin1KeepsNewlines | qtextimage.h:113 | conversion neither creates nor removes '\n' |
| TextImage.ParseString | qtextimage.h:112-114 | a Latin-1 string parses as the byte parse of its characters |
| TextImage.JoinLines | qtextimage.h:117 | `QStringList::join('\n')`: the join holds the characters of all the lines plus one separator between each two |
| TextImage.JoinLatin1 | qtextimage.h:117 | joining Latin-1 lines with '\n' gives Latin-1 text |
| TextImage.ParseList | qtextimage.h:116-118 | for a list of Latin-1 strings, the `QStringList::join('\n')` is Latin-1 and the list parses as the bytes of that join |
| TextImage.ToLatin1All | qtextimage.h:117 | each line converted on its own |
| TextImage.ToLatin1Join | qtextimage.h:117 | converting the joined `QString` gives the converted lines joined with the byte '\n', which is the input the scanner splits |
| TextImage.ParseListRows | qtextimage.h:51-55 | when no string holds '\n', the pieces the scanner sees are the converted strings, one per list element |
| TextImage.CompletedLines | qtextimage.h:51-55 | when the last string also ends in a cell, every string is a completed row |
| TextImage.ParseListValidIff | qtextimage.h:51-59 | such a list parses to a valid image exactly when all its strings have the width of the first and that width is not zero |
| Examples.ParseShortList | qtextimage.h:51-55 | the list `{"1", ""}` joins to `"1\n"` and parses to the 1x1 image holding one point: one row, not one row per string |
| TextImage.ScanLoop | qtextimage.cpp:88-107 | the imperative byte loop returns early exactly when the scan fails, and otherwise returns the scanned grid |
| TextImage.ClassifyLoop | qtextimage.cpp:112-142 | the imperative glyph loop returns the classification |
| TextImage.ParseLoop | qtextimage.cpp:86-144 | the two imperative loops together compute `Parse` |
| Examples.ParseCorners | qtextimage.cpp:138-140 | four occurrences of '1' in a 2x2 grid give one ellipse with corners (0,0) and (1,1); the image is valid |
| Examples.ParseDiagonals | qtextimage.cpp:135-137 | '1' and '2' on the diagonals give two lines, end points newest first, '1' before '2' |
| Examples.ParseChain | qtextimage.cpp:116-130 | one row "1 2 3" gives a single polygon through all three cells |
| Examples.ParseMismatch | qtextimage.cpp:101-102 | a two-cell row followed by a one-cell row gives the empty, invalid image |
| Examples.ParseTail | qtextimage.cpp:116-123 | 'y' then 'z' give one two-vertex polygon, closed at 'z' by the sentinel successor |
| Examples.ParseOpenRow | qtextimage.cpp:91 | "1 " completes no row, so the image is invalid, yet '1' still becomes a point |
| Examples.ParseEmptyRows | qtextimage.cpp:98-105 | "\n\n" gives two rows of no columns, an invalid image |
| Sample.ParseSample | qtextimage.h:78-89 | the documented sample, as bytes, parses to a valid 11x11 image with three shapes, in this order: an ellipse of '1' with corners (0,0) and (10,10); a line of '2' from (7,7) to (3,3); a line of '3' from (3,7) to (7,3). The '#' cells add nothing |
| Sample.ParseSampleString | qtextimage.h:78-89 | the documented call, which passes the sample as a `QString` through `parse(const QString &)`, gives that same valid 11x11 image: the sample is plain ASCII, so the conversion to Latin-1 changes nothing |
| Sample.SampleScan | qtextimage.cpp:90-107 | the sample splits into its eleven rows and an empty final piece, and the byte loop accepts it as an 11x11 grid holding the glyphs of those rows |
| Sample.SampleValues | qtextimage.cpp:93-94 | the sample records 26 cells of '1', whose bounding box is the whole grid. It records '2' at (7,7) and (3,3) and '3' at (3,7) and (7,3), newest first, and no glyph past '3' |
| Sample.SceneOfSample | qtextimage.cpp:113-142 | any recording with those cells classifies to the sample's three shapes |
| Sample.SceneOfThree | qtextimage.cpp:113-142 | when only '1', '2' and '3' occur and each tags one shape, the glyph loop emits exactly those three shapes in alphabet order |
| Sample.TalliedConcat | qtextimage.cpp:90-94 | the cells of '1', '2' and '3' recorded over two consecutive stretches of input are those of the first stretch followed by those of the second |
| Sample.TalliedValues | qtextimage.cpp:115 | `values` answers the tallied cells of '1', '2' and '3' newest first |

## Left out

- The two `render` overloads (qtextimage.cpp:150-184) rasterise the shapes with `QPainter`. That is a foreign library working in floating point.
- The copy constructor, assignment, destructor and the shared copy-on-write storage (qtextimage.cpp:67-84) are not modelled. The image is an immutable value.
- `QMultiHash` is not modelled as a hash table. Its contents are the sequence of recorded observations. `values` is read off in newest-first order, which is the order the Qt documentation gives for a key's values.
- `QChar::isSpace` is modelled on Latin-1 bytes only. Every byte the parser sees is Latin-1.
- `QString::toLatin1` is modelled on code points. A character outside the Basic Multilingual Plane becomes two '?', one per UTF-16 unit. The model does not represent lone surrogates.
- `row`, `column` and `columns` are C `int`s. The model uses unbounded integers, so inputs of more than 2^31-1 rows or columns are not covered.

## Findings

| source | as written | input that shows it | evidently intended | confidence | as-written member | corrected member |
|---|---|---|---|---|---|---|
| qtextimage.cpp:25-28 | the guard `index >= glyphs().length()` can never hold, so for the last glyph `next` reads `glyphs()[61]`, one past the table | `"z"`, or `"y z"` as in Examples.ParseTail. `next('z')` is called only when 'z' occurs exactly once: at qtextimage.cpp:129 in `case 1`, or at qtextimage.cpp:119 when a polygon is open at 'z', which the Q_ASSERT at qtextimage.cpp:117 allows only for a single 'z'. A release build reads the NUL that ends the literal behind `fromRawData` (qtextimage.cpp:19-20); NUL never occurs, so the image equals the corrected one. The defect is the out-of-range read (a debug-build assertion in `QByteArray::operator[]`), not a different image | the last glyph is followed by the sentinel '0', which never occurs | not executed | Alphabet.NextAsWrittenReadsPastEnd | Alphabet.NextOfGlyph |
| qtextimage.cpp:99-103 | on a ragged row `parse` returns a default-constructed image whose `rows` and `columns` (qtextimage.cpp:62-63, 67-69) were never assigned | `"1\n11\n"` | the null image: rows = columns = 0, no shapes, `isValid()` false | not executed | TextImage.RaggedValidityIsIndeterminate | TextImage.ParseValidIff |
