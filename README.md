# Umriss core, modelled in Dafny

Umriss turns scanned black-and-white page images into vector outlines. This
project models the integer core of that pipeline and proves properties of
the model. The parts are:

- **The run-length contour tracer.** It comes in two generations: the newer
  `src/image_contour_collection` and the older, table-based
  `src/image_contours`. Each row of the image becomes a strictly increasing
  list of change positions, ended by the sentinel `END` (`u32::MAX`). Two
  adjacent lists are merged into Top, Bottom and Both changes. A six-state
  feature automaton turns the changes into contour features: Head, Vertical,
  the two Shelves, the two Feet, or None. A queue of open contour ends
  turns each feature into points of a point list, linked by `next`. Nesting
  is tracked through Parent and Alias relations on the contour heads. The
  queue's open ends alternate between incoming ends, whose point still
  waits for the point before it, and outgoing ends, whose point still waits
  for its next point. The state of the automaton says which positions are
  outgoing. This *orientation* is what proves that, once the queue is
  empty, every contour head is followed by a plain point of its own
  (`Traced`). When tracing is done, the parent links become first-child
  and sibling links.
  Iterators then walk the cycle of a contour, the children of a contour, and
  all contours below one in preorder, flipping the hole flag at each level.
- **Orthopolygon geometry.** This covers `circular_pairs`, polygons and
  orthopolygons given by their even vertices, point classification by ray
  casting, and the even-odd scan-line fill into a canvas.
- **Glyph deduplication.** A glyph is normalised to its bounding box. A
  book numbers its distinct glyphs by first appearance and sorts them into
  unique, page-shared and book-shared glyphs.
- **SVG output.** The relative `M`/`m`/`h`/`v`/`z` path encoder of
  `src/silly_svg.rs` emits paths as in SVG 1.1, section 8.3. The Python
  `SvgDocument` (`umriss/svg/__init__.py`) emits move, line, cubic and
  close commands and lays out `defs` and `use`.

The modules follow the source files. Most files have a module of their own.
The last two items below name the files that do not.

- **Pure code** becomes functions and lemmas.
- **The iterators, builders and loops** become classes and methods. Their
  contracts tie each method to a specification function or to the new
  state.
- **The older table builder** (`src/image_contours/table_builder.rs`) has
  the same code as the newer point list builder, up to the names
  `TableItem`, `TableBuilder`, `table` and `add_with_contour`. Module
  `PointList` models both, so the older file has no module of its own.
  Likewise `RowPairChanges` and `LegacyRowChanges` model the older
  `src/image_contours/run_changes.rs`, which has the same merge as
  `RowPairChangeIter`.
- **The older tracer** also uses the newer feature automaton, so
  `src/image_contours/feature_automaton.rs` has no module. The older
  `StateMachine` is shown to have the same tables.

## Model

| member | source | states |
|---|---|---|
| MoreItertools.CircularPairs | src/more_itertools.rs:5-14 | as many pairs as items |
| MoreItertools.CircularPairsNext | src/more_itertools.rs:32-45 | pair i is (a_i, a_(i+1)), and the last pair wraps round to (a_(n-1), a_0) |
| MoreItertools.CircularPairsAt | src/more_itertools.rs:32-45 | pair i is (a_i, a_((i+1) mod n)) |
| MoreItertools.CircularPairsLinked | src/more_itertools.rs:35-37 | the second item of each pair is the first item of the next pair, cyclically |
| MoreItertools.CircularPairsEmpty | src/more_itertools.rs:12-39 | no pairs exactly when there are no items |
| MoreItertools.CircularPairsSingleton | src/more_itertools.rs:11-42 | one item a gives exactly the pair (a, a) |
| MoreItertools.CircularPairIter.constructor | src/more_itertools.rs:5-14 | the new iterator has exactly the circular pairs of the items still to yield |
| MoreItertools.CircularPairIter.Next | src/more_itertools.rs:32-45 | yields the next pending pair; once drained it yields None and stays exhausted |
| MoreItertools.CollectCircularPairs | src/more_itertools.rs:5-45 | draining the iterator gives exactly the circular pairs |
| Polygon.New | src/geometry/polygon.rs:11-13 | the polygon holds the given vertices in iteration order |
| Polygon.From | src/geometry/polygon.rs:15-38 | the vector is stored unchanged and `vertices` returns it |
| Polygon.Edges | src/geometry/polygon.rs:23-25 | as many edges as vertices |
| Polygon.EdgesAt | src/geometry/polygon.rs:23-25 | edge i runs from vertex i to vertex i+1; the last edge closes back to the first vertex |
| Polygon.ToPolygon | src/geometry/polygon.rs:29-32 | the vertex count and order are kept |
| Orthopolygon.New | src/geometry/orthopolygon.rs:29-31 | the even vertices are kept in iteration order |
| Orthopolygon.From | src/geometry/orthopolygon.rs:35-37 | the vector of even vertices is stored unchanged |
| Orthopolygon.Vertices | src/geometry/orthopolygon.rs:90-95 | n even vertices give 2n vertices |
| Orthopolygon.VerticesAt | src/geometry/orthopolygon.rs:90-95 | vertex 2i is even vertex i; vertex 2i+1 takes its y from even vertex i and its x from the next even vertex |
| Orthopolygon.EdgesAxisParallel | src/geometry/orthopolygon.rs:14-16 | in the expanded list every even edge is horizontal and every odd edge vertical |
| Orthopolygon.ToOrthopolygon | src/geometry/orthopolygon.rs:54-59 | the even-vertex count and order are kept |
| Orthopolygon.EvenVerticesKept | src/geometry/orthopolygon.rs:90-95 | the even positions of the expanded list are the even vertices |
| Orthopolygon.ToPolygon | src/geometry/polygon.rs:29-32 | the polygon has 2n vertices whose even positions are the even vertices |
| Orthopolygon.EqualityIsListEquality | src/geometry/orthopolygon.rs:18-22 | two orthopolygons are equal exactly when their even-vertex lists are equal |
| Orthopolygon.RotatedSquareDiffers | src/geometry/orthopolygon.rs:19-21 | the same square started from another vertex is a different orthopolygon |
| Orthopolygon.GetPointPosition | src/geometry/orthopolygon.rs:61-81 | the loop's answer is the scan of the circular edge pairs from zero crossings |
| Orthopolygon.ScanNoHit | src/geometry/orthopolygon.rs:67-80 | with no vertex or edge hit, the point is Inside exactly when an odd number of edges cross the upward ray |
| Orthopolygon.ScanFirstHit | src/geometry/orthopolygon.rs:72-78 | the first edge that hits the point decides: Vertex if it hits a vertex, otherwise Edge |
| Orthopolygon.EmptyIsOutside | src/geometry/orthopolygon.rs:80 | every point is Outside an empty orthopolygon |
| Text.DigitChar | src/silly_svg.rs:83-90 | digit d is written as the character d places after '0' |
| Text.NatToString | src/silly_svg.rs:83-90 | the decimal text of a number is never empty |
| Text.NatToStringDigits | src/silly_svg.rs:83-90 | the text is all digits, and its first digit is '0' only for zero (no leading zeros) |
| Text.IntToString | src/silly_svg.rs:83-95 | the decimal text of a signed coordinate difference is never empty |
| Text.NatRoundTrip | src/silly_svg.rs:83-90 | reading the decimal text back gives the number |
| Text.IntRoundTrip | src/silly_svg.rs:83-95 | the text is an optional minus sign then digits, and reading it back gives the number |
| Text.IntToStringChars | src/silly_svg.rs:83-95 | the text holds only digits and '-' |
| Text.IntToStringInjective | src/silly_svg.rs:83-95 | two numbers have the same text exactly when they are equal |
| Seqs.Map | src/silly_svg.rs:99 | one result per item, each the function applied to the item at the same position |
| SillySvg.Texts | src/silly_svg.rs:99 | one text per path node |
| SillySvg.EvenVerticesOf | src/silly_svg.rs:76-78 | contour k's entry is its even-vertex list |
| SillySvg.Steps | src/silly_svg.rs:84-86 | a contour of n even vertices has n-1 `h{dx}v{dy}` steps after its lead node |
| SillySvg.GetPath | src/silly_svg.rs:68-102 | the path element is the `<path>` text of the nodes of all contours, with the `id` attribute when an id is given |
| SillySvg.PathData | src/silly_svg.rs:73-97 | the node texts the loops push are exactly the texts of the path nodes: an absolute `M` for the first vertex of all, a relative `m` to each later contour's start, an `h..v..` per later vertex and an `h..z` closing each contour |
| SillySvg.ContourVertices | src/silly_svg.rs:76-93 | the inner loop appends the lead node and the steps of one contour, and returns its first and last even vertex |
| SillySvg.StepLands | src/silly_svg.rs:80-88 | an `h` by dx passes through the odd vertex, and the `v` that follows lands on the next even vertex |
| SillySvg.ShiftAll | src/silly_svg.rs:88 | every point is moved by the location, in order |
| SillySvg.StepsTrace | src/silly_svg.rs:78-93 | the steps of a contour, followed by a pen, visit every odd vertex and even vertex after the first, shifted by the location |
| SillySvg.ContourTrace | src/silly_svg.rs:76-96 | one contour's nodes trace its full outline closed at its start, and leave the pen at that start |
| SillySvg.OutlineShape | src/silly_svg.rs:76-96 | a traced outline is the shifted start, the zigzag through the later vertices, the closing corner and the start again |
| SillySvg.OutlineEvenAt | src/geometry/orthopolygon.rs:90-95 | even vertex i of the expanded polygon is where the zigzag's step i-1 lands |
| SillySvg.OutlineOddAt | src/geometry/orthopolygon.rs:90-95 | odd vertex i of the expanded polygon is the corner the zigzag's `h` of step i reaches |
| SillySvg.ShiftedVertices | src/geometry/orthopolygon.rs:90-95 | shifted expanded vertex 2i is even vertex i and vertex 2i+1 is the odd vertex after it |
| SillySvg.PathTrace | src/silly_svg.rs:68-102 | the path data, followed by a pen from the origin, traces exactly the outlines of all contours (each full vertex list shifted by the location and closed at its start), ending at the last contour's start |
| SillySvg.ConcatPathChars | src/silly_svg.rs:83-99 | path data never holds a double quote or an `=`, so it cannot fake an attribute |
| SillySvg.PathElementId | src/silly_svg.rs:100-101 | the path element has an `id` attribute exactly when an id is given |
| SillySvg.IdAttributeIffSome | src/silly_svg.rs:68-102 | `get_path` writes an `id` attribute exactly when it is given an object id |
| SillySvg.PathTextNonEmpty | src/silly_svg.rs:101 | a path element is never empty text |
| SillySvg.Definitions | src/silly_svg.rs:32-49 | one definition path per listed glyph id |
| SillySvg.DefinitionPaths | src/silly_svg.rs:32-49 | each listed glyph gives its path, with its id and at the origin, and none is empty |
| SillySvg.EnumeratesEmpty | src/silly_svg.rs:35-57 | the list of ids is empty exactly when the dictionary is |
| SillySvg.GetSharedContents | src/silly_svg.rs:31-44 | a shared document exists exactly when the book dictionary holds a glyph, and it is the `defs` block of all book-shared definitions joined by line breaks |
| SillySvg.PageLines | src/silly_svg.rs:50-55 | one line per glyph entry of the page |
| SillySvg.GetPageContents | src/silly_svg.rs:46-66 | the page document has the page size, a `defs` block exactly when the page dictionary holds a glyph, and one line per glyph entry |
| SillySvg.PageLineKinds | src/silly_svg.rs:50-55 | for a book made by `Book::new`, a glyph seen once in the book is drawn inline at its location, one repeated on this page only is a red `use` of its page-local id, and one on several pages is a blue `use` of `_.svg` |
| Glyph.BoundsAttained | src/glyph.rs:23-33 | every vertex lies within the bounds, and each bound is attained by some vertex |
| Glyph.Translate | src/glyph.rs:43-44 | every vertex is moved by the same offset, in order |
| Glyph.TranslateAll | src/glyph.rs:40-47 | each contour becomes an orthopolygon of its moved vertices, in order |
| Glyph.MinTranslate | src/glyph.rs:43-44 | moving the vertices moves the least x and y by the offset |
| Glyph.FromContour | src/glyph.rs:22-50 | the location is the least x and y of the outer contour, the size is the bounding box plus one in each direction, and the contours are the outer one then the children, all moved to the origin |
| Glyph.ContoursPartition | src/glyph.rs:57-70 | the contours are the outer contour followed by the holes |
| Glyph.FromContourShape | src/glyph.rs:6-50 | the glyph's outer contour has its bounding box's upper-left corner at (0, 0) and every vertex inside its size; there is one hole per child, each moved by the same offset |
| Glyph.TranslateWithin | src/glyph.rs:6-44 | after the move every vertex lies between (0, 0) and the size less one |
| Glyph.GlyphEquality | src/glyph.rs:9-10 | two glyphs are equal exactly when their sizes and contour lists are equal, wherever they were found |
| Book.PageOccurrences | src/book.rs:101-109 | one occurrence per glyph found on the page, in order, each on that page |
| Book.AppendOccurrence | src/book.rs:102-109 | one more occurrence adds one to its glyph's count and its page to its glyph's pages, and appends the glyph to the first-appearance order only when it is new |
| Book.AddTracksOccurrences | src/book.rs:161-166 | `GlypDistribution::add` keeps a distribution equal to the count and page set of the occurrences so far |
| Book.FirstAppearanceMembers | src/book.rs:103-126 | the glyph list holds exactly the glyphs that occur, each once |
| Book.CountBoundsPages | src/book.rs:153-165 | a glyph is on no more pages than it has occurrences, and it has occurrences exactly when it is on some page |
| Book.OccurrenceInPages | src/book.rs:103-110 | the page of each occurrence is among its glyph's pages |
| Book.PagesOfBound | src/book.rs:97-108 | every page a glyph is on is a page of the book |
| Book.OccurrenceOfEntry | src/book.rs:96-110 | every glyph found on a page is an occurrence on that page |
| Book.Distributions | src/book.rs:114 | the distribution of glyph i is its occurrence count and its page set |
| Book.IndexGlyph | src/book.rs:102-109 | a known glyph keeps its index and a new one gets the next index with an empty distribution; either way its distribution then counts this occurrence, and the index names the glyph |
| Book.IndexPage | src/book.rs:97-111 | one entry per glyph of the page, in order, at the glyph's location and naming the glyph's index; the indices only grow |
| Book.IndexPages | src/book.rs:96-112 | after the first loop the index order is first appearance, each distribution counts its glyph's occurrences and pages, and every page lists its entries |
| Book.FileGlyph | src/book.rs:114-121 | a glyph on more than one page goes into the book dictionary, one on a single page more than once goes into that page's dictionary, and one seen once goes nowhere |
| Book.FillDictionaries | src/book.rs:114-121 | the second loop leaves the book dictionary and every page dictionary equal to those the distributions define |
| Book.BookNew | src/book.rs:90-129 | `Book::new` describes its input: the glyphs are the distinct glyphs in order of first appearance, each page keeps its size and entries in order, each entry names the index of its glyph, and the dictionaries hold exactly the shared glyphs with their counts |
| Book.GlyphEntries | src/book.rs:64-76 | one entry per page entry, with its location, id and glyph, BookShared when the id is in the book dictionary, else PageShared when it is in the page dictionary, else Unique |
| Book.EntryKinds | src/book.rs:114-121 | for a book made by `Book::new`, an entry is BookShared exactly when its glyph is on several pages, PageShared exactly when it is on this page only and more than once, and Unique exactly when it occurs once |
| Book.BookSharedGlyphs | src/book.rs:136-140 | the book's shared glyphs are exactly its dictionary entries with their glyph and count |
| Book.PageSharedGlyphs | src/book.rs:56-61 | a page's shared glyphs are exactly its dictionary entries with their glyph and count |
| Book.DescribedBookShape | src/book.rs:82-87 | the glyph list has no duplicates and holds every glyph found, a glyph is never in both the book and a page dictionary, and every dictionary key is a valid glyph index |
| Rasterization.RecordOf | src/geometry/rasterization.rs:19 | the record lies at v.x and spans from the lower to the higher of the two y values |
| Rasterization.PolygonRecords | src/geometry/rasterization.rs:18-19 | one record per even vertex of the polygon |
| Rasterization.RecordIsOddEdge | src/geometry/rasterization.rs:18-19 | record i is exactly the vertical (odd) edge 2i+1 of the expanded polygon, lower end first |
| Rasterization.RecordsFromVertices | src/geometry/rasterization.rs:17-19 | every record comes from a pair of even vertices of one of the polygons |
| Rasterization.InsertRecord | src/geometry/rasterization.rs:20 | inserting into a sorted list keeps it sorted and adds exactly the new record |
| Rasterization.SortRecords | src/geometry/rasterization.rs:20-21 | the records are sorted lexicographically and form a permutation of the input |
| Rasterization.InsertEntry | src/geometry/rasterization.rs:34 | inserting into the ordered set keeps it strictly increasing and adds exactly the new entry |
| Rasterization.CountLe | src/geometry/rasterization.rs:42-53 | the count is at most the number of x values |
| Rasterization.SpanStep | src/geometry/rasterization.rs:44-48 | adding an x value after the last extends the filled spans exactly by the span it closes |
| Rasterization.InSpanEven | src/geometry/rasterization.rs:42-53 | for an even list, x is in a filled span exactly when an odd number of values lie at or left of it |
| Rasterization.LeftOf | src/geometry/rasterization.rs:42-53 | the entries at or left of x, and nothing else |
| Rasterization.LeftOfCount | src/geometry/rasterization.rs:42-53 | in a sorted list, the entries at or left of x are as many as the x values at or left of x |
| Rasterization.CardinalityOfSorted | src/geometry/rasterization.rs:25 | a strictly increasing list holds as many distinct entries as it has elements |
| Rasterization.CountLeIsCardinality | src/geometry/rasterization.rs:9-53 | the entries of the set at or left of x are counted by the sorted list |
| Rasterization.NoActiveNotFilled | src/geometry/rasterization.rs:26 | with no edges, nothing is filled (the early return) |
| Rasterization.SortKeepsActiveSet | src/geometry/rasterization.rs:20 | sorting the records does not change which edges are active on any line |
| Rasterization.DrawHorizontalLine | src/geometry/rasterization.rs:58-67 | exactly the pixels x0 <= x < x1 of row y are redrawn, each once, and no other pixel changes |
| Rasterization.KeepMembers | src/geometry/rasterization.rs:42-53 | `retain` keeps exactly the entries whose edge reaches below this line |
| Rasterization.RetainKept | src/geometry/rasterization.rs:43-49 | a kept entry flips the parity, becomes prev_x, and draws the span from prev_x when the parity was odd |
| Rasterization.RetainEntry | src/geometry/rasterization.rs:42-53 | one step of `retain` keeps the sorted prefix it has kept, its parity and its last x, and fills only spans between kept entries |
| Rasterization.RetainLine | src/geometry/rasterization.rs:41-53 | `retain` keeps exactly the entries that go on below y, in order, and fills exactly the odd spans between their x values on row y |
| Rasterization.ScanRecords | src/geometry/rasterization.rs:23-55 | for sorted records inside the canvas with an even number of active edges on every line, the loop redraws exactly the pixels the even-odd rule places inside, once each |
| Rasterization.AllEndedNotFilled | src/geometry/rasterization.rs:28 | once every record is inserted and none stays active, no later line is filled, so the loop may stop |
| Rasterization.InsertStartingEdges | src/geometry/rasterization.rs:31-39 | the inner loop moves into the active set exactly the records that start on line y, in order |
| Rasterization.LineFilled | src/geometry/rasterization.rs:9-53 | when the kept entries are exactly the active set of line y, their spans are exactly the even-odd filled pixels of that line, and there is an even number of them |
| Rasterization.ActiveLine | src/geometry/rasterization.rs:31-54 | after insertion and `retain`, the kept entries are exactly the edges active on line y, and exactly those still open on line y+1 |
| Rasterization.MaxY1Bound | src/geometry/rasterization.rs:28 | no record ends below the bottom-most end, which bounds the loop |
| Rasterization.DrawOrthopolygons | src/geometry/rasterization.rs:7-56 | every pixel inside the polygons by the even-odd rule of their vertical edges is redrawn once by `draw_pixel`, and every other pixel is unchanged |
| RowChanges.TailBounds | src/image_contour_collection/row_changes.rs:25-41 | the changes from x on increase strictly and lie between x and x plus the pixels left |
| RowChanges.TailAt | src/image_contour_collection/row_changes.rs:27-40 | position p is listed exactly when the value before it differs from the value at it |
| RowChanges.TailParity | src/image_contour_collection/row_changes.rs:27-40 | the number of changes is odd exactly when the current value differs from the edge value |
| RowChanges.ChangesShape | src/image_contour_collection/row_changes.rs:17-41 | a row's changes increase strictly, lie between 0 and the width, and are even in number |
| RowChanges.ChangesAt | src/image_contour_collection/row_changes.rs:17-40 | p is a change exactly when the value left of p (the edge value at 0) differs from the value at p (the edge value past the row) |
| RowChanges.ChangesExamples | src/image_contour_collection/row_changes.rs:67-76 | the changes of the rows in the source's own test cases |
| RowChanges.RowChangeIter.Empty | src/image_contour_collection/row_changes.rs:13-65 | an empty iterator yields END and nothing more |
| RowChanges.RowChangeIter.From | src/image_contour_collection/row_changes.rs:17-19 | a row iterator yields the row's changes then END |
| RowChanges.RowChangeIter.Next | src/image_contour_collection/row_changes.rs:25-48 | `next` yields the head of what is pending; once END is yielded it yields None |
| RowChanges.RowChangeIter.NextInRow | src/image_contour_collection/row_changes.rs:26-40 | reading the row yields the next change, or drops the row with nothing consumed |
| RowChanges.RowChangeIter.NextAfterRow | src/image_contour_collection/row_changes.rs:42-47 | after the row, END is yielded once and then None |
| RowChanges.ReadUntilChange | src/image_contour_collection/row_changes.rs:27-36 | the pixel loop stops at the first change, which is the head of the changes still to come, or reads the whole row |
| RowChanges.DrainStep | src/image_contour_collection/row_changes.rs:22-48 | collecting one more yielded item keeps the collected items plus the pending ones unchanged |
| RowChanges.CollectRowChanges | src/image_contour_collection/row_changes.rs:17-48 | draining a row iterator gives exactly the row's changes followed by END |
| RowChanges.CollectEmpty | src/image_contour_collection/row_changes.rs:13-47 | draining the empty iterator gives exactly [END] |
| LegacyRowChanges.Binarize | src/image_contours/row_changes.rs:25 | one value per pixel |
| LegacyRowChanges.BinarizeAt | src/image_contours/row_changes.rs:25 | a pixel is foreground exactly when it is at least 128 |
| LegacyRowChanges.LegacyChangesAt | src/image_contours/row_changes.rs:13-43 | p is a change exactly when the thresholded value left of p (background at 0) differs from the value at p (background past the row) |
| LegacyRowChanges.LegacyChangesShape | src/image_contours/row_changes.rs:21-43 | the changes increase strictly, lie between 0 and the width, and are even in number |
| LegacyRowChanges.RowChanges.From | src/image_contours/row_changes.rs:13-15 | the iterator yields the thresholded row's changes then END |
| LegacyRowChanges.RowChanges.Next | src/image_contours/row_changes.rs:21-43 | `next` yields the head of what is pending; once END is yielded it yields None |
| LegacyRowChanges.RowChanges.NextInRow | src/image_contours/row_changes.rs:22-37 | reading the row yields the next change, or ends the row with nothing consumed |
| LegacyRowChanges.ReadPixelsUntilChange | src/image_contours/row_changes.rs:23-32 | the pixel loop stops at the first change of the thresholded row, or reads the whole row |
| LegacyRowChanges.CollectLegacyRowChanges | src/image_contours/row_changes.rs:13-43 | draining the iterator gives exactly the thresholded row's changes followed by END |
| LegacyRowChanges.EmptyChanges | src/image_contours/run_changes.rs:26-28 | the change list of the missing row above the first and below the last is [END] |
| RowPairChanges.ChangeListSuffix | src/image_contour_collection/row_pair_changes.rs:34-51 | what is left of a change list after the merge took its head is again a change list |
| RowPairChanges.HeadBelowRest | src/image_contour_collection/row_pair_changes.rs:38-47 | in an increasing list the head is below every later change |
| RowPairChanges.EndOnlyLast | src/image_contour_collection/row_pair_changes.rs:44-49 | in a row's change list only the last value is END, so END alone means the row is done |
| RowPairChanges.RowChangeListRest | src/image_contour_collection/row_pair_changes.rs:38-47 | taking a head other than END leaves a row's change list |
| RowPairChanges.MergeBounds | src/image_contour_collection/row_pair_changes.rs:34-51 | every merged change lies between the smaller head and END, and END itself is never yielded |
| RowPairChanges.MergeIncreasing | src/image_contour_collection/row_pair_changes.rs:14-15 | the merged changes go strictly from left to right |
| RowPairChanges.HeadAhead | src/image_contour_collection/row_pair_changes.rs:14-15 | a change left of both heads may go in front of the merge of the rest |
| RowPairChanges.MergeMembers | src/image_contour_collection/row_pair_changes.rs:34-51 | a change is merged exactly when its x is a change of the top row, the bottom row or both (other than END), with Top, Bottom or Both saying which |
| RowPairChanges.MemberTakeTop | src/image_contour_collection/row_pair_changes.rs:38-40 | when the top head is smaller, the merge starts with Top at it and goes on with the rest of the top row |
| RowPairChanges.MemberTakeBottom | src/image_contour_collection/row_pair_changes.rs:41-43 | when the bottom head is smaller, the merge starts with Bottom at it and goes on with the rest of the bottom row |
| RowPairChanges.MemberTakeBoth | src/image_contour_collection/row_pair_changes.rs:44-47 | equal heads other than END give Both and both rows move on |
| RowPairChanges.MergeSmallExamples | src/image_contour_collection/row_pair_changes.rs:62-65 | the merges of the four small test cases |
| RowPairChanges.MergeExample | src/image_contour_collection/row_pair_changes.rs:66-77 | the merge of the long test case |
| RowPairChanges.MergeExampleTail | src/image_contour_collection/row_pair_changes.rs:66-77 | the last three merged changes of the long test case |
| RowPairChanges.RowPairChangeIter.constructor | src/image_contour_collection/row_pair_changes.rs:26-28 | a new iterator starts both lists at their heads and has their merge to yield |
| RowPairChanges.RowPairChangeIter.Next | src/image_contour_collection/row_pair_changes.rs:34-51 | `next` yields the head of the merge and advances the row or rows it came from; it yields None exactly when both lists are at END, and then moves nothing |
| RowPairChanges.CollectRowPairChanges | src/image_contours/run_changes.rs:22-51 | draining the iterator gives exactly the merge; the older `RunChanges` has the same `new` and `next`, with the kinds Top, Both and Bottom |
| FeatureAutomaton.TransitionStaysInStates | src/image_contour_collection/feature_automaton.rs:96-119 | every table entry leads to one of the six states |
| FeatureAutomaton.HeadOnly | src/image_contour_collection/feature_automaton.rs:96-119 | a Head is emitted exactly on a Bottom in states 2 or 5, or a Both in state 5 |
| FeatureAutomaton.VerticalOnly | src/image_contour_collection/feature_automaton.rs:112-119 | a Vertical is emitted exactly on a Both in states 0 or 3 |
| FeatureAutomaton.TransitionFlipsValues | src/image_contour_collection/feature_automaton.rs:77-94 | each transition flips the pixel value of the row or rows the change is in and keeps the other; state 0 is the one with background in both rows |
| FeatureAutomaton.QueueBalance | src/image_contour_collection/contour_collection_builder.rs:47-106 | the queue holds the top changes still to read plus the bottom changes read plus a potential of the state; every transition keeps that balance, and the queue holds what the emitted feature takes from it |
| FeatureAutomaton.TransitionEndParity | src/image_contour_collection/feature_automaton.rs:96-119 | every table entry finds the open ends it takes facing the way its feature links them: a LeftShelf or OuterFoot finds an incoming front end, a RightShelf or InnerFoot an outgoing one, and a Vertical comes only where both rows hold the same value; the new state's parity is the old one moved on by the ends taken |
| FeatureAutomaton.FeatureAutomaton.constructor | src/image_contour_collection/feature_automaton.rs:59-61 | the automaton starts in state 0 with feature x 0 |
| FeatureAutomaton.FeatureAutomaton.Step | src/image_contour_collection/feature_automaton.rs:63-74 | the state and the kind come from the table of the change kind, x is updated exactly when the table says so, and the feature carries the stored x |
| StateMachine.TablesAgree | src/image_contours/state_machine.rs:28-51 | the older tables are the newer ones, with Greater for Top, Less for Bottom and Equal for Both |
| StateMachine.StateMachine.constructor | src/image_contours/state_machine.rs:10-12 | the machine starts in state 0 with x 0 |
| StateMachine.StateMachine.Step | src/image_contours/state_machine.rs:14-25 | the state and the feature come from the table of the ordering, x is updated exactly when the table says so, and the stored x is returned |
| PointList.UnaliasOf | src/image_contour_collection/point_list_builder.rs:92-98 | following Alias links from i ends at an item no higher than i that is not an alias |
| PointList.UnaliasResult | src/image_contour_collection/point_list_builder.rs:92-98 | unaliasing twice is unaliasing once, and an item that is not an alias is its own result |
| PointList.UnaliasSameAliases | src/image_contour_collection/point_list_builder.rs:92-98 | unaliasing depends only on the Alias links, so changing other relations keeps it |
| PointList.CombineMerges | src/image_contour_collection/point_list_builder.rs:72-84 | making contour hi an alias of the lower contour lo keeps every alias link pointing down, and every item that unaliased to hi now unaliases to lo; all others keep their contour |
| PointList.UnaliasHead | src/image_contour_collection/point_list_builder.rs:59-70 | while tracing, a head unaliases to a Parent head and the root to itself |
| PointList.UnaliasTraced | src/image_contour_collection/point_list_builder.rs:59-66 | the contour a head unaliases to is the root or holds a Parent, so `cross_contour` does not reach its panic |
| PointList.LastChildBelow | src/image_contour_collection/point_list_builder.rs:100-111 | the result is a head below k whose parent contour is q |
| PointList.HeadWithNextBelow | src/image_contour_collection/point_list_builder.rs:104-107 | the result is a Parent head below k whose next point is j |
| PointList.ParentContour | src/image_contour_collection/point_list_builder.rs:100-111 | a contour's parent has a lower index and is the root or a Parent head |
| PointList.NoChildren | src/image_contour_collection/point_list_builder.rs:102-108 | an item that is not a Parent head is never given a Child |
| PointList.NotANext | src/image_contour_collection/point_list_builder.rs:104-107 | the root and heads are never the next point of a head, so they are never given a Sibling |
| PointList.ArrangedUntouched | src/image_contour_collection/point_list_builder.rs:100-111 | before the pass reaches head k, k keeps its Parent |
| PointList.ArrangedKeepsAliases | src/image_contour_collection/point_list_builder.rs:100-111 | the pass changes no Alias and makes none |
| PointList.ArrangedUnalias | src/image_contour_collection/point_list_builder.rs:103 | part way through the pass, every item still unaliases as before it |
| PointList.ArrangedHeadRelation | src/image_contour_collection/point_list_builder.rs:102 | when the pass reaches head k, k still holds its Parent |
| PointList.ArrangeSkipAll | src/image_contour_collection/point_list_builder.rs:101-102 | an item that holds no Parent is passed over |
| PointList.ArrangeAtParent | src/image_contour_collection/point_list_builder.rs:103-108 | turning head k round makes its parent contour hold Child(k) |
| PointList.ArrangeAtNext | src/image_contour_collection/point_list_builder.rs:104-107 | the point after head k gets Sibling of the previous child when the parent already had one, and keeps its relation otherwise |
| PointList.ArrangeTurn | src/image_contour_collection/point_list_builder.rs:101-110 | one step of the pass turns head k round and leaves exactly the list arranged up to k+1 |
| PointList.SideBySideTraced | src/image_contour_collection/point_list_builder.rs:34-57 | two contours side by side in the root are a traced list |
| PointList.SideBySideArranged | src/image_contour_collection/point_list_builder.rs:100-111 | arranged, the root holds Child of the second contour, whose next point holds Sibling of the first |
| PointList.PointListBuilder.constructor | src/image_contour_collection/point_list_builder.rs:29-32 | the list starts as the root item holding the width and height; the current contour is the root |
| PointList.PointListBuilder.AddWithNewContour | src/image_contour_collection/point_list_builder.rs:34-38 | appends a head whose Parent is the current contour, and returns its index |
| PointList.PointListBuilder.AddWithNext | src/image_contour_collection/point_list_builder.rs:40-44 | appends a point linked to `next`, and returns its index |
| PointList.PointListBuilder.AddWithPrevious | src/image_contour_collection/point_list_builder.rs:46-51 | appends a point and links `previous` to it; nothing else changes |
| PointList.PointListBuilder.AddWithNextAndPrevious | src/image_contour_collection/point_list_builder.rs:53-57 | appends a point linked to `next` and links `previous` to it; nothing else changes |
| PointList.PointListBuilder.Unalias | src/image_contour_collection/point_list_builder.rs:92-98 | the loop returns the end of the alias chain |
| PointList.PointListBuilder.CrossContour | src/image_contour_collection/point_list_builder.rs:59-70 | crossing the current contour leaves for its unaliased parent, crossing another enters it; the list is unchanged, and the panic is excluded by the precondition |
| PointList.PointListBuilder.CombineContours | src/image_contour_collection/point_list_builder.rs:72-84 | nothing changes when both heads are one contour; otherwise the higher contour becomes an alias of the lower one, a current contour that was absorbed becomes the survivor, and every item of the absorbed contour belongs to the survivor |
| PointList.PointListBuilder.ParentsToChildren | src/image_contour_collection/point_list_builder.rs:100-111 | the pass keeps every point and next link, and turns a traced list's Parent links into first-child and sibling links: each contour holds Child of its last child, and the point after each head holds Sibling of the previous child |
| PointList.PointListBuilder.ArrangeHead | src/image_contour_collection/point_list_builder.rs:102-109 | one iteration of the pass arranges one more head |
| PointList.PointListBuilder.Into | src/image_contour_collection/point_list_builder.rs:86-90 | hands over the arranged list: the same points and next links, with child and sibling links for a traced list |
| HierarchyBuilding.UnaliasOf | src/image_contour_collection/hierarchy_builder.rs:102-111 | NONE unaliases to NONE; any other contour to a contour no higher than it that holds a Parent |
| HierarchyBuilding.CombineMerges | src/image_contour_collection/hierarchy_builder.rs:52-75 | making contour hi an alias of the lower contour lo keeps every link pointing down, and every contour that unaliased to hi now unaliases to lo |
| HierarchyBuilding.UnaliasSameRelations | src/image_contour_collection/hierarchy_builder.rs:102-111 | unaliasing depends only on the relations, not on the head points `into` renumbers |
| HierarchyBuilding.ItemCount | src/image_contour_collection/hierarchy_builder.rs:83-98 | no more hierarchy items than heads |
| HierarchyBuilding.ItemCountGrows | src/image_contour_collection/hierarchy_builder.rs:85-87 | an unmerged head gets an item number above every earlier one |
| HierarchyBuilding.LastChildIsChild | src/image_contour_collection/hierarchy_builder.rs:93-96 | the last child below k is a child of m, and no later item below k is; when there is none, no item below k has parent m |
| HierarchyBuilding.LastChildSameParents | src/image_contour_collection/hierarchy_builder.rs:93-96 | the last child depends only on the parent fields |
| HierarchyBuilding.Pushed | src/image_contour_collection/hierarchy_builder.rs:93-96 | one more item |
| HierarchyBuilding.PushedKeeps | src/image_contour_collection/hierarchy_builder.rs:93-96 | the new item has the head point, the parent and the parent's old first child as its next sibling; the parent's first child becomes the new item; nothing else changes |
| HierarchyBuilding.PushedFirstChild | src/image_contour_collection/hierarchy_builder.rs:93-96 | after a push every item's first child is still its last child |
| HierarchyBuilding.PushedNextSibling | src/image_contour_collection/hierarchy_builder.rs:93-96 | after a push every item's next sibling is still the child of the same parent just before it |
| HierarchyBuilding.PushChild | src/image_contour_collection/hierarchy_builder.rs:93-96 | a push keeps the hierarchy a tree |
| HierarchyBuilding.PlacedStart | src/image_contour_collection/hierarchy_builder.rs:80-81 | the root alone is the state before the loop of `into` |
| HierarchyBuilding.PlacedDone | src/image_contour_collection/hierarchy_builder.rs:83-99 | after the loop, the hierarchy is the tree of the unmerged heads |
| HierarchyBuilding.PlacedItem | src/image_contour_collection/hierarchy_builder.rs:86-87 | a placed head holds its item number |
| HierarchyBuilding.PlacedParent | src/image_contour_collection/hierarchy_builder.rs:89-92 | the parent of the head being placed is already an item (the root for NONE) |
| HierarchyBuilding.PlaceStep | src/image_contour_collection/hierarchy_builder.rs:85-97 | placing an unmerged head renumbers it and pushes its item under its parent's item, keeping the loop's state |
| HierarchyBuilding.PlaceSkip | src/image_contour_collection/hierarchy_builder.rs:85 | an alias head is passed over |
| HierarchyBuilding.HierarchyBuilder.constructor | src/image_contour_collection/hierarchy_builder.rs:29-31 | no heads yet, and the scan is outside every contour (NONE) |
| HierarchyBuilding.HierarchyBuilder.AddContour | src/image_contour_collection/hierarchy_builder.rs:33-37 | appends a head whose Parent is the current contour, and returns its contour number |
| HierarchyBuilding.HierarchyBuilder.Unalias | src/image_contour_collection/hierarchy_builder.rs:102-111 | returns NONE for NONE and the end of the alias chain otherwise |
| HierarchyBuilding.HierarchyBuilder.CrossContour | src/image_contour_collection/hierarchy_builder.rs:39-50 | crossing the current contour leaves for its unaliased parent, crossing another enters it; the heads are unchanged |
| HierarchyBuilding.HierarchyBuilder.CombineContours | src/image_contour_collection/hierarchy_builder.rs:52-75 | nothing changes when both are one contour; otherwise the higher becomes an alias of the lower, and a current contour that was absorbed becomes the survivor, or the survivor's parent when the absorbed contour was inside the survivor |
| HierarchyBuilding.HierarchyBuilder.Into | src/image_contour_collection/hierarchy_builder.rs:77-100 | the result is a tree: the root, then one item per unmerged head in head order with its head point and its parent contour's item, each item's first child its last child and each next sibling the previous child of the same parent |
| HierarchyBuilding.HierarchyBuilder.PlaceHead | src/image_contour_collection/hierarchy_builder.rs:84-97 | one iteration of the loop of `into` keeps its state |
| HierarchyBuilding.OnePixelHierarchy | src/image_contour_collection/tests.rs:10-14 | for the one-pixel test there is exactly one hierarchy: the root with first child 1, and the contour's item with head point 0, parent 0, and no sibling or child |
| Contours.Follow | src/image_contour_collection/contours.rs:32-42 | following `next` links any number of times from an item stays inside the point list |
| Contours.FollowAdd | src/image_contour_collection/contours.rs:32-42 | following a+b links is following a links and then b more |
| Contours.CyclePoints | src/image_contour_collection/contours.rs:32-42 | the walk of n steps along a contour yields exactly n points |
| Contours.CyclePointsAt | src/image_contour_collection/contours.rs:32-42 | the k-th point of the walk is the coordinates of the item reached after k links |
| Contours.CycleDistinct | src/image_contour_collection/contours.rs:35-39 | on a contour that first returns to its start after n links, the first n items visited are pairwise distinct, so the iterator never repeats a point |
| Contours.EvenPointIter.constructor | src/image_contour_collection/contours.rs:17-20 | a fresh iterator has the whole cycle from the head point still to yield |
| Contours.EvenPointIter.Next | src/image_contour_collection/contours.rs:32-42 | yields the next point of the cycle and drops it from what is pending; yields None once the walk has come back to the start, and keeps doing so |
| Contours.CollectCycle | src/image_contour_collection/contours.rs:32-42 | draining the iterator yields exactly the points of the cycle from the start, in link order |
| Contours.EvenPoints | src/image_contour_collection/contours.rs:17-20 | a contour's even points are the cycle that starts at its hierarchy item's head point |
| Contours.ChildrenBelowAre | src/image_contour_collection/contours.rs:63-69 | the child list below k holds an index exactly when it is an item below k whose parent is m, in strictly decreasing index order |
| Contours.ChildContourIter.constructor | src/image_contour_collection/contours.rs:53-57 | starts at the parent's first child, with the hole flag the opposite of the parent's, and has every child of the parent still to yield |
| Contours.ChildContourIter.Next | src/image_contour_collection/contours.rs:63-69 | yields the next child as a contour with the iterator's hole flag and drops it from what is pending; None after the last child |
| Contours.CollectChildren | src/image_contour_collection/contours.rs:53-69 | draining the iterator yields one contour per child of the parent, highest index first, all flagged the opposite of the parent |
| Contours.Depth | src/image_contour_collection/contours.rs:103-105 | a descendant is at least one parent link below the root |
| Contours.Branch | src/image_contour_collection/contours.rs:99-110 | every descendant lies in the subtree of one child of the root, with an index no higher than its own |
| Contours.BelowAbove | src/image_contour_collection/contours.rs:103-104 | every descendant has a higher index than the root it lies below |
| Contours.FirstChildLink | src/image_contour_collection/contours.rs:95-97 | the stored first child of an item is its child with the highest index |
| Contours.SiblingLink | src/image_contour_collection/contours.rs:100-102 | the stored next sibling of an item is the highest-indexed child of the same parent below it |
| Contours.DescendFirst | src/image_contour_collection/contours.rs:95-97 | stepping to the first child, with the flag flipped, continues the preorder exactly |
| Contours.Leaf | src/image_contour_collection/contours.rs:98 | an item with no first child has no descendants |
| Contours.AscendSibling | src/image_contour_collection/contours.rs:100-102 | stepping to the next sibling, with the same flag, continues the preorder exactly |
| Contours.AscendParent | src/image_contour_collection/contours.rs:103-108 | with no next sibling, climbing to a parent below the root, with the flag flipped, continues the preorder; at a child of the root the preorder is over |
| Contours.BranchOf | src/image_contour_collection/contours.rs:99-110 | an item lies below a child c of m exactly when it is a descendant of m other than c whose branch is c, and its flag below m is its flag below c |
| Contours.BranchUnder | src/image_contour_collection/contours.rs:103-104 | the parent of any descendant of c is c itself or has a higher index than c |
| Contours.ForestUnfold | src/image_contour_collection/contours.rs:91-114 | the children below k are yielded from the highest down, each followed by its whole subtree |
| Contours.ForestHead | src/image_contour_collection/contours.rs:91-114 | every child of m below k is in that part of the preorder with the forest's flag |
| Contours.ForestBranch | src/image_contour_collection/contours.rs:91-114 | every descendant of a child c below k is in that part of the preorder, with the flag it has below c |
| Contours.ForestSplit | src/image_contour_collection/contours.rs:91-114 | an item in the forest below k is its last child c, a descendant of c, or in the forest below c |
| Contours.ForestMembers | src/image_contour_collection/contours.rs:91-114 | an (index, flag) pair is in the forest below k exactly when the index is a descendant in a branch below k and the flag is the one its depth gives |
| Contours.DescendantsMembers | src/image_contour_collection/contours.rs:91-114 | an (index, flag) pair is yielded for a root exactly when the index is a descendant of the root and the flag is the one its depth gives |
| Contours.FlagParity | src/image_contour_collection/contours.rs:97-105 | the hole flag of a descendant equals the root's flag exactly when its depth is even |
| Contours.NonHoles | src/image_contour_collection.rs:102-105 | keeps exactly the contours that are not holes |
| Contours.Climb | src/image_contour_collection/contours.rs:99-110 | the climbing loop stops at the item and flag from which the rest of the preorder goes on, or at None when the root's subtree is done |
| Contours.DescendantContourIter.constructor | src/image_contour_collection/contours.rs:81-85 | a fresh iterator has every descendant of the root still to yield, in preorder, children flagged the opposite of the root |
| Contours.DescendantContourIter.Next | src/image_contour_collection/contours.rs:91-114 | yields the next descendant in preorder with its flag and drops it from what is pending; None when the subtree is done |
| Contours.CollectDescendants | src/image_contour_collection/contours.rs:91-114 | draining the iterator yields one contour per descendant of the root, in preorder, each flagged by its depth |
| ImageContourCollection.TracingAppend | src/image_contour_collection/point_list_builder.rs:34-44 | appending a point linked inside the list, with no relation or the current contour as its parent, keeps the tracer's invariant |
| ImageContourCollection.TracingRelink | src/image_contour_collection/point_list_builder.rs:46-51 | pointing one item's next link at another item keeps the tracer's invariant |
| ImageContourCollection.TracingRelinkAppend | src/image_contour_collection/point_list_builder.rs:46-57 | linking an item to a newly appended point keeps the tracer's invariant and the root's image size |
| ImageContourCollection.TracingCross | src/image_contour_collection/point_list_builder.rs:59-70 | crossing the current contour always finds a recorded parent, so the source's panic cannot happen, and the scan stays inside the root or a parent contour |
| ImageContourCollection.TracingCombine | src/image_contour_collection/point_list_builder.rs:72-84 | combining two contours keeps the tracer's invariant and the root's image size |
| ImageContourCollection.OutgoingAppend | src/image_contour_collection.rs:47-48 | an end queued at the back adds its point to the outgoing points exactly when its position is outgoing |
| ImageContourCollection.OrientedTraced | src/image_contour_collection.rs:88-90 | with the queue empty, every Parent head is followed by a plain point that no other Parent head is followed by (`Traced`), which is what `into` needs |
| ImageContourCollection.OrientedRelabel | src/image_contour_collection/point_list_builder.rs:72-84 | changing relations while keeping the heads, the next points and the plain points keeps the orientation |
| ImageContourCollection.HeadNextsGrow | src/image_contour_collection/point_list_builder.rs:34-57 | appending a head whose next point is unset, or a plain point, while setting at most one older next point to the new point, keeps every head's next point a plain point shared with no other head |
| ImageContourCollection.OrientedHead | src/image_contour_collection.rs:45-49 | a Head's new head, whose next point is unset, is queued at an outgoing end |
| ImageContourCollection.OrientedVertical | src/image_contour_collection.rs:50-55 | moving the front end of an even queue to the back keeps every head whose next point is unset at an outgoing end, with the parity flipped |
| ImageContourCollection.OrientedLeftShelf | src/image_contour_collection.rs:56-62 | a LeftShelf at an incoming front end keeps the orientation, with the parity flipped |
| ImageContourCollection.OrientedRightShelf | src/image_contour_collection.rs:63-69 | a RightShelf at an outgoing front end gives that point a new plain next point and keeps the orientation, with the parity flipped |
| ImageContourCollection.OrientedJoin | src/image_contour_collection.rs:70-83 | a foot takes one outgoing and one incoming front end, gives the outgoing point a new plain next point, and keeps the orientation for the rest of the queue |
| ImageContourCollection.OrientedCombine | src/image_contour_collection/point_list_builder.rs:72-84 | combining two contours keeps the orientation |
| ImageContourCollection.StartContour | src/image_contour_collection.rs:45-49 | a Head appends a point inside the current contour and queues two open ends at it, naming it as the contour head |
| ImageContourCollection.PassVertical | src/image_contour_collection.rs:50-55 | a Vertical moves the front open end to the back and crosses its contour, adding no point |
| ImageContourCollection.AddLeftShelf | src/image_contour_collection.rs:56-62 | a LeftShelf appends a point followed by the front open end, crosses that contour and queues the new point as its open end |
| ImageContourCollection.AddRightShelf | src/image_contour_collection.rs:63-69 | a RightShelf links the front open end to a new point, crosses that contour and queues the new point as its open end |
| ImageContourCollection.JoinEnds | src/image_contour_collection.rs:70-83 | a foot closes the gap between two open ends with one new point and then combines their two contours |
| ImageContourCollection.AddShelf | src/image_contour_collection.rs:56-69 | both shelves replace the front open end by a new point queued at the back, keeping the tracer's invariant and the orientation with the parity flipped |
| ImageContourCollection.AddFoot | src/image_contour_collection.rs:70-83 | both feet drop the two front open ends, keeping the tracer's invariant and the orientation |
| ImageContourCollection.ApplyFeature | src/image_contour_collection.rs:43-85 | the dispatch of one feature changes the queue length by the amount the feature kind dictates and keeps the tracer's invariant and the orientation, with the parity moved on by the ends taken; None changes nothing |
| ImageContourCollection.RowChangeListOf | src/image_contour_collection/row_changes.rs:25-48 | the change list of a row narrower than END, ended by END, has an even number of strictly increasing changes |
| ImageContourCollection.BalanceStep | src/image_contour_collection.rs:42-43 | each merged change keeps the queue balanced with the changes read, so the queue always holds what the next feature takes (the source's debug assertions) |
| ImageContourCollection.BalancedAtEnd | src/image_contour_collection.rs:42-86 | once both rows are read to END, the automaton is back in state 0 and the queue holds one open end per change of the lower row |
| ImageContourCollection.TraceFeature | src/image_contour_collection.rs:43-85 | the automaton step and the dispatch of one change keep the queue balance, the tracer's invariant and the orientation for the new state |
| ImageContourCollection.TraceChange | src/image_contour_collection.rs:42-86 | one step of the row-pair loop either finds both rows at END or reads one change, keeping the balance, the tracer's invariant and the orientation |
| ImageContourCollection.TraceChanges | src/image_contour_collection.rs:42-86 | the loop over a row pair's merged changes ends with both rows at END, keeping the balance, the tracer's invariant and the orientation |
| ImageContourCollection.TraceRowPair | src/image_contour_collection.rs:36-87 | a row pair takes the automaton from background back to background, leaves one open end per change of the lower row, and keeps the orientation |
| ImageContourCollection.TraceImage | src/image_contour_collection.rs:23-88 | tracing every row between two empty rows leaves the queue empty (the debug assertion after the loop), the root holding the image size, and every Parent head followed by a plain point of its own (`Traced`) |
| ImageContourCollection.ImageContourCollection.constructor | src/image_contour_collection.rs:20-91 | the finished point list holds the image size in its root and the traced points, which satisfy `Traced`, with the parent links arranged as `into` arranges them |
| ImageContourCollection.ImageContourCollection.Dimensions | src/image_contour_collection.rs:93-96 | the dimensions are the width and height of the traced image |
| ImageContourCollection.ImageContourCollection.OutermostContours | src/image_contour_collection.rs:98-100 | yields the children of the root, highest index first, none of them a hole |
| ImageContourCollection.ImageContourCollection.AllContours | src/image_contour_collection.rs:107-109 | yields every item below the root in preorder, the root's children flagged as not holes |
| ImageContourCollection.ImageContourCollection.NonHoleContours | src/image_contour_collection.rs:102-105 | yields exactly the contours below the root at an odd depth, that is the ones that are not holes, in the preorder of `all_contours` |
| ContourCollectionBuilding.FeatureEffect | src/image_contour_collection/contour_collection_builder.rs:51-105 | a feature changes the queue length by the amount its kind dictates, keeps the entries it does not take in order at the front, adds one point unless it is None or Vertical, and makes one hierarchy call unless it is None |
| ContourCollectionBuilding.EvenQueue | src/image_contour_collection/contour_collection_builder.rs:51-105 | every feature keeps an even queue even |
| ContourCollectionBuilding.VerticalKeepsEntries | src/image_contour_collection/contour_collection_builder.rs:60-68 | a Vertical puts its front entry back at the end untouched, so the queue holds the same entries |
| ContourCollectionBuilding.NewEntries | src/image_contour_collection/contour_collection_builder.rs:52-104 | a Head queues both ends of its new point, a Shelf queues its new point with the contour of the entry it took, a Vertical re-queues that entry, and a Foot or None queues nothing |
| ContourCollectionBuilding.FootJoins | src/image_contour_collection/contour_collection_builder.rs:87-103 | a Foot joins its two open ends through one new point, in opposite directions for InnerFoot and OuterFoot, and merges the contour to the right of the second |
| ContourCollectionBuilding.ContourCollectionBuilder.constructor | src/image_contour_collection/contour_collection_builder.rs:28-36 | a new builder has a fresh automaton, an empty queue and no calls yet |
| ContourCollectionBuilding.ContourCollectionBuilder.Into | src/image_contour_collection/contour_collection_builder.rs:38-45 | with the queue empty, hands over the image size and what the two builders were given |
| ContourCollectionBuilding.ContourCollectionBuilder.AddRowPairChange | src/image_contour_collection/contour_collection_builder.rs:47-106 | steps the automaton with the change and applies the effect of the feature it emits at its x and the row y |
| LegacyContours.ControlPointIter.constructor | src/image_contours/contours.rs:18-20 | a fresh iterator has the whole cycle from the contour's start still to yield |
| LegacyContours.ControlPointIter.Next | src/image_contours/contours.rs:32-45 | yields the next point of the cycle and drops it from what is pending; yields None once the walk has come back to the start, and keeps doing so |
| LegacyContours.CollectControlPoints | src/image_contours/contours.rs:18-45 | draining the iterator yields exactly the points of the cycle from the contour's start, in link order |
| LegacyContours.CyclePointsAll | src/image_contours/contours.rs:32-45 | every k-th control point is the point of the item k links on from the start |
| LegacyContours.ChildChainAre | src/image_contours/table_builder.rs:100-111 | the child chain below k holds exactly the heads below k whose unaliased parent is q, in strictly decreasing index order |
| LegacyContours.NoneBelow | src/image_contours/table_builder.rs:100-111 | when no last child is found below k, no head below k is a child of q |
| LegacyContours.LastBelow | src/image_contours/table_builder.rs:100-111 | the last child found below k is the highest-indexed child of q below k |
| LegacyContours.HeadWithNextIs | src/image_contours/table_builder.rs:104-106 | in a traced table no other head shares a head's next point, so a Sibling written there belongs to that head |
| LegacyContours.SiblingOf | src/image_contours/table_builder.rs:100-111 | after `parents_to_children`, the point after child c of q holds Sibling(s) exactly when s is the child of q before c, and no Sibling when c is the first child |
| LegacyContours.RootChild | src/image_contours/table_builder.rs:100-111 | after `parents_to_children`, the root holds Child(c) exactly when c is the root's child with the highest index, and no Child when it has none |
| LegacyContours.ArrangedSiblingLinks | src/image_contours/table_builder.rs:100-111 | every child of every contour in the arranged table is followed by the Sibling link to the child before it |
| LegacyContours.ChainStart | src/image_contours/contours.rs:59-61 | starting the chain at a child c of q yields c and then the children of q below c |
| LegacyContours.ChainStep | src/image_contours/contours.rs:67-81 | the chain below k is its last child c followed by the chain below c |
| LegacyContours.SiblingContourIter.Empty | src/image_contours/contours.rs:55-57 | the empty iterator is not a hole and yields nothing |
| LegacyContours.SiblingContourIter.constructor | src/image_contours/contours.rs:59-61 | an iterator started at a child yields that child and then every earlier child of the same contour |
| LegacyContours.SiblingContourIter.Next | src/image_contours/contours.rs:67-81 | yields the current child as a contour with the iterator's hole flag and goes on at the Sibling held by the point after it; None at the end of the chain |
| LegacyContours.CollectSiblings | src/image_contours/contours.rs:67-81 | draining the iterator yields one contour per pending child, in chain order, all with its hole flag |
| LegacyHierarchy.ParentKeepsDownward | src/image_contours/hierarchy.rs:12-14 | making a head the Parent of a contour below it keeps every link pointing to a lower index |
| LegacyHierarchy.Unalias | src/image_contours/hierarchy.rs:44-50 | following Alias links from a point ends at the point's unaliased contour |
| LegacyHierarchy.Hierarchy.constructor | src/image_contours/hierarchy.rs:8-10 | the scan starts inside the root |
| LegacyHierarchy.Hierarchy.AddContour | src/image_contours/hierarchy.rs:12-14 | the head becomes a Parent link to the current contour and nothing else in the slice changes |
| LegacyHierarchy.Hierarchy.CrossContour | src/image_contours/hierarchy.rs:16-27 | crossing the current contour moves to its unaliased parent, crossing any other contour enters it |
| LegacyHierarchy.Hierarchy.CombineContours | src/image_contours/hierarchy.rs:29-41 | two heads of one contour change nothing; otherwise the higher contour becomes an Alias of the lower, a current contour that was absorbed becomes the survivor, and every point of the absorbed contour now unaliases to the survivor |
| ImageContours.LegacyChangeListOf | src/image_contours/row_changes.rs:21-43 | the older change list of a row narrower than END, ended by END, has an even number of strictly increasing changes |
| ImageContours.TraceLegacyImage | src/image_contours.rs:21-86 | tracing every row between two empty rows leaves the queue empty (the debug assertion after the loop), the root holding the image size, and every Parent head followed by a plain point of its own (`Traced`) |
| ImageContours.ImageContours.constructor | src/image_contours.rs:18-89 | the finished table holds the image size in its root and the traced points, which satisfy `Traced`, arranged as `parents_to_children` arranges them |
| ImageContours.ImageContours.Dimensions | src/image_contours.rs:91-94 | the dimensions are the width and height of the traced image |
| ImageContours.ImageContours.OutermostContours | src/image_contours.rs:96-102 | yields the Sibling chain from the root's Child, that is every child of the root from the highest index down, or nothing when the root has no Child |
| Svg.PathData.constructor | umriss/svg/__init__.py:56 | a new path data has the document's decimals and no commands |
| Svg.PathData.AddMoveNode | umriss/svg/__init__.py:87 | appends one move command and changes nothing else |
| Svg.PathData.AddLineNode | umriss/svg/__init__.py:90 | appends one line command and changes nothing else |
| Svg.PathData.AddCubicNode | umriss/svg/__init__.py:102 | appends one cubic command and changes nothing else |
| Svg.PathData.AddCloseNode | umriss/svg/__init__.py:92 | appends one close command and changes nothing else |
| Svg.ScalePoints | umriss/svg/__init__.py:84 | every point is multiplied by the scale, and kept as it is when the scale is 1.0 |
| Svg.ScaleNodes | umriss/svg/__init__.py:96 | every node is multiplied by the scale, and kept as it is when the scale is 1.0 |
| Svg.VisitedAppend | umriss/svg/__init__.py:86-92 | the points a path visits are those of its first part followed by those of the rest |
| Svg.VisitedLines | umriss/svg/__init__.py:89-90 | a run of line commands visits exactly its points, in order |
| Svg.VisitedCubics | umriss/svg/__init__.py:101-102 | a run of cubic commands visits exactly the end points of its nodes, in order |
| Svg.LineCommandsShape | umriss/svg/__init__.py:83-92 | a polygon's path moves to its first scaled point, draws a line to every later point in order, and closes |
| Svg.LineCommandsVisit | umriss/svg/__init__.py:83-92 | a polygon's path visits exactly its scaled points, in order |
| Svg.CubicCommandsShape | umriss/svg/__init__.py:95-104 | a spline's path moves to the end of its last node, draws every node in order and closes, ending where it started |
| Svg.UnitScale | umriss/svg/__init__.py:84-96 | with scale 1.0 points and nodes are drawn unchanged |
| Svg.GlyphCommandsSnoc | umriss/svg/__init__.py:57-58 | adding one more contour of a glyph appends that contour's commands to the path |
| Svg.AddLineContour | umriss/svg/__init__.py:83-92 | appends the polygon's commands to the path data and changes nothing else |
| Svg.AddCubicContour | umriss/svg/__init__.py:95-104 | appends the spline's commands to the path data and changes nothing else |
| Svg.AddContour | umriss/svg/__init__.py:44-45 | appends the commands of either kind of contour to the path data |
| Svg.RightStrip | umriss/svg/__init__.py:110 | strips a prefix that no longer ends in the character, removing only that character |
| Svg.FormatValueTrims | umriss/svg/__init__.py:107-112 | without decimals the text is untouched; with decimals only trailing zeros and then trailing points are removed, and the result ends in neither |
| Svg.FormatNegativeZero | umriss/svg/__init__.py:107-112 | a negative zero keeps its sign: "-0.00" becomes "-0" |
| Svg.FormatTrailingZeros | umriss/svg/__init__.py:107-112 | "1.50" becomes "1.5" and "10.00" becomes "10": zeros before the point are kept |
| Svg.DefinedPaths | umriss/svg/__init__.py:55-63 | one path per referenced glyph, in table order, the i-th one with id `g{i}` |
| Svg.DirectPaths | umriss/svg/__init__.py:67-71 | one path per direct glyph, in drawing order |
| Svg.Uses | umriss/svg/__init__.py:73-78 | one `use` per reference, in drawing order |
| Svg.GlyphPathData | umriss/svg/__init__.py:56-58 | a fresh path data holding every contour of the glyph in order |
| Svg.DefinePaths | umriss/svg/__init__.py:54-63 | the loop builds exactly the defined paths |
| Svg.DrawPaths | umriss/svg/__init__.py:67-71 | the loop builds exactly the direct paths |
| Svg.UseReferences | umriss/svg/__init__.py:73-78 | the loop builds exactly the uses |
| Svg.SvgDocument.constructor | umriss/svg/__init__.py:20-22 | the root `svg` element holds the size and the two namespaces and no children |
| Svg.SvgDocument.AddDrawing | umriss/svg/__init__.py:44-80 | appends the drawing's elements to the root and changes nothing else |
| Svg.SvgDocument.AddLineDrawing | umriss/svg/__init__.py:34-35 | a line drawing is added like any drawing |
| Svg.SvgDocument.AddCubicDrawing | umriss/svg/__init__.py:38-39 | a cubic drawing is added like any drawing |
| Svg.DrawingLayout | umriss/svg/__init__.py:53-80 | a `defs` block comes first exactly when the drawing has references, and the group comes last |
| Svg.DefsLayout | umriss/svg/__init__.py:54-63 | the `defs` block holds one path per referenced glyph, the i-th with id `g{i}` and the commands of that glyph |
| Svg.GroupLayout | umriss/svg/__init__.py:49-78 | the group has a transform exactly when the scale is not 1, and holds a path per direct glyph and then a `use` per reference pointing at `#g{index}` |
| Svg.GlyphIdInjective | umriss/svg/__init__.py:60 | two defined paths have the same id exactly when they have the same index |
| Svg.UseResolves | umriss/svg/__init__.py:60-75 | a reference's `use` points at defined path j exactly when j is the reference's index |

## Left out

- `src/main.rs` is not part of this model. It is a driver with file I/O, timing and printing.
- `src/test_images.rs` is not part of this model. It lists directories and decodes PNG files.
- `src/approximation/accurate_polygon.rs` is not part of this model. It is floating-point geometry.
- The file output of `src/silly_svg.rs` (`write_contour_collection_as_svg_file`, `write_book_as_multiple_svg_files`) is left out, because it is I/O. Only the string builders are modelled.
- `SvgDocument.render` and `save`, and the rendering of `Element`, are left out, because they produce text and files. The element tree is a value and `PathData` is its list of commands.
- `get_debug_color` and Python's float formatting (`str(1 / scale)` and `'{:.{d}f}'`) are not shown in the source. They are function parameters, and only the trimming step of `_format_value` is modelled.
- Scaling in `umriss/svg/__init__.py` uses Dafny `real`s. Floating-point rounding is not modelled.
- The `image` crate is left out. Images are rows of bytes (`seq<seq<Byte>>`) and the canvas is an `array2<Byte>`. The pixel function of `draw_orthopolygons` is a parameter.
- Integer widths: coordinates, positions and counts are unbounded integers. The `u32`/`i32` wrap-around of the source is not modelled. Every row must be narrower than `END` = 0xFFFF_FFFF, which is the only case the source handles.
- The files come from different stages of the code and their calls across files do not agree. Each component is modelled against its own file:
  - `ContourCollectionBuilder` sees its two builders as logs of the calls it makes. The tuple that the unseen `add_contour` returns is a parameter of `AddRowPairChange`. Its point list starts empty and numbers points from 0.
  - `ImageContourCollection` passes its point list where `ChildContourIter::new` and `DescendantContourIter::new` expect a hierarchy. `OutermostContours`, `AllContours` and `NonHoleContours` therefore take the hierarchy as a parameter.
  - `src/image_contour_collection.rs` maps the two-argument `RowChangeIter::from` over the rows with one argument. The model's tracer passes `false` as the edge value.
  - `Glyph.FromContour` takes the outer contour's even vertices and its children's vertex lists, since `even_vertices()` and `children()` are not in the shown `Contour`.
  - `umriss/drawing.py` field names differ from those `_add_drawing` reads. `Drawing` has the fields `_add_drawing` reads.
- `src/image_contours/feature_automaton.rs` is not part of this model. The older tracer uses the newer `FeatureAutomaton`, and `StateMachine.TablesAgree` shows that its tables are the older `StateMachine`'s.
- `src/image_contours.rs`: `SiblingContours` and `ControlPoints` repeat the code of `SiblingContourIter` and `ControlPointIter` in `src/image_contours/contours.rs`. `ImageContours.OutermostContours` uses those models with hole flag false, since `SiblingContours` yields contours without one.
- HashMap iteration order in `src/book.rs` is unspecified. `Book.BookSharedGlyphs` and `Book.PageSharedGlyphs` are sets, and `SillySvg.GetSharedContents` and `SillySvg.GetPageContents` take the order as a parameter.
- Panics of the source are preconditions: `unwrap` on an empty queue, `assert!` in `into`, the `panic!` in `cross_contour`, and the `start.unwrap()` of `get_path` in `src/silly_svg.rs` on a contour without vertices, which the `NonEmpty` requirements of `SillySvg` stand for. `ImageContourCollection.BalanceStep`, `ImageContourCollection.TracingCross` and `ImageContourCollection.TraceImage` show that the tracer never reaches the first three.
- HierarchyBuilding.HierarchyBuilder.CrossContour requires that the scan is inside some contour when it crosses the current one. Crossing the current contour while that is NONE indexes `heads[NONE]` (src/image_contour_collection/hierarchy_builder.rs:42), which panics, and that panic is not modelled.
- HierarchyBuilding.HierarchyBuilder.CombineContours requires both contours to be other than NONE when they are different contours. With a NONE argument the source indexes `heads[NONE]` (src/image_contour_collection/hierarchy_builder.rs:73), which panics, and that panic is not modelled.
- HierarchyBuilding.HierarchyBuilder.Into: the `debug_assert_eq!(self.current_contour, NONE)` (src/image_contour_collection/hierarchy_builder.rs:78) is not a precondition. The method builds the hierarchy whatever the current contour is, as a release build does.
- Svg.AddLineContour requires a non-empty point list. On an empty one `points[0]` raises `IndexError` (umriss/svg/__init__.py:86), and that error is not modelled.
- Svg.AddCubicContour requires a non-empty node list. On an empty one `nodes[-1]` raises `IndexError` (umriss/svg/__init__.py:98), and that error is not modelled.
- Svg.AddContour requires `Drawable`, a non-empty contour of either kind, and so leaves out the same two `IndexError`s.
- Svg.SvgDocument.AddDrawing requires a scale other than 0.0, since `1 / scale` raises `ZeroDivisionError` (umriss/svg/__init__.py:51). It also requires `DrawingDrawable`: every contour of every glyph is non-empty, which leaves out the `IndexError` of an empty contour and the partly added drawing it leaves behind.
- Svg.SvgDocument.AddLineDrawing and Svg.SvgDocument.AddCubicDrawing have the same two requirements as `AddDrawing`, for the same reasons.
- PointList.PointListBuilder.Into: the `debug_assert_eq!(current_contour, 0)` is not proved. The method requires that every head's next point is in the list (`HeadNextsInRange`), which the tracer's lists meet because every next point in them is in the list.
- Contours.EvenPointIter.constructor, Contours.CollectCycle and LegacyContours.CollectControlPoints take the cycle's length as a ghost parameter, with the requirement that the `next` links return to the start after exactly that many steps. The source loops forever when they do not.
- LegacyContours.ControlPointIter.constructor likewise takes the cycle's length as a ghost parameter and requires `ReturnsAfter` of the contour's start for it. `src/image_contours/contours.rs` lets the iterator walk a `next` chain that never returns to the start, and that case is not modelled.
- Contours.ChildContourIter.constructor and Contours.DescendantContourIter.constructor require `Tree`: the hierarchy's first-child and next-sibling links are those `into` builds. `HierarchyBuilding.HierarchyBuilder.Into` proves that it builds them.
- Rasterization.DrawOrthopolygons requires every vertex to lie on the canvas and every scan line to have an even number of active edges (the `debug_assert!(!parity)` at the top of each line). The source panics outside the canvas.
- Glyph.FromContour requires a non-empty outer contour. With none, the source computes its size from `i32::MIN - i32::MAX`, which overflows.
- `SvgDocument._add_drawing` in `umriss/svg/__init__.py` emits every direct glyph path before any `use` element.
- `_format_value` keeps the sign of a negative zero: "-0.00" becomes "-0" (`Svg.FormatNegativeZero`).
