/**
 * src/book.rs: a book collects the glyphs of all pages, numbers the distinct
 * glyphs by first appearance and sorts them into glyphs used once, glyphs
 * repeated on a single page (the page dictionary) and glyphs used on several
 * pages (the book dictionary).
 */
module Book {
  import opened Geometry
  import G = Glyph

  type Glyph = G.Glyph

  datatype GlyphKind = Unique | PageShared | BookShared

  /** An occurrence of a glyph on a page. */
  datatype GlyphEntry = GlyphEntry(location: Point, kind: GlyphKind, id: nat, glyph: Glyph)

  datatype SharedGlyph = SharedGlyph(id: nat, occurrenceCount: nat, glyph: Glyph)

  /** What `Book::new` takes from one page: its size and `from_contour` of each outer contour, in order. */
  datatype PageInput = PageInput(size: Size, glyphs: seq<(Glyph, Point)>)

  /**
   * `PageContent`: the page dictionary maps a glyph index to its occurrence
   * count; the entries are the locations and glyph indices of the page.
   */
  datatype PageContent = PageContent(size: Size, dictionary: map<nat, nat>, glyphEntries: seq<(Point, nat)>)

  datatype Book = Book(pages: seq<PageContent>, dictionary: map<nat, nat>, glyphs: seq<Glyph>)

  /** `GlypDistribution`: how often a glyph occurs and on which pages. */
  datatype Distribution = Distribution(count: nat, pages: set<nat>)

  /** `GlypDistribution::add`: one more occurrence, on page `page`. */
  function Add(d: Distribution, page: nat): (r: Distribution)
  {
    Distribution(d.count + 1, d.pages + {page})
  }

  // ---------------------------------------------------------------------
  // Specification: the glyph occurrences of the book, in reading order.
  // ---------------------------------------------------------------------

  type Occurrence = (Glyph, nat)

  function PageOccurrences(glyphs: seq<(Glyph, Point)>, page: nat): (r: seq<Occurrence>)
    ensures |r| == |glyphs|
    ensures forall k :: 0 <= k < |glyphs| ==> r[k] == (glyphs[k].0, page)
  {
    seq(|glyphs|, k requires 0 <= k < |glyphs| => (glyphs[k].0, page))
  }

  /** Every glyph of every page, page by page, each paired with its page index. */
  function Occurrences(pages: seq<PageInput>): seq<Occurrence>
  {
    if |pages| == 0 then []
    else Occurrences(pages[..|pages| - 1]) + PageOccurrences(pages[|pages| - 1].glyphs, |pages| - 1)
  }

  /** The number of occurrences of `g`. */
  function Count(os: seq<Occurrence>, g: Glyph): nat
  {
    if |os| == 0 then 0
    else Count(os[..|os| - 1], g) + (if os[|os| - 1].0 == g then 1 else 0)
  }

  /** The pages on which `g` occurs. */
  function PagesOf(os: seq<Occurrence>, g: Glyph): set<nat>
  {
    if |os| == 0 then {}
    else PagesOf(os[..|os| - 1], g) + (if os[|os| - 1].0 == g then {os[|os| - 1].1} else {})
  }

  /** The distinct glyphs in order of first appearance. */
  function FirstAppearance(os: seq<Occurrence>): seq<Glyph>
  {
    if |os| == 0 then []
    else
      var f := FirstAppearance(os[..|os| - 1]);
      if os[|os| - 1].0 in f then f else f + [os[|os| - 1].0]
  }

  lemma {:induction false} AppendOccurrence(os: seq<Occurrence>, o: Occurrence, g: Glyph)
    ensures Count(os + [o], g) == Count(os, g) + (if o.0 == g then 1 else 0)
    ensures PagesOf(os + [o], g) == PagesOf(os, g) + (if o.0 == g then {o.1} else {})
    ensures FirstAppearance(os + [o]) ==
      if o.0 in FirstAppearance(os) then FirstAppearance(os) else FirstAppearance(os) + [o.0]
  {
    assert (os + [o])[..|os|] == os;
  }

  /** Adding an occurrence to a glyph's distribution keeps it equal to the count and page set. */
  lemma AddTracksOccurrences(os: seq<Occurrence>, g: Glyph, page: nat)
    ensures Add(Distribution(Count(os, g), PagesOf(os, g)), page) ==
      Distribution(Count(os + [(g, page)], g), PagesOf(os + [(g, page)], g))
  {
    AppendOccurrence(os, (g, page), g);
  }

  /** A glyph is among the first appearances iff it occurs; each distinct glyph is listed once. */
  lemma {:induction false} FirstAppearanceMembers(os: seq<Occurrence>)
    ensures forall g :: g in FirstAppearance(os) <==> exists k :: 0 <= k < |os| && os[k].0 == g
    ensures forall i, j :: 0 <= i < j < |FirstAppearance(os)| ==> FirstAppearance(os)[i] != FirstAppearance(os)[j]
  {
    if |os| > 0 {
      var front := os[..|os| - 1];
      FirstAppearanceMembers(front);
      forall g | g in FirstAppearance(os)
        ensures exists k :: 0 <= k < |os| && os[k].0 == g
      {
        if g in FirstAppearance(front) {
          var k :| 0 <= k < |front| && front[k].0 == g;
          assert os[k] == front[k];
        } else {
          assert os[|os| - 1].0 == g;
        }
      }
      forall g | exists k :: 0 <= k < |os| && os[k].0 == g
        ensures g in FirstAppearance(os)
      {
        var k :| 0 <= k < |os| && os[k].0 == g;
        if k < |os| - 1 {
          assert front[k] == os[k];
        }
      }
    }
  }

  /** A glyph occurs on some page iff its count is positive, and it never occurs on more pages than times. */
  lemma {:induction false} CountBoundsPages(os: seq<Occurrence>, g: Glyph)
    ensures |PagesOf(os, g)| <= Count(os, g)
    ensures Count(os, g) > 0 <==> PagesOf(os, g) != {}
  {
    if |os| > 0 {
      CountBoundsPages(os[..|os| - 1], g);
    }
  }

  /** An occurrence at position k puts its page into the glyph's page set. */
  lemma {:induction false} OccurrenceInPages(os: seq<Occurrence>, k: nat)
    requires k < |os|
    ensures os[k].1 in PagesOf(os, os[k].0)
  {
    if k < |os| - 1 {
      OccurrenceInPages(os[..|os| - 1], k);
    }
  }

  /** Every page set is made of page indices of the input. */
  lemma {:induction false} PagesOfBound(pages: seq<PageInput>, g: Glyph)
    ensures forall q :: q in PagesOf(Occurrences(pages), g) ==> q < |pages|
  {
    if |pages| > 0 {
      var front := pages[..|pages| - 1];
      var last := PageOccurrences(pages[|pages| - 1].glyphs, |pages| - 1);
      PagesOfBound(front, g);
      PagesOfConcat(Occurrences(front), last, g);
      PageOccurrencesPages(pages[|pages| - 1].glyphs, |pages| - 1, g);
    }
  }

  lemma {:induction false} PagesOfConcat(os: seq<Occurrence>, more: seq<Occurrence>, g: Glyph)
    ensures PagesOf(os + more, g) == PagesOf(os, g) + PagesOf(more, g)
  {
    if |more| > 0 {
      PagesOfConcat(os, more[..|more| - 1], g);
      assert (os + more)[..|os + more| - 1] == os + more[..|more| - 1];
      assert (os + more)[|os + more| - 1] == more[|more| - 1];
    } else {
      assert os + more == os;
    }
  }

  /** The page occurrences of page p list only page p. */
  lemma {:induction false} PageOccurrencesPages(glyphs: seq<(Glyph, Point)>, page: nat, g: Glyph)
    ensures PagesOf(PageOccurrences(glyphs, page), g) <= {page}
  {
    if |glyphs| > 0 {
      PageOccurrencesPages(glyphs[..|glyphs| - 1], page, g);
      assert PageOccurrences(glyphs, page)[..|glyphs| - 1] == PageOccurrences(glyphs[..|glyphs| - 1], page);
    }
  }

  /** Occurrence k of page p sits in the flattened list, paired with p. */
  lemma {:induction false} OccurrenceOfEntry(pages: seq<PageInput>, p: nat, k: nat)
    requires p < |pages| && k < |pages[p].glyphs|
    ensures exists j :: 0 <= j < |Occurrences(pages)| && Occurrences(pages)[j] == (pages[p].glyphs[k].0, p)
  {
    var front := pages[..|pages| - 1];
    var last := PageOccurrences(pages[|pages| - 1].glyphs, |pages| - 1);
    if p == |pages| - 1 {
      assert Occurrences(pages)[|Occurrences(front)| + k] == last[k];
    } else {
      assert front[p] == pages[p];
      OccurrenceOfEntry(front, p, k);
      var j :| 0 <= j < |Occurrences(front)| && Occurrences(front)[j] == (pages[p].glyphs[k].0, p);
      assert Occurrences(pages)[j] == Occurrences(front)[j];
    }
  }

  // ---------------------------------------------------------------------
  // The dictionaries a book must have.
  // ---------------------------------------------------------------------

  /** The distribution of each listed glyph over the occurrences. */
  function Distributions(os: seq<Occurrence>, glyphs: seq<Glyph>): (r: seq<Distribution>)
    ensures |r| == |glyphs|
    ensures forall i :: 0 <= i < |glyphs| ==> r[i] == Distribution(Count(os, glyphs[i]), PagesOf(os, glyphs[i]))
  {
    seq(|glyphs|, i requires 0 <= i < |glyphs| => Distribution(Count(os, glyphs[i]), PagesOf(os, glyphs[i])))
  }

  /** Glyph indices below n on more than one page, with their total count. */
  function BookDictionary(ds: seq<Distribution>, n: nat): map<nat, nat>
    requires n <= |ds|
  {
    map i: nat | i < n && |ds[i].pages| > 1 :: ds[i].count
  }

  /** Glyph indices below n occurring more than once, all on page `page`, with their count. */
  function PageDictionary(ds: seq<Distribution>, n: nat, page: nat): map<nat, nat>
    requires n <= |ds|
  {
    map i: nat | i < n && ds[i].pages == {page} && ds[i].count > 1 :: ds[i].count
  }

  /**
   * What `Book::new` promises: the glyph list is the distinct glyphs in order
   * of first appearance; every page keeps its size and its entries in order,
   * each entry naming the index of its glyph; the dictionaries hold exactly
   * the glyphs shared across pages and within one page.
   */
  ghost predicate Describes(input: seq<PageInput>, book: Book)
  {
    var os := Occurrences(input);
    && book.glyphs == FirstAppearance(os)
    && |book.pages| == |input|
    && (forall p :: 0 <= p < |input| ==>
         && book.pages[p].size == input[p].size
         && |book.pages[p].glyphEntries| == |input[p].glyphs|
         && (forall k :: 0 <= k < |input[p].glyphs| ==>
              && book.pages[p].glyphEntries[k].0 == input[p].glyphs[k].1
              && book.pages[p].glyphEntries[k].1 < |book.glyphs|
              && book.glyphs[book.pages[p].glyphEntries[k].1] == input[p].glyphs[k].0)
         && book.pages[p].dictionary == PageDictionary(Distributions(os, book.glyphs), |book.glyphs|, p))
    && book.dictionary == BookDictionary(Distributions(os, book.glyphs), |book.glyphs|)
  }

  // ---------------------------------------------------------------------
  // Book::new
  // ---------------------------------------------------------------------

  /** The state of the first loop after the occurrences `os`. */
  ghost predicate Indexed(os: seq<Occurrence>, glyphIndices: map<Glyph, nat>, order: seq<Glyph>, distribution: seq<Distribution>)
  {
    && order == FirstAppearance(os)
    && (forall g :: g in glyphIndices <==> g in order)
    && (forall g :: g in glyphIndices ==> glyphIndices[g] < |order| && order[glyphIndices[g]] == g)
    && |distribution| == |order|
    && (forall i :: 0 <= i < |order| ==> distribution[i] == Distribution(Count(os, order[i]), PagesOf(os, order[i])))
  }

  /** The first entries of a page, each naming the index of its glyph in `order`. */
  ghost predicate EntriesName(entries: seq<(Point, nat)>, glyphs: seq<(Glyph, Point)>, order: seq<Glyph>)
  {
    && |entries| <= |glyphs|
    && (forall k :: 0 <= k < |entries| ==>
         && entries[k].0 == glyphs[k].1
         && entries[k].1 < |order|
         && order[entries[k].1] == glyphs[k].0)
  }

  /** `order'` starts with `order`: indices given out are never changed. */
  ghost predicate Extends(order': seq<Glyph>, order: seq<Glyph>)
  {
    |order| <= |order'| && order'[..|order|] == order
  }

  lemma ExtendsTransitive(a: seq<Glyph>, b: seq<Glyph>, c: seq<Glyph>)
    requires Extends(b, a) && Extends(c, b)
    ensures Extends(c, a)
  {
    assert c[..|a|] == c[..|b|][..|a|];
  }

  lemma EntriesNameGrow(entries: seq<(Point, nat)>, glyphs: seq<(Glyph, Point)>, order: seq<Glyph>, order': seq<Glyph>)
    requires EntriesName(entries, glyphs, order) && Extends(order', order)
    ensures EntriesName(entries, glyphs, order')
  {
    forall k | 0 <= k < |entries|
      ensures order'[entries[k].1] == glyphs[k].0
    {
      assert order'[entries[k].1] == order'[..|order|][entries[k].1];
    }
  }

  lemma EntriesNameSnoc(entries: seq<(Point, nat)>, glyphs: seq<(Glyph, Point)>, order: seq<Glyph>, index: nat)
    requires EntriesName(entries, glyphs, order) && |entries| < |glyphs|
    requires index < |order| && order[index] == glyphs[|entries|].0
    ensures EntriesName(entries + [(glyphs[|entries|].1, index)], glyphs, order)
  {
  }

  /** Page q of the output while the first loop runs: entries done, dictionary still empty. */
  ghost predicate EntriesDone(input: PageInput, content: PageContent, order: seq<Glyph>)
  {
    && content.size == input.size
    && content.dictionary == map[]
    && |content.glyphEntries| == |input.glyphs|
    && EntriesName(content.glyphEntries, input.glyphs, order)
  }

  /**
   * One step of the inner loop of `Book::new`: look the glyph up in
   * `glyph_indices`, giving it the next index if it is new, then record the
   * occurrence in its distribution.
   */
  method IndexGlyph(ghost before: seq<Occurrence>, glyph: Glyph, page: nat,
                    glyphIndices: map<Glyph, nat>, order: seq<Glyph>, distribution: seq<Distribution>)
    returns (glyphIndex: nat, glyphIndices': map<Glyph, nat>, order': seq<Glyph>, distribution': seq<Distribution>)
    requires Indexed(before, glyphIndices, order, distribution)
    ensures Indexed(before + [(glyph, page)], glyphIndices', order', distribution')
    ensures glyphIndex < |order'| && order'[glyphIndex] == glyph
    ensures Extends(order', order)
  {
    ghost var after := before + [(glyph, page)];
    glyphIndices', order', distribution' := glyphIndices, order, distribution;
    if glyph in glyphIndices {
      glyphIndex := glyphIndices[glyph];
    } else {
      NotSeen(before, glyph);
      glyphIndex := |distribution|;
      distribution' := distribution + [Distribution(0, {})];
      glyphIndices' := glyphIndices[glyph := glyphIndex];
      order' := order + [glyph];
    }
    assert distribution'[glyphIndex] == Distribution(Count(before, glyph), PagesOf(before, glyph));
    AddTracksOccurrences(before, glyph, page);
    distribution' := distribution'[glyphIndex := Add(distribution'[glyphIndex], page)];
    AppendOccurrence(before, (glyph, page), glyph);
    assert order' == FirstAppearance(after);
    forall i | 0 <= i < |order'|
      ensures distribution'[i] == Distribution(Count(after, order'[i]), PagesOf(after, order'[i]))
    {
      AppendOccurrence(before, (glyph, page), order'[i]);
      if i != glyphIndex {
        FirstAppearanceMembers(before);
        assert order'[i] == order[i] && order[i] in glyphIndices && order[i] != glyph;
        assert distribution'[i] == distribution[i];
      }
    }
  }

  /** A glyph not yet listed has not occurred: no count, no page. */
  lemma {:induction false} NotSeen(os: seq<Occurrence>, g: Glyph)
    requires g !in FirstAppearance(os)
    ensures Count(os, g) == 0 && PagesOf(os, g) == {}
  {
    if |os| > 0 {
      NotSeen(os[..|os| - 1], g);
    }
  }

  lemma PageOccurrencesSnoc(done: seq<Occurrence>, glyphs: seq<(Glyph, Point)>, page: nat, k: nat)
    requires k < |glyphs|
    ensures done + PageOccurrences(glyphs[..k + 1], page) == done + PageOccurrences(glyphs[..k], page) + [(glyphs[k].0, page)]
  {
    assert PageOccurrences(glyphs[..k + 1], page) == PageOccurrences(glyphs[..k], page) + [(glyphs[k].0, page)];
  }

  /** The inner loop of `Book::new`: the entries of one page, in order. */
  method IndexPage(ghost done: seq<Occurrence>, glyphs: seq<(Glyph, Point)>, page: nat,
                   glyphIndices: map<Glyph, nat>, order: seq<Glyph>, distribution: seq<Distribution>)
    returns (entries: seq<(Point, nat)>, glyphIndices': map<Glyph, nat>, order': seq<Glyph>, distribution': seq<Distribution>)
    requires Indexed(done, glyphIndices, order, distribution)
    ensures Indexed(done + PageOccurrences(glyphs, page), glyphIndices', order', distribution')
    ensures |entries| == |glyphs| && EntriesName(entries, glyphs, order')
    ensures Extends(order', order)
  {
    entries, glyphIndices', order', distribution' := [], glyphIndices, order, distribution;
    assert done + PageOccurrences(glyphs[..0], page) == done;
    for k := 0 to |glyphs|
      invariant Indexed(done + PageOccurrences(glyphs[..k], page), glyphIndices', order', distribution')
      invariant |entries| == k && EntriesName(entries, glyphs, order')
      invariant Extends(order', order)
    {
      ghost var before := done + PageOccurrences(glyphs[..k], page);
      PageOccurrencesSnoc(done, glyphs, page, k);
      ghost var previous := order';
      var glyphIndex;
      glyphIndex, glyphIndices', order', distribution' := IndexGlyph(before, glyphs[k].0, page, glyphIndices', order', distribution');
      EntriesNameGrow(entries, glyphs, previous, order');
      ExtendsTransitive(order, previous, order');
      EntriesNameSnoc(entries, glyphs, order', glyphIndex);
      entries := entries + [(glyphs[k].1, glyphIndex)];
    }
    assert glyphs[..|glyphs|] == glyphs;
  }

  /**
   * The second loop of `Book::new`: a glyph on several pages goes into the
   * book dictionary; one repeated on a single page goes into that page's
   * dictionary; one seen once goes nowhere.
   */
  method FillDictionaries(input: seq<PageInput>, ghost glyphIndices: map<Glyph, nat>, order: seq<Glyph>,
                          distribution: seq<Distribution>, pages0: seq<PageContent>)
    returns (pages: seq<PageContent>, dictionary: map<nat, nat>)
    requires Indexed(Occurrences(input), glyphIndices, order, distribution)
    requires |pages0| == |input|
    requires forall q :: 0 <= q < |input| ==> pages0[q].dictionary == map[]
    ensures |pages| == |input|
    ensures forall q :: 0 <= q < |input| ==>
      pages[q] == pages0[q].(dictionary := PageDictionary(Distributions(Occurrences(input), order), |order|, q))
    ensures dictionary == BookDictionary(Distributions(Occurrences(input), order), |order|)
  {
    ghost var os := Occurrences(input);
    assert distribution == Distributions(os, order);
    pages, dictionary := pages0, map[];
    for i := 0 to |distribution|
      invariant |pages| == |input|
      invariant forall q :: 0 <= q < |input| ==> pages[q] == pages0[q].(dictionary := PageDictionary(distribution, i, q))
      invariant dictionary == BookDictionary(distribution, i)
    {
      CountBoundsPages(os, order[i]);
      PagesOfBound(input, order[i]);
      pages, dictionary := FileGlyph(distribution, i, pages0, pages, dictionary);
    }
  }

  /**
   * One step of the second loop: files glyph i under the book dictionary,
   * under the dictionary of its only page, or nowhere.
   */
  method FileGlyph(distribution: seq<Distribution>, i: nat, ghost pages0: seq<PageContent>,
                   pages: seq<PageContent>, dictionary: map<nat, nat>)
    returns (pages': seq<PageContent>, dictionary': map<nat, nat>)
    requires i < |distribution| && |pages0| == |pages|
    requires |distribution[i].pages| <= distribution[i].count
    requires distribution[i].count > 0 <==> distribution[i].pages != {}
    requires forall q :: q in distribution[i].pages ==> q < |pages|
    requires forall q :: 0 <= q < |pages| ==> pages[q] == pages0[q].(dictionary := PageDictionary(distribution, i, q))
    requires dictionary == BookDictionary(distribution, i)
    ensures |pages'| == |pages|
    ensures forall q :: 0 <= q < |pages| ==> pages'[q] == pages0[q].(dictionary := PageDictionary(distribution, i + 1, q))
    ensures dictionary' == BookDictionary(distribution, i + 1)
  {
    var d := distribution[i];
    BookDictionaryStep(distribution, i);
    pages', dictionary' := pages, dictionary;
    if |d.pages| > 1 {
      dictionary' := dictionary[i := d.count];
    } else if d.count > 1 {
      var pageIndex :| pageIndex in d.pages;
      SingletonSet(d.pages, pageIndex);
      pages' := pages[pageIndex := pages[pageIndex].(dictionary := pages[pageIndex].dictionary[i := d.count])];
    }
    forall q | 0 <= q < |pages|
      ensures pages'[q] == pages0[q].(dictionary := PageDictionary(distribution, i + 1, q))
    {
      PageDictionaryStep(distribution, i, q);
    }
  }

  /** Glyph i joins the book dictionary iff it is on several pages. */
  lemma BookDictionaryStep(ds: seq<Distribution>, i: nat)
    requires i < |ds|
    ensures BookDictionary(ds, i + 1) ==
      if |ds[i].pages| > 1 then BookDictionary(ds, i)[i := ds[i].count] else BookDictionary(ds, i)
  {
  }

  /** Glyph i joins page q's dictionary iff it occurs more than once, on q alone. */
  lemma PageDictionaryStep(ds: seq<Distribution>, i: nat, q: nat)
    requires i < |ds|
    ensures PageDictionary(ds, i + 1, q) ==
      if ds[i].pages == {q} && ds[i].count > 1 then PageDictionary(ds, i, q)[i := ds[i].count]
      else PageDictionary(ds, i, q)
  {
  }

  lemma OccurrencesSnoc(input: seq<PageInput>, p: nat)
    requires p < |input|
    ensures Occurrences(input[..p + 1]) == Occurrences(input[..p]) + PageOccurrences(input[p].glyphs, p)
  {
    assert input[..p + 1][..p] == input[..p];
  }

  /** The first loop of `Book::new`: every page's entries, with the glyphs indexed and counted. */
  method IndexPages(input: seq<PageInput>)
    returns (glyphIndices: map<Glyph, nat>, order: seq<Glyph>, distribution: seq<Distribution>, pages: seq<PageContent>)
    ensures Indexed(Occurrences(input), glyphIndices, order, distribution)
    ensures |pages| == |input|
    ensures forall q :: 0 <= q < |input| ==> EntriesDone(input[q], pages[q], order)
  {
    glyphIndices, order, distribution, pages := map[], [], [], [];
    for p := 0 to |input|
      invariant Indexed(Occurrences(input[..p]), glyphIndices, order, distribution)
      invariant |pages| == p
      invariant forall q :: 0 <= q < p ==> EntriesDone(input[q], pages[q], order)
    {
      ghost var previous := order;
      var entries;
      entries, glyphIndices, order, distribution := IndexPage(Occurrences(input[..p]), input[p].glyphs, p, glyphIndices, order, distribution);
      var page := PageContent(input[p].size, map[], entries);
      var pages' := pages + [page];
      forall q | 0 <= q < p + 1
        ensures EntriesDone(input[q], pages'[q], order)
      {
        if q < p {
          assert pages'[q] == pages[q];
          EntriesNameGrow(pages[q].glyphEntries, input[q].glyphs, previous, order);
        } else {
          assert pages'[q] == page;
        }
      }
      OccurrencesSnoc(input, p);
      pages := pages';
    }
    assert input[..|input|] == input;
  }

  /**
   * `Book::new`. The glyph list is kept in index order as the glyphs are
   * first seen, which is the order `sorted_unstable_by_key(index)` restores
   * from the map.
   */
  method BookNew(input: seq<PageInput>) returns (book: Book)
    ensures Describes(input, book)
  {
    var glyphIndices, order, distribution, pages := IndexPages(input);
    var dictionary;
    pages, dictionary := FillDictionaries(input, glyphIndices, order, distribution, pages);
    book := Book(pages, dictionary, order);
  }

  lemma SingletonSet(s: set<nat>, x: nat)
    requires x in s && |s| <= 1
    ensures s == {x}
  {
    assert |s - {x}| == |s| - 1;
    assert s - {x} == {};
  }

  // ---------------------------------------------------------------------
  // Pages, entries and shared glyphs.
  // ---------------------------------------------------------------------

  /** `Page::glyph_entries`: book dictionary first, then page dictionary, else unique; in page order. */
  function GlyphEntries(book: Book, p: nat): (r: seq<GlyphEntry>)
    requires p < |book.pages|
    requires forall e :: e in book.pages[p].glyphEntries ==> e.1 < |book.glyphs|
    ensures |r| == |book.pages[p].glyphEntries|
    ensures forall k :: 0 <= k < |r| ==>
      r[k].location == book.pages[p].glyphEntries[k].0 && r[k].id == book.pages[p].glyphEntries[k].1
      && r[k].glyph == book.glyphs[r[k].id]
  {
    var entries := book.pages[p].glyphEntries;
    seq(|entries|, k requires 0 <= k < |entries| =>
      var index := entries[k].1;
      var kind := if index in book.dictionary then BookShared
                  else if index in book.pages[p].dictionary then PageShared
                  else Unique;
      GlyphEntry(entries[k].0, kind, index, book.glyphs[index]))
  }

  /**
   * In a book made by `Book::new`, an occurrence is BookShared iff its glyph
   * is on several pages, PageShared iff it occurs more than once and only on
   * this page, and Unique iff it occurs exactly once in the whole book.
   */
  lemma {:induction false} EntryKinds(input: seq<PageInput>, book: Book, p: nat, k: nat)
    requires Describes(input, book)
    requires p < |input| && k < |input[p].glyphs|
    ensures forall e :: e in book.pages[p].glyphEntries ==> e.1 < |book.glyphs|
    ensures
      var g := input[p].glyphs[k].0;
      var os := Occurrences(input);
      var kind := GlyphEntries(book, p)[k].kind;
      && GlyphEntries(book, p)[k].glyph == g
      && GlyphEntries(book, p)[k].location == input[p].glyphs[k].1
      && (kind == BookShared <==> |PagesOf(os, g)| > 1)
      && (kind == PageShared <==> PagesOf(os, g) == {p} && Count(os, g) > 1)
      && (kind == Unique <==> Count(os, g) == 1)
  {
    var os := Occurrences(input);
    var g := input[p].glyphs[k].0;
    var index := book.pages[p].glyphEntries[k].1;
    forall e | e in book.pages[p].glyphEntries
      ensures e.1 < |book.glyphs|
    {
      var j :| 0 <= j < |book.pages[p].glyphEntries| && book.pages[p].glyphEntries[j] == e;
    }
    OccurrenceOfEntry(input, p, k);
    var j :| 0 <= j < |os| && os[j] == (g, p);
    OccurrenceInPages(os, j);
    CountBoundsPages(os, g);
    assert book.glyphs[index] == g;
    if |PagesOf(os, g)| <= 1 {
      SingletonSet(PagesOf(os, g), p);
    }
    if Count(os, g) == 1 {
      assert |PagesOf(os, g)| <= 1;
    }
  }

  /** `Book::shared_glyphs` as a set: its order is that of a hash map, which is unspecified. */
  function BookSharedGlyphs(book: Book): (r: set<SharedGlyph>)
    requires forall i :: i in book.dictionary ==> i < |book.glyphs|
    ensures forall s :: s in r <==>
      s.id in book.dictionary && s.occurrenceCount == book.dictionary[s.id] && s.glyph == book.glyphs[s.id]
  {
    set i | i in book.dictionary :: SharedGlyph(i, book.dictionary[i], book.glyphs[i])
  }

  /** `Page::shared_glyphs` as a set, for the same reason. */
  function PageSharedGlyphs(book: Book, p: nat): (r: set<SharedGlyph>)
    requires p < |book.pages|
    requires forall i :: i in book.pages[p].dictionary ==> i < |book.glyphs|
    ensures forall s :: s in r <==>
      s.id in book.pages[p].dictionary && s.occurrenceCount == book.pages[p].dictionary[s.id]
      && s.glyph == book.glyphs[s.id]
  {
    set i | i in book.pages[p].dictionary :: SharedGlyph(i, book.pages[p].dictionary[i], book.glyphs[i])
  }

  /**
   * In a book made by `Book::new`, the glyph list has no repeats, holds every
   * glyph that occurs, and no glyph index is in both the book dictionary and
   * a page dictionary.
   */
  lemma DescribedBookShape(input: seq<PageInput>, book: Book)
    requires Describes(input, book)
    ensures forall i, j :: 0 <= i < j < |book.glyphs| ==> book.glyphs[i] != book.glyphs[j]
    ensures forall p, k :: 0 <= p < |input| && 0 <= k < |input[p].glyphs| ==> input[p].glyphs[k].0 in book.glyphs
    ensures forall p, i :: 0 <= p < |input| && i in book.pages[p].dictionary ==> i !in book.dictionary
    ensures forall i :: i in book.dictionary ==> i < |book.glyphs|
    ensures forall p, i :: 0 <= p < |input| && i in book.pages[p].dictionary ==> i < |book.glyphs|
  {
    FirstAppearanceMembers(Occurrences(input));
  }
}
