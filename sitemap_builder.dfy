/** The sitemap builder of sitemap-builder.php: it fills one bounded buffer per
    step from a source in ID order, stores the result as a numbered file, and
    advances the persisted generation state through the phases page → page index
    → image → image index → video → video index → master. */
module SitemapBuilder {
  import opened Common
  import opened SitemapTypes
  import opened SitemapFormat
  import opened SitemapBuffer
  import opened SitemapCursor
  import opened SitemapLibrarian
  import opened SitemapState

  /** The page builder's source: every post as a formatted item, keyed by post ID. */
  function PostSource(site: Site, posts: seq<Post>): seq<Candidate> {
    seq(|posts|, i requires 0 <= i < |posts| => Candidate(posts[i].id, PostToSitemapItem(site, posts[i])))
  }

  function ImageSource(images: seq<ImagePost>): seq<Candidate> {
    seq(|images|, i requires 0 <= i < |images| => Candidate(images[i].id, ImagePostToSitemapItem(images[i])))
  }

  function VideoSource(videos: seq<VideoPost>): seq<Candidate> {
    seq(|videos|, i requires 0 <= i < |videos| => Candidate(videos[i].id, VideoPostToSitemapItem(videos[i])))
  }

  /** An index builder's source: the stored files of the leaf type, keyed by row ID. */
  function IndexSource(rows: seq<Row>): seq<Candidate> {
    seq(|rows|, i requires 0 <= i < |rows| => Candidate(rows[i].id, SitemapRowToIndexItem(rows[i])))
  }

  /** The candidates of a leaf phase. */
  function LeafSource(site: Site, t: SitemapType, corpus: Corpus): seq<Candidate>
    requires IsLeaf(t)
  {
    match t
    case PageSitemap => PostSource(site, corpus.posts)
    case ImageSitemap => ImageSource(corpus.images)
    case VideoSitemap => VideoSource(corpus.videos)
  }

  lemma LeafSourceAscending(site: Site, t: SitemapType, corpus: Corpus)
    requires IsLeaf(t) && CorpusOrdered(corpus)
    ensures Ascending(LeafSource(site, t, corpus))
  {
  }

  /** The leaf files in table order form an ascending source. */
  lemma IndexSourceAscending(rows: seq<Row>, nextId: nat, leaf: SitemapType)
    requires RowsValid(rows, nextId)
    ensures Ascending(IndexSource(RowsOf(rows, leaf)))
  {
    RowsOfValid(rows, -1, nextId, leaf);
    ChainAscending(RowsOf(rows, leaf), -1, nextId);
  }

  /** The fill loop shared by the four `build_one_*` methods: query batches of
      `QueryLimit` items after the cursor and add them one by one until the buffer
      rejects one or a query comes back empty.
      - The items added are exactly the window of the source between the
        starting and the final cursor, in order.
      - The final cursor is the ID of the last item added.
      - `anyLeft` is false only after an empty query; when it is true, the item
        after the cursor did not fit. */
  method Fill(buf: Buffer, source: seq<Candidate>, fromId: nat) returns (lastId: nat, anyLeft: bool)
    requires buf.Valid() && Ascending(source)
    modifies buf
    ensures buf.Valid()
    ensures fromId <= lastId
    ensures var w := Window(source, fromId, lastId);
            && buf.items == old(buf.items) + Entries(w)
            && buf.lastModified == Latest(old(buf.lastModified), w)
            && (w == [] <==> lastId == fromId)
            && (w != [] ==> w[|w| - 1].id == lastId && Accepts(buf.maxItems, buf.maxBytes, buf.size, old(buf.items), w[0].item.entry))
    ensures old(buf.full) ==> lastId == fromId && anyLeft
    ensures !anyLeft ==> After(source, lastId) == []
    ensures anyLeft ==>
      && buf.full
      && (old(buf.full) || (After(source, lastId) != [] && !Accepts(buf.maxItems, buf.maxBytes, buf.size, buf.items, After(source, lastId)[0].item.entry)))
  {
    ghost var items0, time0 := buf.items, buf.lastModified;
    lastId := fromId;
    anyLeft := true;
    WindowEmpty(source, fromId);
    while !buf.full
      invariant buf.Valid()
      invariant Filled(buf, items0, time0, source, fromId, lastId)
      invariant anyLeft
      invariant old(buf.full) ==> lastId == fromId
      invariant buf.full ==>
        (old(buf.full) || (After(source, lastId) != [] && !Accepts(buf.maxItems, buf.maxBytes, buf.size, buf.items, After(source, lastId)[0].item.entry)))
      decreases !buf.full, |After(source, lastId)|
    {
      var batch := QueryAfter(source, lastId, QueryLimit);
      if batch == [] {
        anyLeft := false;
        break;
      }
      lastId := AddBatch(buf, items0, time0, source, fromId, lastId, batch);
    }
  }

  /** The buffer holds what a fill from cursor `fromId` to cursor `lastId` adds
      to `items0`, with its timestamp raised from `time0`. */
  ghost predicate Filled(buf: Buffer, items0: seq<Entry>, time0: string, source: seq<Candidate>, fromId: nat, lastId: nat)
    reads buf
  {
    FillState(buf.maxItems, buf.maxBytes, buf.size, buf.items, buf.lastModified, items0, time0, source, fromId, lastId)
  }

  ghost predicate FillState(
    maxItems: nat, maxBytes: nat, size: Entry -> nat, items: seq<Entry>, lastModified: string,
    items0: seq<Entry>, time0: string, source: seq<Candidate>, fromId: nat, lastId: nat)
  {
    var w := Window(source, fromId, lastId);
    && fromId <= lastId
    && items == items0 + Entries(w)
    && lastModified == Latest(time0, w)
    && (w == [] <==> lastId == fromId)
    && (w != [] ==> w[|w| - 1].id == lastId && Accepts(maxItems, maxBytes, size, items0, w[0].item.entry))
  }

  /** Adding the item after the cursor, when it fits, moves the cursor to it and
      keeps the fill's account of the buffer. */
  lemma FillStep(
    maxItems: nat, maxBytes: nat, size: Entry -> nat, items: seq<Entry>, lastModified: string,
    items0: seq<Entry>, time0: string, source: seq<Candidate>, fromId: nat, lastId: nat)
    requires Ascending(source) && After(source, lastId) != []
    requires FillState(maxItems, maxBytes, size, items, lastModified, items0, time0, source, fromId, lastId)
    requires Accepts(maxItems, maxBytes, size, items, After(source, lastId)[0].item.entry)
    ensures var c := After(source, lastId)[0];
            && lastId < c.id
            && After(source, c.id) == After(source, lastId)[1..]
            && FillState(maxItems, maxBytes, size, items + [c.item.entry], MaxTime(lastModified, c.item.lastModified),
                         items0, time0, source, fromId, c.id)
  {
    var c := After(source, lastId)[0];
    var w := Window(source, fromId, lastId);
    WindowStep(source, fromId, lastId);
    EntriesAppend(w, c);
    LatestAppend(time0, w, c);
    var w' := Window(source, fromId, c.id);
    assert w' == w + [c];
    if w == [] {
      assert lastId == fromId && items == items0;
      assert w'[0] == c;
    } else {
      assert w'[0] == w[0];
    }
  }

  /** One pass of the inner loop over a non-empty batch: add the items in order
      until one is rejected. The cursor ends at the last item added; either the
      item after it did not fit, or the whole batch went in. */
  method AddBatch(buf: Buffer, ghost items0: seq<Entry>, ghost time0: string, source: seq<Candidate>, fromId: nat, cursor0: nat, batch: seq<Candidate>)
    returns (lastId: nat)
    requires buf.Valid() && !buf.full && Ascending(source)
    requires Filled(buf, items0, time0, source, fromId, cursor0)
    requires batch == QueryAfter(source, cursor0, QueryLimit) && batch != []
    modifies buf
    ensures buf.Valid() && Filled(buf, items0, time0, source, fromId, lastId)
    ensures cursor0 <= lastId
    ensures buf.full ==> After(source, lastId) != [] && !Accepts(buf.maxItems, buf.maxBytes, buf.size, buf.items, After(source, lastId)[0].item.entry)
    ensures !buf.full ==> |After(source, lastId)| < |After(source, cursor0)|
  {
    lastId := cursor0;
    var i := 0;
    while i < |batch|
      invariant 0 <= i <= |batch|
      invariant buf.Valid() && !buf.full
      invariant cursor0 <= lastId
      invariant After(source, lastId) == After(source, cursor0)[i..]
      invariant Filled(buf, items0, time0, source, fromId, lastId)
      decreases |batch| - i
    {
      var candidate := batch[i];
      assert candidate == After(source, lastId)[0];
      ghost var items, lastModified := buf.items, buf.lastModified;
      var added := buf.TryToAddItem(candidate.item.entry);
      if !added {
        return;
      }
      FillStep(buf.maxItems, buf.maxBytes, buf.size, items, lastModified, items0, time0, source, fromId, lastId);
      lastId := candidate.id;
      buf.ViewTime(candidate.item.lastModified);
      i := i + 1;
    }
  }

  /** The entries of a built file: the head entry, if any, followed by the
      entries of the source window a fill from `fromId` to `lastId` consumed. */
  function BuiltContent(head: Option<Entry>, source: seq<Candidate>, fromId: nat, lastId: nat): seq<Entry> {
    (if head.Some? then [head.value] else []) + Entries(Window(source, fromId, lastId))
  }

  /** What a `build_one_*` call reports about its source. `head` is the entry
      added to the empty buffer before the fill (the home page or the previous
      index), and `initialTime` is the buffer's starting timestamp.
      - No file is built exactly when the first entry the buffer is offered does
        not fit in an empty buffer, or there is no entry at all.
      - Otherwise the reported cursor is the ID of the last item of the window
        the fill consumed, which is followed by the rest of the source, and the
        reported date is the latest timestamp among the initial one and the
        window's items.
      - `anyLeft` holds exactly when the source has items after the cursor, and
        then the first of them did not fit. */
  ghost predicate Reports(
    maxItems: nat, maxBytes: nat, size: Entry -> nat, fromId: nat, initialTime: string,
    head: Option<Entry>, source: seq<Candidate>, result: BuildResult)
  {
    var first :=
      if head.Some? then head
      else if After(source, fromId) == [] then None
      else Some(After(source, fromId)[0].item.entry);
    && (result.NoFile? <==> (first.None? || !Accepts(maxItems, maxBytes, size, [], first.value)))
    && (result.Built? ==>
          var w := Window(source, fromId, result.lastId);
          && fromId <= result.lastId
          && (w != [] ==> w[|w| - 1].id == result.lastId)
          && w + After(source, result.lastId) == After(source, fromId)
          && result.lastModified == Latest(initialTime, w)
          && (result.anyLeft <==> After(source, result.lastId) != [])
          && (result.anyLeft ==>
                !Accepts(maxItems, maxBytes, size, BuiltContent(head, source, fromId, result.lastId), After(source, result.lastId)[0].item.entry)))
  }

  /** What a `build_one_*` call promises, given the store `rows0` (next ID
      `nextId0`) before it and `rows1` after it: the report, and the file
      `FileName(kind, number)` stored with the built content and the reported
      date unless no file was built. */
  ghost predicate Builds(
    maxItems: nat, maxBytes: nat, size: Entry -> nat, rows0: seq<Row>, nextId0: nat, rows1: seq<Row>,
    kind: SitemapType, number: nat, fromId: nat, initialTime: string,
    head: Option<Entry>, source: seq<Candidate>, result: BuildResult)
  {
    && Reports(maxItems, maxBytes, size, fromId, initialTime, head, source, result)
    && (result.NoFile? ==> rows1 == rows0)
    && (result.Built? ==>
          rows1 == Upsert(rows0, nextId0, kind, number, BuiltContent(head, source, fromId, result.lastId), result.lastModified))
  }

  /** A fill after offering `head` to an empty buffer reports as `Reports` says:
      the buffer stays empty exactly when no file is to be built, and otherwise
      holds the built content. The requires are what the buffer and `Fill`
      promise. */
  lemma FillReports(
    maxItems: nat, maxBytes: nat, size: Entry -> nat, fromId: nat, initialTime: string,
    head: Option<Entry>, source: seq<Candidate>,
    items0: seq<Entry>, full0: bool, items: seq<Entry>, lastModified: string, lastId: nat, anyLeft: bool)
    requires Ascending(source)
    requires head.None? ==> items0 == [] && !full0
    requires head.Some? ==>
      var fits := Accepts(maxItems, maxBytes, size, [], head.value);
      items0 == (if fits then [head.value] else []) && full0 == !fits
    requires fromId <= lastId
    requires var w := Window(source, fromId, lastId);
             && items == items0 + Entries(w)
             && lastModified == Latest(initialTime, w)
             && (w == [] <==> lastId == fromId)
             && (w != [] ==> w[|w| - 1].id == lastId && Accepts(maxItems, maxBytes, size, items0, w[0].item.entry))
    requires full0 ==> lastId == fromId && anyLeft
    requires !anyLeft ==> After(source, lastId) == []
    requires anyLeft ==>
      full0 || (After(source, lastId) != [] && !Accepts(maxItems, maxBytes, size, items, After(source, lastId)[0].item.entry))
    ensures var result := if items == [] then NoFile else Built(lastId, anyLeft, lastModified);
            Reports(maxItems, maxBytes, size, fromId, initialTime, head, source, result)
    ensures items != [] ==> items == BuiltContent(head, source, fromId, lastId)
  {
    var w := Window(source, fromId, lastId);
    WindowThenAfter(source, fromId, lastId);
    if head.None? {
      assert items == Entries(w);
      if After(source, fromId) != [] && w == [] {
        assert lastId == fromId;
      }
      if w != [] {
        assert After(source, fromId)[0] == w[0];
      }
    } else {
      assert [] + Entries(w) == Entries(w);
    }
  }

  /** The store holds file `number` of `kind` with this content and date. */
  ghost predicate Holds(rows: seq<Row>, kind: SitemapType, number: nat, content: seq<Entry>, lastmod: string) {
    && FindFile(rows, kind, number).Some?
    && FindFile(rows, kind, number).value.content == content
    && FindFile(rows, kind, number).value.lastmod == lastmod
  }

  /** The candidates the builder of phase `t` reads: the formatted content of a
      leaf type, or the stored files of the leaf type of an index type. */
  function PhaseSource(site: Site, t: SitemapType, corpus: Corpus, rows: seq<Row>): seq<Candidate> {
    if IsLeaf(t) then LeafSource(site, t, corpus)
    else if IsIndex(t) then IndexSource(RowsOf(rows, LeafOf(t)))
    else []
  }

  /** The entry file `number` of phase `t` starts with: the home page on page
      file 1, the pointer to the previous index file on index files after the first. */
  function PhaseHead(site: Site, t: SitemapType, number: nat, timestamp: string): Option<Entry> {
    if t == PageSitemap && number == 1 then Some(HomeEntry(site))
    else if IsIndex(t) && number > 1 then Some(PreviousIndexEntry(t, number, timestamp))
    else None
  }

  /** The starting timestamp of a phase's buffer: the epoch for leaf files, the
      state's timestamp for index files. */
  function PhaseStartTime(t: SitemapType, timestamp: string): string {
    if IsIndex(t) then timestamp else Epoch
  }

  /** What a build step from record `s` over the store `rows0` promises about
      the file it builds: the builder of the phase reports as `Reports` says,
      starting at cursor `last-added`, and a built file `number + 1` is held by
      the store `rows` afterwards with the built content and the reported date. */
  ghost predicate StepPublishes(
    maxItems: nat, maxBytes: nat, size: Entry -> nat, site: Site, corpus: Corpus,
    s: State, rows0: seq<Row>, rows: seq<Row>, result: BuildResult)
  {
    var t := s.sitemapType;
    var n := s.number + 1;
    var head := PhaseHead(site, t, n, s.lastModified);
    var source := PhaseSource(site, t, corpus, rows0);
    && Reports(maxItems, maxBytes, size, s.lastAdded, PhaseStartTime(t, s.lastModified), head, source, result)
    && (result.Built? ==> Holds(rows, t, n, BuiltContent(head, source, s.lastAdded, result.lastId), result.lastModified))
  }

  /** What the builder of phase `t` does to the store, `rows0` and `nextId0`
      before and `rows1` after: it `Builds` file `number` from the phase's head
      entry, source and starting time; no file leaves the store as it was; a
      built file holds the content `Builds` names, dated by the reported time,
      and adds exactly its number to the type's files; other types keep their
      files. */
  ghost predicate PhaseBuilt(
    maxItems: nat, maxBytes: nat, size: Entry -> nat, site: Site, corpus: Corpus,
    t: SitemapType, number: nat, fromId: nat, timestamp: string,
    rows0: seq<Row>, nextId0: nat, rows1: seq<Row>, result: BuildResult)
  {
    var head := PhaseHead(site, t, number, timestamp);
    var source := PhaseSource(site, t, corpus, rows0);
    && Builds(maxItems, maxBytes, size, rows0, nextId0, rows1, t, number, fromId, PhaseStartTime(t, timestamp), head, source, result)
    && (result.NoFile? ==> rows1 == rows0)
    && (result.Built? ==>
          && Holds(rows1, t, number, BuiltContent(head, source, fromId, result.lastId), result.lastModified)
          && Dated(rows1, t, number, result.lastModified)
          && Numbers(rows1, t) == Numbers(rows0, t) + {number})
    && (forall k :: k != t ==> RowsOf(rows1, k) == RowsOf(rows0, k))
  }

  /** A phase build, followed by a clean-up that keeps its file, publishes the step. */
  lemma BuildsPublish(
    maxItems: nat, maxBytes: nat, size: Entry -> nat, site: Site, corpus: Corpus,
    s: State, rows0: seq<Row>, nextId0: nat, rows1: seq<Row>, rows2: seq<Row>, result: BuildResult)
    requires PhaseBuilt(maxItems, maxBytes, size, site, corpus, s.sitemapType, s.number + 1, s.lastAdded, s.lastModified,
                        rows0, nextId0, rows1, result)
    requires result.Built? ==> FindFile(rows2, s.sitemapType, s.number + 1) == FindFile(rows1, s.sitemapType, s.number + 1)
    ensures StepPublishes(maxItems, maxBytes, size, site, corpus, s, rows0, rows2, result)
  {
    var t, n := s.sitemapType, s.number + 1;
    var head, source := PhaseHead(site, t, n, s.lastModified), PhaseSource(site, t, corpus, rows0);
    BuildsStores(maxItems, maxBytes, size, rows0, nextId0, rows1, t, n, s.lastAdded,
      PhaseStartTime(t, s.lastModified), head, source, result);
  }

  /** A built file is stored under its number with its date; other types keep their files. */
  lemma BuildsStores(
    maxItems: nat, maxBytes: nat, size: Entry -> nat, rows0: seq<Row>, nextId0: nat, rows1: seq<Row>,
    kind: SitemapType, number: nat, fromId: nat, initialTime: string,
    head: Option<Entry>, source: seq<Candidate>, result: BuildResult)
    requires Builds(maxItems, maxBytes, size, rows0, nextId0, rows1, kind, number, fromId, initialTime, head, source, result)
    ensures result.Built? ==>
      && FindFile(rows1, kind, number).Some?
      && Holds(rows1, kind, number, BuiltContent(head, source, fromId, result.lastId), result.lastModified)
      && (head.Some? ==> [head.value] <= FindFile(rows1, kind, number).value.content)
      && Numbers(rows1, kind) == Numbers(rows0, kind) + {number}
    ensures forall k :: k != kind ==> RowsOf(rows1, k) == RowsOf(rows0, k)
  {
    if result.Built? {
      var content := BuiltContent(head, source, fromId, result.lastId);
      UpsertStores(rows0, nextId0, kind, number, content, result.lastModified);
      UpsertNumbers(rows0, nextId0, kind, number, content, result.lastModified);
    }
  }

  /** `1 ..< n + 1`: the numbers of the files a phase that built `n` keeps. */
  function Range(n: nat): (r: set<nat>)
    ensures forall x :: x in r <==> 1 <= x <= n
    decreases n
  {
    if n == 0 then {} else Range(n - 1) + {n}
  }

  /** File `n` of type `k` is stored with date `lastmod` (number 0 names no file). */
  ghost predicate Dated(rows: seq<Row>, k: SitemapType, n: nat, lastmod: string) {
    n == 0 || (FindFile(rows, k, n).Some? && FindFile(rows, k, n).value.lastmod == lastmod)
  }

  /** The pointer that starts index file `number + 1` names the previous index
      file, which the store keeps, and carries that file's date in W3C form. */
  lemma PreviousIndexNamesStoredFile(s: State, rows: seq<Row>)
    requires StoreMatches(s, rows) && IsIndex(s.sitemapType) && s.number >= 1
    ensures var e := PreviousIndexEntry(s.sitemapType, s.number + 1, s.lastModified);
            && FindFile(rows, s.sitemapType, s.number).Some?
            && e.file == FileName(s.sitemapType, s.number) + ".xml"
            && e.lastmod == W3cTime(FindFile(rows, s.sitemapType, s.number).value.lastmod)
  {
    assert CurrentMatch(s, rows);
  }

  /** How the stored files relate to the generation state:
      - numbered files are numbered from 1;
      - a type whose phase is finished in this cycle has exactly the files its
        history counts, and the last of them carries the history's date;
      - the current phase has stored its files 1 to `number`, the last one
        dated by the state's timestamp. */
  ghost predicate StoreMatches(s: State, rows: seq<Row>) {
    NumberedFromOne(rows) && FinishedMatch(s, rows) && CurrentMatch(s, rows)
  }

  ghost predicate NumberedFromOne(rows: seq<Row>) {
    forall k :: k != MasterSitemap ==> 0 !in Numbers(rows, k)
  }

  ghost predicate FinishedMatch(s: State, rows: seq<Row>) {
    forall k :: k != MasterSitemap && Rank(k) < Rank(s.sitemapType) ==>
      Numbers(rows, k) == Range(MaxNumber(s.max, k))
      && Dated(rows, k, MaxNumber(s.max, k), MaxLastmod(s.max, k))
  }

  ghost predicate CurrentMatch(s: State, rows: seq<Row>) {
    s.sitemapType != MasterSitemap ==>
      Range(s.number) <= Numbers(rows, s.sitemapType)
      && Dated(rows, s.sitemapType, s.number, s.lastModified)
  }

  /** The effect of one step with outcome `o` from record `s` on the stored
      files, `rows0` before and `rows1` after. Files of types other than the
      current phase's are untouched; the master step stores master file 0 with
      an empty date. */
  ghost predicate StoreEffect(s: State, o: StepOutcome, rows0: seq<Row>, rows1: seq<Row>) {
    var t := s.sitemapType;
    && (forall k :: k != t ==> RowsOf(rows1, k) == RowsOf(rows0, k))
    && match o
       case Locked => rows1 == rows0
       case CycleComplete =>
         && Numbers(rows1, MasterSitemap) == Numbers(rows0, MasterSitemap) + {0}
         && FindFile(rows1, MasterSitemap, 0).Some? && FindFile(rows1, MasterSitemap, 0).value.lastmod == ""
       case IndexSkipped =>
         Numbers(rows1, t) == AtMost(Numbers(rows0, t), 0)
       case Stepped(NoFile) =>
         && Numbers(rows1, t) == AtMost(Numbers(rows0, t), s.number)
         && FindFile(rows1, t, s.number) == FindFile(rows0, t, s.number)
       case Stepped(Built(_, anyLeft, lastModified)) =>
         && Numbers(rows1, t) == (if anyLeft then Numbers(rows0, t) + {s.number + 1}
                                  else AtMost(Numbers(rows0, t), s.number + 1) + {s.number + 1})
         && Dated(rows1, t, s.number + 1, lastModified)
  }

  lemma {:induction false} UntouchedTypes(rows0: seq<Row>, rows1: seq<Row>, k: SitemapType)
    requires RowsOf(rows1, k) == RowsOf(rows0, k)
    ensures Numbers(rows1, k) == Numbers(rows0, k)
    ensures forall n :: FindFile(rows1, k, n) == FindFile(rows0, k, n)
  {
    NumbersOfRowsOf(rows0, k);
    NumbersOfRowsOf(rows1, k);
    forall n ensures FindFile(rows1, k, n) == FindFile(rows0, k, n) {
      FindFileRowsOf(rows0, k, n);
      FindFileRowsOf(rows1, k, n);
    }
  }

  /** The store after a failed build and the cleanup at the old count. */
  lemma NoFileEffect(s: State, rows0: seq<Row>, rows1: seq<Row>)
    requires forall k :: k != s.sitemapType ==> RowsOf(rows1, k) == RowsOf(rows0, k)
    requires Numbers(rows1, s.sitemapType) == AtMost(Numbers(rows0, s.sitemapType), s.number)
    requires forall n: nat :: n <= s.number ==> FindFile(rows1, s.sitemapType, n) == FindFile(rows0, s.sitemapType, n)
    ensures StoreEffect(s, Stepped(NoFile), rows0, rows1)
  {
  }

  /** The store after a built file (`rows1`), and after the cleanup at the new
      count when the phase is over (`rows2`). */
  lemma BuiltEffect(s: State, result: BuildResult, rows0: seq<Row>, rows1: seq<Row>, rows2: seq<Row>)
    requires result.Built?
    requires forall k :: k != s.sitemapType ==> RowsOf(rows1, k) == RowsOf(rows0, k)
    requires Numbers(rows1, s.sitemapType) == Numbers(rows0, s.sitemapType) + {s.number + 1}
    requires Dated(rows1, s.sitemapType, s.number + 1, result.lastModified)
    requires result.anyLeft ==> rows2 == rows1
    requires !result.anyLeft ==>
      && (forall k :: k != s.sitemapType ==> RowsOf(rows2, k) == RowsOf(rows1, k))
      && Numbers(rows2, s.sitemapType) == AtMost(Numbers(rows1, s.sitemapType), s.number + 1)
      && (forall n: nat :: n <= s.number + 1 ==> FindFile(rows2, s.sitemapType, n) == FindFile(rows1, s.sitemapType, n))
    ensures StoreEffect(s, Stepped(result), rows0, rows2)
  {
    var t := s.sitemapType;
    if !result.anyLeft {
      assert FindFile(rows2, t, s.number + 1) == FindFile(rows1, t, s.number + 1);
      assert Numbers(rows2, t) == AtMost(Numbers(rows0, t), s.number + 1) + {s.number + 1} by {
        forall x ensures x in Numbers(rows2, t) <==> x in AtMost(Numbers(rows0, t), s.number + 1) + {s.number + 1} {
        }
      }
    }
  }

  /** The types a step does not build keep their files. */
  lemma OtherTypesKept(s: State, o: StepOutcome, rows0: seq<Row>, rows1: seq<Row>)
    requires StoreEffect(s, o, rows0, rows1)
    ensures forall k :: k != s.sitemapType ==>
      Numbers(rows1, k) == Numbers(rows0, k) && forall n :: FindFile(rows1, k, n) == FindFile(rows0, k, n)
  {
    forall k | k != s.sitemapType
      ensures Numbers(rows1, k) == Numbers(rows0, k) && forall n :: FindFile(rows1, k, n) == FindFile(rows0, k, n)
    {
      UntouchedTypes(rows0, rows1, k);
    }
  }

  /** Cutting a set of file numbers that holds 1 to `c` and not 0 at `c` leaves exactly 1 to `c`. */
  lemma CutRange(n0: set<nat>, c: nat)
    requires Range(c) <= n0 && 0 !in n0
    ensures AtMost(n0, c) == Range(c)
  {
    var cut := AtMost(n0, c);
    forall x ensures x in cut <==> x in Range(c) {
      if x in Range(c) {
        assert x in n0;
      }
    }
  }

  /** Adding file `c + 1` to files 1 to `c` gives files 1 to `c + 1`. */
  lemma CutRangeAdd(n0: set<nat>, c: nat)
    requires Range(c) <= n0 && 0 !in n0
    ensures AtMost(n0, c + 1) + {c + 1} == Range(c + 1)
    ensures Range(c + 1) <= n0 + {c + 1}
  {
    var cut := AtMost(n0, c + 1) + {c + 1};
    forall x ensures x in cut <==> x in Range(c + 1) {
      if x in Range(c + 1) && x != c + 1 {
        assert x in Range(c);
      }
    }
  }

  /** When a phase ends, its type keeps exactly the files 1 to the count its
      history records, and the last of them carries the history's date. */
  lemma {:induction false} PhaseEndFiles(s: State, o: StepOutcome, rows0: seq<Row>, rows1: seq<Row>, m: nat, d: string)
    requires StateValid(s) && Possible(s, o)
    requires o != Locked && !Continues(o) && s.sitemapType != MasterSitemap
    requires Range(s.number) <= Numbers(rows0, s.sitemapType) && 0 !in Numbers(rows0, s.sitemapType)
    requires Dated(rows0, s.sitemapType, s.number, s.lastModified)
    requires StoreEffect(s, o, rows0, rows1)
    requires CleanupOf(s, o) == Some(m)
    requires m != 0 ==> d == (if o.Stepped? && o.result.Built? then o.result.lastModified else s.lastModified)
    ensures Numbers(rows1, s.sitemapType) == Range(m) && Dated(rows1, s.sitemapType, m, d)
  {
    var t := s.sitemapType;
    var n0 := Numbers(rows0, t);
    match o {
      case IndexSkipped =>
        CutRange(n0, 0);
      case Stepped(NoFile) =>
        CutRange(n0, s.number);
        DatedKept(rows0, rows1, t, m, s.lastModified, d);
      case Stepped(Built(_, anyLeft, lastModified)) =>
        CutRangeAdd(n0, s.number);
    }
  }

  lemma DatedKept(rows0: seq<Row>, rows1: seq<Row>, t: SitemapType, n: nat, lastmod: string, d: string)
    requires Dated(rows0, t, n, lastmod) && (n != 0 ==> d == lastmod)
    requires FindFile(rows1, t, n) == FindFile(rows0, t, n)
    ensures Dated(rows1, t, n, d)
  {
  }

  /** A step keeps numbered files numbered from 1. */
  lemma StepKeepsNumbering(s: State, o: StepOutcome, rows0: seq<Row>, rows1: seq<Row>)
    requires StoreMatches(s, rows0) && Possible(s, o) && StoreEffect(s, o, rows0, rows1)
    ensures NumberedFromOne(rows1)
  {
    OtherTypesKept(s, o, rows0, rows1);
    var t := s.sitemapType;
    if t != MasterSitemap {
      var n0, n1 := Numbers(rows0, t), Numbers(rows1, t);
      assert 0 !in n0;
      if o.IndexSkipped? || o == Stepped(NoFile) {
        assert forall x :: x in n1 ==> x in n0;
      } else if o.Stepped? {
        assert forall x :: x in n1 ==> x in n0 || x == s.number + 1;
      }
    }
  }

  /** A step that continues its phase stores the next file of it. */
  lemma {:induction false} ContinueKeepsStoreMatches(s: State, o: StepOutcome, rows0: seq<Row>, rows1: seq<Row>)
    requires StateValid(s) && StoreMatches(s, rows0) && Possible(s, o) && Continues(o)
    requires StoreEffect(s, o, rows0, rows1)
    ensures StoreMatches(NextRecord(s, o), rows1)
  {
    var t := s.sitemapType;
    var r := NextRecord(s, o);
    StepKeepsNumbering(s, o, rows0, rows1);
    ContinueKeepsPhase(s, o.result.lastId, o.result.lastModified);
    CutRangeAdd(Numbers(rows0, t), s.number);
    assert CurrentMatch(r, rows1);
    FinishedAfterContinue(s, r, rows0, rows1);
  }

  /** The finished phases after a step that stays in its phase are untouched. */
  lemma FinishedAfterContinue(s: State, r: State, rows0: seq<Row>, rows1: seq<Row>)
    requires FinishedMatch(s, rows0)
    requires r.sitemapType == s.sitemapType && r.max == s.max[s.sitemapType := MaxEntry(r.number, r.lastModified)]
    requires forall k :: k != s.sitemapType ==> RowsOf(rows1, k) == RowsOf(rows0, k)
    ensures FinishedMatch(r, rows1)
  {
    forall k | k != MasterSitemap && Rank(k) < Rank(r.sitemapType)
      ensures Numbers(rows1, k) == Range(MaxNumber(r.max, k))
      ensures Dated(rows1, k, MaxNumber(r.max, k), MaxLastmod(r.max, k))
    {
      assert k != s.sitemapType;
      UntouchedTypes(rows0, rows1, k);
    }
  }

  /** A step that ends its phase moves the finished type into the finished ones. */
  lemma {:induction false} PhaseEndKeepsStoreMatches(s: State, o: StepOutcome, rows0: seq<Row>, rows1: seq<Row>)
    requires StateValid(s) && StoreMatches(s, rows0) && Possible(s, o)
    requires o != Locked && !Continues(o) && s.sitemapType != MasterSitemap
    requires StoreEffect(s, o, rows0, rows1)
    ensures StoreMatches(NextRecord(s, o), rows1)
  {
    var r := NextRecord(s, o);
    StepKeepsNumbering(s, o, rows0, rows1);
    assert 0 !in Numbers(rows0, s.sitemapType);
    CleanupIsFinalCount(s, o);
    PhaseEndFiles(s, o, rows0, rows1, MaxNumber(r.max, s.sitemapType), MaxLastmod(r.max, s.sitemapType));
    PhaseEndStartsFresh(s, o);
    assert Range(0) == {};
    assert CurrentMatch(r, rows1);
    FinishedAfterPhaseEnd(s, r, rows0, rows1);
  }

  /** The finished phases after a phase ends: the one just finished, with its
      final files, and the earlier ones, untouched. */
  lemma FinishedAfterPhaseEnd(s: State, r: State, rows0: seq<Row>, rows1: seq<Row>)
    requires FinishedMatch(s, rows0) && s.sitemapType != MasterSitemap
    requires r.sitemapType == Succ(s.sitemapType)
    requires forall k :: k != s.sitemapType && k != Succ(s.sitemapType) ==>
      MaxNumber(r.max, k) == MaxNumber(s.max, k) && MaxLastmod(r.max, k) == MaxLastmod(s.max, k)
    requires forall k :: k != s.sitemapType ==> RowsOf(rows1, k) == RowsOf(rows0, k)
    requires Numbers(rows1, s.sitemapType) == Range(MaxNumber(r.max, s.sitemapType))
    requires Dated(rows1, s.sitemapType, MaxNumber(r.max, s.sitemapType), MaxLastmod(r.max, s.sitemapType))
    ensures FinishedMatch(r, rows1)
  {
    var t := s.sitemapType;
    forall k | k != MasterSitemap && Rank(k) < Rank(r.sitemapType)
      ensures Numbers(rows1, k) == Range(MaxNumber(r.max, k))
      ensures Dated(rows1, k, MaxNumber(r.max, k), MaxLastmod(r.max, k))
    {
      if k != t {
        assert k != Succ(t);
        UntouchedTypes(rows0, rows1, k);
      }
    }
  }

  /** A step keeps the stored files in line with the state. In particular, once a
      phase ends, its type holds exactly the files 1 to the count its history
      records. */
  lemma StepKeepsStoreMatches(s: State, o: StepOutcome, rows0: seq<Row>, rows1: seq<Row>)
    requires StateValid(s) && StoreMatches(s, rows0) && Possible(s, o)
    requires StoreEffect(s, o, rows0, rows1)
    ensures StoreMatches(NextRecord(s, o), rows1)
  {
    if o.CycleComplete? {
      StepKeepsNumbering(s, o, rows0, rows1);
    } else if Continues(o) {
      ContinueKeepsStoreMatches(s, o, rows0, rows1);
    } else if o != Locked {
      PhaseEndKeepsStoreMatches(s, o, rows0, rows1);
    }
  }

  /** After a step that cleans up, the finished phase's type holds exactly the
      files 1 to the cleanup cutoff. */
  lemma CleanupLeavesFinalFiles(s: State, o: StepOutcome, rows: seq<Row>)
    requires StateValid(s) && Possible(s, o) && StoreMatches(NextRecord(s, o), rows)
    ensures CleanupOf(s, o).Some? ==> Numbers(rows, s.sitemapType) == Range(CleanupOf(s, o).value)
  {
    if CleanupOf(s, o).Some? {
      CleanupIsFinalCount(s, o);
      assert Rank(s.sitemapType) < Rank(NextRecord(s, o).sitemapType);
    }
  }

  /** The file the master sitemap points at for one content type, and the date
      it gives that file. */
  datatype MasterRef = MasterRef(file: string, date: string)

  /** `build_master_sitemap`'s choice for one content type: no entry when no file
      was built; the only leaf file when there is one; the last index file
      otherwise, each dated by the history's 'Y-m-d H:i:s' timestamp. */
  function MasterTarget(max: map<SitemapType, MaxEntry>, leaf: SitemapType): (r: Option<MasterRef>)
    requires IsLeaf(leaf)
    ensures r.None? <==> MaxNumber(max, leaf) == 0
  {
    var count := MaxNumber(max, leaf);
    if count == 0 then None
    else if count == 1 then Some(MasterRef(NamePrefix(leaf) + "1.xml", MaxLastmod(max, leaf)))
    else
      var index := IndexOf(leaf);
      Some(MasterRef(NamePrefix(index) + NumberText(max, index) + ".xml", MaxLastmod(max, index)))
  }

  /** The master entry exactly as written: the timestamp goes into `<lastmod>` unconverted. */
  function MasterEntryAsWritten(max: map<SitemapType, MaxEntry>, leaf: SitemapType): (e: Option<Entry>)
    requires IsLeaf(leaf)
    ensures e.None? <==> MaxNumber(max, leaf) == 0
    ensures e.Some? ==> e.value == SitemapEntry(MasterTarget(max, leaf).value.file, MasterTarget(max, leaf).value.date)
  {
    match MasterTarget(max, leaf)
    case None => None
    case Some(r) => Some(SitemapEntry(r.file, r.date))
  }

  /** The master entry with its date in W3C form, as every other index entry has it. */
  function MasterEntry(max: map<SitemapType, MaxEntry>, leaf: SitemapType): (e: Option<Entry>)
    requires IsLeaf(leaf)
    ensures e.None? <==> MaxNumber(max, leaf) == 0
    ensures e.Some? ==>
      && e.value.SitemapEntry? && NoChar(e.value.lastmod, ' ')
      && |e.value.lastmod| >= 1 && e.value.lastmod[|e.value.lastmod| - 1] == 'Z'
  {
    match MasterTarget(max, leaf)
    case None => None
    case Some(r) => Some(SitemapEntry(r.file, W3cTime(r.date)))
  }

  /** The date the master sitemap publishes for a type with a single page file is
      the raw history timestamp, with its space: not a W3C datetime, unlike the
      `<lastmod>` of every index entry. */
  lemma MasterLastmodNotW3c()
    ensures var max := map[PageSitemap := MaxEntry(1, "2017-06-01 12:00:00")];
            var e := MasterEntryAsWritten(max, PageSitemap);
            e.Some? && e.value.lastmod[10] == ' ' && !NoChar(e.value.lastmod, ' ')
  {
    var max := map[PageSitemap := MaxEntry(1, "2017-06-01 12:00:00")];
    var e := MasterEntryAsWritten(max, PageSitemap);
    assert e.value.lastmod == "2017-06-01 12:00:00";
    assert e.value.lastmod[10] == ' ';
  }

  /** At the master phase, the entry for a type names the file the store keeps
      for it: nothing when the type has no files, its only leaf file when it has
      one, and otherwise the last index file, with that file's date. The one
      exception is a type with several leaf files whose index phase built no
      file (its first leaf pointer did not fit an empty buffer): the store keeps
      no index file, yet the entry names index file 0 (`…index-0.xml`). */
  lemma {:induction false} MasterEntryNamesStoredFile(s: State, rows: seq<Row>, leaf: SitemapType)
    requires StoreMatches(s, rows) && s.sitemapType == MasterSitemap && IsLeaf(leaf)
    ensures var e := MasterEntry(s.max, leaf);
            var count := MaxNumber(s.max, leaf);
            var index := IndexOf(leaf);
            var m := MaxNumber(s.max, index);
            && (e.None? <==> Numbers(rows, leaf) == {})
            && (count == 1 ==>
                  && Numbers(rows, leaf) == {1}
                  && e == Some(SitemapEntry(FileName(leaf, 1) + ".xml", W3cTime(FindFile(rows, leaf, 1).value.lastmod))))
            && (count >= 2 && m >= 1 ==>
                  && Numbers(rows, index) == Range(m)
                  && e == Some(SitemapEntry(FileName(index, m) + ".xml", W3cTime(FindFile(rows, index, m).value.lastmod))))
            && (count >= 2 && m == 0 ==>
                  && Numbers(rows, index) == {}
                  && e == Some(SitemapEntry(NamePrefix(index) + NumberText(s.max, index) + ".xml", W3cTime(MaxLastmod(s.max, index))))
                  && (index in s.max ==> e.value.file == FileName(index, 0) + ".xml"))
  {
    var index := IndexOf(leaf);
    assert Rank(leaf) < Rank(MasterSitemap) && Rank(index) < Rank(MasterSitemap);
    MasterEntryOfFinished(s.max, rows, leaf);
  }

  /** `MasterEntryNamesStoredFile` for a history whose leaf and index types are
      both finished. */
  lemma MasterEntryOfFinished(max: map<SitemapType, MaxEntry>, rows: seq<Row>, leaf: SitemapType)
    requires IsLeaf(leaf)
    requires Numbers(rows, leaf) == Range(MaxNumber(max, leaf))
    requires Dated(rows, leaf, MaxNumber(max, leaf), MaxLastmod(max, leaf))
    requires Numbers(rows, IndexOf(leaf)) == Range(MaxNumber(max, IndexOf(leaf)))
    requires Dated(rows, IndexOf(leaf), MaxNumber(max, IndexOf(leaf)), MaxLastmod(max, IndexOf(leaf)))
    ensures var e := MasterEntry(max, leaf);
            var count := MaxNumber(max, leaf);
            var index := IndexOf(leaf);
            var m := MaxNumber(max, index);
            && (e.None? <==> Numbers(rows, leaf) == {})
            && (count == 1 ==>
                  && Numbers(rows, leaf) == {1}
                  && e == Some(SitemapEntry(FileName(leaf, 1) + ".xml", W3cTime(FindFile(rows, leaf, 1).value.lastmod))))
            && (count >= 2 && m >= 1 ==>
                  && Numbers(rows, index) == Range(m)
                  && e == Some(SitemapEntry(FileName(index, m) + ".xml", W3cTime(FindFile(rows, index, m).value.lastmod))))
            && (count >= 2 && m == 0 ==>
                  && Numbers(rows, index) == {}
                  && e == Some(SitemapEntry(NamePrefix(index) + NumberText(max, index) + ".xml", W3cTime(MaxLastmod(max, index))))
                  && (index in max ==> e.value.file == FileName(index, 0) + ".xml"))
  {
    var count := MaxNumber(max, leaf);
    if count >= 1 {
      assert 1 in Range(count);
    }
    if count == 1 {
      assert Range(1) == {1} by {
        assert Range(0) == {};
      }
      FirstFileName(leaf);
    }
    if MaxNumber(max, IndexOf(leaf)) == 0 {
      assert Range(0) == {};
    }
  }

  /** The master sitemap's content: each present entry, offered in turn to a
      buffer that keeps those that fit (the result of `try_to_add_item` is not
      looked at). */
  function Offer(maxItems: nat, maxBytes: nat, size: Entry -> nat, items: seq<Entry>, e: Option<Entry>): seq<Entry> {
    match e
    case None => items
    case Some(x) => if Accepts(maxItems, maxBytes, size, items, x) then items + [x] else items
  }

  function MasterContent(maxItems: nat, maxBytes: nat, size: Entry -> nat, max: map<SitemapType, MaxEntry>): seq<Entry> {
    var page := Offer(maxItems, maxBytes, size, [], MasterEntry(max, PageSitemap));
    var image := Offer(maxItems, maxBytes, size, page, MasterEntry(max, ImageSitemap));
    Offer(maxItems, maxBytes, size, image, MasterEntry(max, VideoSitemap))
  }

  /** The entries of the types that have files, in page, image, video order. */
  function MasterEntries(max: map<SitemapType, MaxEntry>): seq<Entry> {
    Present(MasterEntry(max, PageSitemap)) + Present(MasterEntry(max, ImageSitemap)) + Present(MasterEntry(max, VideoSitemap))
  }

  function Present(e: Option<Entry>): seq<Entry> {
    if e.Some? then [e.value] else []
  }

  /** Offering a present entry that fits appends it. */
  lemma OfferFits(maxItems: nat, maxBytes: nat, size: Entry -> nat, items: seq<Entry>, e: Option<Entry>)
    requires |items + Present(e)| <= maxItems && TotalSize(size, items + Present(e)) <= maxBytes
    ensures Offer(maxItems, maxBytes, size, items, e) == items + Present(e)
  {
    if e.Some? {
      TotalSizeAppend(size, items, e.value);
    } else {
      assert items + [] == items;
    }
  }

  /** Three offers to an empty buffer with room for all of them keep all of them. */
  lemma {:induction false} OfferThree(maxItems: nat, maxBytes: nat, size: Entry -> nat, p: Option<Entry>, q: Option<Entry>, v: Option<Entry>)
    requires 3 <= maxItems && TotalSize(size, Present(p) + Present(q) + Present(v)) <= maxBytes
    ensures Offer(maxItems, maxBytes, size, Offer(maxItems, maxBytes, size, Offer(maxItems, maxBytes, size, [], p), q), v)
            == Present(p) + Present(q) + Present(v)
  {
    var a, b, c := Present(p), Present(q), Present(v);
    TotalSizePrefix(size, a + b, c);
    TotalSizePrefix(size, a, b);
    assert [] + a == a;
    OfferFits(maxItems, maxBytes, size, [], p);
    OfferFits(maxItems, maxBytes, size, a, q);
    OfferFits(maxItems, maxBytes, size, a + b, v);
  }

  /** With room for three entries, the master sitemap lists every type that has
      files, one entry each. */
  lemma MasterContentComplete(maxItems: nat, maxBytes: nat, size: Entry -> nat, max: map<SitemapType, MaxEntry>)
    requires 3 <= maxItems && TotalSize(size, MasterEntries(max)) <= maxBytes
    ensures MasterContent(maxItems, maxBytes, size, max) == MasterEntries(max)
  {
    OfferThree(maxItems, maxBytes, size, MasterEntry(max, PageSitemap), MasterEntry(max, ImageSitemap), MasterEntry(max, VideoSitemap));
  }

  lemma {:induction false} TotalSizePrefix(size: Entry -> nat, a: seq<Entry>, b: seq<Entry>)
    ensures TotalSize(size, a) <= TotalSize(size, a + b)
    decreases |b|
  {
    if b != [] {
      var init := b[..|b| - 1];
      TotalSizePrefix(size, a, init);
      assert a + b == (a + init) + [b[|b| - 1]];
      TotalSizeAppend(size, a + init, b[|b| - 1]);
    } else {
      assert a + b == a;
    }
  }

  /** `Jetpack_Sitemap_Builder`: the librarian it stores files with, the state
      store, the buffer limits with the measure of an entry's fragment, and the site. */
  class SitemapBuilder {
    const librarian: Librarian
    const state: StateStore
    const maxItems: nat
    const maxBytes: nat
    const size: Entry -> nat
    const site: Site

    ghost predicate Valid()
      reads this, librarian, state
    {
      && librarian.Valid()
      && StateValid(state.record)
      && StoreMatches(state.record, librarian.rows)
    }

    /** A builder over an empty store and the initial, unlocked state. */
    constructor (maxItems: nat, maxBytes: nat, size: Entry -> nat, site: Site)
      ensures Valid() && fresh(librarian) && fresh(state)
      ensures librarian.rows == [] && state.record == Initial() && !state.locked
      ensures this.maxItems == maxItems && this.maxBytes == maxBytes && this.size == size && this.site == site
    {
      this.maxItems := maxItems;
      this.maxBytes := maxBytes;
      this.size := size;
      this.site := site;
      librarian := new Librarian();
      state := new StateStore();
      new;
      InitialValid();
      assert Range(0) == {};
    }

    /** Fill a fresh buffer from `source`, after offering it `head`, and store
        the result as file `number` of `kind` unless the buffer stayed empty. */
    method BuildFromSource(kind: SitemapType, number: nat, fromId: nat, initialTime: string, head: Option<Entry>, source: seq<Candidate>)
      returns (result: BuildResult)
      requires librarian.Valid() && Ascending(source)
      modifies librarian
      ensures librarian.Valid()
      ensures Builds(maxItems, maxBytes, size, old(librarian.rows), old(librarian.nextId), librarian.rows,
                     kind, number, fromId, initialTime, head, source, result)
    {
      var items, lastModified, lastId, anyLeft := FillFresh(fromId, initialTime, head, source);
      if items == [] {
        result := NoFile;
      } else {
        librarian.StoreSitemapData(kind, number, items, lastModified);
        result := Built(lastId, anyLeft, lastModified);
      }
    }

    /** A fresh buffer starting at `initialTime`, offered `head` and then filled
        from `source` after `fromId`: its items, timestamp, final cursor and
        `anyLeft`, as `Reports` describes them. */
    method FillFresh(fromId: nat, initialTime: string, head: Option<Entry>, source: seq<Candidate>)
      returns (items: seq<Entry>, lastModified: string, lastId: nat, anyLeft: bool)
      requires Ascending(source)
      ensures Reports(maxItems, maxBytes, size, fromId, initialTime, head, source,
                      if items == [] then NoFile else Built(lastId, anyLeft, lastModified))
      ensures items != [] ==> items == BuiltContent(head, source, fromId, lastId)
    {
      var buf := new Buffer(maxItems, maxBytes, size, initialTime);
      if head.Some? {
        var _ := buf.TryToAddItem(head.value);
      }
      ghost var items0, full0 := buf.items, buf.full;
      lastId, anyLeft := Fill(buf, source, fromId);
      FillReports(maxItems, maxBytes, size, fromId, initialTime, head, source,
        items0, full0, buf.items, buf.lastModified, lastId, anyLeft);
      items, lastModified := buf.items, buf.lastModified;
    }

    /** `build_one_page_sitemap`, `build_one_image_sitemap` and
        `build_one_video_sitemap`: file `number` of a leaf type, from the items
        after cursor `fromId`, with the buffer starting at the epoch. Page file 1
        starts with the home page. */
    method BuildOneLeafSitemap(t: SitemapType, number: nat, fromId: nat, corpus: Corpus) returns (result: BuildResult)
      requires librarian.Valid() && IsLeaf(t) && CorpusOrdered(corpus)
      modifies librarian
      ensures librarian.Valid()
      ensures Builds(maxItems, maxBytes, size, old(librarian.rows), old(librarian.nextId), librarian.rows,
                     t, number, fromId, Epoch, if t == PageSitemap && number == 1 then Some(HomeEntry(site)) else None,
                     LeafSource(site, t, corpus), result)
    {
      LeafSourceAscending(site, t, corpus);
      var head := if t == PageSitemap && number == 1 then Some(HomeEntry(site)) else None;
      result := BuildFromSource(t, number, fromId, Epoch, head, LeafSource(site, t, corpus));
    }

    /** `build_one_sitemap_index`: index file `number` over the stored files of
        the leaf type after row `fromId`, with the buffer starting at
        `timestamp`. Every index file but the first starts with a pointer to the
        previous one, dated `timestamp` in W3C form. */
    method BuildOneSitemapIndex(indexType: SitemapType, number: nat, fromId: nat, timestamp: string) returns (result: BuildResult)
      requires librarian.Valid() && IsIndex(indexType) && number >= 1
      modifies librarian
      ensures librarian.Valid()
      ensures Builds(maxItems, maxBytes, size, old(librarian.rows), old(librarian.nextId), librarian.rows,
                     indexType, number, fromId, timestamp,
                     if number != 1 then Some(PreviousIndexEntry(indexType, number, timestamp)) else None,
                     IndexSource(RowsOf(old(librarian.rows), LeafOf(indexType))), result)
    {
      IndexSourceAscending(librarian.rows, librarian.nextId, LeafOf(indexType));
      var head := if number != 1 then Some(PreviousIndexEntry(indexType, number, timestamp)) else None;
      result := BuildFromSource(indexType, number, fromId, timestamp, head, IndexSource(RowsOf(librarian.rows, LeafOf(indexType))));
    }

    /** `build_master_sitemap`: the master file lists, in a fresh buffer, the
        entry of each type that has files, and is stored with an empty date. */
    method BuildMasterSitemap(max: map<SitemapType, MaxEntry>)
      requires librarian.Valid()
      modifies librarian
      ensures librarian.Valid()
      ensures librarian.rows == Upsert(old(librarian.rows), old(librarian.nextId), MasterSitemap, 0, MasterContent(maxItems, maxBytes, size, max), "")
      ensures forall k :: k != MasterSitemap ==> RowsOf(librarian.rows, k) == RowsOf(old(librarian.rows), k)
    {
      var buf := new Buffer(maxItems, maxBytes, size, Epoch);
      var page := MasterEntry(max, PageSitemap);
      if page.Some? {
        var _ := buf.TryToAddItem(page.value);
      }
      var image := MasterEntry(max, ImageSitemap);
      if image.Some? {
        var _ := buf.TryToAddItem(image.value);
      }
      var video := MasterEntry(max, VideoSitemap);
      if video.Some? {
        var _ := buf.TryToAddItem(video.value);
      }
      librarian.StoreSitemapData(MasterSitemap, 0, buf.items, "");
    }

    /** The builder of the current phase, for file `number` (always above 0). */
    method BuildPhaseFile(t: SitemapType, number: nat, fromId: nat, timestamp: string, corpus: Corpus) returns (result: BuildResult)
      requires librarian.Valid() && (IsLeaf(t) || IsIndex(t)) && number >= 1 && CorpusOrdered(corpus)
      modifies librarian
      ensures librarian.Valid()
      ensures PhaseBuilt(maxItems, maxBytes, size, site, corpus, t, number, fromId, timestamp,
                         old(librarian.rows), old(librarian.nextId), librarian.rows, result)
    {
      ghost var rows0, nextId0 := librarian.rows, librarian.nextId;
      if IsLeaf(t) {
        result := BuildOneLeafSitemap(t, number, fromId, corpus);
        assert PhaseHead(site, t, number, timestamp) == if t == PageSitemap && number == 1 then Some(HomeEntry(site)) else None;
        assert PhaseSource(site, t, corpus, rows0) == LeafSource(site, t, corpus);
        BuildsStores(maxItems, maxBytes, size, rows0, nextId0, librarian.rows, t, number, fromId, Epoch,
          if t == PageSitemap && number == 1 then Some(HomeEntry(site)) else None, LeafSource(site, t, corpus), result);
      } else {
        result := BuildOneSitemapIndex(t, number, fromId, timestamp);
        assert PhaseHead(site, t, number, timestamp) == if number != 1 then Some(PreviousIndexEntry(t, number, timestamp)) else None;
        assert PhaseSource(site, t, corpus, rows0) == IndexSource(RowsOf(rows0, LeafOf(t)));
        BuildsStores(maxItems, maxBytes, size, rows0, nextId0, librarian.rows, t, number, fromId, timestamp,
          if number != 1 then Some(PreviousIndexEntry(t, number, timestamp)) else None,
          IndexSource(RowsOf(rows0, LeafOf(t))), result);
      }
    }

    /** The master phase: build the master file from the history, then reset. */
    method FinishCycle(s: State)
      requires librarian.Valid() && s.sitemapType == MasterSitemap
      modifies librarian, state
      ensures librarian.Valid() && !state.locked
      ensures state.record == NextRecord(s, CycleComplete)
      ensures StoreEffect(s, CycleComplete, old(librarian.rows), librarian.rows)
      ensures librarian.rows == Upsert(old(librarian.rows), old(librarian.nextId), MasterSitemap, 0, MasterContent(maxItems, maxBytes, size, s.max), "")
    {
      ghost var rows0, nextId0 := librarian.rows, librarian.nextId;
      BuildMasterSitemap(s.max);
      UpsertNumbers(rows0, nextId0, MasterSitemap, 0, MasterContent(maxItems, maxBytes, size, s.max), "");
      UpsertStores(rows0, nextId0, MasterSitemap, 0, MasterContent(maxItems, maxBytes, size, s.max), "");
      state.Reset();
    }

    /** An index phase over at most one leaf file: move on and delete every file of the index type. */
    method SkipIndex(s: State)
      requires librarian.Valid() && state.record == s && SkipsIndex(s)
      modifies librarian, state
      ensures librarian.Valid() && !state.locked
      ensures state.record == NextRecord(s, IndexSkipped)
      ensures StoreEffect(s, IndexSkipped, old(librarian.rows), librarian.rows)
    {
      state.CheckIn(Succ(s.sitemapType), 0, 0, Epoch);
      librarian.DeleteNumberedSitemapRowsAfter(s.sitemapType, 0);
    }

    /** A leaf or index phase: build file `number + 1` from cursor `last-added`,
        check the result in, and clean up when the phase is over. */
    method BuildStep(s: State, corpus: Corpus) returns (result: BuildResult)
      requires librarian.Valid() && state.record == s && CorpusOrdered(corpus)
      requires s.sitemapType != MasterSitemap && !SkipsIndex(s)
      modifies librarian, state
      ensures librarian.Valid() && !state.locked
      ensures state.record == NextRecord(s, Stepped(result))
      ensures StoreEffect(s, Stepped(result), old(librarian.rows), librarian.rows)
      ensures StepPublishes(maxItems, maxBytes, size, site, corpus, s, old(librarian.rows), librarian.rows, result)
    {
      ghost var rows0, nextId0 := librarian.rows, librarian.nextId;
      result := BuildPhaseFile(s.sitemapType, s.number + 1, s.lastAdded, s.lastModified, corpus);
      Settle(s, corpus, result, rows0, nextId0);
    }

    /** What follows the build of a step: the `check_in`s and the clean-up.
        `rows0` and `nextId0` are the store before the build. */
    method Settle(s: State, corpus: Corpus, result: BuildResult, ghost rows0: seq<Row>, ghost nextId0: nat)
      requires librarian.Valid() && state.record == s && s.sitemapType != MasterSitemap
      requires PhaseBuilt(maxItems, maxBytes, size, site, corpus, s.sitemapType, s.number + 1, s.lastAdded, s.lastModified,
                          rows0, nextId0, librarian.rows, result)
      modifies librarian, state
      ensures librarian.Valid() && !state.locked
      ensures state.record == NextRecord(s, Stepped(result))
      ensures StoreEffect(s, Stepped(result), rows0, librarian.rows)
      ensures StepPublishes(maxItems, maxBytes, size, site, corpus, s, rows0, librarian.rows, result)
    {
      ghost var rows1 := librarian.rows;
      CheckInResult(s, result);
      CleanUp(s, result, rows0);
      BuildsPublish(maxItems, maxBytes, size, site, corpus, s, rows0, nextId0, rows1, librarian.rows, result);
    }

    /** The `delete_numbered_sitemap_rows_after` after a build that ends the
        phase: above the old count when no file was built, above the new count
        when nothing is left. `rows0` is the store before the build. */
    method CleanUp(s: State, result: BuildResult, ghost rows0: seq<Row>)
      requires librarian.Valid()
      requires forall k :: k != s.sitemapType ==> RowsOf(librarian.rows, k) == RowsOf(rows0, k)
      requires result.NoFile? ==> librarian.rows == rows0
      requires result.Built? ==>
        && Dated(librarian.rows, s.sitemapType, s.number + 1, result.lastModified)
        && Numbers(librarian.rows, s.sitemapType) == Numbers(rows0, s.sitemapType) + {s.number + 1}
      modifies librarian
      ensures librarian.Valid()
      ensures StoreEffect(s, Stepped(result), rows0, librarian.rows)
      ensures result.Built? ==> FindFile(librarian.rows, s.sitemapType, s.number + 1) == FindFile(old(librarian.rows), s.sitemapType, s.number + 1)
    {
      if result.NoFile? {
        librarian.DeleteNumberedSitemapRowsAfter(s.sitemapType, s.number);
        NoFileEffect(s, rows0, librarian.rows);
      } else {
        ghost var rows1 := librarian.rows;
        if !result.anyLeft {
          librarian.DeleteNumberedSitemapRowsAfter(s.sitemapType, s.number + 1);
        }
        BuiltEffect(s, result, rows0, rows1, librarian.rows);
      }
    }

    /** The `check_in`s after a build: into the next phase when no file was
        built; otherwise the new file's cursor, number and timestamp, followed by
        the next phase when nothing is left. */
    method CheckInResult(s: State, result: BuildResult)
      requires state.record == s
      modifies state
      ensures !state.locked
      ensures state.record == NextRecord(s, Stepped(result))
    {
      match result {
        case NoFile =>
          state.CheckIn(Succ(s.sitemapType), 0, 0, Epoch);
        case Built(lastId, anyLeft, lastModified) =>
          state.CheckIn(s.sitemapType, lastId, s.number + 1, lastModified);
          if !anyLeft {
            state.CheckIn(Succ(s.sitemapType), 0, 0, Epoch);
          }
      }
    }

    /** `build_next_sitemap_file`: one unit of work.
        - While another step holds the state, nothing changes.
        - At the master phase, the master file is built and the state reset.
        - An index phase over at most one leaf file is skipped, and its files deleted.
        - Otherwise file `number + 1` of the phase is built from cursor
          `last-added`, and the state either stays in the phase or moves to the
          next one, deleting the finished phase's files above its final count.
        The record afterwards is `NextRecord` of the record before, and a
        finished phase's type keeps exactly the files 1 to the cleanup cutoff. */
    method BuildNextSitemapFile(corpus: Corpus) returns (outcome: StepOutcome)
      requires Valid() && CorpusOrdered(corpus)
      modifies librarian, state
      ensures Valid()
      ensures old(state.locked) ==> outcome == Locked && state.locked
      ensures !old(state.locked) ==> outcome != Locked && Possible(old(state.record), outcome) && !state.locked
      ensures state.record == NextRecord(old(state.record), outcome)
      ensures StoreEffect(old(state.record), outcome, old(librarian.rows), librarian.rows)
      ensures CleanupOf(old(state.record), outcome).Some? ==>
        Numbers(librarian.rows, old(state.record).sitemapType) == Range(CleanupOf(old(state.record), outcome).value)
      ensures outcome == CycleComplete ==>
        librarian.rows == Upsert(old(librarian.rows), old(librarian.nextId), MasterSitemap, 0,
                                 MasterContent(maxItems, maxBytes, size, old(state.record).max), "")
      ensures outcome.Stepped? ==>
        StepPublishes(maxItems, maxBytes, size, site, corpus, old(state.record), old(librarian.rows), librarian.rows, outcome.result)
    {
      ghost var rows0 := librarian.rows;
      var checkedOut := state.CheckOut();
      if checkedOut.None? {
        return Locked;
      }
      var s := checkedOut.value;
      if s.sitemapType == MasterSitemap {
        FinishCycle(s);
        outcome := CycleComplete;
      } else if IsIndex(s.sitemapType) && MaxNumber(s.max, LeafOf(s.sitemapType)) <= 1 {
        SkipIndex(s);
        outcome := IndexSkipped;
      } else {
        var result := BuildStep(s, corpus);
        outcome := Stepped(result);
      }
      NextRecordValid(s, outcome);
      StepKeepsStoreMatches(s, outcome, rows0, librarian.rows);
      CleanupLeavesFinalFiles(s, outcome, librarian.rows);
    }
  }
}
