/** The generation state of the sitemap builder and the transition table of one
    step of `build_next_sitemap_file`. sitemap-state.php is not part of this
    model; the store below gives it the behaviour the builder relies on:
    - `check_out` fails while another step holds the lock, and otherwise takes
      the lock and returns the record;
    - `check_in` writes the phase, cursor, number and timestamp, records
      number and timestamp as the history entry `max` of that phase, and
      releases the lock;
    - `reset` restores the initial record with an empty history. */
module SitemapState {
  import opened Common
  import opened SitemapTypes

  /** The history entry of a phase: the last file number checked in and its timestamp. */
  datatype MaxEntry = MaxEntry(number: nat, lastmod: string)

  /** The persisted checkpoint: 'sitemap-type', 'last-added', 'number',
      'last-modified' and 'max'. */
  datatype State = State(
    sitemapType: SitemapType,
    lastAdded: nat,
    number: nat,
    lastModified: string,
    max: map<SitemapType, MaxEntry>)

  /** The timestamp every phase starts from. */
  const Epoch: string := "1970-01-01 00:00:00"

  function Initial(): State {
    State(PageSitemap, 0, 0, Epoch, map[])
  }

  /** The record after `check_in` of the given fields. */
  function CheckedIn(s: State, t: SitemapType, lastAdded: nat, number: nat, lastModified: string): (r: State)
    ensures r.sitemapType == t && r.lastAdded == lastAdded && r.number == number && r.lastModified == lastModified
    ensures t in r.max && r.max[t] == MaxEntry(number, lastModified)
    ensures forall k :: k != t ==> (k in r.max <==> k in s.max) && (k in s.max ==> r.max[k] == s.max[k])
  {
    State(t, lastAdded, number, lastModified, s.max[t := MaxEntry(number, lastModified)])
  }

  /** `$max[$type]['number']`: a phase not yet checked in compares as 0. */
  function MaxNumber(max: map<SitemapType, MaxEntry>, t: SitemapType): nat {
    if t in max then max[t].number else 0
  }

  /** `$max[$type]['lastmod']`: a missing entry is null, which prints as ''. */
  function MaxLastmod(max: map<SitemapType, MaxEntry>, t: SitemapType): string {
    if t in max then max[t].lastmod else ""
  }

  /** `$max[$type]['number']` concatenated into a file name. */
  function NumberText(max: map<SitemapType, MaxEntry>, t: SitemapType): string {
    if t in max then Decimal(max[t].number) else ""
  }

  /** Holds the record and the lock. */
  class StateStore {
    var record: State
    var locked: bool

    /** The record as first created: initial and unlocked. */
    constructor ()
      ensures record == Initial() && !locked
    {
      record := Initial();
      locked := false;
    }

    /** `check_out`: nothing while locked; otherwise the record, and the lock is taken. */
    method CheckOut() returns (s: Option<State>)
      modifies this`locked
      ensures old(locked) ==> s.None? && locked
      ensures !old(locked) ==> s == Some(record) && locked
    {
      if locked {
        s := None;
      } else {
        locked := true;
        s := Some(record);
      }
    }

    /** `check_in`: store the fields, record the phase's history entry, release the lock. */
    method CheckIn(t: SitemapType, lastAdded: nat, number: nat, lastModified: string)
      modifies this
      ensures record == CheckedIn(old(record), t, lastAdded, number, lastModified) && !locked
    {
      record := CheckedIn(record, t, lastAdded, number, lastModified);
      locked := false;
    }

    /** `reset`: back to the initial record, unlocked. */
    method Reset()
      modifies this
      ensures record == Initial() && !locked
    {
      record := Initial();
      locked := false;
    }
  }

  /** What a leaf or index builder reports: `false`, or the array with
      'last_id', 'any_left' and 'last_modified'. */
  datatype BuildResult =
    | NoFile
    | Built(lastId: nat, anyLeft: bool, lastModified: string)

  /** What one step did. */
  datatype StepOutcome =
    | Locked
    | Stepped(result: BuildResult)
    | IndexSkipped
    | CycleComplete

  /** An index phase is skipped when at most one file of its leaf type was built. */
  predicate SkipsIndex(s: State) {
    IsIndex(s.sitemapType) && MaxNumber(s.max, LeafOf(s.sitemapType)) <= 1
  }

  /** The outcomes a step can have from record `s` once the lock is held. */
  predicate Possible(s: State, o: StepOutcome) {
    match o
    case Locked => true
    case Stepped(_) => s.sitemapType != MasterSitemap && !SkipsIndex(s)
    case IndexSkipped => SkipsIndex(s)
    case CycleComplete => s.sitemapType == MasterSitemap
  }

  /** The first record of the phase after `s`'s. */
  function PhaseStart(s: State): State {
    CheckedIn(s, Succ(s.sitemapType), 0, 0, Epoch)
  }

  /** The record after a step with outcome `o`: the sequence of `check_in`s
      (or the `reset`) that the branch for `s`'s phase performs. */
  function NextRecord(s: State, o: StepOutcome): State {
    match o
    case Locked => s
    case IndexSkipped => PhaseStart(s)
    case CycleComplete => Initial()
    case Stepped(NoFile) => PhaseStart(s)
    case Stepped(Built(lastId, anyLeft, lastModified)) =>
      var r := CheckedIn(s, s.sitemapType, lastId, s.number + 1, lastModified);
      if anyLeft then r else PhaseStart(r)
  }

  /** The cutoff of the `delete_numbered_sitemap_rows_after` this step performs on
      the files of `s`'s phase, if any. */
  function CleanupOf(s: State, o: StepOutcome): Option<nat> {
    match o
    case IndexSkipped => Some(0)
    case Stepped(NoFile) => Some(s.number)
    case Stepped(Built(_, false, _)) => Some(s.number + 1)
    case _ => None
  }

  /** A step that continues its phase. */
  predicate Continues(o: StepOutcome) {
    o.Stepped? && o.result.Built? && o.result.anyLeft
  }

  /** The record's own fields agree with its phase's history entry, and an index
      phase that is skipped has not started numbering. */
  ghost predicate StateValid(s: State) {
    && (s.sitemapType in s.max ==>
          s.max[s.sitemapType] == MaxEntry(s.number, s.lastModified))
    && (s.sitemapType !in s.max ==> s.number == 0)
    && (SkipsIndex(s) ==> s.number == 0)
  }

  lemma InitialValid()
    ensures StateValid(Initial())
    ensures Initial().sitemapType == PageSitemap && Initial().number == 0 && Initial().lastAdded == 0
  {
  }

  /** The phases follow page → page index → image → image index → video → video
      index → master, and the step after the master resets to the page phase;
      a step that continues stays in its phase. */
  lemma PhaseChain(s: State, o: StepOutcome)
    requires Possible(s, o) && o != Locked
    ensures Continues(o) ==> NextRecord(s, o).sitemapType == s.sitemapType
    ensures !Continues(o) ==> NextRecord(s, o).sitemapType == Succ(s.sitemapType)
    ensures NextRecord(s, o).sitemapType == PageSitemap <==> s.sitemapType == MasterSitemap || (Continues(o) && s.sitemapType == PageSitemap)
  {
  }

  /** A continuing step advances the number by one and takes the builder's cursor and timestamp. */
  lemma ContinueKeepsPhase(s: State, lastId: nat, lastModified: string)
    ensures var r := NextRecord(s, Stepped(Built(lastId, true, lastModified)));
            && r.sitemapType == s.sitemapType && r.lastAdded == lastId
            && r.number == s.number + 1 && r.lastModified == lastModified
            && r.max == s.max[s.sitemapType := MaxEntry(s.number + 1, lastModified)]
  {
  }

  /** Every other step of a phase other than the master starts the next phase at
      cursor 0, number 0 and the epoch, and cleans up the finished phase's files. */
  lemma PhaseEndStartsFresh(s: State, o: StepOutcome)
    requires Possible(s, o) && o != Locked && !Continues(o) && s.sitemapType != MasterSitemap
    ensures var r := NextRecord(s, o);
            && r.lastAdded == 0 && r.number == 0 && r.lastModified == Epoch
            && r.max[r.sitemapType] == MaxEntry(0, Epoch)
    ensures CleanupOf(s, o).Some?
    ensures var r := NextRecord(s, o);
            && r.sitemapType == Succ(s.sitemapType)
            && forall k :: k != s.sitemapType && k != Succ(s.sitemapType) ==>
                 MaxNumber(r.max, k) == MaxNumber(s.max, k) && MaxLastmod(r.max, k) == MaxLastmod(s.max, k)
  {
  }

  /** The cleanup cutoff is the finished phase's final file count, as recorded in the
      history: after the delete, the store keeps exactly the files the history counts. */
  lemma {:induction false} CleanupIsFinalCount(s: State, o: StepOutcome)
    requires StateValid(s) && Possible(s, o) && o != Locked && !Continues(o)
    requires s.sitemapType != MasterSitemap
    ensures CleanupOf(s, o) == Some(MaxNumber(NextRecord(s, o).max, s.sitemapType))
    ensures MaxNumber(NextRecord(s, o).max, s.sitemapType) != 0 ==>
      MaxLastmod(NextRecord(s, o).max, s.sitemapType) ==
        (if o.Stepped? && o.result.Built? then o.result.lastModified else s.lastModified)
  {
    var t := s.sitemapType;
    assert Succ(t) != t;
    match o
    case IndexSkipped =>
      assert s.number == 0;
    case Stepped(NoFile) =>
      if s.number != 0 {
        assert t in s.max;
      }
    case Stepped(Built(_, _, _)) =>
  }

  /** Steps keep the record consistent with its history. */
  lemma {:induction false} NextRecordValid(s: State, o: StepOutcome)
    requires StateValid(s) && Possible(s, o)
    ensures StateValid(NextRecord(s, o))
  {
    var t := s.sitemapType;
    assert Succ(t) != t;
    match o
    case Locked =>
    case CycleComplete =>
    case IndexSkipped =>
      LeafHistoryKept(s, Succ(t));
    case Stepped(NoFile) =>
      LeafHistoryKept(s, Succ(t));
    case Stepped(Built(lastId, anyLeft, lastModified)) =>
      var r := CheckedIn(s, t, lastId, s.number + 1, lastModified);
      assert !SkipsIndex(s);
      if IsIndex(t) {
        assert LeafOf(t) != t;
        assert MaxNumber(r.max, LeafOf(t)) == MaxNumber(s.max, LeafOf(t));
      }
      if !anyLeft {
        LeafHistoryKept(r, Succ(t));
      }
  }

  /** Starting a phase writes only that phase's history entry, so an index phase
      reached from its leaf phase sees the leaf's final count. */
  lemma LeafHistoryKept(s: State, u: SitemapType)
    ensures var r := CheckedIn(s, u, 0, 0, Epoch);
            StateValid(r) && (IsIndex(u) ==> MaxNumber(r.max, LeafOf(u)) == MaxNumber(s.max, LeafOf(u)))
  {
    if IsIndex(u) {
      assert LeafOf(u) != u;
    }
  }
}
