/**
 * The Notion Markdown importer (scripts/import-notion-markdown.js): one loop over the planned
 * pages, that a dry run only plans with and a live run writes with, all or nothing.
 */
module NotionImport {
  import opened Options

  /** A page of the plan; `blank` when its content trims to nothing. */
  datatype Page = Page(key: string, parentKey: Option<string>, title: string, blank: bool, sha: string)

  datatype Note = Note(title: string, parent: Option<nat>, live: bool)

  datatype Record = Record(noteId: Option<nat>, sha: string)

  /** The notes and import records of the project; note ids are allocated upwards from `next`. */
  datatype Db = Db(notes: map<nat, Note>, records: map<string, Record>, next: nat)

  /** A note id, or the placeholder a dry run keeps for a page it would create. */
  datatype Ref = Real(id: nat) | Planned(key: string)

  datatype Code = EmptyPage | MissingDestination | SourceChanged | ParentUnresolved | DestinationConflict

  datatype Finding = Finding(key: string, code: Code)

  datatype Report = Report(
    planned: nat, created: nat, unaltered: nat, conflicts: nat, skipped: nat,
    recordsCreated: nat, recordsExisting: nat,
    hierarchy: seq<(string, Option<string>)>, unresolved: seq<(string, Option<string>)>, errors: seq<Finding>)

  const EMPTY_REPORT := Report(0, 0, 0, 0, 0, 0, 0, [], [], [])

  datatype World = World(db: Db, ids: map<string, Ref>, report: Report)

  // ---------------------------------------------------------------- one page

  predicate IsAt(note: Note, title: string, parent: Option<Ref>) {
    note.live && note.title == title
    && match parent
       case None => note.parent.None?
       case Some(Real(id)) => note.parent == Some(id)
       case Some(Planned(_)) => false
  }

  predicate Occupied(db: Db, title: string, parent: Option<Ref>) {
    exists id :: id in db.notes && IsAt(db.notes[id], title, parent)
  }

  predicate LiveNote(db: Db, id: Option<nat>) {
    id.Some? && id.value in db.notes && db.notes[id.value].live
  }

  datatype Outcome = Empty | Missing | Unchanged(id: nat) | Changed(id: nat) | NoParent | Conflict | Create(parent: Option<Ref>)

  /** What becomes of a page: the branches of the loop body. */
  function Decide(w: World, page: Page): Outcome {
    if page.blank then Empty
    else if page.key in w.db.records then
      var record := w.db.records[page.key];
      if !LiveNote(w.db, record.noteId) then Missing
      else if record.sha == page.sha then Unchanged(record.noteId.value)
      else Changed(record.noteId.value)
    else if page.parentKey.Some? && page.parentKey.value !in w.ids then NoParent
    else
      var parent := if page.parentKey.Some? then Some(w.ids[page.parentKey.value]) else None;
      if Occupied(w.db, page.title, parent) then Conflict else Create(parent)
  }

  /** Where a page would go: the note of its parent page, which must be known, or the top. */
  predicate ParentIs(w: World, page: Page, parent: Option<Ref>) {
    match page.parentKey
    case None => parent == None
    case Some(k) => k in w.ids && parent == Some(w.ids[k])
  }

  /** A live note of this title stands there already; under a note only planned there is none. */
  predicate Taken(db: Db, title: string, parent: Option<Ref>) {
    && (parent.Some? ==> parent.value.Real?)
    && exists id :: id in db.notes && db.notes[id].live && db.notes[id].title == title
                    && db.notes[id].parent == if parent.Some? then Some(parent.value.id) else None
  }

  /**
   * Exactly when each thing becomes of a page: a page imported before is compared with its
   * record, provided the note is still there; any other goes under its parent's note unless
   * that is unknown or a live note of its title is there.
   */
  lemma DecideExactly(w: World, page: Page, parent: Option<Ref>)
    ensures var known := !page.blank && page.key in w.db.records;
            var there := known && w.db.records[page.key].noteId.Some? && w.db.records[page.key].noteId.value in w.db.notes
                         && w.db.notes[w.db.records[page.key].noteId.value].live;
            && (Decide(w, page).Empty? <==> page.blank)
            && (Decide(w, page).Missing? <==> known && !there)
            && (Decide(w, page).Unchanged? <==> there && w.db.records[page.key].sha == page.sha)
            && (Decide(w, page).Changed? <==> there && w.db.records[page.key].sha != page.sha)
            && (Decide(w, page).Unchanged? ==> Some(Decide(w, page).id) == w.db.records[page.key].noteId)
            && (Decide(w, page).Changed? ==> Some(Decide(w, page).id) == w.db.records[page.key].noteId)
            && (Decide(w, page).NoParent? <==> !page.blank && !known && page.parentKey.Some? && page.parentKey.value !in w.ids)
    ensures ParentIs(w, page, parent) && !page.blank && page.key !in w.db.records ==>
              Decide(w, page) == if Taken(w.db, page.title, parent) then Conflict else Create(parent)
  {
    if ParentIs(w, page, parent) {
      OccupiedIsTaken(w.db, page.title, parent);
    }
  }

  lemma OccupiedIsTaken(db: Db, title: string, parent: Option<Ref>)
    ensures Occupied(db, title, parent) <==> Taken(db, title, parent)
  {
    if Occupied(db, title, parent) {
      var id :| id in db.notes && IsAt(db.notes[id], title, parent);
      assert db.notes[id].live && db.notes[id].title == title;
    }
    if Taken(db, title, parent) {
      var id :| id in db.notes && db.notes[id].live && db.notes[id].title == title
                && db.notes[id].parent == if parent.Some? then Some(parent.value.id) else None;
      assert IsAt(db.notes[id], title, parent);
    }
  }

  function Failed(r: Report, key: string, code: Code): Report {
    r.(errors := r.errors + [Finding(key, code)])
  }

  function NoteId(parent: Option<Ref>): Option<nat> {
    if parent.Some? && parent.value.Real? then Some(parent.value.id) else None
  }

  function Written(db: Db, page: Page, parent: Option<Ref>): Db {
    Db(
      db.notes[db.next := Note(page.title, NoteId(parent), true)],
      db.records[page.key := Record(Some(db.next), page.sha)],
      db.next + 1)
  }

  /** The report after a page. */
  function Counted(r: Report, page: Page, outcome: Outcome, allowWrites: bool): Report {
    match outcome
    case Empty => Failed(r.(skipped := r.skipped + 1), page.key, EmptyPage)
    case Missing => Failed(r.(recordsExisting := r.recordsExisting + 1, conflicts := r.conflicts + 1), page.key, MissingDestination)
    case Unchanged(_) => r.(recordsExisting := r.recordsExisting + 1, unaltered := r.unaltered + 1)
    case Changed(_) => Failed(r.(recordsExisting := r.recordsExisting + 1, conflicts := r.conflicts + 1), page.key, SourceChanged)
    case NoParent =>
      Failed(r.(conflicts := r.conflicts + 1, unresolved := r.unresolved + [(page.key, page.parentKey)]), page.key, ParentUnresolved)
    case Conflict => Failed(r.(conflicts := r.conflicts + 1), page.key, DestinationConflict)
    case Create(_) =>
      var r' := r.(hierarchy := r.hierarchy + [(page.key, page.parentKey)]);
      if allowWrites then r'.(created := r.created + 1, recordsCreated := r.recordsCreated + 1) else r'.(planned := r.planned + 1)
  }

  /** The note a later page may name as its parent. */
  function Learned(w: World, page: Page, outcome: Outcome, allowWrites: bool): map<string, Ref> {
    match outcome
    case Unchanged(id) => w.ids[page.key := Real(id)]
    case Changed(id) => w.ids[page.key := Real(id)]
    case Create(_) => w.ids[page.key := if allowWrites then Real(w.db.next) else Planned(page.key)]
    case _ => w.ids
  }

  function Import(w: World, page: Page, allowWrites: bool): World {
    var outcome := Decide(w, page);
    World(
      if outcome.Create? && allowWrites then Written(w.db, page, outcome.parent) else w.db,
      Learned(w, page, outcome, allowWrites),
      Counted(w.report, page, outcome, allowWrites))
  }

  /** The one finding an outcome leaves, if any. */
  function FindingOf(outcome: Outcome): Option<Code> {
    match outcome
    case Empty => Some(EmptyPage)
    case Missing => Some(MissingDestination)
    case Changed(_) => Some(SourceChanged)
    case NoParent => Some(ParentUnresolved)
    case Conflict => Some(DestinationConflict)
    case _ => None
  }

  /** What a page leaves behind: its finding, its counter, its place in the hierarchy, its note and record. */
  lemma PageLeaves(w: World, page: Page, allowWrites: bool)
    ensures var o, w' := Decide(w, page), Import(w, page, allowWrites);
            && w'.report.errors == w.report.errors + (if FindingOf(o).Some? then [Finding(page.key, FindingOf(o).value)] else [])
            && w'.report.hierarchy == w.report.hierarchy + (if o.Create? then [(page.key, page.parentKey)] else [])
            && w'.report.unresolved == w.report.unresolved + (if o.NoParent? then [(page.key, page.parentKey)] else [])
            && w'.report.skipped == w.report.skipped + (if o.Empty? then 1 else 0)
            && w'.report.unaltered == w.report.unaltered + (if o.Unchanged? then 1 else 0)
            && w'.report.created == w.report.created + (if o.Create? && allowWrites then 1 else 0)
            && w'.report.planned == w.report.planned + (if o.Create? && !allowWrites then 1 else 0)
            && w'.report.conflicts == w.report.conflicts + (if o.Missing? || o.Changed? || o.NoParent? || o.Conflict? then 1 else 0)
            && w'.report.recordsExisting == w.report.recordsExisting + (if o.Missing? || o.Unchanged? || o.Changed? then 1 else 0)
            && (o.Unchanged? || o.Changed? ==> w'.ids == w.ids[page.key := Real(o.id)])
            && (o.Create? && !allowWrites ==> w'.db == w.db && w'.ids == w.ids[page.key := Planned(page.key)])
            && (!o.Create? ==> w'.db == w.db)
            && (!o.Create? && !o.Unchanged? && !o.Changed? ==> w'.ids == w.ids)
            && (o.Create? && allowWrites ==>
                  && w'.ids == w.ids[page.key := Real(w.db.next)] && w'.db.next == w.db.next + 1
                  && w'.db.records == w.db.records[page.key := Record(Some(w.db.next), page.sha)]
                  && w'.db.notes == w.db.notes[w.db.next :=
                       Note(page.title, if o.parent.Some? && o.parent.value.Real? then Some(o.parent.value.id) else None, true)])
  {
  }

  function ImportAll(w: World, pages: seq<Page>, allowWrites: bool): World
    decreases |pages|
  {
    if pages == [] then w else ImportAll(Import(w, pages[0], allowWrites), pages[1..], allowWrites)
  }

  // ---------------------------------------------------------------- the importer

  class Importer {
    var db: Db
    var ids: map<string, Ref>
    var report: Report

    constructor (db: Db)
      ensures Contents() == World(db, map[], EMPTY_REPORT)
    {
      this.db := db;
      ids := map[];
      report := EMPTY_REPORT;
    }

    function Contents(): World
      reads this
    {
      World(db, ids, report)
    }

    method Fail(key: string, code: Code)
      modifies this`report
      ensures report == Failed(old(report), key, code)
    {
      report := report.(errors := report.errors + [Finding(key, code)]);
    }

    method ProcessPage(item: Page, allowWrites: bool)
      modifies this
      ensures Contents() == Import(old(Contents()), item, allowWrites)
    {
      if item.blank {
        report := report.(skipped := report.skipped + 1);
        Fail(item.key, EmptyPage);
        return;
      }
      if item.key in db.records {
        report := report.(recordsExisting := report.recordsExisting + 1);
        var record := db.records[item.key];
        if !LiveNote(db, record.noteId) {
          report := report.(conflicts := report.conflicts + 1);
          Fail(item.key, MissingDestination);
          return;
        }
        ids := ids[item.key := Real(record.noteId.value)];
        if record.sha == item.sha {
          report := report.(unaltered := report.unaltered + 1);
          return;
        }
        report := report.(conflicts := report.conflicts + 1);
        Fail(item.key, SourceChanged);
        return;
      }
      if item.parentKey.Some? && item.parentKey.value !in ids {
        report := report.(conflicts := report.conflicts + 1, unresolved := report.unresolved + [(item.key, item.parentKey)]);
        Fail(item.key, ParentUnresolved);
        return;
      }
      var parent := if item.parentKey.Some? then Some(ids[item.parentKey.value]) else None;
      if Occupied(db, item.title, parent) {
        report := report.(conflicts := report.conflicts + 1);
        Fail(item.key, DestinationConflict);
        return;
      }
      report := report.(hierarchy := report.hierarchy + [(item.key, item.parentKey)]);
      if !allowWrites {
        ids := ids[item.key := Planned(item.key)];
        report := report.(planned := report.planned + 1);
        return;
      }
      var created := db.next;
      db := Written(db, item, parent);
      ids := ids[item.key := Real(created)];
      report := report.(created := report.created + 1, recordsCreated := report.recordsCreated + 1);
    }

    method ProcessPayloads(payloads: seq<Page>, allowWrites: bool)
      modifies this
      ensures Contents() == ImportAll(old(Contents()), payloads, allowWrites)
    {
      for i := 0 to |payloads|
        invariant ImportAll(Contents(), payloads[i..], allowWrites) == ImportAll(old(Contents()), payloads, allowWrites)
      {
        assert payloads[i..][0] == payloads[i] && payloads[i..][1..] == payloads[i + 1..];
        ProcessPage(payloads[i], allowWrites);
      }
    }

    /**
     * A dry run, or a live run in one transaction that is rolled back on any finding. A live
     * run that throws leaves the database as it was; otherwise every page is in it.
     */
    method Run(payloads: seq<Page>, unsupportedFiles: nat, dryRun: bool) returns (threw: bool)
      requires ids == map[] && report == EMPTY_REPORT
      modifies this
      ensures var after := ImportAll(old(Contents()), payloads, !dryRun);
              && report == after.report
              && (threw <==> !dryRun && (after.report.errors != [] || unsupportedFiles > 0))
              && db == if dryRun || threw then old(db) else after.db
    {
      var snapshot := db;
      ProcessPayloads(payloads, !dryRun);
      threw := !dryRun && (report.errors != [] || unsupportedFiles > 0);
      if threw {
        db := snapshot;
      } else if dryRun {
        DryRunWritesNothing(old(Contents()), payloads);
      }
    }
  }

  lemma {:induction false} DryRunWritesNothing(w: World, pages: seq<Page>)
    ensures ImportAll(w, pages, false).db == w.db
    decreases |pages|
  {
    if pages != [] {
      DryRunWritesNothing(Import(w, pages[0], false), pages[1..]);
    }
  }

  // ---------------------------------------------------------------- the report adds up

  function Sum(r: Report): nat {
    r.planned + r.created + r.unaltered + r.conflicts + r.skipped
  }

  /** Every page is counted once, and the findings, records and hierarchy agree with the counts. */
  ghost predicate AddsUp(r: Report, pages: nat) {
    && Sum(r) == pages
    && |r.errors| == r.conflicts + r.skipped
    && |r.hierarchy| == r.planned + r.created
    && r.recordsCreated == r.created
    && r.unaltered <= r.recordsExisting <= r.unaltered + r.conflicts
  }

  lemma PageAddsUp(r: Report, page: Page, outcome: Outcome, allowWrites: bool, before: nat)
    requires AddsUp(r, before)
    ensures var r' := Counted(r, page, outcome, allowWrites);
            && AddsUp(r', before + 1)
            && (if allowWrites then r'.planned == r.planned else r'.created == r.created)
  {
  }

  lemma {:induction false} ReportAddsUp(w: World, pages: seq<Page>, allowWrites: bool, before: nat)
    requires AddsUp(w.report, before)
    ensures var r := ImportAll(w, pages, allowWrites).report;
            && AddsUp(r, before + |pages|)
            && (if allowWrites then r.planned == w.report.planned else r.created == w.report.created)
    decreases |pages|
  {
    if pages != [] {
      PageAddsUp(w.report, pages[0], Decide(w, pages[0]), allowWrites, before);
      ReportAddsUp(Import(w, pages[0], allowWrites), pages[1..], allowWrites, before + 1);
    }
  }

  // ---------------------------------------------------------------- importing again

  predicate IdsBelowNext(db: Db) {
    forall id :: id in db.notes ==> id < db.next
  }

  /** The page is in the database as it was read. */
  predicate Imported(db: Db, page: Page) {
    !page.blank && page.key in db.records && db.records[page.key].sha == page.sha && LiveNote(db, db.records[page.key].noteId)
  }

  lemma {:induction false} ErrorsOnlyGrow(w: World, pages: seq<Page>, allowWrites: bool)
    ensures w.report.errors <= ImportAll(w, pages, allowWrites).report.errors
    decreases |pages|
  {
    if pages != [] {
      ErrorsOnlyGrow(Import(w, pages[0], allowWrites), pages[1..], allowWrites);
    }
  }

  /** A live run without findings leaves every page imported, the ones before it included. */
  lemma {:induction false} CleanRunImports(w: World, pages: seq<Page>, done: seq<Page>)
    requires IdsBelowNext(w.db) && forall p :: p in done ==> Imported(w.db, p)
    requires ImportAll(w, pages, true).report.errors == []
    ensures forall p :: p in done + pages ==> Imported(ImportAll(w, pages, true).db, p)
    decreases |pages|
  {
    if pages == [] {
      assert done + pages == done;
    } else {
      var w' := Import(w, pages[0], true);
      ErrorsOnlyGrow(w', pages[1..], true);
      forall p | p in done + [pages[0]] ensures Imported(w'.db, p) {
        assert p in done ==> Imported(w.db, p);
      }
      CleanRunImports(w', pages[1..], done + [pages[0]]);
      assert done + [pages[0]] + pages[1..] == done + pages;
    }
  }

  lemma {:induction false} ImportedPagesAreUnchanged(w: World, pages: seq<Page>, allowWrites: bool)
    requires forall p :: p in pages ==> Imported(w.db, p)
    ensures var after := ImportAll(w, pages, allowWrites);
            && after.db == w.db
            && after.report == w.report.(
                 unaltered := w.report.unaltered + |pages|, recordsExisting := w.report.recordsExisting + |pages|)
    decreases |pages|
  {
    if pages != [] {
      assert Imported(w.db, pages[0]);
      ImportedPagesAreUnchanged(Import(w, pages[0], allowWrites), pages[1..], allowWrites);
    }
  }

  /**
   * Running a successful import again, dry or live, creates nothing and reports every page
   * unchanged, without a finding.
   */
  lemma RerunChangesNothing(db: Db, pages: seq<Page>, allowWrites: bool)
    requires IdsBelowNext(db)
    requires ImportAll(World(db, map[], EMPTY_REPORT), pages, true).report.errors == []
    ensures var imported := ImportAll(World(db, map[], EMPTY_REPORT), pages, true).db;
            var again := ImportAll(World(imported, map[], EMPTY_REPORT), pages, allowWrites);
            again.db == imported
            && again.report == EMPTY_REPORT.(unaltered := |pages|, recordsExisting := |pages|)
  {
    var start := World(db, map[], EMPTY_REPORT);
    var imported := ImportAll(start, pages, true).db;
    CleanRunImports(start, pages, []);
    assert [] + pages == pages;
    ImportedPagesAreUnchanged(World(imported, map[], EMPTY_REPORT), pages, allowWrites);
  }
}
