/**
 * When the Notion importer's dry run tells what its live run will do: exactly when it plans no
 * two notes with one title under one parent.
 */
module NotionDryRun {
  import opened Options
  import opened NotionImport

  /** A note the dry run plans: its title and where it goes. */
  datatype Site = Site(title: string, parent: Option<Ref>)

  /** The sites a dry run plans, in order. */
  function Sites(w: World, pages: seq<Page>): seq<Site>
    decreases |pages|
  {
    if pages == [] then []
    else SiteOf(w, pages[0]) + Sites(Import(w, pages[0], false), pages[1..])
  }

  function SiteOf(w: World, page: Page): seq<Site> {
    if Decide(w, page).Create? then [Site(page.title, Decide(w, page).parent)] else []
  }

  predicate Distinct(sites: seq<Site>) {
    forall i, j :: 0 <= i < j < |sites| ==> sites[i] != sites[j]
  }

  /** What a report says apart from whether its new pages were planned or created. */
  predicate SameFindings(dry: Report, live: Report) {
    && dry.planned == live.created && live.planned == dry.created == dry.recordsCreated == 0
    && dry.planned == live.recordsCreated
    && dry == live.(planned := dry.planned, created := 0, recordsCreated := 0)
  }

  predicate WellFormed(db: Db) {
    && (forall id :: id in db.notes ==> id < db.next)
    && (forall id :: id in db.notes && db.notes[id].parent.Some? ==> db.notes[id].parent.value < db.next)
    && (forall k :: k in db.records && db.records[k].noteId.Some? ==> db.records[k].noteId.value < db.next)
  }

  predicate KeysDistinct(pages: seq<Page>) {
    forall i, j :: 0 <= i < j < |pages| ==> pages[i].key != pages[j].key
  }

  predicate Unread(pages: seq<Page>, done: set<string>) {
    forall i :: 0 <= i < |pages| ==> pages[i].key !in done
  }

  // ---------------------------------------------------------------- the two runs side by side

  /** The id in the live run of what the dry run refers to. */
  predicate Maps(d: World, l: World, base: Db, key: string) {
    key in d.ids && key in l.ids && l.ids[key].Real?
    && match d.ids[key]
       case Real(id) => l.ids[key].id == id && id < base.next
       case Planned(k) => k == key && base.next <= l.ids[key].id < l.db.next
  }

  predicate SameParent(d: World, l: World, base: Db, dry: Option<Ref>, live: Option<nat>) {
    match dry
    case None => live.None?
    case Some(Real(id)) => live == Some(id) && id < base.next
    case Some(Planned(k)) => Maps(d, l, base, k) && d.ids[k] == Planned(k) && live == Some(l.ids[k].id)
  }

  /** A note the live run created stands for a site the dry run planned, and the other way round. */
  predicate NoteOfSite(d: World, l: World, base: Db, id: nat, site: Site) {
    id in l.db.notes && base.next <= id && l.db.notes[id].live && l.db.notes[id].title == site.title
    && SameParent(d, l, base, site.parent, l.db.notes[id].parent)
  }

  ghost predicate NewNotesAreSites(d: World, l: World, base: Db, sites: seq<Site>) {
    && l.db.next == base.next + |sites|
    && forall i :: 0 <= i < |sites| ==> NoteOfSite(d, l, base, base.next + i, sites[i])
  }

  ghost predicate IdsInStep(d: World, l: World, base: Db, done: set<string>) {
    && d.ids.Keys == l.ids.Keys && d.ids.Keys <= done
    && (forall k :: k in d.ids ==> Maps(d, l, base, k))
    && (forall k, m :: k in d.ids && m in d.ids && k != m && d.ids[k].Planned? && d.ids[m].Planned? ==> l.ids[k] != l.ids[m])
  }

  ghost predicate DbInStep(live: Db, base: Db, done: set<string>) {
    && (forall k :: k !in done ==> (k in live.records <==> k in base.records))
    && (forall k :: k in base.records ==> k in live.records && live.records[k] == base.records[k])
    && (forall id :: id in base.notes ==> id in live.notes && live.notes[id] == base.notes[id])
    && (forall id :: id in live.notes ==> id in base.notes || base.next <= id < live.next)
  }

  ghost predicate TablesInStep(d: World, l: World, base: Db, sites: seq<Site>, done: set<string>) {
    && WellFormed(base) && d.db == base && IdsInStep(d, l, base, done) && DbInStep(l.db, base, done)
    && NewNotesAreSites(d, l, base, sites)
  }

  ghost predicate ReportsInStep(dry: Report, live: Report, done: set<string>) {
    SameFindings(dry, live) && forall e :: e in dry.errors ==> e.key in done
  }

  ghost predicate InStep(d: World, l: World, base: Db, sites: seq<Site>, done: set<string>) {
    TablesInStep(d, l, base, sites, done) && ReportsInStep(d.report, l.report, done)
  }

  /** Two references with one live counterpart are the same reference. */
  lemma ParentsAreInjective(d: World, l: World, base: Db, sites: seq<Site>, done: set<string>, a: Option<Ref>, b: Option<Ref>, live: Option<nat>)
    requires TablesInStep(d, l, base, sites, done) && SameParent(d, l, base, a, live) && SameParent(d, l, base, b, live)
    ensures a == b
  {
  }

  /** The live run finds a place taken where the dry run does, or where it planned a site. */
  lemma OccupiedAgrees(d: World, l: World, base: Db, sites: seq<Site>, done: set<string>, title: string, dry: Option<Ref>, live: Option<Ref>)
    requires TablesInStep(d, l, base, sites, done) && (live.Some? ==> live.value.Real?) && SameParent(d, l, base, dry, NoteId(live))
    ensures Occupied(l.db, title, live) <==> Occupied(base, title, dry) || Site(title, dry) in sites
  {
    if Occupied(l.db, title, live) {
      var id :| id in l.db.notes && IsAt(l.db.notes[id], title, live);
      if id in base.notes {
        assert IsAt(base.notes[id], title, dry);
      } else {
        var i := id - base.next;
        assert NoteOfSite(d, l, base, base.next + i, sites[i]);
        ParentsAreInjective(d, l, base, sites, done, sites[i].parent, dry, NoteId(live));
      }
    }
    if Occupied(base, title, dry) {
      var id :| id in base.notes && IsAt(base.notes[id], title, dry);
      assert IsAt(l.db.notes[id], title, live);
    }
    if Site(title, dry) in sites {
      var i :| 0 <= i < |sites| && sites[i] == Site(title, dry);
      assert NoteOfSite(d, l, base, base.next + i, sites[i]);
      SameLiveParent(d, l, base, dry, l.db.notes[base.next + i].parent, NoteId(live));
      assert IsAt(l.db.notes[base.next + i], title, live);
    }
  }

  lemma SameLiveParent(d: World, l: World, base: Db, dry: Option<Ref>, a: Option<nat>, b: Option<nat>)
    requires SameParent(d, l, base, dry, a) && SameParent(d, l, base, dry, b)
    ensures a == b
  {
  }

  /** What the live run decides for the page the dry run decides about. */
  lemma DecisionsAgree(d: World, l: World, base: Db, sites: seq<Site>, done: set<string>, page: Page)
    requires TablesInStep(d, l, base, sites, done) && page.key !in done
    ensures var dry, live := Decide(d, page), Decide(l, page);
            match dry
            case Create(parent) =>
              if Site(page.title, parent) in sites then live == Conflict
              else live.Create? && SameParent(d, l, base, parent, NoteId(live.parent))
            case _ => live == dry
  {
    if !page.blank && page.key !in base.records && (page.parentKey.Some? ==> page.parentKey.value in d.ids) {
      var dry := if page.parentKey.Some? then Some(d.ids[page.parentKey.value]) else None;
      var live := if page.parentKey.Some? then Some(l.ids[page.parentKey.value]) else None;
      if page.parentKey.Some? {
        assert Maps(d, l, base, page.parentKey.value);
      }
      OccupiedAgrees(d, l, base, sites, done, page.title, dry, live);
    }
  }

  /** A step keeps earlier pages' ids, notes and sites. */
  ghost predicate Extends(d: World, l: World, d': World, l': World, key: string) {
    && d'.db == d.db && d'.ids.Keys == l'.ids.Keys && d'.ids.Keys <= d.ids.Keys + {key} && d.ids.Keys <= d'.ids.Keys
    && d.ids.Keys == l.ids.Keys
    && (forall k :: k in d.ids && k != key ==> d'.ids[k] == d.ids[k] && l'.ids[k] == l.ids[k])
    && l'.db.next >= l.db.next
    && (forall id :: id in l.db.notes ==> id in l'.db.notes && l'.db.notes[id] == l.db.notes[id])
  }

  lemma ExtensionKeepsMaps(d: World, l: World, d': World, l': World, base: Db, key: string, k: string)
    requires Extends(d, l, d', l', key) && k != key && k in d.ids && Maps(d, l, base, k)
    ensures Maps(d', l', base, k)
  {
  }

  lemma ExtensionKeepsSites(d: World, l: World, d': World, l': World, base: Db, sites: seq<Site>, key: string)
    requires Extends(d, l, d', l', key) && key !in d.ids
    requires forall i :: 0 <= i < |sites| ==> NoteOfSite(d, l, base, base.next + i, sites[i])
    ensures forall i :: 0 <= i < |sites| ==> NoteOfSite(d', l', base, base.next + i, sites[i])
  {
    forall i | 0 <= i < |sites| ensures NoteOfSite(d', l', base, base.next + i, sites[i]) {
      assert NoteOfSite(d, l, base, base.next + i, sites[i]);
    }
  }

  /** Outcomes of one kind are counted alike. */
  lemma ReportsStayInStep(dry: Report, live: Report, done: set<string>, page: Page, a: Outcome, b: Outcome)
    requires ReportsInStep(dry, live, done) && (a == b || (a.Create? && b.Create?))
    ensures ReportsInStep(Counted(dry, page, a, false), Counted(live, page, b, true), done + {page.key})
  {
  }

  lemma StepStaysInStep(d: World, l: World, base: Db, sites: seq<Site>, done: set<string>, page: Page)
    requires InStep(d, l, base, sites, done) && page.key !in done
    requires forall site :: site in SiteOf(d, page) ==> site !in sites
    ensures InStep(Import(d, page, false), Import(l, page, true), base, sites + SiteOf(d, page), done + {page.key})
  {
    DecisionsAgree(d, l, base, sites, done, page);
    if Decide(d, page).Create? {
      var parent := Decide(d, page).parent;
      assert SiteOf(d, page) == [Site(page.title, parent)] && SiteOf(d, page)[0] !in sites;
      ReportsStayInStep(d.report, l.report, done, page, Decide(d, page), Decide(l, page));
      CreatedStaysInStep(d, l, base, sites, done, page, parent);
    } else {
      assert sites + SiteOf(d, page) == sites;
      ReportsStayInStep(d.report, l.report, done, page, Decide(d, page), Decide(l, page));
      QuietStepStaysInStep(d, l, base, sites, done, page, Decide(d, page));
    }
  }

  lemma QuietStepStaysInStep(d: World, l: World, base: Db, sites: seq<Site>, done: set<string>, page: Page, o: Outcome)
    requires TablesInStep(d, l, base, sites, done) && page.key !in done
    requires Decide(d, page) == Decide(l, page) == o && !o.Create?
    ensures TablesInStep(Import(d, page, false), Import(l, page, true), base, sites, done + {page.key})
  {
    QuietStepExtends(d, l, base, done, page, o);
    ExtensionKeepsSites(d, l, Import(d, page, false), Import(l, page, true), base, sites, page.key);
    FoundNoteIsOld(d, l, base, sites, done, page, o);
    ExtensionKeepsIds(d, l, Import(d, page, false), Import(l, page, true), base, done, page.key);
  }

  lemma QuietStepExtends(d: World, l: World, base: Db, done: set<string>, page: Page, o: Outcome)
    requires IdsInStep(d, l, base, done) && DbInStep(l.db, base, done)
    requires Decide(d, page) == Decide(l, page) == o && !o.Create?
    ensures var d', l' := Import(d, page, false), Import(l, page, true);
            Extends(d, l, d', l', page.key) && l'.db == l.db && DbInStep(l'.db, base, done + {page.key})
  {
  }

  /** A note found through a record was there before the run. */
  lemma FoundNoteIsOld(d: World, l: World, base: Db, sites: seq<Site>, done: set<string>, page: Page, o: Outcome)
    requires TablesInStep(d, l, base, sites, done) && Decide(d, page) == Decide(l, page) == o && !o.Create?
    ensures page.key in Import(d, page, false).ids && page.key !in d.ids ==> Maps(Import(d, page, false), Import(l, page, true), base, page.key)
    ensures page.key in Import(d, page, false).ids && page.key !in d.ids ==> Import(d, page, false).ids[page.key].Real?
  {
  }

  lemma ExtensionKeepsIds(d: World, l: World, d': World, l': World, base: Db, done: set<string>, key: string)
    requires IdsInStep(d, l, base, done) && Extends(d, l, d', l', key) && key !in done
    requires key in d'.ids ==> Maps(d', l', base, key) && (d'.ids[key].Planned? ==> l'.ids[key] == Real(l.db.next))
    ensures IdsInStep(d', l', base, done + {key})
  {
    forall k | k in d'.ids ensures Maps(d', l', base, k) {
      if k != key {
        ExtensionKeepsMaps(d, l, d', l', base, key, k);
      }
    }
    forall k, m | k in d'.ids && m in d'.ids && k != m && d'.ids[k].Planned? && d'.ids[m].Planned? ensures l'.ids[k] != l'.ids[m] {
      assert k != key ==> Maps(d, l, base, k);
      assert m != key ==> Maps(d, l, base, m);
    }
  }

  lemma CreatedStaysInStep(d: World, l: World, base: Db, sites: seq<Site>, done: set<string>, page: Page, parent: Option<Ref>)
    requires TablesInStep(d, l, base, sites, done) && page.key !in done
    requires Decide(d, page) == Create(parent) && Decide(l, page).Create?
    requires SameParent(d, l, base, parent, NoteId(Decide(l, page).parent))
    ensures TablesInStep(Import(d, page, false), Import(l, page, true), base, sites + [Site(page.title, parent)], done + {page.key})
  {
    CreationExtends(d, l, base, sites, done, page, parent);
    WrittenStaysInStep(l.db, base, done, page, Decide(l, page).parent);
    ExtensionKeepsIds(d, l, Import(d, page, false), Import(l, page, true), base, done, page.key);
    NewSitesAreSites(d, l, base, sites, done, page, parent);
  }

  lemma CreationExtends(d: World, l: World, base: Db, sites: seq<Site>, done: set<string>, page: Page, parent: Option<Ref>)
    requires TablesInStep(d, l, base, sites, done) && page.key !in done
    requires Decide(d, page) == Create(parent) && Decide(l, page).Create?
    ensures var d', l' := Import(d, page, false), Import(l, page, true);
            && Extends(d, l, d', l', page.key) && page.key !in l.db.records && l.db.next >= base.next
            && l'.db == Written(l.db, page, Decide(l, page).parent)
            && page.key in d'.ids && Maps(d', l', base, page.key) && l'.ids[page.key] == Real(l.db.next)
  {
  }

  lemma NewSitesAreSites(d: World, l: World, base: Db, sites: seq<Site>, done: set<string>, page: Page, parent: Option<Ref>)
    requires TablesInStep(d, l, base, sites, done) && page.key !in done
    requires Decide(d, page) == Create(parent) && Decide(l, page).Create?
    requires SameParent(d, l, base, parent, NoteId(Decide(l, page).parent))
    ensures NewNotesAreSites(Import(d, page, false), Import(l, page, true), base, sites + [Site(page.title, parent)])
  {
    CreationExtends(d, l, base, sites, done, page, parent);
    ExtensionKeepsSites(d, l, Import(d, page, false), Import(l, page, true), base, sites, page.key);
    NewNoteIsItsSite(d, l, base, sites, done, page, parent);
    OneMoreSite(Import(d, page, false), Import(l, page, true), base, sites, Site(page.title, parent));
  }

  lemma OneMoreSite(d: World, l: World, base: Db, sites: seq<Site>, site: Site)
    requires forall i :: 0 <= i < |sites| ==> NoteOfSite(d, l, base, base.next + i, sites[i])
    requires NoteOfSite(d, l, base, base.next + |sites|, site) && l.db.next == base.next + |sites| + 1
    ensures NewNotesAreSites(d, l, base, sites + [site])
  {
  }

  lemma WrittenStaysInStep(live: Db, base: Db, done: set<string>, page: Page, parent: Option<Ref>)
    requires WellFormed(base) && DbInStep(live, base, done) && live.next >= base.next && page.key !in live.records
    ensures DbInStep(Written(live, page, parent), base, done + {page.key})
  {
  }

  lemma NewNoteIsItsSite(d: World, l: World, base: Db, sites: seq<Site>, done: set<string>, page: Page, parent: Option<Ref>)
    requires TablesInStep(d, l, base, sites, done) && page.key !in done
    requires Decide(d, page) == Create(parent) && Decide(l, page).Create?
    requires SameParent(d, l, base, parent, NoteId(Decide(l, page).parent))
    ensures NoteOfSite(Import(d, page, false), Import(l, page, true), base, base.next + |sites|, Site(page.title, parent))
  {
  }

  // ---------------------------------------------------------------- the whole run

  lemma {:induction false} DistinctSitesKeepStep(d: World, l: World, base: Db, sites: seq<Site>, done: set<string>, pages: seq<Page>)
    requires InStep(d, l, base, sites, done) && KeysDistinct(pages) && Unread(pages, done)
    requires Distinct(sites + Sites(d, pages))
    ensures SameFindings(ImportAll(d, pages, false).report, ImportAll(l, pages, true).report)
    decreases |pages|
  {
    if pages != [] {
      var more := SiteOf(d, pages[0]);
      var d' := Import(d, pages[0], false);
      SitesSplit(sites, more, Sites(d', pages[1..]));
      StepStaysInStep(d, l, base, sites, done, pages[0]);
      DistinctSitesKeepStep(d', Import(l, pages[0], true), base, sites + more, done + {pages[0].key}, pages[1..]);
    }
  }

  lemma SitesSplit(a: seq<Site>, b: seq<Site>, c: seq<Site>)
    ensures (a + b) + c == a + (b + c)
    ensures Distinct(a + (b + c)) ==> forall s :: s in b ==> s !in a
  {
    assert (a + b) + c == a + (b + c);
    if Distinct(a + (b + c)) {
      forall s | s in b ensures s !in a {
        var j :| 0 <= j < |b| && b[j] == s;
        assert (a + (b + c))[|a| + j] == s;
        forall i | 0 <= i < |a| ensures a[i] != s {
          assert (a + (b + c))[i] == a[i];
        }
      }
    }
  }

  /** The findings a run adds are about the pages it reads. */
  lemma {:induction false} FindingsNameTheirPages(w: World, pages: seq<Page>, allowWrites: bool, key: string)
    requires forall i :: 0 <= i < |pages| ==> pages[i].key != key
    requires forall e :: e in w.report.errors ==> e.key != key
    ensures forall e :: e in ImportAll(w, pages, allowWrites).report.errors ==> e.key != key
    decreases |pages|
  {
    if pages != [] {
      FindingsNameTheirPages(Import(w, pages[0], allowWrites), pages[1..], allowWrites, key);
    }
  }

  lemma {:induction false} RepeatedSiteBreaksStep(d: World, l: World, base: Db, sites: seq<Site>, done: set<string>, pages: seq<Page>)
    requires InStep(d, l, base, sites, done) && KeysDistinct(pages) && Unread(pages, done)
    requires Distinct(sites) && !Distinct(sites + Sites(d, pages))
    ensures !SameFindings(ImportAll(d, pages, false).report, ImportAll(l, pages, true).report)
    decreases |pages|
  {
    assert pages == [] ==> sites + Sites(d, pages) == sites;
    if pages != [] {
      var page, more := pages[0], SiteOf(d, pages[0]);
      var d', l' := Import(d, page, false), Import(l, page, true);
      SitesSplit(sites, more, Sites(d', pages[1..]));
      DecisionsAgree(d, l, base, sites, done, page);
      if more != [] && more[0] in sites {
        FindingsNameTheirPages(d', pages[1..], false, page.key);
        ErrorsOnlyGrow(l', pages[1..], true);
        var finding := Finding(page.key, DestinationConflict);
        assert l'.report.errors[|l.report.errors|] == finding;
        assert finding in ImportAll(l', pages[1..], true).report.errors;
      } else {
        StepStaysInStep(d, l, base, sites, done, page);
        RepeatedSiteBreaksStep(d', l', base, sites + more, done + {page.key}, pages[1..]);
      }
    }
  }

  /**
   * The dry run's plan, hierarchy, findings and counts are those of the live run exactly when
   * no two notes it plans have one title and one parent.
   */
  lemma DryRunTellsExactlyWhenSitesAreDistinct(db: Db, pages: seq<Page>)
    requires WellFormed(db) && KeysDistinct(pages)
    ensures var start := World(db, map[], EMPTY_REPORT);
            SameFindings(ImportAll(start, pages, false).report, ImportAll(start, pages, true).report)
            <==> Distinct(Sites(start, pages))
  {
    var start := World(db, map[], EMPTY_REPORT);
    assert InStep(start, start, db, [], {});
    assert [] + Sites(start, pages) == Sites(start, pages);
    if Distinct(Sites(start, pages)) {
      DistinctSitesKeepStep(start, start, db, [], {}, pages);
    } else {
      RepeatedSiteBreaksStep(start, start, db, [], {}, pages);
    }
  }
}
