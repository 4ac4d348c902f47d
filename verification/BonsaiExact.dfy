/**
 * When the Bonsai dry run decides like the live run for every choice of websites and current
 * domains. Which client a row stands for depends on names, emails and contacts alone, so the
 * condition can be computed from the export and the address book before either run.
 */
module BonsaiExact {
  import opened Options
  import opened BonsaiDomains

  /** A row without its website, and the tables as far as the lookups see them. */
  datatype Person = Person(name: string, email: string)

  datatype Book = Book(names: map<ClientId, string>, contacts: map<string, ClientId>, nextId: ClientId)

  function Who(b: Book, p: Person): Option<ClientId> {
    if p.email != "" && p.email in b.contacts then Some(b.contacts[p.email])
    else FirstOf(Called(b.names, p.name))
  }

  function Called(names: map<ClientId, string>, name: string): set<ClientId> {
    set c | c in names && names[c] == name
  }

  /** What a live run's write of this person changes in the address book. */
  function Learn(b: Book, p: Person): Book {
    var own := Who(b, p);
    var id := if own.Some? then own.value else b.nextId;
    Book(
      b.names[id := p.name],
      if p.email != "" && p.email !in b.contacts then b.contacts[p.email := id] else b.contacts,
      if own.Some? then b.nextId else b.nextId + 1)
  }

  /** One mode alone stands this person for the pre-existing client h. */
  predicate Mismatch(first: Book, live: Book, p: Person, h: ClientId) {
    h in first.names && (Who(first, p) == Some(h)) != (Who(live, p) == Some(h))
  }

  /** Nobody is matched unalike while the live run's address book grows. */
  ghost predicate PeopleAlike(first: Book, live: Book, people: seq<Person>)
    decreases |people|
  {
    people == [] ||
    ((forall h :: !Mismatch(first, live, people[0], h)) && PeopleAlike(first, Learn(live, people[0]), people[1..]))
  }

  /** The only client there was is the one the first row stands for: every later domain is claimed or free. */
  ghost predicate OnlyClientComesFirst(b: Book, people: seq<Person>) {
    people != [] && exists h :: b.names.Keys == {h} && Who(b, people[0]) == Some(h)
  }

  // ---------------------------------------------------------------- rows and people

  function PersonOf(row: Row): Person {
    Person(row.name, row.email)
  }

  function People(rows: seq<Row>): (people: seq<Person>)
    ensures |people| == |rows|
  {
    seq(|rows|, i requires 0 <= i < |rows| => PersonOf(rows[i]))
  }

  function BookOf(s: Import): Book {
    Book(map c | c in s.clients :: s.clients[c].name, s.contacts, s.nextId)
  }

  lemma MatchIsWho(s: Import, row: Row)
    ensures Match(s, row) == Who(BookOf(s), PersonOf(row))
  {
    assert Called(BookOf(s).names, row.name) == NamedAs(s.clients, row.name);
  }

  lemma RowIsLearned(s: Import, row: Row)
    ensures BookOf(ImportRow(false, s, row)) == Learn(BookOf(s), PersonOf(row))
    ensures BookOf(ImportRow(true, s, row)) == BookOf(s)
  {
    MatchIsWho(s, row);
    assert BookOf(ImportRow(false, s, row)).names == Learn(BookOf(s), PersonOf(row)).names;
  }

  predicate BookWellFormed(b: Book) {
    && (forall c :: c in b.names ==> c < b.nextId)
    && (forall e :: e in b.contacts ==> b.contacts[e] in b.names)
  }

  /** Alike in people is alike in rows. */
  lemma {:induction false} AlikePeopleAreMatchedAlike(clients: map<ClientId, Client>, dry: Import, live: Import, rows: seq<Row>)
    requires dry.clients == clients && WellFormed(dry) && PeopleAlike(BookOf(dry), BookOf(live), People(rows))
    ensures MatchedAlike(clients, dry, live, rows)
    decreases |rows|
  {
    if rows != [] {
      var row := rows[0];
      MatchIsWho(dry, row);
      MatchIsWho(live, row);
      MatchedIsStored(dry, row);
      assert People(rows)[0] == PersonOf(row) && People(rows)[1..] == People(rows[1..]);
      assert forall h :: !Mismatch(BookOf(dry), BookOf(live), PersonOf(row), h);
      assert BookOf(dry).names.Keys == clients.Keys;
      assert Match(dry, row).Some? ==> !Mismatch(BookOf(dry), BookOf(live), PersonOf(row), Match(dry, row).value);
      assert Match(live, row).Some? ==> !Mismatch(BookOf(dry), BookOf(live), PersonOf(row), Match(live, row).value);
      RowIsLearned(dry, row);
      RowIsLearned(live, row);
      AlikePeopleAreMatchedAlike(clients, ImportRow(true, dry, row), ImportRow(false, live, row), rows[1..]);
    }
  }

  // ---------------------------------------------------------------- the statement

  /** The database and the export have these names, emails and contacts, and any domains. */
  ghost predicate Fits(clients: map<ClientId, Client>, rows: seq<Row>, b: Book, people: seq<Person>) {
    Unique(clients) && BookOf(Start(clients, b.contacts, b.nextId)) == b && People(rows) == people
  }

  predicate DecidesAlike(clients: map<ClientId, Client>, rows: seq<Row>, b: Book) {
    ImportRows(true, Start(clients, b.contacts, b.nextId), rows).taken == ImportRows(false, Start(clients, b.contacts, b.nextId), rows).taken
  }

  ghost predicate AlwaysDecidesAlike(b: Book, people: seq<Person>) {
    forall clients, rows :: Fits(clients, rows, b, people) ==> DecidesAlike(clients, rows, b)
  }

  predicate DistinctNames(people: seq<Person>) {
    forall i, j :: 0 <= i < j < |people| ==> people[i].name != people[j].name
  }

  lemma AlikePeopleDecideAlike(clients: map<ClientId, Client>, rows: seq<Row>, b: Book, people: seq<Person>)
    requires BookWellFormed(b) && DistinctNames(people) && Fits(clients, rows, b, people) && PeopleAlike(b, b, people)
    ensures DecidesAlike(clients, rows, b)
  {
    var start := Start(clients, b.contacts, b.nextId);
    StartIsWellFormed(clients, b);
    AlikePeopleAreMatchedAlike(clients, start, start, rows);
    forall i, j | 0 <= i < j < |rows| ensures rows[i].name != rows[j].name {
      assert people[i].name == rows[i].name && people[j].name == rows[j].name;
    }
    DryRunDecidesLikeLiveRun(clients, b.contacts, b.nextId, rows);
  }

  lemma StartIsWellFormed(clients: map<ClientId, Client>, b: Book)
    requires BookWellFormed(b) && BookOf(Start(clients, b.contacts, b.nextId)) == b
    ensures WellFormed(Start(clients, b.contacts, b.nextId)) && clients.Keys == b.names.Keys
  {
    assert BookOf(Start(clients, b.contacts, b.nextId)).names.Keys == clients.Keys;
  }

  // ---------------------------------------------------------------- the only client comes first

  /** Only claims decide any more, and both modes have made the same ones. */
  ghost predicate ClaimsDecide(dry: Import, live: Import, h: ClientId) {
    && dry.clients.Keys == {h} && dry.claimed == live.claimed && dry.taken == live.taken
    && (dry.clients[h].domain.Some? && dry.clients[h].domain.value !in dry.claimed ==>
          dry.clients[h].domain.value in dry.released && dry.released[dry.clients[h].domain.value] == h)
    && (forall c :: c in live.clients && live.clients[c].domain.Some? ==> live.clients[c].domain.value in live.claimed)
  }

  lemma ClaimedIsRefused(dry: Import, live: Import, h: ClientId, row: Row, ownDry: Option<ClientId>, ownLive: Option<ClientId>)
    requires ClaimsDecide(dry, live, h) && row.website.Some?
    ensures DomainTaken(dry, row.website.value, row.name, ownDry) == DomainTaken(live, row.website.value, row.name, ownLive)
  {
    var d := row.website.value;
    if d !in live.claimed {
      assert HoldersOf(live.clients, d) == {};
      assert HoldersOf(dry.clients, d) <= {h};
    }
  }

  lemma RowKeepsClaimsDecide(dry: Import, live: Import, h: ClientId, row: Row)
    requires ClaimsDecide(dry, live, h)
    ensures ClaimsDecide(ImportRow(true, dry, row), ImportRow(false, live, row), h)
  {
    if row.website.Some? {
      ClaimedIsRefused(dry, live, h, row, Match(dry, row), Match(live, row));
    }
  }

  lemma {:induction false} RowsKeepClaimsDecide(dry: Import, live: Import, h: ClientId, rows: seq<Row>)
    requires ClaimsDecide(dry, live, h)
    ensures ImportRows(true, dry, rows).taken == ImportRows(false, live, rows).taken
    decreases |rows|
  {
    if rows != [] {
      RowKeepsClaimsDecide(dry, live, h, rows[0]);
      RowsKeepClaimsDecide(ImportRow(true, dry, rows[0]), ImportRow(false, live, rows[0]), h, rows[1..]);
    }
  }

  lemma OnlyClientDecidesAlike(clients: map<ClientId, Client>, rows: seq<Row>, b: Book, people: seq<Person>)
    requires BookWellFormed(b) && Fits(clients, rows, b, people) && OnlyClientComesFirst(b, people)
    ensures DecidesAlike(clients, rows, b)
  {
    var start := Start(clients, b.contacts, b.nextId);
    var h :| b.names.Keys == {h} && Who(b, people[0]) == Some(h);
    var row := rows[0];
    StartIsWellFormed(clients, b);
    MatchIsWho(start, row);
    assert people[0] == PersonOf(row);
    assert h in clients && forall c :: c in clients ==> c == h;
    if row.website.Some? {
      assert HoldersOf(clients, row.website.value) <= {h};
    }
    assert !RowIsRefused(start, row, Some(h));
    RowsKeepClaimsDecide(ImportRow(true, start, row), ImportRow(false, start, row), h, rows[1..]);
  }

  // ---------------------------------------------------------------- otherwise some websites tell the modes apart

  function LearnAll(b: Book, people: seq<Person>): Book
    decreases |people|
  {
    if people == [] then b else LearnAll(Learn(b, people[0]), people[1..])
  }

  lemma {:induction false} FindMismatch(first: Book, live: Book, people: seq<Person>) returns (i: nat, h: ClientId)
    requires !PeopleAlike(first, live, people)
    ensures i < |people| && Mismatch(first, LearnAll(live, people[..i]), people[i], h)
    decreases |people|
  {
    if g :| Mismatch(first, live, people[0], g) {
      i, h := 0, g;
    } else {
      var j;
      j, h := FindMismatch(first, Learn(live, people[0]), people[1..]);
      i := j + 1;
      assert people[..i][0] == people[0] && people[..i][1..] == people[1..][..j];
    }
  }

  lemma {:induction false} BooksAfter(s: Import, rows: seq<Row>)
    ensures BookOf(ImportRows(false, s, rows)) == LearnAll(BookOf(s), People(rows))
    ensures BookOf(ImportRows(true, s, rows)) == BookOf(s)
    decreases |rows|
  {
    if rows != [] {
      RowIsLearned(s, rows[0]);
      assert People(rows)[0] == PersonOf(rows[0]) && People(rows)[1..] == People(rows[1..]);
      BooksAfter(ImportRow(false, s, rows[0]), rows[1..]);
      BooksAfter(ImportRow(true, s, rows[0]), rows[1..]);
    }
  }

  const OWNED := "owned.com"
  const OTHER := "other.com"

  /** h alone holds OWNED, nobody claims or released it, and no other domain but OTHER is about. */
  ghost predicate Guarded(s: Import, h: ClientId) {
    && WellFormed(s) && s.released == map[] && s.claimed.Keys <= {OTHER}
    && h in s.clients && s.clients[h].domain == Some(OWNED)
    && (forall c :: c in s.clients && c != h ==> s.clients[c].domain == None || s.clients[c].domain == Some(OTHER))
  }

  /** OTHER is not for h to take. */
  predicate Blocked(s: Import) {
    OTHER in s.claimed || HoldersOf(s.clients, OTHER) != {}
  }

  lemma RowStaysGuarded(dryRun: bool, s: Import, h: ClientId, row: Row)
    requires Guarded(s, h) && row.website == Some(OTHER) && (Blocked(s) || Match(s, row) != Some(h))
    requires OTHER in s.claimed ==> s.claimed[OTHER] != row.name
    ensures Guarded(ImportRow(dryRun, s, row), h) && Blocked(ImportRow(dryRun, s, row))
    ensures forall d :: d in ImportRow(dryRun, s, row).claimed && d !in s.claimed ==> ImportRow(dryRun, s, row).claimed[d] == row.name
    ensures forall d :: d in s.claimed ==> d in ImportRow(dryRun, s, row).claimed && ImportRow(dryRun, s, row).claimed[d] == s.claimed[d]
  {
    var own := Match(s, row);
    MatchedIsStored(s, row);
    var s' := ImportRow(dryRun, s, row);
    if RowIsRefused(s, row, own) {
      if OTHER !in s.claimed {
        var g := FirstOf(HoldersOf(s.clients, OTHER)).value;
        assert g in HoldersOf(s'.clients, OTHER);
      }
    } else {
      assert own != Some(h) && OTHER in s'.claimed;
    }
  }

  lemma {:induction false} RowsStayGuarded(dryRun: bool, s: Import, h: ClientId, rows: seq<Row>)
    requires Guarded(s, h) && NamesDistinct(rows) && ClaimsAreEarlier(s, rows)
    requires forall i :: 0 <= i < |rows| ==> rows[i].website == Some(OTHER)
    requires rows != [] ==> Blocked(s) || Match(s, rows[0]) != Some(h)
    ensures Guarded(ImportRows(dryRun, s, rows), h)
    decreases |rows|
  {
    if rows != [] {
      RowStaysGuarded(dryRun, s, h, rows[0]);
      RowsStayGuarded(dryRun, ImportRow(dryRun, s, rows[0]), h, rows[1..]);
    }
  }

  lemma OwnedIsForItsHolder(s: Import, h: ClientId, row: Row)
    requires Guarded(s, h) && row.website == Some(OWNED)
    ensures RowIsRefused(s, row, Match(s, row)) <==> Match(s, row) != Some(h)
  {
    assert OWNED != OTHER;
    assert HoldersOf(s.clients, OWNED) == {h};
  }

  lemma {:induction false} TakenGrows(dryRun: bool, s: Import, rows: seq<Row>)
    ensures s.taken <= ImportRows(dryRun, s, rows).taken
    decreases |rows|
  {
    if rows != [] { TakenGrows(dryRun, ImportRow(dryRun, s, rows[0]), rows[1..]); }
  }

  lemma {:induction false} DecisionAt(dryRun: bool, s: Import, before: seq<Row>, row: Row, after: seq<Row>)
    ensures var taken := ImportRows(dryRun, s, before + [row] + after).taken;
            var t := ImportRows(dryRun, s, before);
            && |s.taken| + |before| < |taken| && taken[|s.taken| + |before|] == RowIsRefused(t, row, Match(t, row))
    decreases |before|
  {
    var rows := before + [row] + after;
    if before == [] {
      assert rows[0] == row && rows[1..] == after;
      TakenGrows(dryRun, ImportRow(dryRun, s, row), after);
    } else {
      assert rows[0] == before[0] && rows[1..] == before[1..] + [row] + after;
      DecisionAt(dryRun, ImportRow(dryRun, s, before[0]), before[1..], row, after);
    }
  }

  /** Domains that guard h: it holds OWNED, and one other client, if there is one, OTHER. */
  ghost function Guarding(b: Book, h: ClientId): map<ClientId, Client> {
    var g := FirstOf(b.names.Keys - {h});
    map c | c in b.names :: Client(b.names[c], if c == h then Some(OWNED) else if g == Some(c) then Some(OTHER) else None)
  }

  /** Websites that keep h's domain until the i-th row asks for it. */
  function Asking(people: seq<Person>, i: nat): (rows: seq<Row>)
    ensures |rows| == |people|
  {
    seq(|people|, k requires 0 <= k < |people| =>
      Row(people[k].name, people[k].email, if k < i then Some(OTHER) else if k == i then Some(OWNED) else None))
  }

  lemma GuardingFits(b: Book, people: seq<Person>, h: ClientId, i: nat)
    requires BookWellFormed(b) && h in b.names
    ensures Fits(Guarding(b, h), Asking(people, i), b, people)
    ensures Guarded(Start(Guarding(b, h), b.contacts, b.nextId), h)
    ensures b.names.Keys != {h} ==> Blocked(Start(Guarding(b, h), b.contacts, b.nextId))
  {
    var clients := Guarding(b, h);
    assert BookOf(Start(clients, b.contacts, b.nextId)).names == b.names;
    assert People(Asking(people, i)) == people;
    if b.names.Keys != {h} {
      assert b.names.Keys - {h} != {};
      var g := FirstOf(b.names.Keys - {h}).value;
      assert g in HoldersOf(clients, OTHER);
    }
  }

  lemma MismatchIsDecidedUnalike(b: Book, people: seq<Person>, i: nat, h: ClientId)
    requires BookWellFormed(b) && DistinctNames(people) && i < |people|
    requires Mismatch(b, LearnAll(b, people[..i]), people[i], h) && !OnlyClientComesFirst(b, people)
    ensures Fits(Guarding(b, h), Asking(people, i), b, people) && !DecidesAlike(Guarding(b, h), Asking(people, i), b)
  {
    var rows, start := Asking(people, i), Start(Guarding(b, h), b.contacts, b.nextId);
    var before, row, after := rows[..i], rows[i], rows[i + 1..];
    GuardingFits(b, people, h, i);
    assert rows == before + [row] + after;
    if i > 0 {
      MatchIsWho(start, before[0]);
      assert PersonOf(before[0]) == people[0];
      assert b.names.Keys == {h} ==> Who(b, people[0]) != Some(h);
    }
    RowsStayGuarded(true, start, h, before);
    RowsStayGuarded(false, start, h, before);
    BooksAfter(start, before);
    assert People(before) == people[..i];
    MatchIsWho(ImportRows(true, start, before), row);
    MatchIsWho(ImportRows(false, start, before), row);
    OwnedIsForItsHolder(ImportRows(true, start, before), h, row);
    OwnedIsForItsHolder(ImportRows(false, start, before), h, row);
    DecisionAt(true, start, before, row, after);
    DecisionAt(false, start, before, row, after);
  }

  /**
   * For given names, emails and contacts, the two modes decide alike whatever the websites and
   * current domains are if and only if no row is matched to a pre-existing client by one mode
   * alone, or the first row stands for the only client there was.
   */
  lemma AlwaysAlikeExactlyWhenMatchedAlike(b: Book, people: seq<Person>)
    requires BookWellFormed(b) && DistinctNames(people)
    ensures AlwaysDecidesAlike(b, people) <==> PeopleAlike(b, b, people) || OnlyClientComesFirst(b, people)
  {
    if PeopleAlike(b, b, people) || OnlyClientComesFirst(b, people) {
      forall clients, rows | Fits(clients, rows, b, people) ensures DecidesAlike(clients, rows, b) {
        if PeopleAlike(b, b, people) {
          AlikePeopleDecideAlike(clients, rows, b, people);
        } else {
          OnlyClientDecidesAlike(clients, rows, b, people);
        }
      }
    } else {
      var i, h := FindMismatch(b, b, people);
      MismatchIsDecidedUnalike(b, people, i, h);
    }
  }
}
