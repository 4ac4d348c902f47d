/**
 * The client loop of the Bonsai importer (scripts/import-bonsai-full.js): which row of the
 * export may take which website domain. A dry run reads a database that never changes; a
 * live run reads the rows it has already written. Client names and emails are the
 * lower-cased values the case-insensitive lookups compare.
 */
module BonsaiDomains {
  import opened Options

  type ClientId = nat

  datatype Client = Client(name: string, domain: Option<string>)

  /** One merged row of the export; `email` is "" when blank, `website` None when blank. */
  datatype Row = Row(name: string, email: string, website: Option<string>)

  /** The tables the loop reads and writes, and its own maps; `taken` lists the decisions so far. */
  datatype Import = Import(
    clients: map<ClientId, Client>, contacts: map<string, ClientId>, nextId: ClientId,
    claimed: map<string, string>, released: map<string, ClientId>, taken: seq<bool>)

  // ---------------------------------------------------------------- lookups

  lemma {:induction false} LeastExists(s: set<nat>)
    requires s != {}
    ensures exists x :: x in s && IsLeast(s, x)
  {
    var x :| x in s;
    var rest := s - {x};
    if rest == {} {
      assert forall y :: y in s ==> y == x || y in rest;
      assert IsLeast(s, x);
    } else {
      LeastExists(rest);
      var m :| m in rest && IsLeast(rest, m);
      var least := if x < m then x else m;
      forall y | y in s ensures least <= y {
        if y != x { assert y in rest; }
      }
      assert least in s && IsLeast(s, least);
    }
  }

  predicate IsLeast(s: set<nat>, x: nat) {
    forall y :: y in s ==> x <= y
  }

  /** `findFirst`: some fixed choice among the matching rows. */
  function FirstOf(s: set<nat>): (r: Option<nat>)
    ensures r.None? <==> s == {}
    ensures r.Some? ==> r.value in s
  {
    if s == {} then None
    else
      LeastExists(s);
      var x :| x in s && IsLeast(s, x);
      Some(x)
  }

  function HoldersOf(clients: map<ClientId, Client>, domain: string): set<ClientId> {
    set c | c in clients && clients[c].domain == Some(domain)
  }

  function NamedAs(clients: map<ClientId, Client>, name: string): set<ClientId> {
    set c | c in clients && clients[c].name == name
  }

  /** The client a row stands for: by contact email first, then by name. */
  function Match(s: Import, row: Row): Option<ClientId> {
    if row.email != "" && row.email in s.contacts then Some(s.contacts[row.email])
    else FirstOf(NamedAs(s.clients, row.name))
  }

  predicate DomainTaken(s: Import, domain: string, key: string, own: Option<ClientId>) {
    if domain in s.claimed then s.claimed[domain] != key
    else
      var holder := FirstOf(HoldersOf(s.clients, domain));
      if holder.None? || holder == own then false
      else !(domain in s.released && s.released[domain] == holder.value)
  }

  /** By a known email a row is that contact's client; otherwise some client of its name, if there is one. */
  lemma MatchFinds(s: Import, row: Row)
    ensures row.email != "" && row.email in s.contacts ==> Match(s, row) == Some(s.contacts[row.email])
    ensures row.email == "" || row.email !in s.contacts ==>
              if exists c :: c in s.clients && s.clients[c].name == row.name
              then Match(s, row).Some? && Match(s, row).value in s.clients && s.clients[Match(s, row).value].name == row.name
              else Match(s, row) == None
  {
    assert forall c :: c in NamedAs(s.clients, row.name) <==> c in s.clients && s.clients[c].name == row.name;
  }

  // ---------------------------------------------------------------- one row

  predicate RowIsRefused(s: Import, row: Row, own: Option<ClientId>) {
    row.website.Some? && DomainTaken(s, row.website.value, row.name, own)
  }

  /** What the update writes to the domain column: nothing, or a value (possibly null). */
  datatype Write = Keep | Put(domain: Option<string>)

  function DomainWrite(refused: bool, row: Row): Write {
    if refused then Keep else Put(row.website)
  }

  function Claim(claimed: map<string, string>, write: Write, key: string): map<string, string> {
    if write.Put? && write.domain.Some? then claimed[write.domain.value := key] else claimed
  }

  function Release(s: Import, write: Write, own: Option<ClientId>): map<string, ClientId> {
    if own.Some? && own.value in s.clients && s.clients[own.value].domain.Some?
       && write.Put? && write.domain != s.clients[own.value].domain
    then s.released[s.clients[own.value].domain.value := own.value]
    else s.released
  }

  function Stored(row: Row, write: Write, before: Option<string>): Client {
    Client(row.name, if write.Put? then write.domain else before)
  }

  /** The effect of one row given the client it stands for. */
  function RowEffect(dryRun: bool, s: Import, row: Row, own: Option<ClientId>): Import {
    var refused := RowIsRefused(s, row, own);
    var write := DomainWrite(refused, row);
    var planned := s.(claimed := Claim(s.claimed, write, row.name), released := Release(s, write, own), taken := s.taken + [refused]);
    if dryRun then planned
    else
      var id := if own.Some? then own.value else s.nextId;
      var before := if id in s.clients then s.clients[id].domain else None;
      planned.(clients := s.clients[id := Stored(row, write, before)],
               nextId := if own.Some? then s.nextId else s.nextId + 1,
               contacts := if row.email != "" && row.email !in s.contacts then s.contacts[row.email := id] else s.contacts)
  }

  function ImportRow(dryRun: bool, s: Import, row: Row): Import {
    RowEffect(dryRun, s, row, Match(s, row))
  }

  function ImportRows(dryRun: bool, s: Import, rows: seq<Row>): Import
    decreases |rows|
  {
    if rows == [] then s else ImportRows(dryRun, ImportRow(dryRun, s, rows[0]), rows[1..])
  }

  function Start(clients: map<ClientId, Client>, contacts: map<string, ClientId>, nextId: ClientId): Import {
    Import(clients, contacts, nextId, map[], map[], [])
  }

  /**
   * What one row does to the tables of a live run: its client has its name, and its website
   * unless that was refused; a new email becomes a contact; no other client or contact changes.
   * A dry run writes neither, and claims and decides alike from the same tables.
   */
  lemma RowIsStored(s: Import, row: Row)
    ensures var live, dry := ImportRow(false, s, row), ImportRow(true, s, row);
            var own := Match(s, row);
            var id := if own.Some? then own.value else s.nextId;
            var refused := RowIsRefused(s, row, own);
            && live.taken == dry.taken == s.taken + [refused] && live.claimed == dry.claimed && live.released == dry.released
            && dry.clients == s.clients && dry.contacts == s.contacts && dry.nextId == s.nextId
            && live.clients.Keys == s.clients.Keys + {id} && live.nextId == s.nextId + (if own.Some? then 0 else 1)
            && live.clients[id].name == row.name
            && live.clients[id].domain == (if !refused then row.website else if id in s.clients then s.clients[id].domain else None)
            && (forall c :: c in s.clients && c != id ==> live.clients[c] == s.clients[c])
            && live.contacts == (if row.email != "" && row.email !in s.contacts then s.contacts[row.email := id] else s.contacts)
            && live.claimed == (if row.website.Some? && !refused then s.claimed[row.website.value := row.name] else s.claimed)
  {
  }

  // ---------------------------------------------------------------- the loop over mutable maps

  class ClientImport {
    const dryRun: bool
    var clients: map<ClientId, Client>
    var contacts: map<string, ClientId>
    var nextId: ClientId
    var domainsClaimed: map<string, string>
    var domainsReleased: map<string, ClientId>
    var taken: seq<bool>

    function State(): Import
      reads this
    {
      Import(clients, contacts, nextId, domainsClaimed, domainsReleased, taken)
    }

    constructor (dryRun: bool, clients: map<ClientId, Client>, contacts: map<string, ClientId>, nextId: ClientId)
      ensures State() == Start(clients, contacts, nextId) && this.dryRun == dryRun
    {
      this.dryRun := dryRun;
      this.clients, this.contacts, this.nextId := clients, contacts, nextId;
      domainsClaimed, domainsReleased, taken := map[], map[], [];
    }

    method IsDomainTaken(domain: string, key: string, ownClientId: Option<ClientId>) returns (refused: bool)
      ensures refused == DomainTaken(State(), domain, key, ownClientId)
      ensures domain in domainsClaimed ==> (refused <==> domainsClaimed[domain] != key)
      ensures domain !in domainsClaimed && refused ==>
                exists h :: h in clients && clients[h].domain == Some(domain) && Some(h) != ownClientId
                            && (domain in domainsReleased ==> domainsReleased[domain] != h)
      ensures domain !in domainsClaimed && !refused ==>
                || (forall h :: h in clients ==> clients[h].domain != Some(domain))
                || (exists h :: h in clients && clients[h].domain == Some(domain)
                                && (Some(h) == ownClientId || (domain in domainsReleased && domainsReleased[domain] == h)))
    {
      if domain in domainsClaimed {
        return domainsClaimed[domain] != key;
      }
      var holder := FirstOf(HoldersOf(clients, domain));
      assert forall h :: h in HoldersOf(clients, domain) <==> h in clients && clients[h].domain == Some(domain);
      if holder.None? || holder == ownClientId {
        return false;
      }
      return domain !in domainsReleased || domainsReleased[domain] != holder.value;
    }

    /** Decides the domain column of one row and records the claim. */
    method DecideDomain(row: Row, existing: Option<ClientId>) returns (write: Write)
      modifies this`domainsClaimed, this`taken
      ensures var refused := RowIsRefused(old(State()), row, existing);
              && write == DomainWrite(refused, row)
              && domainsClaimed == Claim(old(domainsClaimed), write, row.name)
              && taken == old(taken) + [refused]
      ensures row.website.None? ==> write == Put(None) && domainsClaimed == old(domainsClaimed)
      ensures row.website.Some? ==>
                if write.Keep? then domainsClaimed == old(domainsClaimed) && taken == old(taken) + [true]
                else write == Put(row.website) && domainsClaimed == old(domainsClaimed)[row.website.value := row.name] && taken == old(taken) + [false]
    {
      var refused := false;
      write := Put(row.website);
      if row.website.Some? {
        refused := IsDomainTaken(row.website.value, row.name, existing);
        if refused {
          write := Keep;
        } else {
          domainsClaimed := domainsClaimed[row.website.value := row.name];
        }
      }
      taken := taken + [refused];
    }

    /** The update moves a client off its current domain: later rows may take it. */
    method ReleaseDomain(write: Write, existing: Option<ClientId>)
      modifies this`domainsReleased
      ensures domainsReleased == Release(old(State()), write, existing)
      ensures var moves := existing.Some? && existing.value in clients && clients[existing.value].domain.Some?
                           && write.Put? && write.domain != clients[existing.value].domain;
              domainsReleased == if moves then old(domainsReleased)[clients[existing.value].domain.value := existing.value] else old(domainsReleased)
    {
      if existing.Some? && existing.value in clients {
        var current := clients[existing.value].domain;
        if current.Some? && write.Put? && write.domain != current {
          domainsReleased := domainsReleased[current.value := existing.value];
        }
      }
    }

    method WriteClient(row: Row, write: Write, existing: Option<ClientId>)
      modifies this`clients, this`nextId, this`contacts
      ensures var id := if existing.Some? then existing.value else old(nextId);
              var before := if id in old(clients) then old(clients)[id].domain else None;
              && clients == old(clients)[id := Client(row.name, if write.Put? then write.domain else before)]
              && nextId == (if existing.Some? then old(nextId) else old(nextId) + 1)
              && contacts == (if row.email != "" && row.email !in old(contacts) then old(contacts)[row.email := id] else old(contacts))
    {
      var id := nextId;
      if existing.Some? {
        id := existing.value;
      } else {
        nextId := nextId + 1;
      }
      var before := if id in clients then clients[id].domain else None;
      clients := clients[id := Client(row.name, if write.Put? then write.domain else before)];
      if row.email != "" && row.email !in contacts {
        contacts := contacts[row.email := id];
      }
    }

    method UpsertClient(row: Row)
      modifies this
      ensures State() == ImportRow(dryRun, old(State()), row)
    {
      ghost var before := State();
      var existing := Match(State(), row);
      var write := DecideDomain(row, existing);
      ReleaseDomain(write, existing);
      assert domainsReleased == Release(before, write, existing);
      if !dryRun {
        WriteClient(row, write, existing);
      }
      assert State() == RowEffect(dryRun, before, row, existing);
    }

    method ImportAll(rows: seq<Row>)
      modifies this
      ensures State() == ImportRows(dryRun, old(State()), rows)
    {
      for i := 0 to |rows|
        invariant ImportRows(dryRun, State(), rows[i..]) == ImportRows(dryRun, old(State()), rows)
      {
        assert rows[i..][1..] == rows[i + 1..];
        UpsertClient(rows[i]);
      }
    }
  }

  // ---------------------------------------------------------------- dry run against live run

  ghost predicate Unique(clients: map<ClientId, Client>) {
    forall c, e :: c in clients && e in clients && c != e && clients[c].domain.Some? ==> clients[c].domain != clients[e].domain
  }

  ghost predicate WellFormed(s: Import) {
    && (forall c :: c in s.clients ==> c < s.nextId)
    && (forall e :: e in s.contacts ==> s.contacts[e] in s.clients)
  }

  /** A live run: every held domain is claimed or original, and a released one is no longer held. */
  ghost predicate LiveOk(first: map<ClientId, Client>, s: Import) {
    && WellFormed(s) && Unique(s.clients)
    && first.Keys <= s.clients.Keys
    && (forall c :: c in s.clients && s.clients[c].domain.Some? && s.clients[c].domain.value !in s.claimed ==>
          c in first && first[c].domain == s.clients[c].domain)
    && (forall d :: d in s.released && d !in s.claimed && s.released[d] in s.clients ==>
          s.clients[s.released[d]].domain != Some(d))
  }

  /** The dry run's plan and the live run's tables tell the same story about unclaimed domains. */
  ghost predicate Agree(first: map<ClientId, Client>, dry: Import, live: Import) {
    && dry.clients == first && dry.taken == live.taken && dry.claimed == live.claimed
    && (forall d :: d in dry.released ==> dry.released[d] in first && first[dry.released[d]].domain == Some(d))
    && (forall h :: h in first && h in live.clients && first[h].domain.Some? && first[h].domain.value !in live.claimed ==>
          (live.clients[h].domain == first[h].domain <==> first[h].domain.value !in dry.released))
  }

  lemma SingleHolder(clients: map<ClientId, Client>, domain: string, h: ClientId)
    requires Unique(clients) && h in clients && clients[h].domain == Some(domain)
    ensures FirstOf(HoldersOf(clients, domain)) == Some(h)
  {
    assert h in HoldersOf(clients, domain);
  }

  /**
   * The exact condition for one row: the two modes decide differently just when the domain is
   * unclaimed, still held by a client, and exactly one of the modes matched the row to it.
   */
  lemma DecisionsDifferExactlyWhenMatchesDo(
    first: map<ClientId, Client>, dry: Import, live: Import, domain: string, key: string,
    ownDry: Option<ClientId>, ownLive: Option<ClientId>)
    requires Unique(first) && LiveOk(first, live) && Agree(first, dry, live)
    ensures DomainTaken(dry, domain, key, ownDry) != DomainTaken(live, domain, key, ownLive) <==>
            && domain !in live.claimed
            && exists h :: h in live.clients && live.clients[h].domain == Some(domain) && (ownDry == Some(h)) != (ownLive == Some(h))
  {
    if domain !in live.claimed {
      if h :| h in live.clients && live.clients[h].domain == Some(domain) {
        SingleHolder(live.clients, domain, h);
        SingleHolder(first, domain, h);
        assert forall g :: g in live.clients && live.clients[g].domain == Some(domain) ==> g == h;
      } else {
        assert HoldersOf(live.clients, domain) == {};
        if HoldersOf(first, domain) != {} {
          var h := FirstOf(HoldersOf(first, domain)).value;
          SingleHolder(first, domain, h);
        }
      }
    }
  }

  /** Both modes stand a row for the same pre-existing client, or neither for one. */
  predicate MatchAlike(first: map<ClientId, Client>, ownDry: Option<ClientId>, ownLive: Option<ClientId>) {
    && (ownDry.Some? ==> ownDry.value in first)
    && (ownLive.Some? && ownLive.value in first ==> ownDry == ownLive)
    && (ownDry.Some? ==> ownDry == ownLive)
  }

  /** A domain that is not refused in a live run is unclaimed, and only the row's own client may hold it. */
  lemma AllowedDomainIsFree(first: map<ClientId, Client>, live: Import, domain: string, key: string, own: Option<ClientId>)
    requires LiveOk(first, live) && !DomainTaken(live, domain, key, own)
    requires domain in live.claimed ==> live.claimed[domain] != key
    ensures domain !in live.claimed
    ensures forall h :: h in live.clients && live.clients[h].domain == Some(domain) ==> own == Some(h)
  {
    forall h | h in live.clients && live.clients[h].domain == Some(domain) ensures own == Some(h) {
      SingleHolder(live.clients, domain, h);
    }
  }

  ghost predicate OnlyHeldBy(clients: map<ClientId, Client>, domain: Option<string>, id: ClientId) {
    domain.Some? ==> forall h :: h in clients && clients[h].domain == domain ==> h == id
  }

  lemma WriteKeepsUnique(clients: map<ClientId, Client>, id: ClientId, c: Client)
    requires Unique(clients) && OnlyHeldBy(clients, c.domain, id)
    ensures Unique(clients[id := c])
  {
  }

  lemma LiveRowKeepsLiveOk(first: map<ClientId, Client>, live: Import, row: Row, own: Option<ClientId>)
    requires LiveOk(first, live) && (own.Some? ==> own.value in live.clients)
    requires forall d :: d in live.claimed ==> live.claimed[d] != row.name
    ensures LiveOk(first, RowEffect(false, live, row, own))
  {
    RowKeepsUnique(first, live, row, own);
    RowKeepsReleased(first, live, row, own);
  }

  lemma RowKeepsUnique(first: map<ClientId, Client>, live: Import, row: Row, own: Option<ClientId>)
    requires LiveOk(first, live) && (own.Some? ==> own.value in live.clients)
    requires forall d :: d in live.claimed ==> live.claimed[d] != row.name
    ensures Unique(RowEffect(false, live, row, own).clients)
  {
    var id := if own.Some? then own.value else live.nextId;
    var refused := RowIsRefused(live, row, own);
    var before := if id in live.clients then live.clients[id].domain else None;
    var stored := Stored(row, DomainWrite(refused, row), before);
    if row.website.Some? && !refused {
      AllowedDomainIsFree(first, live, row.website.value, row.name, own);
    }
    assert OnlyHeldBy(live.clients, stored.domain, id);
    WriteKeepsUnique(live.clients, id, stored);
  }

  lemma RowKeepsReleased(first: map<ClientId, Client>, live: Import, row: Row, own: Option<ClientId>)
    requires LiveOk(first, live) && (own.Some? ==> own.value in live.clients)
    ensures var s := RowEffect(false, live, row, own);
            forall d :: d in s.released && d !in s.claimed && s.released[d] in s.clients ==> s.clients[s.released[d]].domain != Some(d)
  {
    var s := RowEffect(false, live, row, own);
    assert forall d :: d in live.claimed ==> d in s.claimed;
    forall d | d in s.released && d !in s.claimed && s.released[d] in s.clients
      ensures s.clients[s.released[d]].domain != Some(d)
    {
      if d in live.released && live.released[d] == s.released[d] {
        assert s.released[d] in live.clients || s.released[d] == live.nextId;
      }
    }
  }

  lemma RowIsDecidedAlike(
    first: map<ClientId, Client>, dry: Import, live: Import, row: Row, ownDry: Option<ClientId>, ownLive: Option<ClientId>)
    requires Unique(first) && LiveOk(first, live) && Agree(first, dry, live)
    requires MatchAlike(first, ownDry, ownLive)
    ensures RowIsRefused(dry, row, ownDry) == RowIsRefused(live, row, ownLive)
  {
    if row.website.Some? {
      DecisionsDifferExactlyWhenMatchesDo(first, dry, live, row.website.value, row.name, ownDry, ownLive);
    }
  }

  lemma RowKeepsAgreement(
    first: map<ClientId, Client>, dry: Import, live: Import, row: Row, ownDry: Option<ClientId>, ownLive: Option<ClientId>)
    requires Unique(first) && LiveOk(first, live) && Agree(first, dry, live)
    requires MatchAlike(first, ownDry, ownLive) && (ownLive.Some? ==> ownLive.value in live.clients)
    ensures Agree(first, RowEffect(true, dry, row, ownDry), RowEffect(false, live, row, ownLive))
  {
    RowIsDecidedAlike(first, dry, live, row, ownDry, ownLive);
    ReleasedStayOriginal(first, dry, row, ownDry);
    forall h | h in first && h in live.clients && first[h].domain.Some? && first[h].domain.value !in RowEffect(false, live, row, ownLive).claimed
      ensures RowEffect(false, live, row, ownLive).clients[h].domain == first[h].domain <==>
              first[h].domain.value !in RowEffect(true, dry, row, ownDry).released
    {
      HolderStaysAgreed(first, dry, live, row, ownDry, ownLive, h);
    }
  }

  lemma ReleasedStayOriginal(first: map<ClientId, Client>, dry: Import, row: Row, own: Option<ClientId>)
    requires dry.clients == first && forall d :: d in dry.released ==> dry.released[d] in first && first[dry.released[d]].domain == Some(d)
    ensures var s := RowEffect(true, dry, row, own);
            forall d :: d in s.released ==> s.released[d] in first && first[s.released[d]].domain == Some(d)
  {
  }

  lemma HolderStaysAgreed(
    first: map<ClientId, Client>, dry: Import, live: Import, row: Row, ownDry: Option<ClientId>, ownLive: Option<ClientId>, h: ClientId)
    requires LiveOk(first, live) && Agree(first, dry, live)
    requires MatchAlike(first, ownDry, ownLive) && (ownLive.Some? ==> ownLive.value in live.clients)
    requires RowIsRefused(dry, row, ownDry) == RowIsRefused(live, row, ownLive)
    requires h in first && h in live.clients && first[h].domain.Some?
    requires first[h].domain.value !in RowEffect(false, live, row, ownLive).claimed
    ensures RowEffect(false, live, row, ownLive).clients[h].domain == first[h].domain <==>
            first[h].domain.value !in RowEffect(true, dry, row, ownDry).released
  {
    assert first[h].domain.value !in live.claimed;
  }

  // ---------------------------------------------------------------- whole runs

  /** Along the two runs, every row stands for the same pre-existing client in both modes, or for none in both. */
  predicate MatchedAlike(first: map<ClientId, Client>, dry: Import, live: Import, rows: seq<Row>)
    decreases |rows|
  {
    rows == [] ||
    (MatchAlike(first, Match(dry, rows[0]), Match(live, rows[0]))
     && MatchedAlike(first, ImportRow(true, dry, rows[0]), ImportRow(false, live, rows[0]), rows[1..]))
  }

  predicate NamesDistinct(rows: seq<Row>) {
    forall i, j :: 0 <= i < j < |rows| ==> rows[i].name != rows[j].name
  }

  /** No row still to come is the claimant of a domain. */
  predicate ClaimsAreEarlier(s: Import, rows: seq<Row>) {
    forall d, i :: d in s.claimed && 0 <= i < |rows| ==> s.claimed[d] != rows[i].name
  }

  lemma {:induction false} RunsAgree(first: map<ClientId, Client>, dry: Import, live: Import, rows: seq<Row>)
    requires Unique(first) && LiveOk(first, live) && Agree(first, dry, live)
    requires NamesDistinct(rows) && ClaimsAreEarlier(live, rows) && MatchedAlike(first, dry, live, rows)
    ensures LiveOk(first, ImportRows(false, live, rows))
    ensures Agree(first, ImportRows(true, dry, rows), ImportRows(false, live, rows))
    decreases |rows|
  {
    if rows != [] {
      var row := rows[0];
      MatchedIsStored(live, row);
      LiveRowKeepsLiveOk(first, live, row, Match(live, row));
      RowKeepsAgreement(first, dry, live, row, Match(dry, row), Match(live, row));
      RunsAgree(first, ImportRow(true, dry, row), ImportRow(false, live, row), rows[1..]);
    }
  }

  lemma MatchedIsStored(s: Import, row: Row)
    requires WellFormed(s)
    ensures Match(s, row).Some? ==> Match(s, row).value in s.clients
  {
  }

  /**
   * For every database and every export whose rows are matched alike (several of them to one
   * client, perhaps), the dry run refuses exactly the rows the live run refuses, and the live
   * run never leaves one domain on two clients.
   */
  lemma DryRunDecidesLikeLiveRun(clients: map<ClientId, Client>, contacts: map<string, ClientId>, nextId: ClientId, rows: seq<Row>)
    requires Unique(clients) && WellFormed(Start(clients, contacts, nextId)) && NamesDistinct(rows)
    requires MatchedAlike(clients, Start(clients, contacts, nextId), Start(clients, contacts, nextId), rows)
    ensures var dry := ImportRows(true, Start(clients, contacts, nextId), rows);
            var live := ImportRows(false, Start(clients, contacts, nextId), rows);
            && dry.taken == live.taken && dry.claimed == live.claimed && |live.taken| == |rows|
            && Unique(live.clients) && dry.clients == clients && dry.contacts == contacts
  {
    var start := Start(clients, contacts, nextId);
    RunsAgree(clients, start, start, rows);
    OneDecisionPerRow(false, start, rows);
    DryRunWritesNothing(start, rows);
  }

  /**
   * And the first row that is not matched alike is decided differently exactly when its domain
   * is unclaimed and held by the one client that a single mode matched it to.
   */
  lemma FirstMismatchDecides(
    clients: map<ClientId, Client>, contacts: map<string, ClientId>, nextId: ClientId, rows: seq<Row>, row: Row)
    requires Unique(clients) && WellFormed(Start(clients, contacts, nextId)) && NamesDistinct(rows)
    requires MatchedAlike(clients, Start(clients, contacts, nextId), Start(clients, contacts, nextId), rows)
    ensures var dry := ImportRows(true, Start(clients, contacts, nextId), rows);
            var live := ImportRows(false, Start(clients, contacts, nextId), rows);
            (RowIsRefused(dry, row, Match(dry, row)) != RowIsRefused(live, row, Match(live, row)) <==>
             && row.website.Some? && row.website.value !in live.claimed
             && exists h :: h in live.clients && live.clients[h].domain == row.website && (Match(dry, row) == Some(h)) != (Match(live, row) == Some(h)))
  {
    var start := Start(clients, contacts, nextId);
    RunsAgree(clients, start, start, rows);
    if row.website.Some? {
      var dry, live := ImportRows(true, start, rows), ImportRows(false, start, rows);
      DecisionsDifferExactlyWhenMatchesDo(clients, dry, live, row.website.value, row.name, Match(dry, row), Match(live, row));
    }
  }

  // ---------------------------------------------------------------- when the lookups agree

  /**
   * What the operator can check before the run: row names are distinct (the merge by name
   * guarantees it), no two rows share an email that is not yet a contact's, and no row carries
   * the current name of a client that another row finds by email and would rename.
   */
  ghost predicate ExportIsClear(clients: map<ClientId, Client>, contacts: map<string, ClientId>, rows: seq<Row>) {
    && (forall i, j :: 0 <= i < j < |rows| ==> rows[i].name != rows[j].name)
    && (forall i, j :: 0 <= i < j < |rows| && rows[i].email != "" && rows[i].email !in contacts ==> rows[i].email != rows[j].email)
    && (forall i, j :: 0 <= i < |rows| && 0 <= j < |rows| && i != j ==> !Renames(clients, contacts, rows[i], rows[j].name))
  }

  /** The row is matched by email to a client whose current name is `name`. */
  predicate Renames(clients: map<ClientId, Client>, contacts: map<string, ClientId>, row: Row, name: string) {
    row.email != "" && row.email in contacts && contacts[row.email] in clients && clients[contacts[row.email]].name == name
  }

  ghost predicate HasEmail(done: seq<Row>, email: string) {
    exists i :: 0 <= i < |done| && done[i].email == email
  }

  ghost predicate HasName(done: seq<Row>, name: string) {
    exists i :: 0 <= i < |done| && done[i].name == name
  }

  ghost predicate FoundByEmail(done: seq<Row>, contacts: map<string, ClientId>, c: ClientId) {
    exists i :: 0 <= i < |done| && done[i].email != "" && done[i].email in contacts && contacts[done[i].email] == c
  }

  /** The live tables after the rows in `done`, as far as lookups can see. */
  ghost predicate LookupsOk(clients: map<ClientId, Client>, contacts: map<string, ClientId>, live: Import, done: seq<Row>) {
    && (forall e :: e in contacts ==> e in live.contacts && live.contacts[e] == contacts[e])
    && (forall e :: e in live.contacts && e !in contacts ==> HasEmail(done, e))
    && (forall c :: c in live.clients ==> NameOk(clients, contacts, live, done, c))
  }

  ghost predicate NameOk(clients: map<ClientId, Client>, contacts: map<string, ClientId>, live: Import, done: seq<Row>, c: ClientId)
    requires c in live.clients
  {
    || (c in clients && live.clients[c].name == clients[c].name)
    || (HasName(done, live.clients[c].name) && (c in clients ==> FoundByEmail(done, contacts, c)))
  }

  lemma DoneGrows(done: seq<Row>, row: Row, contacts: map<string, ClientId>)
    ensures forall e :: HasEmail(done + [row], e) <==> HasEmail(done, e) || row.email == e
    ensures forall n :: HasName(done + [row], n) <==> HasName(done, n) || row.name == n
    ensures forall c :: FoundByEmail(done, contacts, c) ==> FoundByEmail(done + [row], contacts, c)
    ensures forall c :: row.email != "" && row.email in contacts && contacts[row.email] == c ==> FoundByEmail(done + [row], contacts, c)
  {
    var done' := done + [row];
    assert done'[|done|] == row;
    assert forall i :: 0 <= i < |done| ==> done'[i] == done[i];
  }

  lemma LookupsAgree(clients: map<ClientId, Client>, contacts: map<string, ClientId>, dry: Import, live: Import, done: seq<Row>, row: Row, rest: seq<Row>)
    requires ExportIsClear(clients, contacts, done + [row] + rest)
    requires dry.clients == clients && dry.contacts == contacts && LookupsOk(clients, contacts, live, done)
    requires clients.Keys <= live.clients.Keys
    ensures Match(dry, row) == Match(live, row)
  {
    var rows := done + [row] + rest;
    assert rows[|done|] == row && forall i :: 0 <= i < |done| ==> rows[i] == done[i];
    if row.email == "" || row.email !in contacts {
      assert row.email == "" || row.email !in live.contacts;
      forall c ensures c in NamedAs(live.clients, row.name) <==> c in NamedAs(clients, row.name) {
        if c in live.clients {
          assert NameOk(clients, contacts, live, done, c);
        }
      }
      assert NamedAs(live.clients, row.name) == NamedAs(clients, row.name);
    }
  }

  lemma RowKeepsLookups(clients: map<ClientId, Client>, contacts: map<string, ClientId>, live: Import, done: seq<Row>, row: Row, rest: seq<Row>)
    requires ExportIsClear(clients, contacts, done + [row] + rest)
    requires LookupsOk(clients, contacts, live, done) && WellFormed(live) && clients.Keys <= live.clients.Keys
    ensures LookupsOk(clients, contacts, ImportRow(false, live, row), done + [row])
  {
    var rows := done + [row] + rest;
    assert rows[|done|] == row && forall i :: 0 <= i < |done| ==> rows[i] == done[i];
    DoneGrows(done, row, contacts);
    var own := Match(live, row);
    var id := if own.Some? then own.value else live.nextId;
    var s := ImportRow(false, live, row);
    forall c | c in s.clients ensures NameOk(clients, contacts, s, done + [row], c) {
      if c != id {
        assert c in live.clients && s.clients[c] == live.clients[c];
        assert NameOk(clients, contacts, live, done, c);
      } else if own.Some? {
        assert c in live.clients && NameOk(clients, contacts, live, done, c);
        if !(row.email != "" && row.email in live.contacts) {
          assert c in NamedAs(live.clients, row.name);
        }
      }
    }
  }

  /** A clear export is matched alike, whatever websites its rows and clients have. */
  lemma {:induction false} ClearExportIsMatchedAlike(
    clients: map<ClientId, Client>, contacts: map<string, ClientId>, dry: Import, live: Import, done: seq<Row>, rest: seq<Row>)
    requires WellFormed(live) && clients.Keys <= live.clients.Keys
    requires forall e :: e in contacts ==> contacts[e] in clients
    requires dry.clients == clients && dry.contacts == contacts && LookupsOk(clients, contacts, live, done)
    requires ExportIsClear(clients, contacts, done + rest)
    ensures MatchedAlike(clients, dry, live, rest)
    decreases |rest|
  {
    if rest != [] {
      var row, tail := rest[0], rest[1..];
      assert done + rest == done + [row] + tail;
      LookupsAgree(clients, contacts, dry, live, done, row, tail);
      RowKeepsLookups(clients, contacts, live, done, row, tail);
      ClearExportIsMatchedAlike(clients, contacts, ImportRow(true, dry, row), ImportRow(false, live, row), done + [row], tail);
    }
  }

  /**
   * So for every database and every clear export, the dry run refuses exactly the rows the
   * live run refuses, and the live run never leaves one domain on two clients.
   */
  lemma ClearExportDecidesAlike(clients: map<ClientId, Client>, contacts: map<string, ClientId>, nextId: ClientId, rows: seq<Row>)
    requires Unique(clients) && WellFormed(Start(clients, contacts, nextId)) && ExportIsClear(clients, contacts, rows)
    ensures var dry := ImportRows(true, Start(clients, contacts, nextId), rows);
            var live := ImportRows(false, Start(clients, contacts, nextId), rows);
            && dry.taken == live.taken && dry.claimed == live.claimed && |live.taken| == |rows|
            && Unique(live.clients) && dry.clients == clients && dry.contacts == contacts
  {
    ClearFromTheStart(clients, contacts, nextId, rows);
    DryRunDecidesLikeLiveRun(clients, contacts, nextId, rows);
  }

  lemma ClearFromTheStart(clients: map<ClientId, Client>, contacts: map<string, ClientId>, nextId: ClientId, rows: seq<Row>)
    requires WellFormed(Start(clients, contacts, nextId)) && ExportIsClear(clients, contacts, rows)
    ensures MatchedAlike(clients, Start(clients, contacts, nextId), Start(clients, contacts, nextId), rows) && NamesDistinct(rows)
  {
    assert [] + rows == rows;
    ClearExportIsMatchedAlike(clients, contacts, Start(clients, contacts, nextId), Start(clients, contacts, nextId), [], rows);
  }

  lemma {:induction false} OneDecisionPerRow(dryRun: bool, s: Import, rows: seq<Row>)
    ensures |ImportRows(dryRun, s, rows).taken| == |s.taken| + |rows|
    decreases |rows|
  {
    if rows != [] { OneDecisionPerRow(dryRun, ImportRow(dryRun, s, rows[0]), rows[1..]); }
  }

  lemma {:induction false} DryRunWritesNothing(s: Import, rows: seq<Row>)
    ensures ImportRows(true, s, rows).clients == s.clients && ImportRows(true, s, rows).contacts == s.contacts
    decreases |rows|
  {
    if rows != [] { DryRunWritesNothing(ImportRow(true, s, rows[0]), rows[1..]); }
  }

  /**
   * Without that check the promise fails: the live run attaches the shared email to the first
   * row's client, so the second row is matched to it and may keep its domain; the dry run
   * matches the second row to nobody and refuses the domain.
   */
  lemma SharedEmailBreaksTheDryRun()
    ensures var clients := map[1 := Client("acme", Some("a.com")), 2 := Client("beta", Some("b.com"))];
            var rows := [Row("acme", "x@a.com", Some("b.com")), Row("zeta", "x@a.com", Some("a.com"))];
            && ImportRows(true, Start(clients, map[], 3), rows).taken == [true, true]
            && ImportRows(false, Start(clients, map[], 3), rows).taken == [true, false]
  {
    var clients := map[1 := Client("acme", Some("a.com")), 2 := Client("beta", Some("b.com"))];
    var r0, r1 := Row("acme", "x@a.com", Some("b.com")), Row("zeta", "x@a.com", Some("a.com"));
    var rows := [r0, r1];
    assert rows[1..] == [r1] && rows[1..][1..] == [];
    assert NamedAs(clients, "acme") == {1} && NamedAs(clients, "zeta") == {};
    SingleHolder(clients, "a.com", 1);
    SingleHolder(clients, "b.com", 2);
    var start := Start(clients, map[], 3);
    var dry1 := ImportRow(true, start, r0);
    var live1 := ImportRow(false, start, r0);
    assert Match(start, r0) == Some(1);
    assert dry1 == start.(taken := [true]);
    assert live1.clients == clients && live1.contacts["x@a.com"] == 1;
    assert Match(live1, r1) == Some(1) && Match(dry1, r1) == None;
    assert ImportRow(true, dry1, r1).taken == [true] + [true];
    assert ImportRow(false, live1, r1).taken == [true] + [false];
    assert ImportRows(true, start, rows) == ImportRows(true, dry1, rows[1..]);
    assert ImportRows(false, start, rows) == ImportRows(false, live1, rows[1..]);
    assert ImportRows(true, dry1, [r1]) == ImportRows(true, ImportRow(true, dry1, r1), []);
    assert ImportRows(false, live1, [r1]) == ImportRows(false, ImportRow(false, live1, r1), []);
  }
}
