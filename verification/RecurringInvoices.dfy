/**
 * The recurring-invoice job (src/jobs/recurring-invoices.js): claim the source's next date
 * and generate one copy, in one transaction, for each source the query found due.
 */
module RecurringInvoices {
  import opened Options
  import opened RecurringDates

  /** A recurring source. `issued` is a status that recurs (SENT, VIEWED, OVERDUE or PAID). */
  datatype Source = Source(isRecurring: bool, issued: bool, issueDate: UtcDate, interval: Interval, nextDate: Option<UtcDate>)

  /** A source as the query returned it; `fails` when its transaction throws and rolls back. */
  datatype Found = Found(id: nat, seen: Source, fails: bool)

  /** The rows of one organization, and the sources copied, in order. */
  datatype Table = Table(rows: map<nat, Source>, copies: seq<nat>)

  predicate DatesValid(s: Source) {
    Valid(s.issueDate) && (s.nextDate.Some? ==> Valid(s.nextDate.value))
  }

  predicate Due(s: Source, now: UtcDate)
    requires DatesValid(s) && Valid(now)
  {
    s.isRecurring && s.issued && s.nextDate.Some? && TimeValue(s.nextDate.value) <= TimeValue(now)
  }

  predicate ClaimMatches(row: Source, seen: Source) {
    row.isRecurring && row.issued && row.nextDate == seen.nextDate
  }

  /** One committed transaction of a worker that read `seen` at `now`. */
  function Claim(t: Table, id: nat, seen: Source, now: UtcDate): Table
    requires Valid(now)
  {
    if id in t.rows && ClaimMatches(t.rows[id], seen) then
      Table(
        t.rows[id := t.rows[id].(nextDate := Some(FirstRecurring(seen.issueDate, seen.interval, now)))],
        t.copies + [id])
    else
      t
  }

  /** The loop over the found sources: a failure is recorded and the loop goes on. */
  function Batch(t: Table, found: seq<Found>, now: UtcDate): Table
    requires Valid(now)
    decreases |found|
  {
    if found == [] then t
    else Batch(First(t, found, now), found[1..], now)
  }

  function First(t: Table, found: seq<Found>, now: UtcDate): Table
    requires Valid(now) && found != []
  {
    if found[0].fails then t else Claim(t, found[0].id, found[0].seen, now)
  }

  // ---------------------------------------------------------------- the job

  class InvoiceTable {
    var rows: map<nat, Source>
    var copies: seq<nat>

    constructor (rows: map<nat, Source>)
      ensures Contents() == Table(rows, [])
    {
      this.rows := rows;
      copies := [];
    }

    function Contents(): Table
      reads this
    {
      Table(rows, copies)
    }

    method ClaimAndGenerate(id: nat, seen: Source, now: UtcDate) returns (generated: bool)
      requires Valid(now) && DatesValid(seen)
      modifies this
      ensures Contents() == Claim(old(Contents()), id, seen, now)
      ensures |copies| == |old(copies)| + if generated then 1 else 0
      ensures generated <==> id in old(rows) && old(rows)[id].isRecurring && old(rows)[id].issued && old(rows)[id].nextDate == seen.nextDate
      ensures !generated ==> rows == old(rows) && copies == old(copies)
      ensures generated ==>
                && id in rows && rows[id].nextDate.Some? && copies == old(copies) + [id]
                && rows == old(rows)[id := old(rows)[id].(nextDate := rows[id].nextDate)]
                && exists k :: IsFirstDate(seen.issueDate, seen.interval, now, k, rows[id].nextDate.value)
    {
      generated := id in rows && rows[id].isRecurring && rows[id].issued && rows[id].nextDate == seen.nextDate;
      if generated {
        var next, _ := FirstRecurringDate(Some(seen.issueDate), seen.interval, now);
        rows := rows[id := rows[id].(nextDate := Some(next))];
        copies := copies + [id];
      }
    }

    method Process(found: seq<Found>, now: UtcDate) returns (generated: nat, failures: seq<nat>)
      requires Valid(now) && forall f :: f in found ==> DatesValid(f.seen)
      modifies this
      ensures Contents() == Batch(old(Contents()), found, now)
      ensures |copies| == |old(copies)| + generated && generated + |failures| <= |found|
      ensures failures == Failed(found)
    {
      generated, failures := 0, [];
      for i := 0 to |found|
        invariant Batch(Contents(), found[i..], now) == Batch(old(Contents()), found, now)
        invariant |copies| == |old(copies)| + generated && generated + |failures| <= i
        invariant failures + Failed(found[i..]) == Failed(found)
      {
        assert found[i..][0] == found[i] && found[i..][1..] == found[i + 1..];
        if found[i].fails {
          failures := failures + [found[i].id];
        } else {
          var claimed := ClaimAndGenerate(found[i].id, found[i].seen, now);
          if claimed {
            generated := generated + 1;
          }
        }
      }
    }
  }

  function Failed(found: seq<Found>): seq<nat> {
    if found == [] then [] else (if found[0].fails then [found[0].id] else []) + Failed(found[1..])
  }

  // ---------------------------------------------------------------- what one run achieves

  /** What the query returns: each due source once, as it is. */
  ghost predicate IsDueList(rows: map<nat, Source>, found: seq<Found>, now: UtcDate)
    requires Valid(now) && forall id :: id in rows ==> DatesValid(rows[id])
  {
    && (forall i, j :: 0 <= i < j < |found| ==> found[i].id != found[j].id)
    && (forall i :: 0 <= i < |found| ==> found[i].id in rows && found[i].seen == rows[found[i].id])
    && (forall id :: id in rows ==> (Due(rows[id], now) <==> exists i :: 0 <= i < |found| && found[i].id == id))
  }

  /** What the batch needs of its list: distinct sources, each as it is in the table. */
  ghost predicate Snapshots(rows: map<nat, Source>, found: seq<Found>) {
    && (forall i, j :: 0 <= i < j < |found| ==> found[i].id != found[j].id)
    && (forall i :: 0 <= i < |found| ==> IsSnapshot(rows, found[i]))
  }

  predicate IsSnapshot(rows: map<nat, Source>, f: Found) {
    f.id in rows && f.seen == rows[f.id] && f.seen.isRecurring && f.seen.issued
  }

  function Succeeded(found: seq<Found>): seq<nat> {
    if found == [] then [] else (if found[0].fails then [] else [found[0].id]) + Succeeded(found[1..])
  }

  lemma FirstKeepsSnapshots(t: Table, found: seq<Found>, now: UtcDate)
    requires Valid(now) && found != [] && Snapshots(t.rows, found)
    ensures var t' := First(t, found, now);
            && Snapshots(t'.rows, found[1..]) && t'.rows.Keys == t.rows.Keys
            && t'.copies == (if found[0].fails then t.copies else t.copies + [found[0].id])
            && (forall id :: id in t.rows && id != found[0].id ==> t'.rows[id] == t.rows[id])
  {
    var t' := First(t, found, now);
    assert IsSnapshot(t.rows, found[0]);
    forall i | 0 <= i < |found[1..]| ensures IsSnapshot(t'.rows, found[1..][i]) {
      assert IsSnapshot(t.rows, found[i + 1]);
    }
  }

  lemma {:induction false} BatchCopies(t: Table, found: seq<Found>, now: UtcDate)
    requires Valid(now) && Snapshots(t.rows, found)
    ensures Batch(t, found, now).copies == t.copies + Succeeded(found)
    decreases |found|
  {
    if found == [] {
      assert t.copies + [] == t.copies;
    } else {
      FirstKeepsSnapshots(t, found, now);
      var t' := First(t, found, now);
      BatchCopies(t', found[1..], now);
      var head := if found[0].fails then [] else [found[0].id];
      assert t'.copies == t.copies + head;
      Regroup(t.copies, head, Succeeded(found[1..]));
    }
  }

  lemma Regroup(a: seq<nat>, b: seq<nat>, c: seq<nat>)
    ensures (a + b) + c == a + (b + c)
  {
  }

  lemma {:induction false} BatchRow(t: Table, found: seq<Found>, now: UtcDate, id: nat)
    requires Valid(now) && Snapshots(t.rows, found) && id in t.rows
    ensures id in Batch(t, found, now).rows
    ensures Batch(t, found, now).rows[id] ==
            if id in Succeeded(found) then
              t.rows[id].(nextDate := Some(FirstRecurring(t.rows[id].issueDate, t.rows[id].interval, now)))
            else t.rows[id]
    decreases |found|
  {
    if found != [] {
      var t' := First(t, found, now);
      FirstKeepsSnapshots(t, found, now);
      BatchRow(t', found[1..], now, id);
      if found[0].id == id {
        SucceededAreListed(found[1..], id);
      }
    }
  }

  lemma {:induction false} SucceededAreListed(found: seq<Found>, id: nat)
    ensures id in Succeeded(found) <==> exists i :: 0 <= i < |found| && found[i].id == id && !found[i].fails
    decreases |found|
  {
    if found != [] {
      SucceededAreListed(found[1..], id);
      if i :| 0 <= i < |found| && found[i].id == id && !found[i].fails {
        assert i == 0 || found[1..][i - 1] == found[i];
      }
      if j :| 0 <= j < |found[1..]| && found[1..][j].id == id && !found[1..][j].fails {
        assert found[j + 1] == found[1..][j];
      }
    }
  }

  /** An issued recurring invoice whose next date has come. */
  predicate IsDue(s: Source, now: UtcDate)
    requires DatesValid(s) && Valid(now)
  {
    s.isRecurring && s.issued && s.nextDate.Some? && (s.nextDate.value == now || Before(s.nextDate.value, now))
  }

  lemma DueIsDue(s: Source, now: UtcDate)
    requires DatesValid(s) && Valid(now)
    ensures Due(s, now) <==> IsDue(s, now)
  {
    if s.nextDate.Some? {
      TimeValueOrdersDates(now, s.nextDate.value);
      TimeValueOrdersDates(s.nextDate.value, now);
    }
  }

  /**
   * A run alone copies each due source exactly once, however many periods passed since its
   * date; only a source whose transaction failed is still due, and that one is untouched.
   */
  lemma RunSettlesWhatIsDue(t: Table, found: seq<Found>, now: UtcDate, id: nat)
    requires Valid(now) && (forall id :: id in t.rows ==> DatesValid(t.rows[id])) && IsDueList(t.rows, found, now)
    requires id in t.rows
    ensures var after := Batch(t, found, now);
            && after.copies == t.copies + Succeeded(found) && id in after.rows && DatesValid(after.rows[id])
            && (IsDue(after.rows[id], now) <==> IsDue(t.rows[id], now) && id !in Succeeded(found))
            && (id in Succeeded(found) ==> IsDue(t.rows[id], now))
            && (id !in Succeeded(found) ==> after.rows[id] == t.rows[id])
            && (id in Succeeded(found) ==>
                  after.rows[id] == t.rows[id].(nextDate := Some(FirstRecurring(t.rows[id].issueDate, t.rows[id].interval, now))))
            && (id !in Succeeded(found) && IsDue(t.rows[id], now) ==> exists i :: 0 <= i < |found| && found[i].id == id && found[i].fails)
  {
    assert Snapshots(t.rows, found) by {
      forall i | 0 <= i < |found| ensures IsSnapshot(t.rows, found[i]) {
        assert Due(t.rows[found[i].id], now);
      }
    }
    BatchCopies(t, found, now);
    BatchRow(t, found, now, id);
    SucceededAreListed(found, id);
    DueIsDue(t.rows[id], now);
    FirstIsAfterAndPreviousIsNot(t.rows[id].issueDate, t.rows[id].interval, now);
    assert DatesValid(Batch(t, found, now).rows[id]);
    DueIsDue(Batch(t, found, now).rows[id], now);
    if IsDue(t.rows[id], now) {
      var i :| 0 <= i < |found| && found[i].id == id;
      assert id !in Succeeded(found) ==> found[i].fails;
    }
  }

  lemma {:induction false} NoSourceIsCopiedTwice(found: seq<Found>)
    requires forall i, j :: 0 <= i < j < |found| ==> found[i].id != found[j].id
    ensures forall i, j :: 0 <= i < j < |Succeeded(found)| ==> Succeeded(found)[i] != Succeeded(found)[j]
    decreases |found|
  {
    if found != [] {
      NoSourceIsCopiedTwice(found[1..]);
      SucceededAreListed(found[1..], found[0].id);
    }
  }
}
