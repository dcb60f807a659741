/**
 * The saved-report store: a remote table, and a local list under the `saved_reports` key that
 * save, fetch and delete fall back on when the remote call fails. The remote outcome, the fresh
 * id and the timestamp are parameters; the local list is the one field of `ReportStore`.
 */
module DatabaseService {
  import opened Wrappers
  import opened Types

  /** One saved report: the row of the remote table, or one element of the local list. */
  datatype SavedReport = SavedReport(id: string, createdAt: string, title: string, asOfDate: string, data: FinancialPerformanceData)

  /** How a remote insert or delete ended. */
  datatype RemoteWrite = WriteOk | WriteFailed

  /** How a remote select ended: the rows (`null` is `None`), or an error. */
  datatype RemoteRead = Fetched(rows: Option<seq<SavedReport>>) | FetchFailed

  /** A list in the opposite order (`Array.prototype.reverse`). */
  function Reverse<T>(xs: seq<T>): (r: seq<T>)
    ensures |r| == |xs|
  {
    if xs == [] then [] else Reverse(xs[1..]) + [xs[0]]
  }

  /** Element `i` of the reversed list is element `|xs| - 1 - i` of the original. */
  lemma {:induction false} ReverseAt<T>(xs: seq<T>, i: nat)
    requires i < |xs|
    ensures Reverse(xs)[i] == xs[|xs| - 1 - i]
  {
    if i < |xs| - 1 {
      ReverseAt(xs[1..], i);
    }
  }

  /** Reversing twice gives the original list back. */
  lemma {:induction false} ReverseInvolutive<T>(xs: seq<T>)
    ensures Reverse(Reverse(xs)) == xs
  {
    var r := Reverse(Reverse(xs));
    forall i | 0 <= i < |xs|
      ensures r[i] == xs[i]
    {
      ReverseAt(Reverse(xs), i);
      ReverseAt(xs, |xs| - 1 - i);
    }
  }

  /** The record appended last comes first after reversal, ahead of the earlier ones. */
  lemma {:induction false} ReverseSnoc<T>(xs: seq<T>, x: T)
    ensures Reverse(xs + [x]) == [x] + Reverse(xs)
  {
    var l, r := Reverse(xs + [x]), [x] + Reverse(xs);
    forall i | 0 <= i < |l|
      ensures l[i] == r[i]
    {
      ReverseAt(xs + [x], i);
      if i > 0 {
        ReverseAt(xs, i - 1);
      }
    }
  }

  /** The list without the records carrying `id` (`filter(r => r.id !== id)`). */
  function WithoutId(xs: seq<SavedReport>, id: string): (r: seq<SavedReport>)
    ensures |r| <= |xs|
    ensures forall k :: 0 <= k < |r| ==> r[k].id != id && r[k] in xs
  {
    if xs == [] then []
    else if xs[0].id == id then WithoutId(xs[1..], id)
    else [xs[0]] + WithoutId(xs[1..], id)
  }

  /** Filtering a concatenation filters each part and keeps them in order. */
  lemma {:induction false} WithoutIdAppend(a: seq<SavedReport>, b: seq<SavedReport>, id: string)
    ensures WithoutId(a + b, id) == WithoutId(a, id) + WithoutId(b, id)
  {
    if a == [] {
      assert a + b == b;
    } else {
      assert (a + b)[0] == a[0];
      assert (a + b)[1..] == a[1..] + b;
      WithoutIdAppend(a[1..], b, id);
    }
  }

  /** Every record with another id survives the filter. */
  lemma {:induction false} WithoutIdKeepsOthers(xs: seq<SavedReport>, id: string, x: SavedReport)
    requires x in xs && x.id != id
    ensures x in WithoutId(xs, id)
  {
    if xs[0] != x {
      WithoutIdKeepsOthers(xs[1..], id, x);
    }
  }

  /** A list with no record carrying `id` is left as it is. */
  lemma {:induction false} WithoutAbsentId(xs: seq<SavedReport>, id: string)
    requires forall k :: 0 <= k < |xs| ==> xs[k].id != id
    ensures WithoutId(xs, id) == xs
  {
    if xs != [] {
      WithoutAbsentId(xs[1..], id);
    }
  }

  /** Deleting the same id twice is the same as deleting it once. */
  lemma WithoutIdIdempotent(xs: seq<SavedReport>, id: string)
    ensures WithoutId(WithoutId(xs, id), id) == WithoutId(xs, id)
  {
    WithoutAbsentId(WithoutId(xs, id), id);
  }

  /** The record the local save fallback appends. */
  function LocalRecord(report: FinancialPerformanceData, freshId: string, now: string): (r: SavedReport)
    ensures r.title == report.title && r.asOfDate == report.asOfDate && r.data == report
    ensures r.id == freshId && r.createdAt == now
  {
    SavedReport(freshId, now, report.title, report.asOfDate, report)
  }

  /** The browser's `localStorage` entry for saved reports; `None` when the key is missing. */
  class ReportStore {
    var local: Option<seq<SavedReport>>

    /** The stored list, with a missing key read as the empty list (`|| '[]'`). */
    function Stored(): seq<SavedReport>
      reads this
    {
      local.GetOr([])
    }

    /** A store whose key may or may not be present. */
    constructor (initial: Option<seq<SavedReport>>)
      ensures local == initial
    {
      local := initial;
    }

    /**
     * `saveReport`: a successful insert leaves the local list alone; a failed one appends
     * exactly one record at its end and writes the key. Neither outcome reaches the caller.
     */
    method Save(report: FinancialPerformanceData, remote: RemoteWrite, freshId: string, now: string)
      modifies this
      ensures remote == WriteOk ==> local == old(local)
      ensures remote == WriteFailed ==> local == Some(old(Stored()) + [LocalRecord(report, freshId, now)])
    {
      if remote == WriteFailed {
        var reports := Stored();
        reports := reports + [LocalRecord(report, freshId, now)];
        local := Some(reports);
      }
    }

    /**
     * `fetchReports`: the remote rows as selected (none for `null`), or, when the select fails,
     * the local list newest first. The store is only read.
     */
    method Fetch(remote: RemoteRead) returns (list: seq<SavedReport>)
      ensures remote.Fetched? && remote.rows.Some? ==> list == remote.rows.value
      ensures remote == Fetched(None) ==> list == []
      ensures remote == FetchFailed ==>
        |list| == |Stored()| && forall i :: 0 <= i < |list| ==> list[i] == Stored()[|Stored()| - 1 - i]
      ensures remote == FetchFailed ==> list == Reverse(Stored())
    {
      match remote {
        case Fetched(rows) =>
          list := rows.GetOr([]);
        case FetchFailed =>
          list := Reverse(Stored());
          forall i | 0 <= i < |list|
            ensures list[i] == Stored()[|Stored()| - 1 - i]
          {
            ReverseAt(Stored(), i);
          }
      }
    }

    /**
     * `deleteReport`: a successful remote delete leaves the local list alone; a failed one
     * writes back the list without the records carrying `id`.
     */
    method Delete(id: string, remote: RemoteWrite)
      modifies this
      ensures remote == WriteOk ==> local == old(local)
      ensures remote == WriteFailed ==> local == Some(WithoutId(old(Stored()), id))
    {
      if remote == WriteFailed {
        var reports := Stored();
        local := Some(WithoutId(reports, id));
      }
    }
  }

  /**
   * With the remote table unreachable, a report just saved is the first one fetched, ahead of
   * everything the fetch before the save returned, in the same order.
   */
  method SavedLocallyIsFetchedFirst(store: ReportStore, report: FinancialPerformanceData, freshId: string, now: string)
    returns (before: seq<SavedReport>, after: seq<SavedReport>)
    modifies store
    ensures after == [LocalRecord(report, freshId, now)] + before
  {
    before := store.Fetch(FetchFailed);
    var earlier := store.Stored();
    store.Save(report, WriteFailed, freshId, now);
    after := store.Fetch(FetchFailed);
    ReverseSnoc(earlier, LocalRecord(report, freshId, now));
  }

  /** A locally saved report is gone after a local delete of its id, and the others remain in order. */
  lemma DeleteUndoesSave(before: seq<SavedReport>, report: FinancialPerformanceData, freshId: string, now: string)
    requires forall k :: 0 <= k < |before| ==> before[k].id != freshId
    ensures WithoutId(before + [LocalRecord(report, freshId, now)], freshId) == before
  {
    WithoutIdAppend(before, [LocalRecord(report, freshId, now)], freshId);
    WithoutAbsentId(before, freshId);
    assert WithoutId([LocalRecord(report, freshId, now)], freshId) == [];
  }
}
