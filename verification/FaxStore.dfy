/** The fax row store: keyed rows, the status-advance fold, the process-local
    idempotence keys, the lookup by provider ref and the retention sweep. */
module FaxStore {
  import opened Collections
  import opened FaxMachine
  import MetaEngine

  const SWEEP_PAGE: nat := 1000

  datatype FaxDirection = Outbound | Inbound

  datatype FaxRow = FaxRow(
    owner: string, remote: string, direction: FaxDirection, status: FaxStatus, pages: int,
    documentPath: string, providerRef: string, error: string, createdAt: int, updatedAt: int)

  /** The machine-owned part of a row plus what the move carried. */
  datatype FaxDelivery = FaxDelivery(status: FaxStatus, providerRef: string, error: string, pages: int)

  /** The key under which one verdict is applied at most once per process. */
  datatype IdemKey = IdemKey(ref: string, status: FaxStatus)

  datatype Store = Store(rows: map<string, FaxRow>, applied: set<IdemKey>)

  datatype WriteResult = Written | NoSuchRow | EngineFailed

  function OutboundRow(owner: string, remote: string, documentPath: string, at: int): FaxRow {
    FaxRow(owner, remote, Outbound, Queued, 0, documentPath, "", "", at, at)
  }

  function InboundRow(owner: string, remote: string, documentPath: string, ref: string, pages: int, at: int): FaxRow {
    FaxRow(owner, remote, Inbound, Received, pages, documentPath, ref, "", at, at)
  }

  /** The update fold: an empty ref keeps the stored one. */
  function Advanced(row: FaxRow, d: FaxDelivery, at: int): FaxRow {
    row.(status := d.status,
         providerRef := if d.providerRef != "" then d.providerRef else row.providerRef,
         error := d.error, pages := d.pages, updatedAt := at)
  }

  function AfterUpdate(s: Store, id: string, d: FaxDelivery, at: int): Store {
    if id in s.rows then s.(rows := s.rows[id := Advanced(s.rows[id], d, at)]) else s
  }

  function AfterIdempotent(s: Store, key: IdemKey, id: string, d: FaxDelivery, at: int): Store {
    if id !in s.rows || key in s.applied then s
    else AfterUpdate(s, id, d, at).(applied := s.applied + {key})
  }

  /** The row's document path, if it has one. */
  function PathOf(row: FaxRow): seq<string> {
    if row.documentPath != "" then [row.documentPath] else []
  }

  function PathsOf(rows: map<string, FaxRow>, ids: seq<string>): seq<string>
    requires forall i :: 0 <= i < |ids| ==> ids[i] in rows
  {
    if ids == [] then [] else PathsOf(rows, ids[..|ids| - 1]) + PathOf(rows[ids[|ids| - 1]])
  }

  lemma {:induction false} PathsConcat(rows: map<string, FaxRow>, a: seq<string>, b: seq<string>)
    requires forall i :: 0 <= i < |a| ==> a[i] in rows
    requires forall i :: 0 <= i < |b| ==> b[i] in rows
    ensures forall i :: 0 <= i < |a + b| ==> (a + b)[i] in rows
    ensures PathsOf(rows, a + b) == PathsOf(rows, a) + PathsOf(rows, b)
  {
    if b == [] {
      assert a + b == a;
    } else {
      assert (a + b)[..|a + b| - 1] == a + b[..|b| - 1];
      PathsConcat(rows, a, b[..|b| - 1]);
    }
  }

  /** Which rows a path list speaks for: exactly their non-empty paths. */
  lemma {:induction false} PathsAreDocuments(rows: map<string, FaxRow>, ids: seq<string>, path: string)
    requires forall i :: 0 <= i < |ids| ==> ids[i] in rows
    ensures path in PathsOf(rows, ids) <==> path != "" && exists i :: 0 <= i < |ids| && rows[ids[i]].documentPath == path
  {
    if ids != [] {
      var rest := ids[..|ids| - 1];
      PathsAreDocuments(rows, rest, path);
      if i :| 0 <= i < |rest| && rows[rest[i]].documentPath == path { assert rows[ids[i]].documentPath == path; }
      if i :| 0 <= i < |ids| && rows[ids[i]].documentPath == path && path != "" {
        if i < |rest| { assert rows[rest[i]].documentPath == path; }
      }
    }
  }

  function DueIds(rows: map<string, FaxRow>, cutoff: int): set<string> {
    set id | id in rows && rows[id].createdAt < cutoff
  }

  function CreatedAt(row: FaxRow): int { row.createdAt }

  /** How a sweep can be cut short: a scan that fails after some pages, or an
      expunge that fails after some rows. */
  datatype SweepFault = NoFault | ScanFails(afterPages: nat) | ExpungeFails(afterRows: nat)

  /** The order in which a sweep meets its rows: distinct expirable rows, each
      at least as old as every expirable row not met before it. */
  ghost predicate IsSweep(rows: map<string, FaxRow>, cutoff: int, tried: seq<string>) {
    && Distinct(tried) && Elements(tried) <= DueIds(rows, cutoff)
    && (forall i :: 0 <= i < |tried| ==> tried[i] in rows)
    && (forall i, id :: 0 <= i < |tried| && id in DueIds(rows, cutoff) && id !in tried[..i] ==>
          rows[tried[i]].createdAt <= rows[id].createdAt)
  }

  ghost predicate Without(rows: map<string, FaxRow>, before: map<string, FaxRow>, gone: seq<string>) {
    rows == before - Elements(gone)
  }

  lemma ElementsAppend<T>(s: seq<T>, x: T)
    ensures Elements(s + [x]) == Elements(s) + {x}
  {
    assert Elements([x]) == {x} by { assert [x][0] == x; }
    ElementsConcat(s, [x]);
  }

  lemma ElementsConcat<T>(a: seq<T>, b: seq<T>)
    ensures Elements(a + b) == Elements(a) + Elements(b)
  {
    forall x | x in Elements(a) + Elements(b) ensures x in Elements(a + b) {
      if i :| 0 <= i < |a| && a[i] == x { assert (a + b)[i] == x; }
      if i :| 0 <= i < |b| && b[i] == x { assert (a + b)[|a| + i] == x; }
    }
  }

  lemma DueAfter(before: map<string, FaxRow>, rows: map<string, FaxRow>, cutoff: int, tried: seq<string>)
    requires Without(rows, before, tried)
    ensures DueIds(rows, cutoff) == {} ==> DueIds(before, cutoff) <= Elements(tried)
  {
    forall id | id in DueIds(before, cutoff) && id !in Elements(tried) ensures id in DueIds(rows, cutoff) {}
  }

  lemma SweptAll(before: map<string, FaxRow>, rows: map<string, FaxRow>, cutoff: int, tried: seq<string>)
    requires IsSweep(before, cutoff, tried) && DueIds(before, cutoff) <= Elements(tried) && Without(rows, before, tried)
    ensures rows == before - DueIds(before, cutoff) && |tried| == |DueIds(before, cutoff)|
  {
    assert Elements(tried) == DueIds(before, cutoff);
    DistinctSize(tried);
  }

  /** What a sweep may take, and in which order: rows created before the cutoff,
      oldest first; a complete one leaves exactly the others. */
  lemma SweepTakesTheOldest(before: map<string, FaxRow>, rows: map<string, FaxRow>, cutoff: int, tried: seq<string>)
    requires IsSweep(before, cutoff, tried) && Without(rows, before, tried)
    ensures forall i :: 0 <= i < |tried| ==> tried[i] in before && before[tried[i]].createdAt < cutoff
    ensures forall i, j :: 0 <= i < j < |tried| ==> before[tried[i]].createdAt <= before[tried[j]].createdAt
    ensures DueIds(rows, cutoff) == {} ==>
      forall id :: id in rows <==> id in before && before[id].createdAt >= cutoff
  {
    forall i | 0 <= i < |tried| ensures tried[i] in Elements(tried) {}
    forall i, j | 0 <= i < j < |tried| ensures before[tried[i]].createdAt <= before[tried[j]].createdAt {
      assert tried[j] in DueIds(before, cutoff) && tried[j] !in tried[..i];
    }
    if DueIds(rows, cutoff) == {} {
      forall id | id in before && before[id].createdAt >= cutoff ensures id in rows {
        assert id !in Elements(tried);
      }
      forall id | id in rows ensures before[id].createdAt >= cutoff { assert id !in DueIds(rows, cutoff); }
    }
  }

  lemma SweptSome(before: map<string, FaxRow>, cutoff: int, tried: seq<string>)
    requires IsSweep(before, cutoff, tried)
    ensures |tried| <= |DueIds(before, cutoff)|
  {
    DistinctSize(tried);
    SubsetSize(Elements(tried), DueIds(before, cutoff));
  }

  /** A page of what is left continues the sweep. */
  lemma SweepExtends(before: map<string, FaxRow>, rows: map<string, FaxRow>, cutoff: int,
      tried: seq<string>, page: seq<string>, taken: seq<string>)
    requires IsSweep(before, cutoff, tried) && IsSweep(rows, cutoff, page) && taken <= page
    requires Without(rows, before, tried)
    ensures IsSweep(before, cutoff, tried + taken)
  {
    var all := tried + taken;
    ElementsConcat(tried, taken);
    forall i | 0 <= i < |page| ensures page[i] in DueIds(before, cutoff) && page[i] !in tried {
      assert page[i] in Elements(page);
    }
    forall i, id | 0 <= i < |all| && id in DueIds(before, cutoff) && id !in all[..i]
      ensures before[all[i]].createdAt <= before[id].createdAt
    {
      if i < |tried| {
        assert all[..i] == tried[..i];
      } else {
        assert all[..i] == tried + page[..i - |tried|];
        assert id in DueIds(rows, cutoff);
      }
    }
  }

  lemma PathsExtend(before: map<string, FaxRow>, held: map<string, FaxRow>, tried: seq<string>, taken: seq<string>)
    requires MetaEngine.SubMap(held, before)
    requires forall i :: 0 <= i < |tried| ==> tried[i] in before
    requires forall i :: 0 <= i < |taken| ==> taken[i] in held
    ensures forall i :: 0 <= i < |tried + taken| ==> (tried + taken)[i] in before
    ensures PathsOf(before, tried + taken) == PathsOf(before, tried) + PathsOf(held, taken)
  {
    PathsOfKept(before, held, taken);
    PathsConcat(before, tried, taken);
  }

  lemma Shrinks(held: map<string, FaxRow>, rows: map<string, FaxRow>, gone: seq<string>)
    requires gone != [] && gone[0] in held && Without(rows, held, gone)
    ensures rows.Keys < held.Keys
  {
  }

  lemma RowsAfterPage(before: map<string, FaxRow>, held: map<string, FaxRow>, rows: map<string, FaxRow>,
      tried: seq<string>, gone: seq<string>)
    requires Without(held, before, tried) && Without(rows, held, gone)
    ensures Without(rows, before, tried + gone)
  {
    ElementsConcat(tried, gone);
  }

  lemma {:induction false} PathsOfKept(before: map<string, FaxRow>, rows: map<string, FaxRow>, ids: seq<string>)
    requires MetaEngine.SubMap(rows, before) && forall i :: 0 <= i < |ids| ==> ids[i] in rows
    ensures PathsOf(before, ids) == PathsOf(rows, ids)
  {
    if ids != [] { PathsOfKept(before, rows, ids[..|ids| - 1]); }
  }

  /** What one page leaves: `met` of it were noted, `some` of those are gone. */
  lemma PageTaken(before: map<string, FaxRow>, held: map<string, FaxRow>, rows: map<string, FaxRow>, cutoff: int,
      tried: seq<string>, page: seq<string>, met: seq<string>, some: seq<string>)
    requires IsSweep(before, cutoff, tried) && Without(held, before, tried) && IsSweep(held, cutoff, page)
    requires some <= met <= page && Without(rows, held, some)
    ensures IsSweep(before, cutoff, tried + met) && Without(rows, before, tried + some)
    ensures forall i :: 0 <= i < |met| ==> met[i] in held
    ensures PathsOf(before, tried + met) == PathsOf(before, tried) + PathsOf(held, met)
    ensures some != [] ==> rows.Keys < held.Keys
  {
    SweepExtends(before, held, cutoff, tried, page, met);
    PathsExtend(before, held, tried, met);
    RowsAfterPage(before, held, rows, tried, some);
    if some != [] { Shrinks(held, rows, some); }
  }

  class Faxes {
    var rows: map<string, FaxRow>
    var applied: set<IdemKey>

    function View(): Store
      reads this
    {
      Store(rows, applied)
    }

    constructor ()
      ensures View() == Store(map[], {})
    {
      rows, applied := map[], {};
    }

    /** Inserts a row; `working` says whether the engine does, here and below. */
    method Create(id: string, row: FaxRow, working: bool) returns (r: WriteResult)
      modifies this
      ensures r == if working then Written else EngineFailed
      ensures View() == if working then old(View()).(rows := old(rows)[id := row]) else old(View())
    {
      if !working {
        return EngineFailed;
      }
      rows := rows[id := row];
      return Written;
    }

    /** Advances a row, if there is one. */
    method UpdateStatus(id: string, d: FaxDelivery, now: int, working: bool) returns (r: WriteResult)
      modifies this
      ensures r == if !working then EngineFailed else if id in old(rows) then Written else NoSuchRow
      ensures View() == if working then AfterUpdate(old(View()), id, d, now) else old(View())
    {
      if !working {
        return EngineFailed;
      }
      if id !in rows {
        return NoSuchRow;
      }
      rows := rows[id := Advanced(rows[id], d, now)];
      return Written;
    }

    /** `UpdateStatus` that a repeated key turns into a no-op. */
    method AdvanceIdempotent(key: IdemKey, id: string, d: FaxDelivery, now: int, working: bool) returns (r: WriteResult)
      modifies this
      ensures r == if !working then EngineFailed else if id in old(rows) then Written else NoSuchRow
      ensures View() == if working then AfterIdempotent(old(View()), key, id, d, now) else old(View())
    {
      if !working {
        return EngineFailed;
      }
      if id !in rows {
        return NoSuchRow;
      }
      if key !in applied {
        rows := rows[id := Advanced(rows[id], d, now)];
        applied := applied + {key};
      }
      return Written;
    }

    /** Some row carrying the ref; an empty ref finds nothing and asks nobody. */
    method ByProviderRef(ref: string, working: bool) returns (found: Option<string>, failed: bool)
      ensures failed <==> ref != "" && !working
      ensures found.Some? ==> !failed && ref != "" && found.value in rows && rows[found.value].providerRef == ref
      ensures found.None? ==> failed || ref == "" || forall id :: id in rows ==> rows[id].providerRef != ref
    {
      if ref == "" {
        return None, false;
      }
      if !working {
        return None, true;
      }
      var matching := set id | id in rows && rows[id].providerRef == ref;
      if matching == {} {
        assert forall id :: id in rows && rows[id].providerRef == ref ==> id in matching;
        return None, false;
      }
      var id :| id in matching;
      return Some(id), false;
    }

    /** One page of the oldest expirable rows, oldest first. */
    method ScanDue(cutoff: int) returns (page: seq<string>)
      ensures Distinct(page) && Elements(page) <= DueIds(rows, cutoff)
      ensures page == [] ==> DueIds(rows, cutoff) == {}
      ensures forall i :: 0 <= i < |page| ==> page[i] in rows
      ensures forall i, id :: 0 <= i < |page| && id in DueIds(rows, cutoff) && id !in page[..i] ==>
        rows[page[i]].createdAt <= rows[id].createdAt
    {
      page := [];
      var left := DueIds(rows, cutoff);
      while left != {} && |page| < SWEEP_PAGE
        invariant left == DueIds(rows, cutoff) - Elements(page) && Distinct(page)
        invariant Elements(page) <= DueIds(rows, cutoff)
        invariant forall i :: 0 <= i < |page| ==> page[i] in rows
        invariant forall i, id :: 0 <= i < |page| && id in DueIds(rows, cutoff) && id !in page[..i] ==>
          rows[page[i]].createdAt <= rows[id].createdAt
        decreases left
      {
        var id := MetaEngine.Oldest(rows, left, CreatedAt);
        assert forall other :: other in left ==> CreatedAt(rows[id]) <= CreatedAt(rows[other]);
        ghost var was := page;
        left, page := left - {id}, page + [id];
        assert forall i :: 0 <= i <= |was| ==> page[..i] == was[..i];
        ElementsAppend(was, id);
      }
    }

    /** Expunges one scanned page row by row. Each path is noted before its row
        goes, so the row whose expunge fails leaves its path behind as well:
        `met` are the rows whose paths were noted, `gone` those removed. */
    method ExpungePage(page: seq<string>, failAt: Option<nat>)
      returns (paths: seq<string>, failed: bool, ghost met: seq<string>, ghost gone: seq<string>)
      requires Distinct(page) && forall i :: 0 <= i < |page| ==> page[i] in rows
      modifies this
      ensures applied == old(applied)
      ensures failed <==> failAt.Some? && failAt.value < |page|
      ensures gone <= met <= page && |met| == |gone| + if failed then 1 else 0
      ensures |gone| == if failed then failAt.value else |page|
      ensures Without(rows, old(rows), gone)
      ensures paths == PathsOf(old(rows), met)
    {
      paths, failed, met, gone := [], false, [], [];
      ghost var before := rows;
      var done := 0;
      while done < |page|
        invariant 0 <= done <= |page| && applied == old(applied)
        invariant failAt.Some? ==> done <= failAt.value || |page| <= failAt.value
        invariant gone == met == page[..done]
        invariant Without(rows, before, gone)
        invariant paths == PathsOf(before, met)
      {
        var id := page[done];
        assert (met + [id])[..|met + [id]| - 1] == met;
        assert page[..done + 1] == met + [id];
        ElementsAppend(gone, id);
        assert id in rows;
        met := met + [id];
        if rows[id].documentPath != "" {
          paths := paths + [rows[id].documentPath];
        }
        if failAt == Some(done) {
          failed := true;
          return;
        }
        rows, gone, done := rows - {id}, gone + [id], done + 1;
      }
    }

    /** One turn of the sweep loop: a page is scanned and expunged. `before` are
        the rows the sweep started from, `tried` what earlier pages took. */
    method SweepPage(cutoff: int, failAt: Option<nat>, ghost before: map<string, FaxRow>, ghost tried: seq<string>)
      returns (more: seq<string>, size: nat, failed: bool, ghost next: seq<string>, ghost gone: seq<string>)
      requires IsSweep(before, cutoff, tried) && Without(rows, before, tried)
      modifies this
      ensures applied == old(applied)
      ensures failed <==> failAt.Some? && failAt.value < size
      ensures size == 0 ==> next == tried && DueIds(before, cutoff) <= Elements(tried)
      ensures IsSweep(before, cutoff, next) && gone <= next && |next| == |gone| + if failed then 1 else 0
      ensures |gone| == |tried| + if failed then failAt.value else size
      ensures Without(rows, before, gone) && (!failed ==> gone == next)
      ensures PathsOf(before, next) == PathsOf(before, tried) + more
      ensures !failed && size > 0 ==> rows.Keys < old(rows).Keys
    {
      ghost var held := rows;
      var page := ScanDue(cutoff);
      assert rows == held;
      DueAfter(before, held, cutoff, tried);
      ghost var met, some;
      more, failed, met, some := ExpungePage(page, failAt);
      size, next, gone := |page|, tried + met, tried + some;
      PageTaken(before, held, rows, cutoff, tried, page, met, some);
    }

    /** Deletes the rows created before the cutoff, oldest first, and returns
        their document paths for the caller to unlink. `met` is the order in
        which rows came up, `gone` the ones removed: all of them, except the last
        one met when its expunge failed. */
    method SweepBefore(cutoff: int, fault: SweepFault)
      returns (paths: seq<string>, removed: nat, failed: bool, ghost met: seq<string>, ghost gone: seq<string>)
      modifies this
      ensures applied == old(applied)
      ensures IsSweep(old(rows), cutoff, met) && gone <= met && |gone| == removed
      ensures Without(rows, old(rows), gone)
      ensures paths == PathsOf(old(rows), met)
      ensures !failed ==> met == gone && rows == old(rows) - DueIds(old(rows), cutoff)
      ensures fault.NoFault? ==> !failed
      ensures fault.ScanFails? ==> met == gone
      ensures fault.ExpungeFails? ==> failed == (fault.afterRows < |DueIds(old(rows), cutoff)|)
      ensures fault.ExpungeFails? && failed ==> removed == fault.afterRows && |met| == removed + 1
    {
      paths, removed, met, gone := [], 0, [], [];
      ghost var before := rows;
      var pass := 0;
      while true
        invariant applied == old(applied) && pass >= 0
        invariant IsSweep(before, cutoff, met) && met == gone && |gone| == removed
        invariant Without(rows, before, gone)
        invariant paths == PathsOf(before, met)
        invariant fault.ExpungeFails? ==> removed <= fault.afterRows
        decreases rows.Keys
      {
        if fault == ScanFails(pass) {
          failed := true;
          return;
        }
        var failAt := if fault.ExpungeFails? then Some(fault.afterRows - removed) else None;
        var more, size;
        more, size, failed, met, gone := SweepPage(cutoff, failAt, before, met);
        SweptSome(before, cutoff, met);
        paths, removed := paths + more, removed + if failed then failAt.value else size;
        if failed {
          return;
        }
        if size == 0 {
          SweptAll(before, rows, cutoff, met);
          return;
        }
        pass := pass + 1;
      }
    }
  }
}
