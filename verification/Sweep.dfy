/** The worktree-removal records and the sweep's lease (crates/jkb-api/src/removals.rs). */
module Sweep {
  import opened Wrappers

  const SWEEP_LEASE: string := "removal-sweep"
  const LAND_LEASE_PREFIX: string := "land:"
  const MAX_CANCEL: nat := 256
  const PAGE: nat := 64

  datatype Code = Forbidden | Invalid

  /** One promise to remove a worktree; archived once the tree has been moved away. */
  datatype Record = Record(id: nat, worktree: string, archive: Option<string>)

  // ---------------------------------------------------------------------------------------
  // The records
  // ---------------------------------------------------------------------------------------

  /** Records are listed by id, and an id is never given out twice. */
  predicate Ordered(rows: seq<Record>, nextId: nat) {
    && (forall i, j :: 0 <= i < j < |rows| ==> rows[i].id < rows[j].id)
    && (forall i :: 0 <= i < |rows| ==> rows[i].id < nextId)
  }

  function Ids(rows: seq<Record>): set<nat> {
    set r | r in rows :: r.id
  }

  function Find(rows: seq<Record>, id: nat): Option<Record> {
    if rows == [] then None else if rows[0].id == id then Some(rows[0]) else Find(rows[1..], id)
  }

  lemma {:induction false} FindExactly(rows: seq<Record>, nextId: nat, id: nat)
    requires Ordered(rows, nextId)
    ensures Find(rows, id).Some? <==> id in Ids(rows)
    ensures forall r :: r in rows && r.id == id ==> Find(rows, id) == Some(r)
    ensures Find(rows, id).Some? ==> Find(rows, id).value in rows && Find(rows, id).value.id == id
  {
    if rows != [] {
      assert forall r :: r in rows[1..] ==> r in rows;
      assert forall r :: r in rows ==> r == rows[0] || r in rows[1..];
      FindExactly(rows[1..], nextId, id);
      if rows[0].id == id {
        assert rows[0] in rows;
        forall r | r in rows && r.id == id
          ensures r == rows[0]
        {
          var k :| 0 <= k < |rows| && rows[k] == r;
          OneRowAnId(rows, nextId, 0, k);
        }
      }
    }
  }

  lemma OneRowAnId(rows: seq<Record>, nextId: nat, i: nat, j: nat)
    requires Ordered(rows, nextId) && i < |rows| && j < |rows| && rows[i].id == rows[j].id
    ensures i == j
  {
  }

  lemma NoLater(rows: seq<Record>, nextId: nat, i: nat, j: nat)
    requires Ordered(rows, nextId) && i < |rows| && j < |rows| && rows[i].id <= rows[j].id
    ensures i <= j
  {
  }

  /** The pending records among `ids` a caller may name: what a cancel drops. */
  predicate Cancels(r: Record, ids: seq<nat>, mayName: Record -> bool) {
    r.id in ids && r.archive.None? && mayName(r)
  }

  function AfterCancel(rows: seq<Record>, ids: seq<nat>, mayName: Record -> bool): seq<Record> {
    if rows == [] then []
    else (if Cancels(rows[0], ids, mayName) then [] else [rows[0]]) + AfterCancel(rows[1..], ids, mayName)
  }

  /** The named records the caller may not name, in the order it named them. */
  function Skipped(rows: seq<Record>, ids: seq<nat>, mayName: Record -> bool): seq<nat> {
    if ids == [] then []
    else
      var id := ids[|ids| - 1];
      var r := Find(rows, id);
      Skipped(rows, ids[..|ids| - 1], mayName) + if r.Some? && !mayName(r.value) then [id] else []
  }

  lemma {:induction false} CancelMembers(rows: seq<Record>, ids: seq<nat>, mayName: Record -> bool)
    ensures forall r :: r in AfterCancel(rows, ids, mayName) <==> r in rows && !Cancels(r, ids, mayName)
    ensures |AfterCancel(rows, ids, mayName)| <= |rows|
  {
    if rows != [] {
      CancelMembers(rows[1..], ids, mayName);
      assert rows == [rows[0]] + rows[1..];
    }
  }

  lemma FirstIsLeast(rows: seq<Record>, nextId: nat, r: Record)
    requires Ordered(rows, nextId) && rows != [] && r in rows[1..]
    ensures rows[0].id < r.id
  {
    var k :| 0 <= k < |rows[1..]| && rows[1..][k] == r;
    assert rows[k + 1] == r;
  }

  lemma ConsOrdered(r: Record, rest: seq<Record>, nextId: nat)
    requires Ordered(rest, nextId) && r.id < nextId && forall x :: x in rest ==> r.id < x.id
    ensures Ordered([r] + rest, nextId)
  {
    var all := [r] + rest;
    forall i, j | 0 <= i < j < |all|
      ensures all[i].id < all[j].id
    {
      assert all[j] == rest[j - 1] && rest[j - 1] in rest;
    }
  }

  lemma {:induction false} CancelLeaves(rows: seq<Record>, nextId: nat, ids: seq<nat>, mayName: Record -> bool)
    requires Ordered(rows, nextId)
    ensures Ordered(AfterCancel(rows, ids, mayName), nextId)
    ensures forall r :: r in AfterCancel(rows, ids, mayName) <==> r in rows && !Cancels(r, ids, mayName)
  {
    CancelMembers(rows, ids, mayName);
    if rows != [] {
      var rest := AfterCancel(rows[1..], ids, mayName);
      CancelLeaves(rows[1..], nextId, ids, mayName);
      assert [] + rest == rest;
      forall r | r in rest
        ensures rows[0].id < r.id
      {
        FirstIsLeast(rows, nextId, r);
      }
      ConsOrdered(rows[0], rest, nextId);
    }
  }

  lemma {:induction false} CancelOneMore(rows: seq<Record>, ids: seq<nat>, id: nat, mayName: Record -> bool)
    ensures AfterCancel(rows, ids + [id], mayName) == AfterCancel(AfterCancel(rows, ids, mayName), [id], mayName)
  {
    if rows != [] {
      CancelOneMore(rows[1..], ids, id, mayName);
      var rest := AfterCancel(rows[1..], ids, mayName);
      assert Cancels(rows[0], ids + [id], mayName) <==>
          Cancels(rows[0], ids, mayName) || Cancels(rows[0], [id], mayName);
      var all := AfterCancel(rows, ids, mayName);
      if Cancels(rows[0], ids, mayName) {
        assert all == rest;
      } else {
        assert all == [rows[0]] + rest;
        assert all[1..] == rest;
      }
    }
  }

  lemma {:induction false} CancelNone(rows: seq<Record>, ids: seq<nat>, mayName: Record -> bool)
    requires forall r :: r in rows ==> !Cancels(r, ids, mayName)
    ensures AfterCancel(rows, ids, mayName) == rows
  {
    if rows != [] {
      assert rows[0] in rows;
      assert forall r :: r in rows[1..] ==> r in rows;
      CancelNone(rows[1..], ids, mayName);
    }
  }

  /** Dropping one pending record drops exactly one. */
  lemma {:induction false} CancelOne(rows: seq<Record>, nextId: nat, id: nat, mayName: Record -> bool)
    requires Ordered(rows, nextId)
    ensures var r := Find(rows, id);
            |AfterCancel(rows, [id], mayName)| == |rows| - if r.Some? && Cancels(r.value, [id], mayName) then 1 else 0
  {
    if rows != [] {
      if rows[0].id == id {
        forall r | r in rows[1..]
          ensures !Cancels(r, [id], mayName)
        {
          var k :| 0 <= k < |rows[1..]| && rows[1..][k] == r;
          assert rows[0].id < rows[k + 1].id;
        }
        CancelNone(rows[1..], [id], mayName);
      } else {
        CancelOne(rows[1..], nextId, id, mayName);
      }
    }
  }

  datatype Cancelled = Cancelled(count: nat, sweepHolder: Option<string>, skipped: seq<nat>)

  predicate LeaseNameOk(name: string) {
    name == SWEEP_LEASE || (LAND_LEASE_PREFIX <= name && |name| > |LAND_LEASE_PREFIX|)
  }

  /** Whether a take succeeds: with `displace` only while exactly that holder has the lease, else only when nobody has.
      */
  predicate MayTake(leases: map<string, string>, name: string, displace: Option<string>) {
    if displace.Some? then name in leases && leases[name] == displace.value else name !in leases
  }

  /** How many records are at or before `after`. */
  function Before(rows: seq<Record>, after: Option<nat>): (n: nat)
    ensures n <= |rows|
  {
    if after.None? || rows == [] || rows[0].id > after.value then 0 else 1 + Before(rows[1..], after)
  }

  /** The page of records after `after`, and where the next one starts. */
  function PageAfter(rows: seq<Record>, after: Option<nat>): (seq<Record>, Option<nat>) {
    var n := Before(rows, after);
    if |rows| - n > PAGE then (rows[n..n + PAGE], Some(rows[n + PAGE - 1].id)) else (rows[n..], None)
  }

  lemma {:induction false} BeforeExactly(rows: seq<Record>, nextId: nat, after: Option<nat>, i: nat)
    requires Ordered(rows, nextId) && i < |rows|
    ensures i < Before(rows, after) <==> after.Some? && rows[i].id <= after.value
  {
    if after.Some? && rows[0].id <= after.value {
      if i > 0 {
        BeforeExactly(rows[1..], nextId, after, i - 1);
      }
    } else {
      assert i > 0 ==> rows[0].id < rows[i].id;
    }
  }

  /** Whether row `k` is the pending record `id`, which the caller may name, and it alone became archived. */
  predicate Archives(was: seq<Record>, k: nat, id: nat, archive: string, mayName: Record -> bool, now: seq<Record>)
    requires k < |was|
  {
    was[k].id == id && mayName(was[k]) && was[k].archive.None? && now == was[k := was[k].(archive := Some(archive))]
  }

  /** A page is the next 64 records at most, by id; when there are more it is full and the next one starts where it
      ends. */
  lemma PageExactly(rows: seq<Record>, nextId: nat, after: Option<nat>)
    requires Ordered(rows, nextId)
    ensures var (page, next) := PageAfter(rows, after);
            && |page| <= 64 && (forall i, j :: 0 <= i < j < |page| ==> page[i].id < page[j].id)
            && (forall r :: r in page <==> r in rows && (after.Some? ==> r.id > after.value)
                                           && (next.Some? ==> r.id <= next.value))
            && (next.Some? ==> |page| == 64 && next.value == page[63].id && exists r :: r in rows && r.id > next.value)
  {
    hide Before;
    var n := Before(rows, after);
    var (page, next) := PageAfter(rows, after);
    if next.Some? {
      assert rows[n + 64] in rows;
    }
    forall r
      ensures r in page <==> r in rows && (after.Some? ==> r.id > after.value) && (next.Some? ==> r.id <= next.value)
    {
      if r in rows {
        var i :| 0 <= i < |rows| && rows[i] == r;
        OnPage(rows, nextId, after, i);
      }
    }
  }

  lemma OnPage(rows: seq<Record>, nextId: nat, after: Option<nat>, i: nat)
    requires Ordered(rows, nextId) && i < |rows|
    ensures var (page, next) := PageAfter(rows, after);
            rows[i] in page <==>
            (after.Some? ==> rows[i].id > after.value) && (next.Some? ==> rows[i].id <= next.value)
  {
    hide Before;
    var n := Before(rows, after);
    var (page, next) := PageAfter(rows, after);
    BeforeExactly(rows, nextId, after, i);
    PageHas(rows, nextId, n, |page|, i);
    if next.Some? && rows[i].id <= next.value {
      NoLater(rows, nextId, i, n + 63);
    }
  }

  lemma PageHas(rows: seq<Record>, nextId: nat, n: nat, m: nat, i: nat)
    requires Ordered(rows, nextId) && n + m <= |rows| && i < |rows|
    ensures rows[i] in rows[n..n + m] <==> n <= i < n + m
  {
    if n <= i < n + m {
      assert rows[n..n + m][i - n] == rows[i];
    }
    if rows[i] in rows[n..n + m] {
      var k :| 0 <= k < m && rows[n..n + m][k] == rows[i];
      OneRowAnId(rows, nextId, n + k, i);
    }
  }

  class Removals {
    const holderOk: string -> bool
    const ownerOf: string -> string
    var rows: seq<Record>
    var nextId: nat
    var leases: map<string, string>

    ghost predicate Valid()
      reads this
    {
      Ordered(rows, nextId)
    }

    constructor (holderOk: string -> bool, ownerOf: string -> string)
      ensures Valid() && rows == [] && leases == map[]
    {
      this.holderOk, this.ownerOf := holderOk, ownerOf;
      rows, nextId, leases := [], 1, map[];
    }

    /** A new record, pending unless its tree was already moved away. */
    method Add(worktree: string, archive: Option<string>) returns (id: nat)
      requires Valid()
      modifies this
      ensures Valid() && leases == old(leases)
      ensures id == old(nextId) && nextId == id + 1 && rows == old(rows) + [Record(id, worktree, archive)]
    {
      id := nextId;
      rows := rows + [Record(id, worktree, archive)];
      nextId := nextId + 1;
    }

    /** Whether record `id` exists: no for a missing one, an error for one the caller may not name. */
    method Reachable(id: nat, mayName: Record -> bool) returns (r: Result<bool, Code>)
      requires Valid()
      ensures r == Ok(true) <==> exists row :: row in rows && row.id == id && mayName(row)
      ensures r == Err(Forbidden) <==> exists row :: row in rows && row.id == id && !mayName(row)
      ensures r == Ok(false) <==> id !in Ids(rows)
    {
      FindExactly(rows, nextId, id);
      var row := Find(rows, id);
      if row.None? {
        return Ok(false);
      }
      if !mayName(row.value) {
        return Err(Forbidden);
      }
      return Ok(true);
    }

    /** Drop record `id` while it is still pending. */
    method CancelPending(id: nat, ghost mayName: Record -> bool) returns (dropped: bool)
      requires Valid() && Find(rows, id).Some? && mayName(Find(rows, id).value)
      modifies this
      ensures rows == AfterCancel(old(rows), [id], mayName) && nextId == old(nextId) && leases == old(leases)
      ensures dropped <==> |rows| < |old(rows)|
    {
      CancelOne(rows, nextId, id, mayName);
      FindExactly(rows, nextId, id);
      ghost var was := rows;
      dropped := false;
      var k := 0;
      while k < |rows| && rows[k].id != id
        invariant k <= |rows| && forall j :: 0 <= j < k ==> rows[j].id != id
      {
        k := k + 1;
      }
      assert k < |rows| && rows[k] in rows;
      if rows[k].archive.None? {
        DropAt(rows, nextId, k, mayName);
        rows := rows[..k] + rows[k + 1..];
        dropped := true;
      } else {
        CancelNone(rows, [id], mayName);
      }
    }

    /** One record of a cancel: dropped, skipped because the caller may not name it, or left. */
    method CancelNamed(id: nat, mayName: Record -> bool) returns (dropped: bool, skip: bool)
      requires Valid()
      modifies this
      ensures Valid() && nextId == old(nextId) && leases == old(leases)
      ensures rows == AfterCancel(old(rows), [id], mayName)
      ensures |rows| + (if dropped then 1 else 0) == |old(rows)|
      ensures skip <==> Find(old(rows), id).Some? && !mayName(Find(old(rows), id).value)
    {
      CancelLeaves(rows, nextId, [id], mayName);
      CancelOne(rows, nextId, id, mayName);
      FindExactly(rows, nextId, id);
      dropped, skip := false, false;
      var named := Reachable(id, mayName);
      if named == Ok(true) {
        dropped := CancelPending(id, mayName);
      } else {
        NotNamed(rows, nextId, id, mayName);
        skip := named.Err?;
      }
    }

    /** Drop the pending records `ids`, unless a sweep holds its lease; each dropped one is counted once, and one the
        caller may not name is skipped. */
    method Cancel(ids: seq<nat>, mayName: Record -> bool) returns (r: Result<Cancelled, Code>)
      requires Valid()
      modifies this
      ensures Valid() && leases == old(leases) && nextId == old(nextId)
      ensures |ids| > MAX_CANCEL ==> r == Err(Invalid) && rows == old(rows)
      ensures |ids| <= MAX_CANCEL && SWEEP_LEASE in leases ==>
                r == Ok(Cancelled(0, Some(ownerOf(leases[SWEEP_LEASE])), [])) && rows == old(rows)
      ensures |ids| <= MAX_CANCEL && SWEEP_LEASE !in leases ==>
                rows == AfterCancel(old(rows), ids, mayName)
                && r.Ok? && r.value.count + |rows| == |old(rows)|
                && r.value.sweepHolder == None && r.value.skipped == Skipped(old(rows), ids, mayName)
      // Dropped are the named pending records the caller may name, and no other; skipped, those it may not.
      ensures |ids| <= MAX_CANCEL && SWEEP_LEASE !in leases ==>
                && (forall row :: row in rows <==>
                      row in old(rows) && !(row.id in ids && row.archive.None? && mayName(row)))
                && (forall id :: id in r.value.skipped <==>
                      id in ids && exists row :: row in old(rows) && row.id == id && !mayName(row))
    {
      if |ids| > MAX_CANCEL {
        return Err(Invalid);
      }
      if SWEEP_LEASE in leases {
        return Ok(Cancelled(0, Some(ownerOf(leases[SWEEP_LEASE])), []));
      }
      var count, skipped := 0, [];
      ghost var was := rows;
      CancelNone(rows, [], mayName);
      for i := 0 to |ids|
        invariant Valid() && leases == old(leases) && nextId == old(nextId)
        invariant rows == AfterCancel(was, ids[..i], mayName)
        invariant count + |rows| == |was|
        invariant skipped == Skipped(was, ids[..i], mayName)
      {
        hide AfterCancel, Ordered, Find;
        StillThere(was, nextId, ids[..i], ids[i], mayName);
        CancelOneMore(was, ids[..i], ids[i], mayName);
        assert ids[..i + 1] == ids[..i] + [ids[i]];
        var dropped, skip := CancelNamed(ids[i], mayName);
        if skip {
          skipped := skipped + [ids[i]];
        }
        if dropped {
          count := count + 1;
        }
      }
      assert ids[..|ids|] == ids;
      CancelLeaves(was, nextId, ids, mayName);
      SkippedExactly(was, nextId, ids, mayName);
      return Ok(Cancelled(count, None, skipped));
    }

    /** Record that a pending record's tree was moved to `archive`; no, for one already moved or gone. */
    method Archived(id: nat, archive: string, pathOk: string -> bool, mayName: Record -> bool)
      returns (r: Result<bool, Code>)
      requires Valid()
      modifies this
      ensures Valid() && nextId == old(nextId) && leases == old(leases)
      ensures Ids(rows) == Ids(old(rows))
      ensures r != Ok(true) ==> rows == old(rows)
      ensures r == Ok(true) <==>
              pathOk(archive)
              && (exists k :: 0 <= k < |old(rows)| && old(rows)[k].id == id && mayName(old(rows)[k])
                              && old(rows)[k].archive.None?
                              && rows == old(rows)[k := old(rows)[k].(archive := Some(archive))])
    {
      if !pathOk(archive) {
        return Err(Forbidden);
      }
      FindExactly(rows, nextId, id);
      var named := Reachable(id, mayName);
      if named != Ok(true) {
        return named;
      }
      var k := 0;
      while k < |rows| && rows[k].id != id
        invariant k <= |rows| && forall j :: 0 <= j < k ==> rows[j].id != id
      {
        k := k + 1;
      }
      ghost var was := rows;
      assert k < |rows| && rows[k] in rows;
      forall j | 0 <= j < |rows| && rows[j].id == id
        ensures j == k
      {
        OneRowAnId(rows, nextId, j, k);
      }
      if rows[k].archive.Some? {
        return Ok(false);
      }
      rows := rows[k := rows[k].(archive := Some(archive))];
      assert Archives(was, k, id, archive, mayName, rows);
      SameIds(was, rows);
      return Ok(true);
    }

    /** Every record, page by page. */
    method ListAll() returns (out: seq<Record>)
      requires Valid()
      ensures out == rows
    {
      out := [];
      var after: Option<nat> := None;
      while true
        invariant out == rows[..Before(rows, after)]
        decreases |rows| - Before(rows, after)
      {
        var (page, next) := PageAfter(rows, after);
        out := out + page;
        if next.None? {
          return;
        }
        NextPage(rows, nextId, Before(rows, after) + PAGE - 1);
        after := next;
      }
    }

    /** `holder` gets the lease if nobody has it or, displacing, if exactly the displaced holder does. */
    method LeaseTake(name: string, holder: string, displace: Option<string>) returns (r: Result<bool, Code>)
      modifies this
      ensures rows == old(rows) && nextId == old(nextId)
      ensures r.Err? <==>
              || !(name == "removal-sweep" || ("land:" <= name && |name| > 5))
              || !holderOk(holder) || (displace.Some? && !holderOk(displace.value))
      ensures r.Err? ==> r.error == Invalid
      ensures r.Ok? ==>
                (r.value <==> if displace.Some? then name in old(leases) && old(leases)[name] == displace.value
                              else name !in old(leases))
      ensures r.Ok? ==> (r.value <==> MayTake(old(leases), name, displace))
      ensures leases == if r == Ok(true) then old(leases)[name := holder] else old(leases)
    {
      if !LeaseNameOk(name) || !holderOk(holder) {
        return Err(Invalid);
      }
      if displace.Some? {
        if !holderOk(displace.value) {
          return Err(Invalid);
        }
        if name in leases && leases[name] == displace.value {
          leases := leases[name := holder];
          return Ok(true);
        }
        return Ok(false);
      }
      if name in leases {
        return Ok(false);
      }
      leases := leases[name := holder];
      return Ok(true);
    }

    method LeaseRelease(name: string, holder: string) returns (r: Result<bool, Code>)
      modifies this
      ensures rows == old(rows) && nextId == old(nextId)
      ensures r.Err? <==> !(name == "removal-sweep" || ("land:" <= name && |name| > 5)) || !holderOk(holder)
      ensures r.Err? ==> r.error == Invalid
      ensures r.Ok? ==> (r.value <==> name in old(leases) && old(leases)[name] == holder)
      ensures leases == if r == Ok(true) then old(leases) - {name} else old(leases)
    {
      if !LeaseNameOk(name) || !holderOk(holder) {
        return Err(Invalid);
      }
      if name in leases && leases[name] == holder {
        leases := leases - {name};
        return Ok(true);
      }
      return Ok(false);
    }
  }

  lemma SameIds(was: seq<Record>, now: seq<Record>)
    requires |was| == |now| && forall i :: 0 <= i < |was| ==> was[i].id == now[i].id
    ensures Ids(was) == Ids(now)
  {
    forall id
      ensures id in Ids(was) <==> id in Ids(now)
    {
      if id in Ids(was) {
        var k :| 0 <= k < |was| && was[k].id == id;
        assert now[k] in now;
      }
      if id in Ids(now) {
        var k :| 0 <= k < |now| && now[k].id == id;
        assert was[k] in was;
      }
    }
  }

  /** The next page starts where this one ended. */
  lemma NextPage(rows: seq<Record>, nextId: nat, k: nat)
    requires Ordered(rows, nextId) && k < |rows|
    ensures Before(rows, Some(rows[k].id)) == k + 1
  {
    BeforeExactly(rows, nextId, Some(rows[k].id), k);
    if k + 1 < |rows| {
      BeforeExactly(rows, nextId, Some(rows[k].id), k + 1);
    }
  }

  lemma {:induction false} SkippedExactly(rows: seq<Record>, nextId: nat, ids: seq<nat>, mayName: Record -> bool)
    requires Ordered(rows, nextId)
    ensures forall id :: id in Skipped(rows, ids, mayName) <==>
              id in ids && exists row :: row in rows && row.id == id && !mayName(row)
  {
    if ids != [] {
      var id, before := ids[|ids| - 1], ids[..|ids| - 1];
      assert ids == before + [id];
      SkippedExactly(rows, nextId, before, mayName);
      FindExactly(rows, nextId, id);
    }
  }

  /** Cutting the one row of `id` out is dropping it. */
  lemma {:induction false} DropAt(rows: seq<Record>, nextId: nat, k: nat, mayName: Record -> bool)
    requires Ordered(rows, nextId) && k < |rows| && Cancels(rows[k], [rows[k].id], mayName)
    ensures AfterCancel(rows, [rows[k].id], mayName) == rows[..k] + rows[k + 1..]
  {
    if k == 0 {
      forall r | r in rows[1..]
        ensures !Cancels(r, [rows[0].id], mayName)
      {
        var j :| 0 <= j < |rows[1..]| && rows[1..][j] == r;
        assert rows[0].id < rows[j + 1].id;
      }
      CancelNone(rows[1..], [rows[0].id], mayName);
    } else {
      DropAt(rows[1..], nextId, k - 1, mayName);
      assert rows[0].id < rows[k].id;
      assert rows[..k] + rows[k + 1..] == [rows[0]] + (rows[1..][..k - 1] + rows[1..][k..]);
    }
  }

  lemma NotNamed(rows: seq<Record>, nextId: nat, id: nat, mayName: Record -> bool)
    requires Ordered(rows, nextId)
    requires Find(rows, id).Some? ==> !mayName(Find(rows, id).value)
    ensures AfterCancel(rows, [id], mayName) == rows
  {
    FindExactly(rows, nextId, id);
    forall r | r in rows
      ensures !Cancels(r, [id], mayName)
    {
      assert r.id in Ids(rows);
    }
    CancelNone(rows, [id], mayName);
  }

  /** A record the caller may not name is still there however much was cancelled. */
  lemma StillThere(rows: seq<Record>, nextId: nat, ids: seq<nat>, id: nat, mayName: Record -> bool)
    requires Ordered(rows, nextId)
    ensures var was, now := Find(rows, id), Find(AfterCancel(rows, ids, mayName), id);
            && (was.Some? && !mayName(was.value) ==> now == was)
            && (now.Some? ==> now == was)
  {
    CancelLeaves(rows, nextId, ids, mayName);
    FindExactly(rows, nextId, id);
    FindExactly(AfterCancel(rows, ids, mayName), nextId, id);
  }

  // ---------------------------------------------------------------------------------------
  // Every run
  // ---------------------------------------------------------------------------------------

  /** What a sweep in flight has read: how far its pages go, and the records it will act on. */
  datatype Reading = Reading(cursor: Option<nat>, listed: set<nat>)

  /** The store, the sweeps in flight by the holder each took the lease as, and the records a cancel counted as dropped.
      */
  datatype State = State(
    rows: seq<Record>, nextId: nat, leases: map<string, string>, sweeps: map<string, Reading>, cancelled: set<nat>)

  datatype Action =
    | Adds(worktree: string, moved: Option<string>)
    | Begins(holder: string, displace: Option<string>)
    | ReadsPage(holder: string)
    | ArchivesTree(holder: string, id: nat, archive: string, mayName: Record -> bool)
    | Forgets(id: nat)
    | Ends(holder: string)
    | Dies(holder: string)
    | CancelsAll(ids: seq<nat>, mayName: Record -> bool)

  function Anyone(r: Record): bool {
    true
  }

  /** The records without record `id`. */
  function Without(rows: seq<Record>, id: nat): seq<Record> {
    if rows == [] then [] else (if rows[0].id == id then [] else [rows[0]]) + Without(rows[1..], id)
  }

  function ReadPage(rows: seq<Record>, x: Reading): Reading {
    var (page, next) := PageAfter(rows, x.cursor);
    Reading(if next.Some? then next else x.cursor, x.listed + Ids(page))
  }

  predicate ArchivedOrNot(was: seq<Record>, id: nat, archive: string, mayName: Record -> bool, now: seq<Record>) {
    now == was || exists k :: 0 <= k < |was| && Archives(was, k, id, archive, mayName, now)
  }

  /** One step. A sweep is in flight from when it takes the lease until it ends, releasing it, or dies; it reads and
      archives only meanwhile; and a lease is taken over only from a sweep that is gone. */
  predicate Step(s: State, a: Action, t: State) {
    match a
    case Adds(worktree, moved) =>
      t == s.(rows := s.rows + [Record(s.nextId, worktree, moved)], nextId := s.nextId + 1)
    case Begins(h, displace) =>
      && (displace.Some? ==> displace.value !in s.sweeps)
      && t == if MayTake(s.leases, SWEEP_LEASE, displace)
              then s.(leases := s.leases[SWEEP_LEASE := h], sweeps := s.sweeps[h := Reading(None, {})]) else s
    case ReadsPage(h) =>
      h in s.sweeps && t == s.(sweeps := s.sweeps[h := ReadPage(s.rows, s.sweeps[h])])
    case ArchivesTree(h, id, archive, mayName) =>
      && h in s.sweeps && id in s.sweeps[h].listed
      && ArchivedOrNot(s.rows, id, archive, mayName, t.rows) && t == s.(rows := t.rows)
    case Forgets(id) =>
      t == s.(rows := Without(s.rows, id))
    case Ends(h) =>
      && h in s.sweeps
      && t == s.(sweeps := s.sweeps - {h},
                 leases := if SWEEP_LEASE in s.leases && s.leases[SWEEP_LEASE] == h then s.leases - {SWEEP_LEASE}
                           else s.leases)
    case Dies(h) =>
      h in s.sweeps && t == s.(sweeps := s.sweeps - {h})
    case CancelsAll(ids, mayName) =>
      if |ids| > MAX_CANCEL || SWEEP_LEASE in s.leases then t == s
      else
        var rows := AfterCancel(s.rows, ids, mayName);
        t == s.(rows := rows, cancelled := s.cancelled + (Ids(s.rows) - Ids(rows)))
  }

  predicate Init(s: State) {
    s.rows == [] && s.sweeps == map[] && s.cancelled == {} && SWEEP_LEASE !in s.leases
  }

  predicate LeaseHeld(s: State) {
    forall h :: h in s.sweeps ==> SWEEP_LEASE in s.leases && s.leases[SWEEP_LEASE] == h
  }

  predicate CancelledGone(s: State) {
    && Ordered(s.rows, s.nextId)
    && s.cancelled !! Ids(s.rows)
    && (forall id :: id in s.cancelled ==> id < s.nextId)
  }

  /** What a sweep in flight has read: nothing cancelled, and every record still there as far as its pages go. */
  predicate ReadingOk(s: State, x: Reading) {
    && x.listed !! s.cancelled
    && (x.cursor.Some? ==> x.cursor.value < s.nextId)
    && (forall id :: id in Ids(s.rows) && x.cursor.Some? && id <= x.cursor.value ==> id in x.listed)
  }

  predicate Inv(s: State) {
    && LeaseHeld(s) && CancelledGone(s)
    && forall h :: h in s.sweeps ==> ReadingOk(s, s.sweeps[h])
  }

  lemma {:induction false} WithoutMembers(rows: seq<Record>, id: nat)
    ensures forall r :: r in Without(rows, id) <==> r in rows && r.id != id
  {
    if rows != [] {
      WithoutMembers(rows[1..], id);
      assert rows == [rows[0]] + rows[1..];
    }
  }

  lemma {:induction false} WithoutLeaves(rows: seq<Record>, nextId: nat, id: nat)
    requires Ordered(rows, nextId)
    ensures Ordered(Without(rows, id), nextId)
    ensures forall r :: r in Without(rows, id) <==> r in rows && r.id != id
  {
    WithoutMembers(rows, id);
    if rows != [] {
      var rest := Without(rows[1..], id);
      WithoutLeaves(rows[1..], nextId, id);
      assert [] + rest == rest;
      forall r | r in rest
        ensures rows[0].id < r.id
      {
        FirstIsLeast(rows, nextId, r);
      }
      ConsOrdered(rows[0], rest, nextId);
    }
  }

  /** A page goes on from the cursor, lists only records that are there and leaves none out; the last one reaches the
      end. */
  lemma PageKeepsReading(s: State, x: Reading)
    requires CancelledGone(s) && ReadingOk(s, x)
    ensures ReadingOk(s, ReadPage(s.rows, x))
    ensures PageAfter(s.rows, x.cursor).1.None? ==> Ids(s.rows) <= ReadPage(s.rows, x).listed
  {
    hide PageAfter, Ordered;
    PageExactly(s.rows, s.nextId, x.cursor);
    var (page, next) := PageAfter(s.rows, x.cursor);
    assert Ids(page) <= Ids(s.rows);
    if next.Some? {
      assert page[63] in page;
      IdInside(s.rows, s.nextId, page[63]);
    }
    forall id | id in Ids(s.rows) && (next.None? || id <= next.value)
      ensures id in ReadPage(s.rows, x).listed
    {
      var r :| r in s.rows && r.id == id;
      assert (x.cursor.Some? && id <= x.cursor.value) || r in page;
    }
  }

  lemma IdInside(rows: seq<Record>, nextId: nat, r: Record)
    requires Ordered(rows, nextId) && r in rows
    ensures r.id < nextId
  {
  }

  lemma StepKeepsLease(s: State, a: Action, t: State)
    requires Inv(s) && Step(s, a, t)
    ensures LeaseHeld(t)
  {
  }

  lemma SameReading(s: State, t: State)
    requires Inv(s) && Ids(t.rows) <= Ids(s.rows) && t.nextId == s.nextId && t.cancelled == s.cancelled
    requires forall h :: h in t.sweeps ==> h in s.sweeps && t.sweeps[h] == s.sweeps[h]
    ensures forall h :: h in t.sweeps ==> ReadingOk(t, t.sweeps[h])
  {
  }

  /** Every step keeps the invariant. */
  lemma StepKeepsInv(s: State, a: Action, t: State)
    requires Inv(s) && Step(s, a, t)
    ensures Inv(t)
  {
    StepKeepsLease(s, a, t);
    match a
    case Adds(_, _) =>
      AddKeeps(s, a, t);
    case Begins(h, displace) =>
    case ReadsPage(h) =>
      PageKeepsReading(s, s.sweeps[h]);
    case ArchivesTree(h, id, archive, mayName) =>
      SameIds(s.rows, t.rows);
      SameReading(s, t);
    case Forgets(id) =>
      WithoutLeaves(s.rows, s.nextId, id);
      SameReading(s, t);
    case Ends(h) =>
      SameReading(s, t);
    case Dies(h) =>
      SameReading(s, t);
    case CancelsAll(ids, mayName) =>
      CancelLeaves(s.rows, s.nextId, ids, mayName);
  }

  lemma AddKeeps(s: State, a: Action, t: State)
    requires Inv(s) && a.Adds? && Step(s, a, t)
    ensures CancelledGone(t) && forall h :: h in t.sweeps ==> ReadingOk(t, t.sweeps[h])
  {
    assert Ids(t.rows) == Ids(s.rows) + {s.nextId} by {
      assert t.rows[|s.rows|] in t.rows;
      assert forall r :: r in s.rows ==> r in t.rows;
    }
  }

  predicate StepAt(states: seq<State>, actions: seq<Action>, i: nat)
    requires |states| == |actions| + 1 && i < |actions|
  {
    Step(states[i], actions[i], states[i + 1])
  }

  predicate IsRun(states: seq<State>, actions: seq<Action>) {
    && |states| == |actions| + 1
    && Init(states[0])
    && forall i :: 0 <= i < |actions| ==> StepAt(states, actions, i)
  }

  lemma {:induction false} RunKeepsInv(states: seq<State>, actions: seq<Action>, n: nat)
    requires IsRun(states, actions) && n <= |actions|
    ensures Inv(states[n])
  {
    if n > 0 {
      RunKeepsInv(states, actions, n - 1);
      assert StepAt(states, actions, n - 1);
      StepKeepsInv(states[n - 1], actions[n - 1], states[n]);
    }
  }

  /** At most one sweep is ever in flight, and it holds the lease. */
  lemma OneSweepAtATime(states: seq<State>, actions: seq<Action>, n: nat, g: string, h: string)
    requires IsRun(states, actions) && n <= |actions| && g in states[n].sweeps && h in states[n].sweeps
    ensures g == h && SWEEP_LEASE in states[n].leases && states[n].leases[SWEEP_LEASE] == h
  {
    RunKeepsInv(states, actions, n);
  }

  lemma {:induction false} CancelledStays(states: seq<State>, actions: seq<Action>, i: nat, j: nat)
    requires IsRun(states, actions) && i <= j <= |actions|
    ensures states[i].cancelled <= states[j].cancelled
    decreases j - i
  {
    if i < j {
      assert StepAt(states, actions, i);
      CancelledStays(states, actions, i + 1, j);
    }
  }

  /** A record that a cancel dropped is never again in the store, in the list of a sweep in flight, or archived by one.
      */
  lemma CancelledNeverSwept(states: seq<State>, actions: seq<Action>, i: nat, j: nat, id: nat)
    requires IsRun(states, actions) && i < j <= |actions|
    requires actions[i].CancelsAll? && id in Ids(states[i].rows) && id !in Ids(states[i + 1].rows)
    ensures id !in Ids(states[j].rows)
    ensures forall h :: h in states[j].sweeps ==> id !in states[j].sweeps[h].listed
    ensures j < |actions| && actions[j].ArchivesTree? ==> actions[j].id != id
  {
    assert StepAt(states, actions, i);
    CancelledStays(states, actions, i + 1, j);
    RunKeepsInv(states, actions, j);
    if j < |actions| {
      assert StepAt(states, actions, j);
    }
  }

  /** A sweep's last page leaves it with every record then in the store. */
  lemma LastPageListsAll(states: seq<State>, actions: seq<Action>, n: nat)
    requires IsRun(states, actions) && n < |actions| && actions[n].ReadsPage?
    requires var h := actions[n].holder;
             h in states[n].sweeps && PageAfter(states[n].rows, states[n].sweeps[h].cursor).1.None?
    ensures actions[n].holder in states[n + 1].sweeps
    ensures Ids(states[n + 1].rows) <= states[n + 1].sweeps[actions[n].holder].listed
  {
    RunKeepsInv(states, actions, n);
    assert StepAt(states, actions, n);
    PageKeepsReading(states[n], states[n].sweeps[actions[n].holder]);
  }

  const LISTED := Record(1, "w", None)

  /** A record is added, and a sweep takes the lease and reads it. */
  lemma SweepReads() returns (states: seq<State>, actions: seq<Action>)
    ensures IsRun(states, actions) && |actions| == 3 && |states| == 4
    ensures states[3] == State([LISTED], 2, map[SWEEP_LEASE := "h n"], map["h n" := Reading(None, {1})], {})
  {
    var s0 := State([], 1, map[], map[], {});
    var s1 := s0.(rows := [LISTED], nextId := 2);
    var s2 := s1.(leases := map[SWEEP_LEASE := "h n"], sweeps := map["h n" := Reading(None, {})]);
    var s3 := s2.(sweeps := map["h n" := Reading(None, {1})]);
    assert Ids([LISTED]) == {1};
    assert ReadPage([LISTED], Reading(None, {})) == Reading(None, {1});
    states, actions := [s0, s1, s2, s3], [Adds("w", None), Begins("h n", None), ReadsPage("h n")];
    assert StepAt(states, actions, 0) && StepAt(states, actions, 1) && StepAt(states, actions, 2);
  }

  /** With the lease broken under a live sweep the promise fails: after a run from an empty store, a record is dropped
      that the sweep will still archive. */
  lemma BreakingTheLeaseLosesACancel() returns (states: seq<State>, actions: seq<Action>, broken: State, a: Action,
                                                t: State)
    ensures IsRun(states, actions) && |actions| == 3
    ensures broken == states[3].(leases := states[3].leases - {SWEEP_LEASE}) && broken.sweeps != map[]
    ensures Step(broken, a, t) && a.CancelsAll?
    ensures exists h, id :: h in t.sweeps && id in t.sweeps[h].listed && id in t.cancelled
  {
    hide IsRun;
    states, actions := SweepReads();
    broken := State([LISTED], 2, map[], map["h n" := Reading(None, {1})], {});
    assert states[3].leases - {SWEEP_LEASE} == map[];
    a := CancelsAll([1], Anyone);
    assert Cancels(LISTED, [1], Anyone);
    assert AfterCancel([LISTED], [1], Anyone) == [];
    assert Ids([LISTED]) == {1} && Ids([]) == {};
    t := broken.(rows := [], cancelled := {1});
    assert "h n" in t.sweeps && 1 in t.sweeps["h n"].listed && 1 in t.cancelled;
  }
}
