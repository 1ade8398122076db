/** The durable outbox: one table of events, updated in place. */
module EventOutbox {
  import opened Prelude
  import Sorting

  datatype Status = Pending | Retry | Delivered | DeadLetter

  datatype Row = Row(
    id: nat,
    eventId: string,
    key: string,
    status: Status,
    attempts: nat,
    lastError: Option<string>,
    createdAt: int,
    updatedAt: int)

  datatype Event = Event(
    eventId: Option<string>,
    key: string,
    status: Status,
    attempts: nat,
    lastError: Option<string>,
    createdAt: Option<int>,
    updatedAt: Option<int>)

  predicate Active(r: Row) { r.status.Pending? || r.status.Retry? }

  /** `value or now`: absent and zero both mean now. */
  function OrNow(t: Option<int>, now: int): int {
    if t.Some? && t.value != 0 then t.value else now
  }

  predicate Collides(rows: seq<Row>, eventId: string, key: string) {
    exists r :: r in rows && (r.eventId == eventId || r.key == key)
  }

  function NewRow(id: nat, eventId: string, e: Event, now: int): Row {
    Row(id, eventId, e.key, e.status, e.attempts, e.lastError,
        OrNow(e.createdAt, now), OrNow(e.updatedAt, now))
  }

  /** `INSERT OR IGNORE`. */
  function Inserted(rows: seq<Row>, id: nat, eventId: string, e: Event, now: int): seq<Row> {
    if Collides(rows, eventId, e.key) then rows else rows + [NewRow(id, eventId, e, now)]
  }

  function WithKey(rows: seq<Row>, key: string): Option<Row> {
    if rows == [] then None
    else if rows[0].key == key then Some(rows[0])
    else WithKey(rows[1..], key)
  }

  /** Oldest first: `ORDER BY created_at ASC, id ASC`. */
  predicate NotNewer(a: Row, b: Row) {
    a.createdAt < b.createdAt || (a.createdAt == b.createdAt && a.id <= b.id)
  }

  function ActiveRows(rows: seq<Row>): seq<Row> {
    if rows == [] then []
    else (if Active(rows[0]) then [rows[0]] else []) + ActiveRows(rows[1..])
  }

  /** SQL's LIMIT; a negative one means no limit. */
  function Limited(rows: seq<Row>, limit: int): seq<Row> {
    if limit < 0 || limit >= |rows| then rows else rows[..limit]
  }

  function Batch(rows: seq<Row>, limit: int): seq<Row> {
    Limited(Sorting.Sort(ActiveRows(rows), NotNewer), limit)
  }

  function AsDelivered(r: Row, now: int): Row {
    r.(status := Delivered, updatedAt := now, lastError := None)
  }

  function AsFailed(r: Row, error: string, retry: bool, now: int): Row {
    r.(status := if retry then Retry else DeadLetter, attempts := r.attempts + 1, updatedAt := now,
       lastError := Some(if |error| <= 1000 then error else error[..1000]))
  }

  function MarkedDelivered(rows: seq<Row>, eventId: string, now: int): seq<Row> {
    seq(|rows|, i requires 0 <= i < |rows| =>
      if rows[i].eventId == eventId then AsDelivered(rows[i], now) else rows[i])
  }

  function MarkedFailed(rows: seq<Row>, eventId: string, error: string, retry: bool, now: int): seq<Row> {
    seq(|rows|, i requires 0 <= i < |rows| =>
      if rows[i].eventId == eventId then AsFailed(rows[i], error, retry, now) else rows[i])
  }

  function WithStatus(rows: seq<Row>, status: Status): seq<Row> {
    if rows == [] then []
    else (if rows[0].status == status then [rows[0]] else []) + WithStatus(rows[1..], status)
  }

  /** Newest first: `ORDER BY updated_at DESC, id DESC`. */
  predicate NotOlder(a: Row, b: Row) {
    a.updatedAt > b.updatedAt || (a.updatedAt == b.updatedAt && a.id >= b.id)
  }

  /** The rows of one status that a prune keeps. */
  function Newest(rows: seq<Row>, status: Status, keep: nat): seq<Row> {
    Limited(Sorting.Sort(WithStatus(rows, status), NotOlder), keep)
  }

  function Dropping(rows: seq<Row>, status: Status, kept: seq<Row>): seq<Row> {
    if rows == [] then []
    else (if rows[0].status != status || rows[0] in kept then [rows[0]] else [])
         + Dropping(rows[1..], status, kept)
  }

  function Trimmed(rows: seq<Row>, status: Status, keep: int): seq<Row> {
    if keep < 0 then rows else Dropping(rows, status, Newest(rows, status, keep))
  }

  function Pruned(rows: seq<Row>, keepDelivered: int, keepDeadLetter: int): seq<Row> {
    Trimmed(Trimmed(rows, Delivered, keepDelivered), DeadLetter, keepDeadLetter)
  }

  /** The number of rows with a status. */
  function Count(rows: seq<Row>, status: Status): nat { |WithStatus(rows, status)| }

  class Outbox {
    var rows: seq<Row>
    var nextId: nat

    constructor ()
      ensures rows == [] && nextId == 1
    {
      rows, nextId := [], 1;
    }

    /** Stores the event unless its identifier or its key is taken, and answers with the
        identifier of the row that holds the key. */
    method Enqueue(e: Event, uuid: string, now: int) returns (eventId: string)
      modifies this
      ensures var wanted := if e.eventId.Some? && e.eventId.value != "" then e.eventId.value else uuid;
              && rows == Inserted(old(rows), old(nextId), wanted, e, now)
              && nextId == old(nextId) + (if Collides(old(rows), wanted, e.key) then 0 else 1)
              && eventId == (if WithKey(rows, e.key).Some? then WithKey(rows, e.key).value.eventId else wanted)
    {
      var wanted := if e.eventId.Some? && e.eventId.value != "" then e.eventId.value else uuid;
      var taken := false;
      for i := 0 to |rows|
        invariant taken <==> Collides(rows[..i], wanted, e.key)
      {
        assert rows[..i + 1] == rows[..i] + [rows[i]];
        if rows[i].eventId == wanted || rows[i].key == e.key {
          taken := true;
          assert rows[i] in rows[..i + 1];
        }
      }
      assert rows[..|rows|] == rows;
      if !taken {
        rows := rows + [NewRow(nextId, wanted, e, now)];
        nextId := nextId + 1;
      }
      var found := WithKey(rows, e.key);
      eventId := if found.Some? then found.value.eventId else wanted;
    }

    method PendingBatch(limit: int) returns (batch: seq<Row>)
      ensures batch == Batch(rows, limit)
    {
      batch := Batch(rows, limit);
    }

    method MarkDelivered(eventId: string, now: int)
      modifies this`rows
      ensures rows == MarkedDelivered(old(rows), eventId, now)
    {
      for i := 0 to |rows|
        invariant |rows| == |old(rows)|
        invariant forall j :: 0 <= j < |rows| ==>
                    rows[j] == if j < i && old(rows)[j].eventId == eventId then AsDelivered(old(rows)[j], now)
                               else old(rows)[j]
      {
        var r := rows[i];
        if r.eventId == eventId {
          rows := rows[i := AsDelivered(r, now)];
        }
      }
    }

    method MarkFailed(eventId: string, error: string, retry: bool, now: int)
      modifies this`rows
      ensures rows == MarkedFailed(old(rows), eventId, error, retry, now)
    {
      for i := 0 to |rows|
        invariant |rows| == |old(rows)|
        invariant forall j :: 0 <= j < |rows| ==>
                    rows[j] == if j < i && old(rows)[j].eventId == eventId
                               then AsFailed(old(rows)[j], error, retry, now) else old(rows)[j]
      {
        var r := rows[i];
        if r.eventId == eventId {
          rows := rows[i := AsFailed(r, error, retry, now)];
        }
      }
    }

    method PruneTerminal(keepDelivered: int, keepDeadLetter: int) returns (delivered: nat, dead: nat)
      modifies this`rows
      ensures rows == Pruned(old(rows), keepDelivered, keepDeadLetter)
      ensures delivered == Count(old(rows), Delivered) - Count(rows, Delivered)
      ensures dead == Count(old(rows), DeadLetter) - Count(rows, DeadLetter)
    {
      delivered, dead := 0, 0;
      ghost var before := rows;
      DropCounts(rows, Delivered, keepDelivered);
      if keepDelivered >= 0 {
        var kept := Dropping(rows, Delivered, Newest(rows, Delivered, keepDelivered));
        delivered := |rows| - |kept|;
        rows := kept;
      }
      assert rows == Trimmed(before, Delivered, keepDelivered);
      DropCounts(rows, DeadLetter, keepDeadLetter);
      if keepDeadLetter >= 0 {
        var kept := Dropping(rows, DeadLetter, Newest(rows, DeadLetter, keepDeadLetter));
        dead := |rows| - |kept|;
        rows := kept;
      }
    }
  }

  // ---------------------------------------------------------------- enqueue

  lemma {:induction false} WithKeyFinds(rows: seq<Row>, key: string)
    ensures var r := WithKey(rows, key);
            && (r.Some? ==> r.value in rows && r.value.key == key)
            && (r.None? <==> forall x :: x in rows ==> x.key != key)
  {
    if rows != [] && rows[0].key != key {
      WithKeyFinds(rows[1..], key);
      assert forall x :: x in rows ==> x == rows[0] || x in rows[1..];
    }
  }

  /** After an enqueue the event is in the table under its key, unless its identifier
      belongs to a row with another key: then nothing is stored, although an identifier is
      returned. */
  lemma EnqueueStoresUnless(rows: seq<Row>, id: nat, eventId: string, e: Event, now: int)
    ensures WithKey(Inserted(rows, id, eventId, e, now), e.key).None? <==>
              (exists r :: r in rows && r.eventId == eventId) && (forall r :: r in rows ==> r.key != e.key)
  {
    var after := Inserted(rows, id, eventId, e, now);
    WithKeyFinds(after, e.key);
    if !Collides(rows, eventId, e.key) {
      assert after[|rows|] == NewRow(id, eventId, e, now) && after[|rows|] in after;
      assert forall r :: r in rows ==> r.eventId != eventId;
    }
  }

  /** An event whose identifier belongs to a row with another key: nothing is stored. */
  lemma TakenIdentifierIsDropped(now: int)
    ensures var rows := [Row(1, "id", "one", Pending, 0, None, 1, 1)];
            var e := Event(Some("id"), "two", Pending, 0, None, None, None);
            Inserted(rows, 2, "id", e, now) == rows && WithKey(rows, e.key) == None
  {
    var rows := [Row(1, "id", "one", Pending, 0, None, 1, 1)];
    assert rows[0] in rows && rows[1..] == [];
    assert "one" != "two" by { assert "one"[0] != "two"[0]; }
  }

  // ---------------------------------------------------------------- pruning

  lemma {:induction false} DroppingCounts(rows: seq<Row>, status: Status, kept: seq<Row>)
    ensures var d := Dropping(rows, status, kept);
            && |d| <= |rows|
            && |rows| - |d| == Count(rows, status) - Count(d, status)
    decreases |rows|
  {
    if rows != [] {
      DroppingCounts(rows[1..], status, kept);
      var rest := Dropping(rows[1..], status, kept);
      if rows[0].status != status || rows[0] in kept {
        var d := Dropping(rows, status, kept);
        assert d == [rows[0]] + rest && d[1..] == rest;
      } else {
        assert Dropping(rows, status, kept) == rest;
      }
    }
  }

  lemma {:induction false} DroppingSpares(rows: seq<Row>, status: Status, kept: seq<Row>, other: Status)
    requires other != status
    ensures WithStatus(Dropping(rows, status, kept), other) == WithStatus(rows, other)
    decreases |rows|
  {
    if rows != [] {
      DroppingSpares(rows[1..], status, kept, other);
      var rest := Dropping(rows[1..], status, kept);
      if rows[0].status != status || rows[0] in kept {
        var d := Dropping(rows, status, kept);
        assert d == [rows[0]] + rest && d[1..] == rest;
      } else {
        assert Dropping(rows, status, kept) == rest;
      }
    }
  }

  lemma DropCounts(rows: seq<Row>, status: Status, keep: int)
    ensures var t := Trimmed(rows, status, keep);
            && |t| <= |rows|
            && |rows| - |t| == Count(rows, status) - Count(t, status)
            && forall other :: other != status ==> Count(t, other) == Count(rows, other)
  {
    if keep >= 0 {
      var kept := Newest(rows, status, keep);
      DroppingCounts(rows, status, kept);
      forall other | other != status ensures Count(Dropping(rows, status, kept), other) == Count(rows, other) {
        DroppingSpares(rows, status, kept, other);
      }
    }
  }

  lemma {:induction false} DroppingMembers(rows: seq<Row>, status: Status, kept: seq<Row>, r: Row)
    ensures r in Dropping(rows, status, kept) <==> r in rows && (r.status != status || r in kept)
  {
    if rows != [] { DroppingMembers(rows[1..], status, kept, r); }
  }

  lemma {:induction false} WithStatusMembers(rows: seq<Row>, status: Status, r: Row)
    ensures r in WithStatus(rows, status) <==> r in rows && r.status == status
  {
    if rows != [] { WithStatusMembers(rows[1..], status, r); }
  }

  lemma TakenIsMember(s: seq<Row>, n: nat, j: nat)
    requires j < n <= |s|
    ensures s[j] in s[..n]
  {
    assert s[..n][j] == s[j];
  }

  lemma NewestIsNewest(rows: seq<Row>, status: Status, keep: nat, a: Row, b: Row)
    requires a in Newest(rows, status, keep) && b in WithStatus(rows, status)
    requires b !in Newest(rows, status, keep)
    ensures NotOlder(a, b)
    ensures |Newest(rows, status, keep)| == keep
  {
    var all := WithStatus(rows, status);
    var sorted := Sorting.Sort(all, NotOlder);
    Sorting.SortKeeps(all, NotOlder);
    Sorting.SortDescends(all, NotOlder);
    assert Newest(rows, status, keep) == sorted[..keep];
    var i :| 0 <= i < keep && sorted[i] == a;
    var j :| 0 <= j < |sorted| && sorted[j] == b;
    if j < keep { TakenIsMember(sorted, keep, j); }
  }

  /** A prune touches no active row, and of each terminal status it keeps the newest. */
  lemma PruneKeepsNewest(rows: seq<Row>, status: Status, keep: int, r: Row)
    ensures r in rows && r.status != status ==> r in Trimmed(rows, status, keep)
    ensures r in Trimmed(rows, status, keep) ==> r in rows
    ensures r in rows && r !in Trimmed(rows, status, keep) ==>
              keep >= 0
              && |Newest(rows, status, keep)| == keep
              && forall k :: k in Trimmed(rows, status, keep) && k.status == status ==> NotOlder(k, r)
  {
    if keep >= 0 {
      var kept := Newest(rows, status, keep);
      DroppingMembers(rows, status, kept, r);
      WithStatusMembers(rows, status, r);
      if r in rows && r !in Trimmed(rows, status, keep) {
        NewestSize(rows, status, keep, r);
        forall k | k in Trimmed(rows, status, keep) && k.status == status ensures NotOlder(k, r) {
          DroppingMembers(rows, status, kept, k);
          NewestIsNewest(rows, status, keep, k, r);
        }
      }
    }
  }

  lemma NewestSize(rows: seq<Row>, status: Status, keep: nat, r: Row)
    requires r in WithStatus(rows, status) && r !in Newest(rows, status, keep)
    ensures |Newest(rows, status, keep)| == keep
  {
    Sorting.SortKeeps(WithStatus(rows, status), NotOlder);
  }
}
