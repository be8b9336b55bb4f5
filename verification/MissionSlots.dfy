/** The latest-wins log of active mission slots (core/active_mission.py). */
module MissionSlots {
  import opened Wrappers
  import Text

  datatype Slot = Slot(name: string, value: string)

  datatype SlotRow = SlotRow(session: string, name: string, value: string, turn: Option<string>, source: string, createdAt: string,
                             supersededAt: Option<string>, supersededBy: Option<string>)

  const SOURCE_LIMIT := 500

  type Key = (string, string)

  function KeyOf(r: SlotRow): Key {
    (r.session, r.name)
  }

  predicate Live(r: SlotRow, k: Key) {
    KeyOf(r) == k && r.supersededAt == None
  }

  /** There are live rows for the key, and they all hold this value. */
  predicate Unchanged(rows: seq<SlotRow>, k: Key, value: string) {
    && (exists i :: 0 <= i < |rows| && Live(rows[i], k))
    && (forall i :: 0 <= i < |rows| && Live(rows[i], k) ==> rows[i].value == value)
  }

  /** UPDATE ... SET superseded_at, superseded_by_turn_id WHERE the key's rows are live. */
  function Supersede(rows: seq<SlotRow>, k: Key, now: string, turn: Option<string>): seq<SlotRow> {
    seq(|rows|, i requires 0 <= i < |rows| =>
      if Live(rows[i], k) then rows[i].(supersededAt := Some(now), supersededBy := turn) else rows[i])
  }

  /** One call of `upsert_active_mission_slots`, with the time it reads. */
  datatype Upsert = Upsert(session: string, slots: seq<Slot>, now: string, turn: Option<string>, source: string)

  function NewRow(u: Upsert, slot: Slot): SlotRow {
    SlotRow(Text.Strip(u.session), slot.name, slot.value, u.turn, Text.Take(u.source, SOURCE_LIMIT), u.now, None, None)
  }

  /** One slot of an upsert. */
  function WriteOne(rows: seq<SlotRow>, u: Upsert, slot: Slot): seq<SlotRow> {
    var k := (Text.Strip(u.session), slot.name);
    if Unchanged(rows, k, slot.value) then rows
    else Supersede(rows, k, u.now, u.turn) + [NewRow(u, slot)]
  }

  /** The first `n` slots of an upsert. */
  function WriteAll(rows: seq<SlotRow>, u: Upsert, n: nat): seq<SlotRow>
    requires n <= |u.slots|
  {
    if n == 0 then rows else WriteOne(WriteAll(rows, u, n - 1), u, u.slots[n - 1])
  }

  function AfterUpsert(rows: seq<SlotRow>, u: Upsert): seq<SlotRow> {
    if Text.IsBlank(u.session) then rows else WriteAll(rows, u, |u.slots|)
  }

  /** How many of the first `n` slots say something else than what is current when their turn comes. */
  function Changes(rows: seq<SlotRow>, u: Upsert, n: nat): nat
    requires n <= |u.slots|
  {
    if n == 0 then 0
    else Changes(rows, u, n - 1)
         + (if Unchanged(WriteAll(rows, u, n - 1), (Text.Strip(u.session), u.slots[n - 1].name), u.slots[n - 1].value) then 0 else 1)
  }

  /** What an upsert returns: the number of slots it found changed. */
  function Returned(rows: seq<SlotRow>, u: Upsert): nat {
    if Text.IsBlank(u.session) then 0 else Changes(rows, u, |u.slots|)
  }

  // ----- reading -----

  /** Whether a row is an obsolete forbidden-term rule, by its name, value and source text. */
  type ObsoleteLaw = (string, string, string) -> bool

  predicate IsCurrent(obsolete: ObsoleteLaw, session: string, r: SlotRow) {
    r.session == session && r.supersededAt == None && !obsolete(r.name, r.value, r.source)
  }

  /** The rows a session shows, in table order. */
  function Visible(obsolete: ObsoleteLaw, session: string, rows: seq<SlotRow>): seq<SlotRow> {
    if rows == [] then []
    else
      var init, last := rows[..|rows| - 1], rows[|rows| - 1];
      Visible(obsolete, session, init) + (if IsCurrent(obsolete, session, last) then [last] else [])
  }

  ghost predicate NewestFirst(rows: seq<SlotRow>) {
    forall i, j :: 0 <= i < j < |rows| ==> !Text.Before(rows[i].createdAt, rows[j].createdAt)
  }

  /** ORDER BY created_at DESC: `r` goes before the first row that is older. */
  function InsertNewest(r: SlotRow, rows: seq<SlotRow>): seq<SlotRow> {
    if rows == [] || Text.Before(rows[0].createdAt, r.createdAt) then [r] + rows else [rows[0]] + InsertNewest(r, rows[1..])
  }

  lemma {:induction false} InsertNewestMembers(r: SlotRow, rows: seq<SlotRow>)
    ensures multiset(InsertNewest(r, rows)) == multiset(rows) + multiset{r}
  {
    if rows != [] && !Text.Before(rows[0].createdAt, r.createdAt) {
      InsertNewestMembers(r, rows[1..]);
      assert rows == [rows[0]] + rows[1..];
    }
  }

  lemma {:induction false} InsertNewestKeepsOrder(r: SlotRow, rows: seq<SlotRow>)
    requires NewestFirst(rows)
    ensures NewestFirst(InsertNewest(r, rows))
  {
    if rows == [] {
    } else if Text.Before(rows[0].createdAt, r.createdAt) {
      forall x | x in rows ensures !Text.Before(r.createdAt, x.createdAt) {
        var i :| 0 <= i < |rows| && rows[i] == x;
        Text.BeforeTotal(rows[0].createdAt, r.createdAt);
        if i > 0 {
          Text.BeforeOrders(rows[0].createdAt, r.createdAt, x.createdAt);
        }
      }
      NewestPrepend(r, rows);
    } else {
      var rest := rows[1..];
      InsertNewestKeepsOrder(r, rest);
      InsertNewestMembers(r, rest);
      forall x | x in InsertNewest(r, rest) ensures !Text.Before(rows[0].createdAt, x.createdAt) {
        assert x in multiset(rest) + multiset{r};
        if x in rest {
          var i :| 0 <= i < |rest| && rest[i] == x;
          assert rows[i + 1] == x;
        }
      }
      NewestPrepend(rows[0], InsertNewest(r, rest));
    }
  }

  lemma NewestPrepend(r: SlotRow, tail: seq<SlotRow>)
    requires NewestFirst(tail) && forall x :: x in tail ==> !Text.Before(r.createdAt, x.createdAt)
    ensures NewestFirst([r] + tail)
  {
    var all := [r] + tail;
    forall i, j | 0 <= i < j < |all| ensures !Text.Before(all[i].createdAt, all[j].createdAt) {
      assert all[j] == tail[j - 1] && all[j] in tail;
      if i > 0 {
        assert all[i] == tail[i - 1];
      }
    }
  }

  class MissionLog {
    var rows: seq<SlotRow>

    constructor ()
      ensures rows == []
    {
      rows := [];
    }

    /** `upsert_active_mission_slots`. */
    method UpsertSlots(u: Upsert) returns (written: nat)
      modifies this
      ensures rows == AfterUpsert(old(rows), u)
      ensures written == Returned(old(rows), u)
    {
      written := 0;
      var sid := Text.Strip(u.session);
      if sid == "" || u.slots == [] {
        return;
      }
      for n := 0 to |u.slots|
        invariant rows == WriteAll(old(rows), u, n)
        invariant written == Changes(old(rows), u, n)
      {
        var slot := u.slots[n];
        if Unchanged(rows, (sid, slot.name), slot.value) {
          continue;
        }
        rows := Supersede(rows, (sid, slot.name), u.now, u.turn);
        rows := rows + [SlotRow(sid, slot.name, slot.value, u.turn, Text.Take(u.source, SOURCE_LIMIT), u.now, None, None)];
        written := written + 1;
      }
    }

    /** `current_active_mission_slots`: every live row of the session that is no obsolete rule, once, newest first. */
    method CurrentSlots(session: string, obsolete: ObsoleteLaw) returns (current: seq<SlotRow>)
      ensures Text.IsBlank(session) ==> current == []
      ensures !Text.IsBlank(session) ==> multiset(current) == multiset(Visible(obsolete, Text.Strip(session), rows))
      ensures NewestFirst(current)
    {
      current := [];
      var sid := Text.Strip(session);
      if sid == "" {
        return;
      }
      for i := 0 to |rows|
        invariant multiset(current) == multiset(Visible(obsolete, sid, rows[..i]))
        invariant NewestFirst(current)
      {
        assert rows[..i + 1][..i] == rows[..i];
        if rows[i].session == sid && rows[i].supersededAt == None && !obsolete(rows[i].name, rows[i].value, rows[i].source) {
          InsertNewestMembers(rows[i], current);
          InsertNewestKeepsOrder(rows[i], current);
          current := InsertNewest(rows[i], current);
        }
      }
      assert rows[..|rows|] == rows;
    }
  }

  // ----- one write -----

  ghost predicate OneLiveEach(rows: seq<SlotRow>) {
    forall i, j :: 0 <= i < j < |rows| && rows[i].supersededAt == None && rows[j].supersededAt == None ==> KeyOf(rows[i]) != KeyOf(rows[j])
  }

  /** The live rows are exactly the entries of `values`. */
  ghost predicate Shows(rows: seq<SlotRow>, values: map<Key, string>) {
    && (forall i :: 0 <= i < |rows| && rows[i].supersededAt == None ==> KeyOf(rows[i]) in values && values[KeyOf(rows[i])] == rows[i].value)
    && (forall k :: k in values ==> exists i :: 0 <= i < |rows| && Live(rows[i], k))
  }

  ghost predicate Holds(rows: seq<SlotRow>, values: map<Key, string>) {
    OneLiveEach(rows) && Shows(rows, values)
  }

  lemma ChangedWriteShows(rows: seq<SlotRow>, values: map<Key, string>, u: Upsert, slot: Slot)
    requires Holds(rows, values) && !Unchanged(rows, (Text.Strip(u.session), slot.name), slot.value)
    ensures Holds(WriteOne(rows, u, slot), values[(Text.Strip(u.session), slot.name) := slot.value])
  {
    var k := (Text.Strip(u.session), slot.name);
    var after, more := WriteOne(rows, u, slot), values[k := slot.value];
    forall i | 0 <= i < |after| && after[i].supersededAt == None
      ensures i < |rows| ==> after[i] == rows[i] && KeyOf(rows[i]) != k
      ensures KeyOf(after[i]) in more && more[KeyOf(after[i])] == after[i].value
    {
    }
    forall key | key in more ensures exists i :: 0 <= i < |after| && Live(after[i], key) {
      if key == k {
        assert Live(after[|rows|], key);
      } else {
        var i :| 0 <= i < |rows| && Live(rows[i], key);
        assert Live(after[i], key);
      }
    }
  }

  lemma UnchangedWriteShows(rows: seq<SlotRow>, values: map<Key, string>, k: Key, value: string)
    requires Holds(rows, values) && Unchanged(rows, k, value)
    ensures values == values[k := value]
  {
    var i :| 0 <= i < |rows| && Live(rows[i], k);
    assert KeyOf(rows[i]) == k;
  }

  /** One write makes its value the key's current one and touches no other key's. */
  lemma WriteShows(rows: seq<SlotRow>, values: map<Key, string>, u: Upsert, slot: Slot)
    requires Holds(rows, values)
    ensures Holds(WriteOne(rows, u, slot), values[(Text.Strip(u.session), slot.name) := slot.value])
  {
    var k := (Text.Strip(u.session), slot.name);
    if Unchanged(rows, k, slot.value) {
      UnchangedWriteShows(rows, values, k, slot.value);
    } else {
      ChangedWriteShows(rows, values, u, slot);
    }
  }

  // ----- runs -----

  function Overwrite(values: map<Key, string>, u: Upsert, n: nat): map<Key, string>
    requires n <= |u.slots|
  {
    if n == 0 then values else Overwrite(values, u, n - 1)[(Text.Strip(u.session), u.slots[n - 1].name) := u.slots[n - 1].value]
  }

  /** The last value written for each (session, slot) by a run of upserts. */
  function LastValues(run: seq<Upsert>): map<Key, string> {
    if run == [] then map[]
    else
      var values, u := LastValues(run[..|run| - 1]), run[|run| - 1];
      if Text.IsBlank(u.session) then values else Overwrite(values, u, |u.slots|)
  }

  /** The table after a run from an empty one. */
  function Table(run: seq<Upsert>): seq<SlotRow> {
    if run == [] then [] else AfterUpsert(Table(run[..|run| - 1]), run[|run| - 1])
  }

  /** What the upserts of a run return, in all. */
  function Written(run: seq<Upsert>): nat {
    if run == [] then 0 else Written(run[..|run| - 1]) + Returned(Table(run[..|run| - 1]), run[|run| - 1])
  }

  lemma {:induction false} WritesShow(rows: seq<SlotRow>, values: map<Key, string>, u: Upsert, n: nat)
    requires n <= |u.slots| && Holds(rows, values)
    ensures Holds(WriteAll(rows, u, n), Overwrite(values, u, n))
  {
    if n > 0 {
      WritesShow(rows, values, u, n - 1);
      WriteShows(WriteAll(rows, u, n - 1), Overwrite(values, u, n - 1), u, u.slots[n - 1]);
    }
  }

  lemma {:induction false} ChangesAreRows(rows: seq<SlotRow>, u: Upsert, n: nat)
    requires n <= |u.slots|
    ensures |WriteAll(rows, u, n)| == |rows| + Changes(rows, u, n)
  {
    if n > 0 {
      ChangesAreRows(rows, u, n - 1);
    }
  }

  /** After any run of upserts each (session, slot) has at most one live row, the live rows are the last-value-wins map of
      everything written, and the table has as many rows as the upserts, counting changed slots, returned in all. */
  lemma {:induction false} RunShowsLastValues(run: seq<Upsert>)
    ensures Holds(Table(run), LastValues(run))
    ensures |Table(run)| == Written(run)
  {
    if run != [] {
      var init, u := run[..|run| - 1], run[|run| - 1];
      RunShowsLastValues(init);
      if !Text.IsBlank(u.session) {
        WritesShow(Table(init), LastValues(init), u, |u.slots|);
        ChangesAreRows(Table(init), u, |u.slots|);
      }
    }
  }

  // ----- what the rows say of one another -----

  /** `j` is the next row of `i`'s session and slot. */
  ghost predicate IsNext(rows: seq<SlotRow>, i: nat, j: nat) {
    i < j < |rows| && KeyOf(rows[j]) == KeyOf(rows[i]) && forall m :: i < m < j ==> KeyOf(rows[m]) != KeyOf(rows[i])
  }

  ghost predicate IsLatest(rows: seq<SlotRow>, i: nat) {
    i < |rows| && forall m :: i < m < |rows| ==> KeyOf(rows[m]) != KeyOf(rows[i])
  }

  /** A row is superseded by the next row of its session and slot, at the time and in the turn that row was written, and says
      something else than it; the latest row is not superseded. */
  ghost predicate Linked(rows: seq<SlotRow>) {
    && (forall i: nat, j: nat :: IsNext(rows, i, j) ==>
          rows[i].supersededAt == Some(rows[j].createdAt) && rows[i].supersededBy == rows[j].turn && rows[i].value != rows[j].value)
    && (forall i: nat :: IsLatest(rows, i) ==> rows[i].supersededAt == None && rows[i].supersededBy == None)
  }

  /** Every row is the latest of its session and slot or has a next one. */
  lemma NextOrLatest(rows: seq<SlotRow>, i: nat) returns (j: nat)
    requires i < |rows|
    ensures if j == |rows| then IsLatest(rows, i) else IsNext(rows, i, j)
  {
    j := i + 1;
    while j < |rows| && KeyOf(rows[j]) != KeyOf(rows[i])
      invariant i < j <= |rows|
      invariant forall m :: i < m < j ==> KeyOf(rows[m]) != KeyOf(rows[i])
    {
      j := j + 1;
    }
  }

  lemma LiveIsLatest(rows: seq<SlotRow>, i: nat)
    requires Linked(rows) && i < |rows|
    ensures rows[i].supersededAt == None <==> IsLatest(rows, i)
  {
    var j := NextOrLatest(rows, i);
  }

  lemma ChangedWriteLinks(rows: seq<SlotRow>, u: Upsert, slot: Slot)
    requires Linked(rows) && !Unchanged(rows, (Text.Strip(u.session), slot.name), slot.value)
    ensures Linked(WriteOne(rows, u, slot))
  {
    var k, after, n := (Text.Strip(u.session), slot.name), WriteOne(rows, u, slot), |rows|;
    assert forall m :: 0 <= m < n ==> KeyOf(after[m]) == KeyOf(rows[m]);
    forall i: nat, j: nat | IsNext(after, i, j)
      ensures after[i].supersededAt == Some(after[j].createdAt) && after[i].supersededBy == after[j].turn && after[i].value != after[j].value
    {
      LiveIsLatest(rows, i);
      if j < n {
        assert IsNext(rows, i, j);
      } else {
        assert IsLatest(rows, i) && Live(rows[i], k);
        OnlyLive(rows, k, i);
      }
    }
    forall i: nat | IsLatest(after, i) ensures after[i].supersededAt == None && after[i].supersededBy == None {
      if i < n {
        assert KeyOf(after[n]) == k;
        assert IsLatest(rows, i);
      }
    }
  }

  lemma OnlyLive(rows: seq<SlotRow>, k: Key, i: nat)
    requires Linked(rows) && IsLatest(rows, i) && Live(rows[i], k)
    ensures forall m :: 0 <= m < |rows| && Live(rows[m], k) ==> m == i
  {
    forall m | 0 <= m < |rows| && Live(rows[m], k) ensures m == i {
      LiveIsLatest(rows, m);
    }
  }

  lemma {:induction false} WritesLink(rows: seq<SlotRow>, u: Upsert, n: nat)
    requires n <= |u.slots| && Linked(rows)
    ensures Linked(WriteAll(rows, u, n))
  {
    if n > 0 {
      WritesLink(rows, u, n - 1);
      var before := WriteAll(rows, u, n - 1);
      if !Unchanged(before, (Text.Strip(u.session), u.slots[n - 1].name), u.slots[n - 1].value) {
        ChangedWriteLinks(before, u, u.slots[n - 1]);
      }
    }
  }

  /** In every run each row is superseded by the next row of its session and slot, which says something else, exactly when there
      is one. */
  lemma {:induction false} RunIsLinked(run: seq<Upsert>)
    ensures Linked(Table(run))
  {
    if run != [] {
      var init, u := run[..|run| - 1], run[|run| - 1];
      RunIsLinked(init);
      WritesLink(Table(init), u, |u.slots|);
    }
  }

  /** The row holds what the upsert says of one of its slots, with the first 500 characters of its source. */
  ghost predicate SaysSlot(r: SlotRow, u: Upsert) {
    && Slot(r.name, r.value) in u.slots
    && r.session == Text.Strip(u.session) != "" && r.turn == u.turn && r.createdAt == u.now
    && r.source <= u.source && (r.source == u.source || |r.source| == 500) && |r.source| <= 500
  }

  lemma {:induction false} WritesSay(rows: seq<SlotRow>, u: Upsert, n: nat, i: nat)
    requires n <= |u.slots| && !Text.IsBlank(u.session) && |rows| <= i < |WriteAll(rows, u, n)|
    ensures SaysSlot(WriteAll(rows, u, n)[i], u)
  {
    if n > 0 && i < |WriteAll(rows, u, n - 1)| {
      WritesSay(rows, u, n - 1, i);
    }
  }

  /** Every row of the table says what one upsert of the run said. */
  lemma {:induction false} RowsSayWhatWasWritten(run: seq<Upsert>, i: nat)
    requires i < |Table(run)|
    ensures exists n :: 0 <= n < |run| && SaysSlot(Table(run)[i], run[n])
  {
    var init, u := run[..|run| - 1], run[|run| - 1];
    if i < |Table(init)| {
      RowsSayWhatWasWritten(init, i);
      var n :| 0 <= n < |init| && SaysSlot(Table(init)[i], init[n]);
      WritesKeepHistory(Table(init), u, |u.slots|);
      assert KeptRow(Table(init)[i], Table(run)[i]);
      assert SaysSlot(Table(run)[i], run[n]);
    } else {
      WritesSay(Table(init), u, |u.slots|, i);
      assert SaysSlot(Table(run)[i], run[|run| - 1]);
    }
  }

  /** Reading shows each live row of the session that is no obsolete rule as often as the table holds it, and no other. */
  lemma {:induction false} VisibleIff(obsolete: ObsoleteLaw, session: string, rows: seq<SlotRow>, r: SlotRow)
    ensures multiset(Visible(obsolete, session, rows))[r] ==
            if r.session == session && r.supersededAt == None && !obsolete(r.name, r.value, r.source) then multiset(rows)[r] else 0
  {
    if rows != [] {
      VisibleIff(obsolete, session, rows[..|rows| - 1], r);
      assert rows == rows[..|rows| - 1] + [rows[|rows| - 1]];
    }
  }

  /** `later` keeps every row of `earlier` in its place, and every superseded one exactly as it was. */
  ghost predicate KeepsHistory(earlier: seq<SlotRow>, later: seq<SlotRow>) {
    && |earlier| <= |later|
    && forall i :: 0 <= i < |earlier| ==> KeptRow(earlier[i], later[i])
  }

  predicate KeptRow(was: SlotRow, now: SlotRow) {
    if was.supersededAt.Some? then now == was else now.(supersededAt := None, supersededBy := was.supersededBy) == was
  }

  lemma {:induction false} WritesKeepHistory(rows: seq<SlotRow>, u: Upsert, n: nat)
    requires n <= |u.slots|
    ensures KeepsHistory(rows, WriteAll(rows, u, n))
  {
    if n > 0 {
      WritesKeepHistory(rows, u, n - 1);
      var before := WriteAll(rows, u, n - 1);
      var after := WriteOne(before, u, u.slots[n - 1]);
      forall i | 0 <= i < |rows| ensures KeptRow(rows[i], after[i]) {
        assert KeptRow(rows[i], before[i]);
      }
    }
  }

  /** A superseded row stays superseded, unchanged and in place, and no row is ever removed or rewritten otherwise. */
  lemma {:induction false} SupersededStaySuperseded(run: seq<Upsert>, n: nat)
    requires n <= |run|
    ensures KeepsHistory(Table(run[..n]), Table(run))
    decreases |run|
  {
    if n == |run| {
      assert run[..n] == run;
    } else {
      var init, u := run[..|run| - 1], run[|run| - 1];
      SupersededStaySuperseded(init, n);
      assert init[..n] == run[..n];
      WritesKeepHistory(Table(init), u, |u.slots|);
      var start, mid, end := Table(run[..n]), Table(init), Table(run);
      forall i | 0 <= i < |start| ensures KeptRow(start[i], end[i]) {
        assert KeptRow(start[i], mid[i]) && KeptRow(mid[i], end[i]);
      }
    }
  }

  /** Every slot of the upsert already has that value. */
  ghost predicate Restates(values: map<Key, string>, u: Upsert) {
    forall i :: 0 <= i < |u.slots| ==>
      var k := (Text.Strip(u.session), u.slots[i].name); k in values && values[k] == u.slots[i].value
  }

  lemma {:induction false} RestatingWritesNothing(rows: seq<SlotRow>, values: map<Key, string>, u: Upsert, n: nat)
    requires Holds(rows, values) && Restates(values, u) && n <= |u.slots|
    ensures WriteAll(rows, u, n) == rows && Changes(rows, u, n) == 0
  {
    if n > 0 {
      RestatingWritesNothing(rows, values, u, n - 1);
      var k := (Text.Strip(u.session), u.slots[n - 1].name);
      var i :| 0 <= i < |rows| && Live(rows[i], k);
    }
  }

  /** Writing the current values again changes nothing, and says so. */
  lemma RewritingChangesNothing(run: seq<Upsert>, u: Upsert)
    requires Restates(LastValues(run), u)
    ensures Table(run + [u]) == Table(run) && Returned(Table(run), u) == 0
  {
    RunShowsLastValues(run);
    assert (run + [u])[..|run|] == run;
    RestatingWritesNothing(Table(run), LastValues(run), u, |u.slots|);
  }
}
