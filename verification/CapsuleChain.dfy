/** One chat's version chain: the ordered query, the validator, and what acceptance means
    (core/active_context_capsule.py, `_validated_capsule_chain`). */
module CapsuleChain {
  import opened Wrappers
  import opened CapsuleRecords
  import Text

  // ----- SELECT ... WHERE chat_id = ? ORDER BY version_number, created_at, version_id -----

  /** SQLite's order of the storage classes: numbers, then text, then bytes. */
  function StorageRank(v: Column): nat {
    match v
    case Infinite(negative) => if negative then 0 else 2
    case Number(_) => 1
    case Words(_) => 3
    case Bytes(_) => 4
  }

  predicate ColumnBefore(a: Column, b: Column) {
    if StorageRank(a) != StorageRank(b) then StorageRank(a) < StorageRank(b)
    else match a
      case Number(x) => x < b.x
      case Infinite(_) => false
      case _ => Text.Before(a.s, b.s)
  }

  predicate RowBefore(a: Row, b: Row) {
    var f, g := a.fields, b.fields;
    if f.versionNumber != g.versionNumber then ColumnBefore(f.versionNumber, g.versionNumber)
    else if f.createdAt != g.createdAt then Text.Before(f.createdAt, g.createdAt)
    else Text.Before(f.versionId, g.versionId)
  }

  function Insert(row: Row, rows: seq<Row>): seq<Row> {
    if rows == [] || RowBefore(row, rows[0]) then [row] + rows else [rows[0]] + Insert(row, rows[1..])
  }

  function ChatRows(table: seq<Row>, chat: string): seq<Row> {
    if table == [] then []
    else
      var rest := ChatRows(table[1..], chat);
      if table[0].fields.chatId == chat then Insert(table[0], rest) else rest
  }

  lemma {:induction false} InsertMembers(row: Row, rows: seq<Row>)
    ensures forall r :: r in Insert(row, rows) <==> r == row || r in rows
    ensures |Insert(row, rows)| == |rows| + 1
  {
    if rows != [] && !RowBefore(row, rows[0]) {
      InsertMembers(row, rows[1..]);
      assert rows == [rows[0]] + rows[1..];
    }
  }

  lemma ColumnBeforeTransitive(a: Column, b: Column, d: Column)
    requires ColumnBefore(a, b) && ColumnBefore(b, d)
    ensures ColumnBefore(a, d) && !ColumnBefore(b, a)
  {
    if StorageRank(a) == StorageRank(b) == StorageRank(d) && (a.Words? || a.Bytes?) {
      Text.BeforeTransitive(a.s, b.s, d.s);
    }
    if StorageRank(a) == StorageRank(b) && (a.Words? || a.Bytes?) {
      Text.BeforeTotal(a.s, b.s);
    }
  }

  lemma RowBeforeTransitive(a: Row, b: Row, d: Row)
    requires RowBefore(a, b) && RowBefore(b, d)
    ensures RowBefore(a, d)
  {
    var f, g, h := a.fields, b.fields, d.fields;
    if f.versionNumber != g.versionNumber && g.versionNumber != h.versionNumber {
      ColumnBeforeTransitive(f.versionNumber, g.versionNumber, h.versionNumber);
    } else if f.versionNumber == g.versionNumber == h.versionNumber {
      if f.createdAt != g.createdAt && g.createdAt != h.createdAt {
        Text.BeforeTransitive(f.createdAt, g.createdAt, h.createdAt);
        Text.BeforeTotal(f.createdAt, g.createdAt);
      } else if f.createdAt == g.createdAt == h.createdAt {
        Text.BeforeTransitive(f.versionId, g.versionId, h.versionId);
      }
    }
  }

  ghost predicate InOrder(rows: seq<Row>) {
    forall i, j :: 0 <= i < j < |rows| ==> !RowBefore(rows[j], rows[i])
  }

  lemma InOrderCons(row: Row, rows: seq<Row>)
    requires InOrder(rows) && forall r :: r in rows ==> !RowBefore(r, row)
    ensures InOrder([row] + rows)
  {
    var all := [row] + rows;
    forall i, j | 0 <= i < j < |all| ensures !RowBefore(all[j], all[i]) {
      assert all[j] == rows[j - 1] && all[j] in rows;
      if i > 0 {
        assert all[i] == rows[i - 1];
      }
    }
  }

  lemma {:induction false} InsertKeepsOrder(row: Row, rows: seq<Row>)
    requires InOrder(rows)
    ensures InOrder(Insert(row, rows))
  {
    if rows == [] {
    } else if RowBefore(row, rows[0]) {
      forall r | r in rows ensures !RowBefore(r, row) {
        if RowBefore(r, row) {
          RowBeforeTransitive(r, row, rows[0]);
          var i :| 0 <= i < |rows| && rows[i] == r;
          assert i == 0;
          RowBeforeTransitive(row, rows[0], row);
          NeverBeforeItself(row);
        }
      }
      InOrderCons(row, rows);
    } else {
      InsertKeepsOrder(row, rows[1..]);
      InsertMembers(row, rows[1..]);
      forall r | r in Insert(row, rows[1..]) ensures !RowBefore(r, rows[0]) {
        if r in rows[1..] {
          var i :| 0 <= i < |rows[1..]| && rows[1..][i] == r;
          assert rows[i + 1] == r;
        }
      }
      InOrderCons(rows[0], Insert(row, rows[1..]));
    }
  }

  lemma NeverBeforeItself(row: Row)
    ensures !RowBefore(row, row)
  {
    Text.BeforeTotal(row.fields.versionId, row.fields.versionId);
  }

  lemma {:induction false} ChatRowsInOrder(table: seq<Row>, chat: string)
    ensures InOrder(ChatRows(table, chat))
  {
    if table != [] {
      ChatRowsInOrder(table[1..], chat);
      InsertKeepsOrder(table[0], ChatRows(table[1..], chat));
    }
  }

  /** A chat's rows come by rising number, infinite ones at the ends; at equal numbers by rising date; at equal dates by rising
      id; text and bytes come behind every number. */
  lemma ChatRowsOrdered(table: seq<Row>, chat: string, i: nat, j: nat)
    requires i < j < |ChatRows(table, chat)|
    ensures var f, g := ChatRows(table, chat)[i].fields, ChatRows(table, chat)[j].fields;
            && (f.versionNumber.Number? && g.versionNumber.Number? ==> f.versionNumber.x <= g.versionNumber.x)
            && (f.versionNumber.Words? || f.versionNumber.Bytes? ==> !g.versionNumber.Number? && !g.versionNumber.Infinite?)
            && (f.versionNumber == Infinite(false) ==> !g.versionNumber.Number? && g.versionNumber != Infinite(true))
            && (f.versionNumber.Number? ==> g.versionNumber != Infinite(true))
            && (f.versionNumber == g.versionNumber ==> !Text.Before(g.createdAt, f.createdAt))
            && (f.versionNumber == g.versionNumber && f.createdAt == g.createdAt ==> !Text.Before(g.versionId, f.versionId))
  {
    ChatRowsInOrder(table, chat);
    assert !RowBefore(ChatRows(table, chat)[j], ChatRows(table, chat)[i]);
    Text.BeforeTotal(ChatRows(table, chat)[i].fields.createdAt, ChatRows(table, chat)[j].fields.createdAt);
  }

  lemma {:induction false} ChatRowsMembers(table: seq<Row>, chat: string)
    ensures forall r :: r in ChatRows(table, chat) <==> r in table && r.fields.chatId == chat
  {
    if table != [] {
      ChatRowsMembers(table[1..], chat);
      assert table == [table[0]] + table[1..];
      if table[0].fields.chatId == chat {
        InsertMembers(table[0], ChatRows(table[1..], chat));
      }
    }
  }

  lemma {:induction false} InsertBelowLast(row: Row, rows: seq<Row>, last: Row)
    requires last.fields.versionNumber.Number? && ColumnBefore(row.fields.versionNumber, last.fields.versionNumber)
    ensures Insert(row, rows + [last]) == Insert(row, rows) + [last]
  {
    if rows == [] {
      assert rows + [last] == [last];
    } else {
      assert (rows + [last])[0] == rows[0] && (rows + [last])[1..] == rows[1..] + [last];
      if !RowBefore(row, rows[0]) {
        InsertBelowLast(row, rows[1..], last);
      }
    }
  }

  /** A new highest version joins the end of its chat's rows and no other chat's. */
  lemma {:induction false} ChatRowsAppend(table: seq<Row>, last: Row, chat: string)
    requires last.fields.versionNumber.Number?
    requires forall r :: r in table && r.fields.chatId == last.fields.chatId ==> ColumnBefore(r.fields.versionNumber, last.fields.versionNumber)
    ensures ChatRows(table + [last], chat)
         == ChatRows(table, chat) + (if last.fields.chatId == chat then [last] else [])
  {
    if table == [] {
      assert table + [last] == [last];
      assert ChatRows([last][1..], chat) == [];
    } else {
      assert (table + [last])[0] == table[0] && (table + [last])[1..] == table[1..] + [last];
      assert table[0] in table;
      ChatRowsAppend(table[1..], last, chat);
      assert ChatRows(table[1..], chat) + [] == ChatRows(table[1..], chat);
      if table[0].fields.chatId == chat && last.fields.chatId == chat {
        InsertBelowLast(table[0], ChatRows(table[1..], chat), last);
      }
    }
  }

  /** The ordered query never puts a storage class before a lower one. */
  ghost predicate RankSorted(rows: seq<Row>) {
    forall i, j :: 0 <= i < j < |rows| ==> StorageRank(rows[i].fields.versionNumber) <= StorageRank(rows[j].fields.versionNumber)
  }

  lemma RankSortedPrepend(row: Row, rows: seq<Row>)
    requires RankSorted(rows) && forall r :: r in rows ==> StorageRank(row.fields.versionNumber) <= StorageRank(r.fields.versionNumber)
    ensures RankSorted([row] + rows)
  {
    var all := [row] + rows;
    forall i, j | 0 <= i < j < |all| ensures StorageRank(all[i].fields.versionNumber) <= StorageRank(all[j].fields.versionNumber) {
      assert all[j] == rows[j - 1] && all[j] in rows;
      if i > 0 {
        assert all[i] == rows[i - 1];
      }
    }
  }

  lemma {:induction false} InsertKeepsRanks(row: Row, rows: seq<Row>)
    requires RankSorted(rows)
    ensures RankSorted(Insert(row, rows))
  {
    if rows == [] {
    } else if RowBefore(row, rows[0]) {
      forall r | r in rows ensures StorageRank(row.fields.versionNumber) <= StorageRank(r.fields.versionNumber) {
        var i :| 0 <= i < |rows| && rows[i] == r;
      }
      RankSortedPrepend(row, rows);
    } else {
      var rest := rows[1..];
      InsertKeepsRanks(row, rest);
      InsertMembers(row, rest);
      forall r | r in Insert(row, rest) ensures StorageRank(rows[0].fields.versionNumber) <= StorageRank(r.fields.versionNumber) {
        if r != row {
          var i :| 0 <= i < |rest| && rest[i] == r;
          assert rows[i + 1] == r;
        }
      }
      RankSortedPrepend(rows[0], Insert(row, rest));
    }
  }

  lemma {:induction false} ChatRowsSorted(table: seq<Row>, chat: string)
    ensures RankSorted(ChatRows(table, chat))
  {
    if table != [] {
      ChatRowsSorted(table[1..], chat);
      InsertKeepsRanks(table[0], ChatRows(table[1..], chat));
    }
  }

  lemma {:induction false} ChatRowsOneMore(table: seq<Row>, last: Row)
    ensures |ChatRows(table + [last], last.fields.chatId)| == |ChatRows(table, last.fields.chatId)| + 1
  {
    var chat := last.fields.chatId;
    if table == [] {
      assert table + [last] == [last];
      assert ChatRows([last][1..], chat) == [];
    } else {
      assert (table + [last])[0] == table[0] && (table + [last])[1..] == table[1..] + [last];
      ChatRowsOneMore(table[1..], last);
      InsertMembers(table[0], ChatRows(table[1..], chat));
      InsertMembers(table[0], ChatRows(table[1..] + [last], chat));
    }
  }

  function WithoutChat(table: seq<Row>, chat: string): seq<Row> {
    if table == [] then []
    else if table[0].fields.chatId == chat then WithoutChat(table[1..], chat)
    else [table[0]] + WithoutChat(table[1..], chat)
  }

  /** Deleting a chat's rows leaves every other chat's rows as they were, and none of its own. */
  lemma {:induction false} ChatRowsAfterDelete(table: seq<Row>, chat: string, other: string)
    ensures ChatRows(WithoutChat(table, chat), other) == if other == chat then [] else ChatRows(table, other)
    ensures forall r :: r in WithoutChat(table, chat) <==> r in table && r.fields.chatId != chat
  {
    if table != [] {
      ChatRowsAfterDelete(table[1..], chat, other);
      assert table == [table[0]] + table[1..];
      var kept := WithoutChat(table[1..], chat);
      assert ([table[0]] + kept)[1..] == kept;
    }
  }

  // ----- the validator -----

  datatype Scan = Chain(capsules: seq<Capsule>) | Corrupt | ScanRaises

  predicate LinkHolds(chat: string, expected: int, previous: Option<Capsule>, capsule: Capsule) {
    && capsule.chatId == chat
    && capsule.versionNumber == expected
    && (expected == 1 ==> capsule.previousVersionId == "")
    && (expected > 1 ==>
          && previous.Some?
          && capsule.previousVersionId == previous.value.versionId
          && previous.value.chatId == capsule.chatId
          && previous.value.versionNumber + 1 == capsule.versionNumber)
  }

  function Decodings(c: Codec, rows: seq<Row>): seq<Decoding> {
    seq(|rows|, i requires 0 <= i < |rows| => DecodeRow(c, rows[i]))
  }

  /** What the loop makes of the decoded rows from `i` on, after `previous`. */
  function ScanFrom(chat: string, decoded: seq<Decoding>, i: nat, previous: Option<Capsule>): Scan
    requires i <= |decoded|
    decreases |decoded| - i
  {
    if i == |decoded| then Chain([])
    else match decoded[i]
      case Raises => ScanRaises
      case Refused => Corrupt
      case Decodes(capsule) =>
        if !LinkHolds(chat, i + 1, previous, capsule) then Corrupt
        else match ScanFrom(chat, decoded, i + 1, Some(capsule))
          case Chain(rest) => Chain([capsule] + rest)
          case other => other
  }

  datatype Verdict = Accepted(capsules: seq<Capsule>) | Invalid | ValidatorRaises

  function VerdictOn(c: Codec, chat: string, rows: seq<Row>, head: Option<string>): Verdict {
    match ScanFrom(chat, Decodings(c, rows), 0, None)
    case ScanRaises => ValidatorRaises
    case Corrupt => Invalid
    case Chain(capsules) =>
      if capsules == [] then (if head == None then Accepted([]) else Invalid)
      else if head == None || head.value != capsules[|capsules| - 1].versionId then Invalid
      else Accepted(capsules)
  }

  /** A scan's outcome with the capsules validated before it put in front. */
  function After(capsules: seq<Capsule>, scan: Scan): Scan {
    if scan.Chain? then Chain(capsules + scan.capsules) else scan
  }

  lemma ScanStep(chat: string, decoded: seq<Decoding>, i: nat, previous: Option<Capsule>, capsules: seq<Capsule>, capsule: Capsule)
    requires i < |decoded| && decoded[i] == Decodes(capsule) && LinkHolds(chat, i + 1, previous, capsule)
    ensures After(capsules, ScanFrom(chat, decoded, i, previous))
         == After(capsules + [capsule], ScanFrom(chat, decoded, i + 1, Some(capsule)))
  {
    var tail := ScanFrom(chat, decoded, i + 1, Some(capsule));
    if tail.Chain? {
      assert capsules + ([capsule] + tail.capsules) == capsules + [capsule] + tail.capsules;
    }
  }

  lemma AfterNothing(capsules: seq<Capsule>, scan: Scan)
    ensures After([], scan) == scan && After(capsules, Chain([])) == Chain(capsules)
  {
    assert capsules + [] == capsules;
    if scan.Chain? {
      assert [] + scan.capsules == scan.capsules;
    }
  }

  /** The validator's loop over the decoded rows. */
  method ScanRows(c: Codec, chat: string, rows: seq<Row>) returns (scan: Scan)
    ensures scan == ScanFrom(chat, Decodings(c, rows), 0, None)
  {
    ghost var decoded := Decodings(c, rows);
    var capsules: seq<Capsule> := [];
    var previous: Option<Capsule> := None;
    AfterNothing([], ScanFrom(chat, decoded, 0, None));
    for i := 0 to |rows|
      invariant ScanFrom(chat, decoded, 0, None) == After(capsules, ScanFrom(chat, decoded, i, previous))
    {
      var decoding := DecodeRow(c, rows[i]);
      assert decoded[i] == decoding;
      if decoding.Raises? {
        return ScanRaises;
      }
      if decoding.Refused? || !LinkHolds(chat, i + 1, previous, decoding.capsule) {
        return Corrupt;
      }
      ScanStep(chat, decoded, i, previous, capsules, decoding.capsule);
      capsules := capsules + [decoding.capsule];
      previous := Some(decoding.capsule);
    }
    AfterNothing(capsules, Chain([]));
    return Chain(capsules);
  }

  method ValidatedCapsuleChain(c: Codec, chat: string, rows: seq<Row>, head: Option<string>) returns (verdict: Verdict)
    ensures verdict == VerdictOn(c, chat, rows, head)
  {
    var scan := ScanRows(c, chat, rows);
    if scan.ScanRaises? {
      return ValidatorRaises;
    }
    if scan.Corrupt? {
      return Invalid;
    }
    var capsules := scan.capsules;
    if capsules == [] {
      return if head == None then Accepted([]) else Invalid;
    }
    if head == None || head.value != capsules[|capsules| - 1].versionId {
      return Invalid;
    }
    return Accepted(capsules);
  }

  // ----- what acceptance means -----

  /** Capsule `i` is what row `i` decodes to, is version `i + 1` of `chat`, and links to the capsule before it. */
  ghost predicate IsLink(c: Codec, chat: string, rows: seq<Row>, capsules: seq<Capsule>, i: nat)
    requires i < |rows| == |capsules|
  {
    && DecodeRow(c, rows[i]) == Decodes(capsules[i])
    && capsules[i].chatId == chat
    && capsules[i].versionNumber == i + 1
    && capsules[i].previousVersionId == (if i == 0 then "" else capsules[i - 1].versionId)
  }

  ghost predicate IsChain(c: Codec, chat: string, rows: seq<Row>, capsules: seq<Capsule>) {
    |capsules| == |rows| && forall i: nat :: i < |rows| ==> IsLink(c, chat, rows, capsules, i)
  }

  ghost predicate ContinuesAt(chat: string, decoded: seq<Decoding>, i: nat, previous: Option<Capsule>, capsules: seq<Capsule>, j: nat)
    requires i + |capsules| == |decoded| && j < |capsules|
  {
    && decoded[i + j] == Decodes(capsules[j])
    && LinkHolds(chat, i + j + 1, if j == 0 then previous else Some(capsules[j - 1]), capsules[j])
  }

  /** `capsules` continues a chain from position `i`, after `previous`. */
  ghost predicate Continues(chat: string, decoded: seq<Decoding>, i: nat, previous: Option<Capsule>, capsules: seq<Capsule>) {
    i + |capsules| == |decoded| && forall j: nat :: j < |capsules| ==> ContinuesAt(chat, decoded, i, previous, capsules, j)
  }

  lemma ContinuesAfterFirst(chat: string, decoded: seq<Decoding>, i: nat, previous: Option<Capsule>, capsules: seq<Capsule>, next: nat)
    requires Continues(chat, decoded, i, previous, capsules) && i < |decoded| && next == i + 1
    ensures Continues(chat, decoded, next, Some(capsules[0]), capsules[1..])
  {
    var rest := capsules[1..];
    var first: Option<Capsule> := Some(capsules[0]);
    forall j: nat | j < |rest| ensures ContinuesAt(chat, decoded, next, first, rest, j) {
      assert ContinuesAt(chat, decoded, i, previous, capsules, j + 1);
    }
  }

  lemma {:induction false} ScanFindsTheChain(chat: string, decoded: seq<Decoding>, i: nat, previous: Option<Capsule>, capsules: seq<Capsule>)
    requires i <= |decoded| && Continues(chat, decoded, i, previous, capsules)
    ensures ScanFrom(chat, decoded, i, previous) == Chain(capsules)
    decreases |decoded| - i
  {
    if i < |decoded| {
      assert ContinuesAt(chat, decoded, i, previous, capsules, 0);
      ContinuesAfterFirst(chat, decoded, i, previous, capsules, i + 1);
      ScanFindsTheChain(chat, decoded, i + 1, Some(capsules[0]), capsules[1..]);
      assert capsules == [capsules[0]] + capsules[1..];
    }
  }

  lemma {:induction false} ScannedChainContinues(chat: string, decoded: seq<Decoding>, i: nat, previous: Option<Capsule>)
    requires i <= |decoded| && ScanFrom(chat, decoded, i, previous).Chain?
    ensures Continues(chat, decoded, i, previous, ScanFrom(chat, decoded, i, previous).capsules)
    decreases |decoded| - i
  {
    if i < |decoded| {
      var first := decoded[i].capsule;
      var after: Option<Capsule> := Some(first);
      var next := i + 1;
      ScannedChainContinues(chat, decoded, next, after);
      var rest := ScanFrom(chat, decoded, next, after).capsules;
      var all := [first] + rest;
      forall j: nat | j < |all| ensures ContinuesAt(chat, decoded, i, previous, all, j) {
        if j > 0 {
          assert ContinuesAt(chat, decoded, next, after, rest, j - 1);
        }
      }
    }
  }

  lemma ChainIffContinues(c: Codec, chat: string, rows: seq<Row>, capsules: seq<Capsule>)
    ensures IsChain(c, chat, rows, capsules) <==> Continues(chat, Decodings(c, rows), 0, None, capsules)
  {
    var decoded := Decodings(c, rows);
    if IsChain(c, chat, rows, capsules) {
      forall j: nat | j < |capsules| ensures ContinuesAt(chat, decoded, 0, None, capsules, j) {
        assert IsLink(c, chat, rows, capsules, j);
        if j > 0 {
          assert IsLink(c, chat, rows, capsules, j - 1);
        }
      }
    }
    if Continues(chat, decoded, 0, None, capsules) {
      forall i: nat | i < |rows| ensures IsLink(c, chat, rows, capsules, i) {
        assert ContinuesAt(chat, decoded, 0, None, capsules, i);
      }
    }
  }

  function LastVersion(capsules: seq<Capsule>): Option<string> {
    if capsules == [] then None else Some(capsules[|capsules| - 1].versionId)
  }

  /** The validator accepts exactly the chains: contiguous versions 1..n, each decoding (so every hash matches),
      each linking to its predecessor, with the head naming the last one, or no head when there is none. */
  lemma AcceptedIffChain(c: Codec, chat: string, rows: seq<Row>, head: Option<string>, capsules: seq<Capsule>)
    ensures VerdictOn(c, chat, rows, head) == Accepted(capsules) <==>
              (IsChain(c, chat, rows, capsules) && head == LastVersion(capsules))
  {
    ChainIffContinues(c, chat, rows, capsules);
    var decoded := Decodings(c, rows);
    if Continues(chat, decoded, 0, None, capsules) {
      ScanFindsTheChain(chat, decoded, 0, None, capsules);
    } else if ScanFrom(chat, decoded, 0, None).Chain? {
      ScannedChainContinues(chat, decoded, 0, None);
    }
  }

  // ----- when the validator raises -----

  lemma {:induction false} RaisingScanStops(chat: string, decoded: seq<Decoding>, i: nat, previous: Option<Capsule>)
    returns (j: nat, capsules: seq<Capsule>)
    requires i <= |decoded| && ScanFrom(chat, decoded, i, previous) == ScanRaises
    ensures i <= j < |decoded| && decoded[j] == Raises && Continues(chat, decoded[..j], i, previous, capsules)
    decreases |decoded| - i
  {
    if decoded[i] == Raises {
      j, capsules := i, [];
    } else {
      var first := decoded[i].capsule;
      var rest;
      j, rest := RaisingScanStops(chat, decoded, i + 1, Some(first));
      capsules := [first] + rest;
      ContinuesBefore(chat, decoded[..j], i, previous, first, rest);
    }
  }

  lemma ContinuesBefore(chat: string, decoded: seq<Decoding>, i: nat, previous: Option<Capsule>, first: Capsule, rest: seq<Capsule>)
    requires i < |decoded| && decoded[i] == Decodes(first) && LinkHolds(chat, i + 1, previous, first)
    requires Continues(chat, decoded, i + 1, Some(first), rest)
    ensures Continues(chat, decoded, i, previous, [first] + rest)
  {
    var all, after, next := [first] + rest, Some(first), i + 1;
    forall j: nat | j < |all| ensures ContinuesAt(chat, decoded, i, previous, all, j) {
      if j > 0 {
        assert ContinuesAt(chat, decoded, next, after, rest, j - 1);
      }
    }
  }

  lemma {:induction false} ScanMeetsRaise(chat: string, decoded: seq<Decoding>, i: nat, previous: Option<Capsule>, j: nat, capsules: seq<Capsule>)
    requires i <= j < |decoded| && decoded[j] == Raises && Continues(chat, decoded[..j], i, previous, capsules)
    ensures ScanFrom(chat, decoded, i, previous) == ScanRaises
    decreases j - i
  {
    if i < j {
      assert ContinuesAt(chat, decoded[..j], i, previous, capsules, 0);
      ContinuesAfterFirst(chat, decoded[..j], i, previous, capsules, i + 1);
      ScanMeetsRaise(chat, decoded, i + 1, Some(capsules[0]), j, capsules[1..]);
    }
  }

  /** The validator reaches row `j`, whose decoding raises, because the rows before it are a chain. */
  ghost predicate RaisesAt(c: Codec, chat: string, rows: seq<Row>, j: nat, capsules: seq<Capsule>) {
    j < |rows| && DecodeRow(c, rows[j]) == Raises && IsChain(c, chat, rows[..j], capsules)
  }

  /** The validator raises exactly where decoding raises on a row behind a valid beginning of the chain. */
  lemma ValidatorRaisesIff(c: Codec, chat: string, rows: seq<Row>, head: Option<string>)
    ensures VerdictOn(c, chat, rows, head) == ValidatorRaises <==> exists j: nat, capsules :: RaisesAt(c, chat, rows, j, capsules)
  {
    var decoded := Decodings(c, rows);
    if VerdictOn(c, chat, rows, head) == ValidatorRaises {
      var j, capsules := RaisingScanStops(chat, decoded, 0, None);
      assert Decodings(c, rows[..j]) == decoded[..j];
      ChainIffContinues(c, chat, rows[..j], capsules);
      assert RaisesAt(c, chat, rows, j, capsules);
    }
    if j: nat, capsules :| RaisesAt(c, chat, rows, j, capsules) {
      assert Decodings(c, rows[..j]) == decoded[..j];
      ChainIffContinues(c, chat, rows[..j], capsules);
      ScanMeetsRaise(chat, decoded, 0, None, j, capsules);
    }
  }
}
