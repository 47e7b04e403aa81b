/** The document store the turn protocol commits to, written in all-or-nothing transactions. */
module PlatformStore {
  import opened Decimal
  import opened Options
  import opened Wire

  datatype Status = Active | Complete | Aborted | Failed

  datatype TurnRow = TurnRow(
    streamId: StreamId, status: Status, createdAt: int, userMessageId: string, responseId: string)

  /** One stored frame of a stream's ledger. */
  datatype EventRow = EventRow(streamId: StreamId, seqNo: nat, frame: Frame)

  /** The three collections: messages and turns by id, ledger rows as a table. */
  datatype Documents = Documents(
    messages: map<string, Message>, turns: map<StreamId, TurnRow>, events: set<EventRow>)

  // ---- ledger keys -----------------------------------------------------------------------

  /** The longest suffix of digits. */
  function TrailingDigits(s: string): (d: string)
    ensures AllDigits(d) && |d| <= |s|
  {
    if s == [] || !IsDigit(s[|s| - 1]) then "" else TrailingDigits(s[..|s| - 1]) + [s[|s| - 1]]
  }

  lemma {:induction false} TrailingDigitsAfter(s: string, d: string)
    requires AllDigits(d) && s != [] && !IsDigit(s[|s| - 1])
    ensures TrailingDigits(s + d) == d
  {
    if d == [] {
      assert s + d == s;
    } else {
      assert (s + d)[..|s + d| - 1] == s + d[..|d| - 1];
      TrailingDigitsAfter(s, d[..|d| - 1]);
    }
  }

  function KeyNumber(key: string): nat {
    Parse(TrailingDigits(key))
  }

  function KeyStream(key: string): StreamId {
    var n := |key| - |TrailingDigits(key)|;
    if n == 0 then "" else key[..n - 1]
  }

  /** The id a ledger row is stored under: `<stream>:<seq, zero-padded to eight digits>`. */
  function EventKey(streamId: StreamId, seqNo: nat): string {
    var digits := Print(seqNo);
    streamId + ":" + (Zeros(if |digits| < 8 then 8 - |digits| else 0) + digits)
  }

  /** Stream and number can be read back from the stored id, for every stream id (colons and digits
      included) and every number (nine digits and more included): rows of different streams or
      numbers never overwrite each other, so the table may be keyed by the pair. */
  lemma EventKeyReadsBack(streamId: StreamId, seqNo: nat)
    ensures KeyStream(EventKey(streamId, seqNo)) == streamId
    ensures KeyNumber(EventKey(streamId, seqNo)) == seqNo
  {
    var digits := Print(seqNo);
    var padding := if |digits| < 8 then 8 - |digits| else 0;
    ParsePadded(padding, seqNo);
    TrailingDigitsAfter(streamId + ":", Zeros(padding) + digits);
  }

  /** The ids of one stream are equally long as long as its numbers have at most eight digits. */
  lemma EventKeyPadded(streamId: StreamId, seqNo: nat)
    requires seqNo < 100000000
    ensures |EventKey(streamId, seqNo)| == |streamId| + 9
    ensures EventKey(streamId, seqNo)[..|streamId| + 1] == streamId + ":"
  {
    assert Power(8) == 100000000 by {
      assert Power(4) == 10000;
    }
    PrintLength(seqNo, Power(8), 8);
  }

  predicate SameKey(a: EventRow, b: EventRow) {
    a.streamId == b.streamId && a.seqNo == b.seqNo
  }

  ghost predicate Unique(events: set<EventRow>) {
    forall a, b :: a in events && b in events && SameKey(a, b) ==> a == b
  }

  // ---- transactions ----------------------------------------------------------------------

  /** The rows one transaction upserts. */
  datatype Batch = Batch(message: Option<Message>, turn: Option<TurnRow>, events: set<EventRow>)

  predicate Shadowed(row: EventRow, rows: set<EventRow>) {
    exists r :: r in rows && SameKey(r, row)
  }

  /** Upsert: a new row replaces the stored row of its key. */
  function Upsert(events: set<EventRow>, rows: set<EventRow>): set<EventRow> {
    (set e | e in events && !Shadowed(e, rows)) + rows
  }

  /** The ledger rows left when the ledgers of `retired` streams are deleted. */
  function Without(events: set<EventRow>, retired: set<StreamId>): set<EventRow> {
    set e | e in events && e.streamId !in retired
  }

  /** One transaction: deletes, then upserts. */
  function Commit(docs: Documents, retired: set<StreamId>, batch: Batch): Documents {
    Documents(
      if batch.message.Some? then docs.messages[batch.message.value.id := batch.message.value] else docs.messages,
      if batch.turn.Some? then docs.turns[batch.turn.value.streamId := batch.turn.value] else docs.turns,
      Upsert(Without(docs.events, retired), batch.events))
  }

  /** The rows of one stream's ledger. */
  function EventsOf(events: set<EventRow>, streamId: StreamId): set<EventRow> {
    set e | e in events && e.streamId == streamId
  }

  /** Rows `lo+1 .. |frames|` of a ledger. */
  function LedgerRows(streamId: StreamId, frames: seq<Frame>, lo: nat): set<EventRow>
    requires lo <= |frames|
  {
    set i | lo <= i < |frames| :: EventRow(streamId, i + 1, frames[i])
  }

  /** The rows of a ledger that is split at `|a|`. */
  lemma LedgerRowsSplit(streamId: StreamId, a: seq<Frame>, b: seq<Frame>, lo: nat)
    requires lo <= |a|
    ensures LedgerRows(streamId, a + b, lo) == LedgerRows(streamId, a, lo) + LedgerRows(streamId, a + b, |a|)
  {
    var left, right := LedgerRows(streamId, a, lo), LedgerRows(streamId, a + b, |a|);
    forall r | r in LedgerRows(streamId, a + b, lo) ensures r in left + right {
      assert r.seqNo <= |a| ==> (a + b)[r.seqNo - 1] == a[r.seqNo - 1];
    }
    forall r | r in left ensures r in LedgerRows(streamId, a + b, lo) {
      assert (a + b)[r.seqNo - 1] == a[r.seqNo - 1];
    }
  }

  /** Stored ledgers determine their frames. */
  lemma LedgerRowsInjective(streamId: StreamId, a: seq<Frame>, b: seq<Frame>)
    requires LedgerRows(streamId, a, 0) == LedgerRows(streamId, b, 0)
    ensures a == b
  {
    if a != [] { LedgerRowsReach(streamId, a, b, |a| - 1); }
    if b != [] { LedgerRowsReach(streamId, b, a, |b| - 1); }
    forall i | 0 <= i < |a| ensures a[i] == b[i] {
      LedgerRowsReach(streamId, a, b, i);
    }
  }

  lemma LedgerRowsReach(streamId: StreamId, a: seq<Frame>, b: seq<Frame>, i: nat)
    requires LedgerRows(streamId, a, 0) == LedgerRows(streamId, b, 0) && i < |a|
    ensures i < |b| && a[i] == b[i]
  {
    assert EventRow(streamId, i + 1, a[i]) in LedgerRows(streamId, a, 0);
  }

  // ---- queries ---------------------------------------------------------------------------

  /** `rows` answers the ordered equality query for one stream's ledger. */
  ghost predicate IsListing(events: set<EventRow>, streamId: StreamId, rows: seq<EventRow>) {
    && (forall i :: 0 <= i < |rows| ==> rows[i] in EventsOf(events, streamId))
    && (forall i, j :: 0 <= i < j < |rows| ==> rows[i].seqNo <= rows[j].seqNo && rows[i] != rows[j])
    && (forall r :: r in EventsOf(events, streamId) ==> r in rows)
  }

  /** The query's answer over a contiguous ledger is that ledger. */
  lemma ListingIsLedger(events: set<EventRow>, streamId: StreamId, ledger: seq<Frame>, rows: seq<EventRow>)
    requires EventsOf(events, streamId) == LedgerRows(streamId, ledger, 0)
    requires IsListing(events, streamId, rows)
    ensures |rows| == |ledger|
    ensures forall i :: 0 <= i < |rows| ==> rows[i] == EventRow(streamId, i + 1, ledger[i])
  {
    forall i | 0 <= i < |rows|
      ensures rows[i].seqNo == i + 1 && i < |ledger| && rows[i] == EventRow(streamId, i + 1, ledger[i])
    {
      assert rows[i] in LedgerRows(streamId, ledger, 0);
      ListingCounts(events, streamId, ledger, rows, i);
    }
    if ledger != [] {
      var last := EventRow(streamId, |ledger|, ledger[|ledger| - 1]);
      assert last in LedgerRows(streamId, ledger, 0);
      var p :| 0 <= p < |rows| && rows[p] == last;
    }
    assert rows != [] ==> rows[|rows| - 1].seqNo == |rows|;
  }

  lemma {:induction false} ListingCounts(events: set<EventRow>, streamId: StreamId, ledger: seq<Frame>,
                                         rows: seq<EventRow>, i: nat)
    requires EventsOf(events, streamId) == LedgerRows(streamId, ledger, 0)
    requires IsListing(events, streamId, rows) && i < |rows|
    ensures rows[i].seqNo == i + 1
    decreases i
  {
    forall p | 0 <= p < i ensures rows[p].seqNo == p + 1 {
      ListingCounts(events, streamId, ledger, rows, p);
    }
    var row := rows[i];
    assert row in LedgerRows(streamId, ledger, 0);
    assert i > 0 ==>
        rows[i - 1].seqNo <= row.seqNo && rows[i - 1] != row && rows[i - 1] in LedgerRows(streamId, ledger, 0);
    assert row.seqNo >= i + 1;
    var next := EventRow(streamId, i + 1, ledger[i]);
    assert next in LedgerRows(streamId, ledger, 0);
    var p :| 0 <= p < |rows| && rows[p] == next;
    assert p >= i;
    assert p > i ==> row.seqNo <= rows[p].seqNo;
  }

  // ---- the store object ------------------------------------------------------------------

  class PlatformStore {
    var documents: Documents

    /** Every turn row is filed under its stream. */
    ghost predicate Valid()
      reads this
    {
      forall sid :: sid in documents.turns ==> documents.turns[sid].streamId == sid
    }

    constructor ()
      ensures Valid() && documents == Documents(map[], map[], {})
    {
      documents := Documents(map[], map[], {});
    }

    /** One transaction: deletes first, then upserts, one row at a time. `commits` is the outcome of
        the transaction; when it fails nothing is written. */
    method PutManyMulti(batch: Batch, retired: set<StreamId>, commits: bool) returns (ok: bool)
      requires Valid() && Unique(batch.events)
      modifies this
      ensures Valid() && ok == (commits || (batch == Batch(None, None, {}) && retired == {}))
      ensures documents == if commits then Commit(old(documents), retired, batch) else old(documents)
    {
      if batch == Batch(None, None, {}) && retired == {} {
        assert Upsert(Without(documents.events, retired), batch.events) == documents.events;
        return true;
      }
      if !commits {
        return false;
      }
      var docs := documents;
      var events, left := docs.events, retired;
      while left != {}
        invariant left <= retired
        invariant events == Without(docs.events, retired - left)
        decreases left
      {
        var streamId :| streamId in left;
        events := Without(events, {streamId});
        left := left - {streamId};
      }
      assert retired - left == retired;
      var todo := batch.events;
      ghost var kept := events;
      while todo != {}
        invariant todo <= batch.events
        invariant events == Upsert(kept, batch.events - todo)
        decreases todo
      {
        var row :| row in todo;
        UpsertOne(kept, batch.events - todo, row);
        events := Upsert(events, {row});
        assert batch.events - (todo - {row}) == (batch.events - todo) + {row};
        todo := todo - {row};
      }
      assert batch.events - todo == batch.events;
      documents := Documents(
        if batch.message.Some? then docs.messages[batch.message.value.id := batch.message.value] else docs.messages,
        if batch.turn.Some? then docs.turns[batch.turn.value.streamId := batch.turn.value] else docs.turns,
        events);
      return true;
    }

    /** The ordered equality query over one stream's ledger. */
    method FindEvents(streamId: StreamId) returns (rows: seq<EventRow>)
      ensures IsListing(documents.events, streamId, rows)
    {
      rows := [];
      var all := EventsOf(documents.events, streamId);
      var left := all;
      while left != {}
        invariant left <= all
        invariant IsListing(all - left, streamId, rows)
        invariant forall i, r :: 0 <= i < |rows| && r in left ==> rows[i].seqNo <= r.seqNo
        decreases left
      {
        var least := Least(left);
        ListingExtends(all - left, streamId, rows, least);
        assert all - (left - {least}) == (all - left) + {least};
        rows := rows + [least];
        left := left - {least};
      }
      assert all - left == all && EventsOf(all, streamId) == all;
    }
  }

  /** Upserting one more row of another key. */
  lemma UpsertOne(events: set<EventRow>, done: set<EventRow>, row: EventRow)
    requires Unique(done + {row}) && row !in done
    ensures Upsert(Upsert(events, done), {row}) == Upsert(events, done + {row})
  {
    forall e ensures Shadowed(e, done + {row}) <==> Shadowed(e, done) || SameKey(row, e) {
      if Shadowed(e, done) {
        var r :| r in done && SameKey(r, e);
        assert r in done + {row};
      }
      if SameKey(row, e) {
        assert row in done + {row};
      }
    }
    forall e ensures Shadowed(e, {row}) <==> SameKey(row, e) {
      if SameKey(row, e) { assert row in {row}; }
    }
    forall d | d in done ensures !SameKey(row, d) {
      assert d in done + {row} && row in done + {row};
    }
  }

  /** A listing grows by a row that is not listed yet and not below the listed ones. */
  lemma ListingExtends(events: set<EventRow>, streamId: StreamId, rows: seq<EventRow>, row: EventRow)
    requires IsListing(events, streamId, rows) && row !in events && row.streamId == streamId
    requires forall i :: 0 <= i < |rows| ==> rows[i].seqNo <= row.seqNo
    ensures IsListing(events + {row}, streamId, rows + [row])
  {
    assert EventsOf(events + {row}, streamId) == EventsOf(events, streamId) + {row};
    assert (rows + [row])[|rows|] == row;
    forall r | r in EventsOf(events, streamId) ensures r in rows + [row] {
      assert r in rows;
    }
  }

  /** A row with the smallest sequence number. */
  method Least(rows: set<EventRow>) returns (least: EventRow)
    requires rows != {}
    ensures least in rows && forall r :: r in rows ==> least.seqNo <= r.seqNo
  {
    least :| least in rows;
    var unseen := rows - {least};
    while unseen != {}
      invariant least in rows && unseen <= rows
      invariant forall r :: r in rows && r !in unseen ==> least.seqNo <= r.seqNo
      decreases unseen
    {
      var r :| r in unseen;
      if r.seqNo < least.seqNo {
        least := r;
      }
      unseen := unseen - {r};
    }
  }
}
