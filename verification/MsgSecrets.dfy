/**
 Message-secret rows, the merge a key conflict goes through, and the map algebra
 the write-behind buffer relies on.

 `Put` is both what the buffer does when two captures coalesce and what the backend
 upsert does, so a sequence of captures has one meaning: `WriteThrough`.
 */
module MsgSecrets {

  newtype Byte = x: int | 0 <= x < 256

  datatype Key = Key(chat: string, sender: string, msgId: string)

  /** `expiresAt == 0` means "never expires"; `messageTs == 0` means "unknown". */
  datatype Row = Row(secret: seq<Byte>, expiresAt: int, messageTs: int)

  datatype Entry = Entry(key: Key, row: Row)

  type Table = map<Key, Row>

  function Max(x: int, y: int): int {
    if x >= y then x else y
  }

  function MergeExpiry(existing: int, incoming: int): int {
    if existing == 0 || incoming == 0 then 0 else Max(existing, incoming)
  }

  function MergeMessageTs(existing: int, incoming: int): int {
    Max(existing, incoming)
  }

  /** The whole-row merge: the incoming secret wins, the metadata is merged. */
  function Merge(existing: Row, incoming: Row): Row {
    Row(incoming.secret,
        MergeExpiry(existing.expiresAt, incoming.expiresAt),
        MergeMessageTs(existing.messageTs, incoming.messageTs))
  }

  /** Retention never shrinks: what "expires no earlier" means when 0 is infinity. */
  predicate ExpiresNoEarlier(a: int, b: int) {
    a == 0 || (b != 0 && a >= b)
  }

  /** The merged deadline is the least one that neither side outlives, and the merged parent
      time is the least one at or after both: never-expire wins, windows never shrink and a
      known parent time is never clobbered. */
  lemma MergeIsLeastUpperBound(a: Row, b: Row, expiresAt: int, messageTs: int)
    ensures ExpiresNoEarlier(Merge(a, b).expiresAt, a.expiresAt)
    ensures ExpiresNoEarlier(Merge(a, b).expiresAt, b.expiresAt)
    ensures ExpiresNoEarlier(expiresAt, a.expiresAt) && ExpiresNoEarlier(expiresAt, b.expiresAt)
            ==> ExpiresNoEarlier(expiresAt, Merge(a, b).expiresAt)
    ensures messageTs >= Merge(a, b).messageTs <==> messageTs >= a.messageTs && messageTs >= b.messageTs
    ensures Merge(a, b).secret == b.secret
  {
  }

  lemma MergeAssociative(a: Row, b: Row, c: Row)
    ensures Merge(Merge(a, b), c) == Merge(a, Merge(b, c))
  {
  }

  lemma MergeIdempotent(a: Row)
    ensures Merge(a, a) == a
  {
  }

  // -- Tables --

  function Put(table: Table, e: Entry): Table {
    table[e.key := if e.key in table then Merge(table[e.key], e.row) else e.row]
  }

  /** The synchronous semantics: every entry is written straight to the table, in order. */
  function WriteThrough(table: Table, log: seq<Entry>): Table {
    if log == [] then table else Put(WriteThrough(table, log[..|log| - 1]), log[|log| - 1])
  }

  /** One batched upsert of distinct keys. */
  function Upsert(table: Table, batch: Table): Table {
    map k | k in table.Keys + batch.Keys ::
      if k !in batch then table[k]
      else if k in table then Merge(table[k], batch[k])
      else batch[k]
  }

  lemma {:induction false} WriteThroughAppend(table: Table, xs: seq<Entry>, ys: seq<Entry>)
    ensures WriteThrough(table, xs + ys) == WriteThrough(WriteThrough(table, xs), ys)
    decreases |ys|
  {
    if ys == [] {
      assert xs + ys == xs;
    } else {
      var n := |ys| - 1;
      WriteThroughAppend(table, xs, ys[..n]);
      assert (xs + ys)[..|xs + ys| - 1] == xs + ys[..n];
      assert (xs + ys)[|xs + ys| - 1] == ys[n];
    }
  }

  // -- What a history of captures leaves for a key --

  /** The last capture of the key. */
  predicate LastFor(log: seq<Entry>, k: Key, i: nat) {
    i < |log| && log[i].key == k && forall j :: i < j < |log| ==> log[j].key != k
  }

  /** `x` is the greatest of the parent times the captures of the key carry and the one known before. */
  ghost predicate IsLatestTime(table: Table, log: seq<Entry>, k: Key, x: int) {
    && (k in table ==> table[k].messageTs <= x)
    && (forall i :: 0 <= i < |log| && log[i].key == k ==> log[i].row.messageTs <= x)
    && ((k in table && x == table[k].messageTs) || exists i :: 0 <= i < |log| && log[i].key == k && log[i].row.messageTs == x)
  }

  /** Some capture of the key, or the row before, never expires. */
  ghost predicate SomeNeverExpires(table: Table, log: seq<Entry>, k: Key) {
    || (k in table && table[k].expiresAt == 0)
    || exists i :: 0 <= i < |log| && log[i].key == k && log[i].row.expiresAt == 0
  }

  /** `x` is the latest of their deadlines. */
  ghost predicate IsLatestDeadline(table: Table, log: seq<Entry>, k: Key, x: int) {
    && (k in table ==> table[k].expiresAt <= x)
    && (forall i :: 0 <= i < |log| && log[i].key == k ==> log[i].row.expiresAt <= x)
    && ((k in table && x == table[k].expiresAt) || exists i :: 0 <= i < |log| && log[i].key == k && log[i].row.expiresAt == x)
  }

  /** Written through, a key has the secret of its last capture, the greatest parent time of all of
      them, and a deadline that is 0 if and only if one of them never expires and otherwise the
      latest; and it is there if and only if it was captured, or there before. */
  ghost predicate Summarizes(table: Table, log: seq<Entry>, k: Key, row: Row) {
    && (forall i: nat :: LastFor(log, k, i) ==> row.secret == log[i].row.secret)
    && ((forall i: nat :: !LastFor(log, k, i)) ==> k in table && row == table[k])
    && IsLatestTime(table, log, k, row.messageTs)
    && (if SomeNeverExpires(table, log, k) then row.expiresAt == 0 else IsLatestDeadline(table, log, k, row.expiresAt))
  }

  predicate Captured(log: seq<Entry>, k: Key) {
    exists i :: 0 <= i < |log| && log[i].key == k
  }

  /** A capture of another key leaves the summary of this one. */
  lemma OtherCapture(table: Table, log: seq<Entry>, e: Entry, k: Key, row: Row)
    requires e.key != k && Summarizes(table, log, k, row)
    ensures Summarizes(table, log + [e], k, row)
  {
    var all := log + [e];
    assert forall i :: 0 <= i < |log| ==> all[i] == log[i];
    forall i: nat
      ensures LastFor(all, k, i) <==> LastFor(log, k, i)
    {
      if LastFor(all, k, i) {
        assert forall j :: i < j < |log| ==> all[j] == log[j];
      }
    }
  }

  lemma FirstCapture(table: Table, log: seq<Entry>, e: Entry)
    requires e.key !in table && !Captured(log, e.key)
    ensures Summarizes(table, log + [e], e.key, e.row)
  {
    var all := log + [e];
    assert all[|log|] == e;
    assert LastFor(all, e.key, |log|);
  }

  lemma NextCapture(table: Table, log: seq<Entry>, e: Entry, row: Row)
    requires Summarizes(table, log, e.key, row)
    ensures Summarizes(table, log + [e], e.key, Merge(row, e.row))
  {
    var all := log + [e];
    assert all[|log|] == e;
    assert LastFor(all, e.key, |log|);
    assert forall i :: 0 <= i < |log| ==> all[i] == log[i];
  }

  lemma {:induction false} WriteThroughSummarizes(table: Table, log: seq<Entry>, k: Key)
    ensures k in WriteThrough(table, log) <==> k in table || Captured(log, k)
    ensures k in WriteThrough(table, log) ==> Summarizes(table, log, k, WriteThrough(table, log)[k])
    decreases |log|
  {
    if log == [] {
    } else {
      var front, e := log[..|log| - 1], log[|log| - 1];
      assert log == front + [e];
      WriteThroughSummarizes(table, front, k);
      if e.key != k {
        if k in WriteThrough(table, front) {
          OtherCapture(table, front, e, k, WriteThrough(table, front)[k]);
        }
        assert Captured(log, k) ==> Captured(front, k);
      } else if k in WriteThrough(table, front) {
        NextCapture(table, front, e, WriteThrough(table, front)[k]);
      } else {
        FirstCapture(table, front, e);
      }
    }
  }

  lemma UpsertPut(table: Table, pending: Table, e: Entry)
    ensures Upsert(table, Put(pending, e)) == Put(Upsert(table, pending), e)
  {
  }

  /** Coalescing entries into the buffer and upserting later equals writing them through. */
  lemma {:induction false} UpsertWriteThrough(table: Table, pending: Table, log: seq<Entry>)
    ensures Upsert(table, WriteThrough(pending, log)) == WriteThrough(Upsert(table, pending), log)
    decreases |log|
  {
    if log == [] {
    } else {
      var n := |log| - 1;
      UpsertWriteThrough(table, pending, log[..n]);
      UpsertPut(table, WriteThrough(pending, log[..n]), log[n]);
    }
  }

  /** `newer` was reached from `older` by further merges. */
  predicate Extends(newer: Row, older: Row) {
    Merge(older, newer) == newer
  }

  ghost predicate ExtendsBatch(pending: Table, batch: Table) {
    forall k :: k in batch ==> k in pending && Extends(pending[k], batch[k])
  }

  ghost predicate Holds(table: Table, batch: Table) {
    forall k :: k in batch ==> k in table && Merge(table[k], batch[k]) == table[k]
  }

  lemma PutKeepsExtends(pending: Table, batch: Table, e: Entry)
    requires ExtendsBatch(pending, batch)
    ensures ExtendsBatch(Put(pending, e), batch)
  {
  }

  lemma {:induction false} WriteThroughKeepsExtends(pending: Table, batch: Table, log: seq<Entry>)
    requires ExtendsBatch(pending, batch)
    ensures ExtendsBatch(WriteThrough(pending, log), batch)
    decreases |log|
  {
    if log == [] {
    } else {
      var n := |log| - 1;
      WriteThroughKeepsExtends(pending, batch, log[..n]);
      PutKeepsExtends(WriteThrough(pending, log[..n]), batch, log[n]);
    }
  }

  /** Writing a snapshot that the buffer has since moved past changes nothing visible, even
      when the same snapshot is written twice. */
  lemma UpsertStaleBatch(table: Table, batch: Table, pending: Table)
    requires ExtendsBatch(pending, batch)
    ensures Upsert(Upsert(table, batch), pending) == Upsert(table, pending)
    ensures Holds(Upsert(table, batch), batch)
  {
  }

  /** What `finish_batch` leaves: the keys whose pending row is still the one written go. */
  function Unwritten(pending: Table, batch: Table): Table {
    map k | k in pending && !(k in batch && batch[k] == pending[k]) :: pending[k]
  }

  /** Dropping rows the table already holds changes nothing visible. */
  lemma UpsertUnwritten(table: Table, batch: Table, pending: Table)
    requires Holds(table, batch)
    ensures Upsert(table, Unwritten(pending, batch)) == Upsert(table, pending)
  {
  }

  // -- Batches as vectors --

  predicate DistinctKeys(batch: seq<Entry>) {
    forall i, j :: 0 <= i < j < |batch| ==> batch[i].key != batch[j].key
  }

  function TableOf(batch: seq<Entry>): Table {
    if batch == [] then map[] else TableOf(batch[..|batch| - 1])[batch[|batch| - 1].key := batch[|batch| - 1].row]
  }

  lemma {:induction false} TableOfKeys(batch: seq<Entry>, k: Key)
    ensures k in TableOf(batch) <==> exists i :: 0 <= i < |batch| && batch[i].key == k
    decreases |batch|
  {
    if batch == [] {
    } else {
      var n := |batch| - 1;
      TableOfKeys(batch[..n], k);
      if i :| 0 <= i < |batch| && batch[i].key == k && i < n {
        assert batch[..n][i].key == k;
      }
    }
  }

  /** The snapshot leaves the hash map in an arbitrary order; the order a batch is upserted in
      does not matter because its keys are distinct. */
  lemma {:induction false} BatchOrderIrrelevant(table: Table, batch: seq<Entry>)
    requires DistinctKeys(batch)
    ensures WriteThrough(table, batch) == Upsert(table, TableOf(batch))
    decreases |batch|
  {
    if batch == [] {
      assert Upsert(table, map[]) == table;
    } else {
      var n := |batch| - 1;
      var front, e := batch[..n], batch[n];
      BatchOrderIrrelevant(table, front);
      TableOfKeys(front, e.key);
      assert e.key !in TableOf(front);
      assert TableOf(batch) == Put(TableOf(front), e);
      UpsertPut(table, TableOf(front), e);
    }
  }
}
