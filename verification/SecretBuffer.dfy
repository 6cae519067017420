/**
 The buffer's critical sections and the in-memory backend's upsert, as the loops they are.
 Each is proved against the table functions the protocol steps use, so one uninterrupted
 `flush_pending_once` is the protocol's snapshot, persist and finish in a row.
 */
module SecretBuffer {
  import opened MsgSecrets
  import opened Options

  /** What a lookup owes its caller for the captures in the buffer: the last secret and the greatest
      parent time, and an answer at all exactly when there was a capture. */
  ghost predicate AnswersFor(log: seq<Entry>, key: Key, found: Option<(seq<Byte>, int)>) {
    match found
    case None => !Captured(log, key)
    case Some((secret, messageTs)) =>
      && (exists i: nat :: LastFor(log, key, i) && secret == log[i].row.secret)
      && IsLatestTime(map[], log, key, messageTs)
  }

  lemma {:induction false} LastExists(log: seq<Entry>, key: Key)
    ensures Captured(log, key) <==> exists i: nat :: LastFor(log, key, i)
    decreases |log|
  {
    if log == [] {
    } else {
      var n := |log| - 1;
      LastExists(log[..n], key);
      if log[n].key == key {
        assert LastFor(log, key, n);
      } else if i: nat :| LastFor(log[..n], key, i) {
        assert LastFor(log, key, i);
      } else {
        assert forall j :: 0 <= j < n ==> log[j] == log[..n][j];
      }
    }
  }

  class InMemoryBackend {
    var secrets: Table

    constructor ()
      ensures secrets == map[]
    {
      secrets := map[];
    }

    /** Upserts the entries one by one, in the order given. */
    method PutMsgSecrets(entries: seq<Entry>) returns (stored: nat)
      modifies this
      ensures secrets == WriteThrough(old(secrets), entries)
      ensures DistinctKeys(entries) ==> secrets == Upsert(old(secrets), TableOf(entries))
      ensures stored == |entries|
    {
      stored := |entries|;
      for i := 0 to |entries|
        invariant secrets == WriteThrough(old(secrets), entries[..i])
      {
        var entry := entries[i];
        var row := entry.row;
        if entry.key in secrets {
          var existing := secrets[entry.key];
          row := Row(entry.row.secret,
                     MergeExpiry(existing.expiresAt, entry.row.expiresAt),
                     MergeMessageTs(existing.messageTs, entry.row.messageTs));
        }
        secrets := secrets[entry.key := row];
        assert entries[..i + 1][..i] == entries[..i];
      }
      assert entries[..|entries|] == entries;
      if DistinctKeys(entries) {
        BatchOrderIrrelevant(old(secrets), entries);
      }
    }
  }

  class MsgSecretWriteBuffer {
    var pending: Table
    var flushedBatches: nat
    const backend: InMemoryBackend

    constructor (backend: InMemoryBackend)
      ensures pending == map[] && flushedBatches == 0 && this.backend == backend
    {
      pending, flushedBatches := map[], 0;
      this.backend := backend;
    }

    /** The locked part of `queue`: later captures of a key merge into the pending one exactly
        as the backend would have merged two sequential writes. */
    method InsertAll(entries: seq<Entry>)
      modifies this
      ensures pending == WriteThrough(old(pending), entries)
      ensures Upsert(backend.secrets, pending) == WriteThrough(Upsert(backend.secrets, old(pending)), entries)
      ensures flushedBatches == old(flushedBatches)
    {
      for i := 0 to |entries|
        invariant pending == WriteThrough(old(pending), entries[..i])
        invariant flushedBatches == old(flushedBatches)
      {
        var entry := entries[i];
        var row := entry.row;
        if entry.key in pending {
          var existing := pending[entry.key];
          row := row.(expiresAt := MergeExpiry(existing.expiresAt, row.expiresAt),
                      messageTs := MergeMessageTs(existing.messageTs, row.messageTs));
        }
        pending := pending[entry.key := row];
        assert entries[..i + 1][..i] == entries[..i];
      }
      assert entries[..|entries|] == entries;
      UpsertWriteThrough(backend.secrets, old(pending), entries);
    }

    /** A hit has the secret of the last capture queued for the key and the greatest parent time of
        all of them, however the buffer came to hold them. Against backend and buffer together the
        secret is theirs, and the time is theirs if and only if the backend knows no later one. On a
        miss the backend alone answers for the key. */
    method Lookup(key: Key) returns (found: Option<(seq<Byte>, int)>)
      ensures forall log :: pending == WriteThrough(map[], log) ==> AnswersFor(log, key, found)
      ensures var visible := Upsert(backend.secrets, pending);
              match found
              case Some((secret, messageTs)) =>
                && key in visible && secret == visible[key].secret && messageTs <= visible[key].messageTs
                && (messageTs == visible[key].messageTs <==>
                      (key in backend.secrets ==> backend.secrets[key].messageTs <= messageTs))
              case None =>
                (key in visible <==> key in backend.secrets) &&
                (key in visible ==> visible[key] == backend.secrets[key])
      ensures found.Some? <==> key in pending
    {
      if key in pending {
        found := Some((pending[key].secret, pending[key].messageTs));
      } else {
        found := None;
      }
      forall log | pending == WriteThrough(map[], log)
        ensures AnswersFor(log, key, found)
      {
        WriteThroughSummarizes(map[], log, key);
        LastExists(log, key);
      }
    }

    /** Copies the pending rows out in whatever order the hash map yields them. */
    method Snapshot() returns (batch: seq<Entry>)
      ensures DistinctKeys(batch) && TableOf(batch) == pending
    {
      batch := [];
      var left := pending.Keys;
      while left != {}
        invariant left <= pending.Keys
        invariant DistinctKeys(batch)
        invariant forall i :: 0 <= i < |batch| ==> batch[i].key in pending && batch[i].key !in left
        invariant TableOf(batch) == map k | k in pending && k !in left :: pending[k]
        decreases left
      {
        var k :| k in left;
        var grown := batch + [Entry(k, pending[k])];
        assert grown[..|grown| - 1] == batch;
        left := left - {k};
        batch := grown;
      }
    }

    /** Removes the written entries, but only where the pending row is still the one written. */
    method FinishBatch(written: seq<Entry>)
      modifies this
      ensures forall k :: k in pending <==>
                k in old(pending) && forall i :: 0 <= i < |written| ==> written[i] != Entry(k, old(pending)[k])
      ensures forall k :: k in pending ==> pending[k] == old(pending)[k]
      ensures DistinctKeys(written) ==> pending == Unwritten(old(pending), TableOf(written))
      ensures flushedBatches == old(flushedBatches)
    {
      for n := 0 to |written|
        invariant forall k :: k in pending <==>
                    k in old(pending) && forall i :: 0 <= i < n ==> written[i] != Entry(k, old(pending)[k])
        invariant forall k :: k in pending ==> pending[k] == old(pending)[k]
        invariant flushedBatches == old(flushedBatches)
      {
        var entry := written[n];
        if entry.key in pending && pending[entry.key] == entry.row {
          pending := pending - {entry.key};
        }
      }
      if DistinctKeys(written) {
        forall k | k in old(pending)
          ensures (k in TableOf(written) && TableOf(written)[k] == old(pending)[k]) <==>
                  exists i :: 0 <= i < |written| && written[i] == Entry(k, old(pending)[k])
        {
          TableOfEntry(written, Entry(k, old(pending)[k]));
        }
      }
    }

    /** One uninterrupted flush round. `accepts` is the backend's answer; a batch it refuses is
        dropped from the buffer all the same. */
    method FlushPendingOnce(accepts: bool) returns (wrote: bool)
      modifies this, backend
      ensures wrote <==> old(pending) != map[]
      ensures pending == map[]
      ensures backend.secrets ==
              if accepts then Upsert(old(backend.secrets), old(pending)) else old(backend.secrets)
      ensures flushedBatches == old(flushedBatches) + (if wrote then 1 else 0)
    {
      var batch := Snapshot();
      if |batch| == 0 {
        assert Upsert(backend.secrets, map[]) == backend.secrets;
        return false;
      }
      assert TableOf(batch) != map[] by {
        TableOfKeys(batch, batch[0].key);
      }
      if accepts {
        var _ := backend.PutMsgSecrets(batch);
      }
      flushedBatches := flushedBatches + 1;
      FinishBatch(batch);
      wrote := true;
    }

    /** `flush` repeats until a round finds nothing. Undisturbed, everything pending is offered to the
        backend, in at most one write. */
    method Flush(accepts: bool)
      modifies this, backend
      ensures pending == map[]
      ensures backend.secrets ==
              if accepts then Upsert(old(backend.secrets), old(pending)) else old(backend.secrets)
      ensures flushedBatches == old(flushedBatches) + (if old(pending) == map[] then 0 else 1)
    {
      var again := FlushPendingOnce(accepts);
      while again
        invariant pending == map[]
        invariant backend.secrets ==
                  if accepts then Upsert(old(backend.secrets), old(pending)) else old(backend.secrets)
        invariant flushedBatches == old(flushedBatches) + (if old(pending) == map[] then 0 else 1)
        decreases again
      {
        assert Upsert(backend.secrets, map[]) == backend.secrets;
        again := FlushPendingOnce(accepts);
      }
    }
  }

  /** In a batch of distinct keys an entry is listed exactly when the table maps its key to it. */
  lemma {:induction false} TableOfEntry(batch: seq<Entry>, e: Entry)
    requires DistinctKeys(batch)
    ensures (e.key in TableOf(batch) && TableOf(batch)[e.key] == e.row) <==> exists i :: 0 <= i < |batch| && batch[i] == e
    decreases |batch|
  {
    if batch == [] {
    } else {
      var n := |batch| - 1;
      var front := batch[..n];
      TableOfEntry(front, e);
      if i :| 0 <= i < |batch| && batch[i] == e && i < n {
        assert front[i] == e;
      }
      if j :| 0 <= j < |front| && front[j] == e {
        assert batch[j] == e;
      }
      assert batch[n] == e ==> exists i :: 0 <= i < |batch| && batch[i] == e;
    }
  }
}
