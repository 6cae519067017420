/**
 The offline receipt buffer with its aggregate flush, and the end-to-end claim: over any number
 of connections every offered message is acknowledged once, with the attributes its own receipt
 would carry, except those a closed outbound scope turned away or a reset discarded.
 */
module OfflineReceipts {
  import opened GroupBy
  import opened Receipts
  import H = OfflineHandoff

  class OfflineReceiptBuffer {
    var completed: bool
    var closed: bool
    var buffer: seq<MessageInfo>

    /** Under the buffer lock: buffered exactly when the sync has not completed. */
    method TryBuffer(info: MessageInfo) returns (buffered: bool)
      modifies this`buffer
      ensures buffered <==> !completed
      ensures buffer == if buffered then old(buffer) + [info] else old(buffer)
    {
      if completed {
        return false;
      }
      buffer := buffer + [info];
      return true;
    }

    /** What the outbound scope does with nodes: it runs their task unless it is closed. */
    method SpawnOutbound(nodes: seq<Node>) returns (sent: seq<Node>)
      ensures sent == if closed then [] else nodes
    {
      sent := if closed then [] else nodes;
    }

    /** A message's receipt: with what it sends and what it buffers, the message is acknowledged now
        or later exactly once, unless it goes out singly and the scope is closed. */
    method SpawnDeliveryReceipt(info: MessageInfo, isOffline: bool, active: bool) returns (sent: seq<Node>)
      modifies this`buffer
      ensures Acknowledged(sent) + Owed(buffer, active) ==
              if closed && (completed || !isOffline) then Owed(old(buffer), active)
              else Owed(old(buffer) + [info], active)
      ensures buffer == if isOffline && !completed then old(buffer) + [info] else old(buffer)
      ensures |sent| == (if closed || (isOffline && !completed) then 0 else 1)
    {
      SinglesAppend(buffer, info, active);
      sent := [];
      var buffered := false;
      if isOffline {
        buffered := TryBuffer(info);
      }
      if !buffered {
        OneReceipt(info, active);
        sent := SpawnOutbound([DeliveryReceiptNode(info, active)]);
      }
    }

    /** The drained batch goes out as aggregate stanzas that acknowledge exactly what the buffered
        messages' own receipts would; a closed scope sends none of them. */
    method FlushOfflineReceipts(active: bool, timestamp: string) returns (sent: seq<Node>)
      modifies this`buffer
      ensures buffer == []
      ensures Acknowledged(sent) == if closed then multiset{} else Owed(old(buffer), active)
      ensures forall i :: 0 <= i < |sent| ==> 1 <= |NodeIds(sent[i])| <= MAX_RECEIPT_IDS_PER_STANZA
      ensures if closed then sent == [] else Aggregated(old(buffer), active, sent)
    {
      var infos := buffer;
      buffer := [];
      var nodes := AggregateBatch(infos, active, timestamp);
      sent := SpawnOutbound(nodes);
    }

    /** Completion: the flag goes up before the drain, and only the first completion drains. */
    method CompleteOfflineSync(active: bool, timestamp: string) returns (sent: seq<Node>)
      modifies this`buffer, this`completed
      ensures completed
      ensures old(completed) ==> sent == [] && buffer == old(buffer)
      ensures !old(completed) ==> buffer == []
      ensures !old(completed) && !closed ==>
                Acknowledged(sent) == Owed(old(buffer), active) && Aggregated(old(buffer), active, sent)
      ensures closed ==> sent == []
    {
      sent := [];
      if !completed {
        completed := true;
        sent := FlushOfflineReceipts(active, timestamp);
      }
    }

    /** Cleanup after a connection; a new connection also reopens the outbound scope. */
    method ResetConnection(reopen: bool)
      modifies this
      ensures !completed && buffer == [] && closed == (old(closed) && !reopen)
    {
      completed := false;
      buffer := [];
      if reopen {
        closed := false;
      }
    }
  }

  /** What stanzas acknowledge, and what the receipts of some messages would. */
  ghost function Acknowledged(nodes: seq<Node>): multiset<Pair> {
    multiset(Expand(nodes))
  }

  ghost function Owed(infos: seq<MessageInfo>, active: bool): multiset<Pair> {
    Acknowledged(Singles(infos, active))
  }

  lemma OneReceipt(info: MessageInfo, active: bool)
    ensures Acknowledged([DeliveryReceiptNode(info, active)]) == multiset{PairBy(active)(info)}
  {
    var one := [DeliveryReceiptNode(info, active)];
    assert one[1..] == [];
    assert Expand(one) == [PairBy(active)(info)];
  }

  lemma SinglesAppend(infos: seq<MessageInfo>, info: MessageInfo, active: bool)
    ensures Owed(infos + [info], active) == Owed(infos, active) + multiset{PairBy(active)(info)}
  {
    SinglesTally(infos, active);
    SinglesTally(infos + [info], active);
    TallySnoc(infos, info, PairBy(active));
  }

  // -- What a set of tasks' receipts acknowledge --

  /** Each task's message, and whether receipts were active when its receipt was built. */
  datatype Message = Message(info: MessageInfo, active: bool)

  function InfosOf(ids: seq<nat>, of: nat -> Message): (infos: seq<MessageInfo>)
    ensures |infos| == |ids|
    ensures forall i :: 0 <= i < |ids| ==> infos[i] == of(ids[i]).info
  {
    seq(|ids|, i requires 0 <= i < |ids| => of(ids[i]).info)
  }

  /** The one-per-message receipts of some tasks. */
  function NodesOf(ids: seq<nat>, of: nat -> Message): (nodes: seq<Node>)
    ensures |nodes| == |ids|
    ensures forall i :: 0 <= i < |ids| ==> nodes[i] == DeliveryReceiptNode(of(ids[i]).info, of(ids[i]).active)
  {
    seq(|ids|, i requires 0 <= i < |ids| => DeliveryReceiptNode(of(ids[i]).info, of(ids[i]).active))
  }

  function PairOf(of: nat -> Message): nat -> Pair {
    (t: nat) => PairBy(of(t).active)(of(t).info)
  }

  lemma {:induction false} NodesTally(ids: seq<nat>, of: nat -> Message)
    ensures multiset(Expand(NodesOf(ids, of))) == Tally(ids, PairOf(of))
  {
    if ids == [] {
    } else {
      var init, last := ids[..|ids| - 1], ids[|ids| - 1];
      NodesTally(init, of);
      var one := [DeliveryReceiptNode(of(last).info, of(last).active)];
      assert NodesOf(ids, of) == NodesOf(init, of) + one;
      ExpandAppend(NodesOf(init, of), one);
      assert Expand(one) == [PairOf(of)(last)] by {
        assert one[1..] == [];
      }
    }
  }

  lemma {:induction false} InfosTally(ids: seq<nat>, of: nat -> Message, active: bool)
    requires forall i :: 0 <= i < |ids| ==> of(ids[i]).active == active
    ensures Tally(InfosOf(ids, of), PairBy(active)) == Tally(ids, PairOf(of))
  {
    if ids == [] {
    } else {
      InfosTally(ids[..|ids| - 1], of, active);
      assert InfosOf(ids, of)[..|ids| - 1] == InfosOf(ids[..|ids| - 1], of);
    }
  }

  lemma {:induction false} TallyAppend<T, P>(a: seq<T>, b: seq<T>, f: T -> P)
    ensures Tally(a + b, f) == Tally(a, f) + Tally(b, f)
  {
    if b == [] {
      assert a + b == a;
    } else {
      var init := b[..|b| - 1];
      assert (a + b)[..|a + b| - 1] == a + init;
      TallyAppend(a, init, f);
    }
  }

  lemma CancelOne<T>(a: multiset<T>, b: multiset<T>, x: T)
    requires a + multiset{x} == b + multiset{x}
    ensures a == b
  {
    assert a == a + multiset{x} - multiset{x};
    assert b == b + multiset{x} - multiset{x};
  }

  lemma {:induction false} TallyPermutes<T, P>(a: seq<T>, b: seq<T>, f: T -> P)
    requires multiset(a) == multiset(b)
    ensures Tally(a, f) == Tally(b, f)
    decreases |a|
  {
    assert |a| == |multiset(a)| == |multiset(b)| == |b|;
    if a == [] {
    } else {
      var init, x := a[..|a| - 1], a[|a| - 1];
      assert a == init + [x];
      assert x in multiset(b);
      var i :| 0 <= i < |b| && b[i] == x;
      var left, right := b[..i], b[i + 1..];
      assert b == left + [x] + right;
      CancelOne(multiset(init), multiset(left + right), x);
      TallyPermutes(init, left + right, f);
      TallyAppend(left, right, f);
      TallyAppend(left + [x], right, f);
      TallySnoc(left, x, f);
    }
  }

  // -- The batches that went out --

  /** One batch as its task sends it: the groups it made, and the activity flag it read. */
  datatype Sending = Sending(groups: seq<ReceiptGroup>, active: bool, timestamp: string)

  ghost predicate Sends(batch: seq<nat>, sending: Sending, of: nat -> Message) {
    && IsGrouping(InfosOf(batch, of), sending.groups, KeyBy(sending.active), IdOf())
    && forall i :: 0 <= i < |batch| ==> of(batch[i]).active == sending.active
  }

  function SentNodes(sendings: seq<Sending>): seq<Node> {
    if sendings == [] then []
    else
      var last := sendings[|sendings| - 1];
      SentNodes(sendings[..|sendings| - 1]) + AllNodes(last.groups, last.active, last.timestamp)
  }

  /** The aggregate stanzas of all batches, each grouped on its own, acknowledge their receipts. */
  lemma {:induction false} BatchesTally(batches: seq<seq<nat>>, sendings: seq<Sending>, of: nat -> Message)
    requires |batches| == |sendings| && forall b :: 0 <= b < |batches| ==> Sends(batches[b], sendings[b], of)
    ensures multiset(Expand(SentNodes(sendings))) == Tally(H.Flat(batches), PairOf(of))
  {
    if batches == [] {
    } else {
      var n := |batches| - 1;
      var batch, last := batches[n], sendings[n];
      BatchesTally(batches[..n], sendings[..n], of);
      assert Sends(batch, last, of);
      AggregationIsLossless(InfosOf(batch, of), last.groups, last.active, last.timestamp);
      SinglesTally(InfosOf(batch, of), last.active);
      InfosTally(batch, of, last.active);
      ExpandAppend(SentNodes(sendings[..n]), AllNodes(last.groups, last.active, last.timestamp));
      TallyAppend(H.Flat(batches[..n]), batch, PairOf(of));
    }
  }

  // -- End to end --

  /** The numbers of the tasks that offered a receipt. */
  function Offers(tasks: seq<H.Task>): (ids: seq<nat>)
    ensures forall t :: t in ids ==> t < |tasks|
  {
    if tasks == [] then []
    else Offers(tasks[..|tasks| - 1]) + (if tasks[|tasks| - 1].role.Offer? then [|tasks| - 1] else [])
  }

  lemma {:induction false} OffersOnce(tasks: seq<H.Task>, t: nat)
    ensures multiset(Offers(tasks))[t] == if t < |tasks| && tasks[t].role.Offer? then 1 else 0
  {
    if tasks == [] {
    } else {
      OffersOnce(tasks[..|tasks| - 1], t);
    }
  }

  /** All offers of a quiet state, by what became of them. */
  function Fates(s: H.State): seq<nat> {
    H.Flat(s.batches) + s.singles + s.lost + s.dropped + s.buffer
  }

  lemma OffersAreAccountedFor(run: seq<H.State>, i: nat)
    requires H.IsRun(run) && i < |run| && H.Quiescent(run[i])
    ensures multiset(Fates(run[i])) == multiset(Offers(run[i].tasks))
  {
    forall t: nat
      ensures multiset(Fates(run[i]))[t] == multiset(Offers(run[i].tasks))[t]
    {
      H.HandoffIsExactlyOnce(run, i, t);
      OffersOnce(run[i].tasks, t);
    }
  }

  lemma FatesTally(s: H.State, f: nat -> Pair)
    ensures Tally(Fates(s), f) ==
            Tally(H.Flat(s.batches), f) + Tally(s.singles, f) + Tally(s.lost, f) + Tally(s.dropped, f) + Tally(s.buffer, f)
  {
    var batches := H.Flat(s.batches);
    TallyAppend(batches, s.singles, f);
    TallyAppend(batches + s.singles, s.lost, f);
    TallyAppend(batches + s.singles + s.lost, s.dropped, f);
    TallyAppend(batches + s.singles + s.lost + s.dropped, s.buffer, f);
  }

  /** End to end, over any number of connections: the aggregate stanzas of the accepted batches, each
      grouped on its own, together with the accepted single receipts and the receipts of the offers
      that were turned away, discarded or are still buffered, acknowledge exactly what one receipt
      per offer would. With the flag up nothing is buffered, without a reset nothing is discarded
      and without a disconnect nothing is turned away; so over one connection that is not cut off
      everything offered is acknowledged exactly once. */
  lemma EveryOfferIsAcknowledgedOnce(run: seq<H.State>, i: nat, of: nat -> Message, sendings: seq<Sending>)
    requires H.IsRun(run) && i < |run| && H.Quiescent(run[i])
    requires |sendings| == |run[i].batches|
    requires forall b :: 0 <= b < |sendings| ==> Sends(run[i].batches[b], sendings[b], of)
    ensures Acknowledged(SentNodes(sendings)) + Acknowledged(NodesOf(run[i].singles, of)) +
            Acknowledged(NodesOf(run[i].lost, of)) + Acknowledged(NodesOf(run[i].dropped, of)) +
            Acknowledged(NodesOf(run[i].buffer, of)) ==
            Acknowledged(NodesOf(Offers(run[i].tasks), of))
    ensures run[i].completed ==> run[i].buffer == []
    ensures H.NoReset(run[i]) ==> run[i].dropped == []
    ensures H.NoDisconnect(run[i]) ==> run[i].lost == []
  {
    var s, f := run[i], PairOf(of);
    BatchesTally(s.batches, sendings, of);
    NodesTally(s.singles, of);
    NodesTally(s.lost, of);
    NodesTally(s.dropped, of);
    NodesTally(s.buffer, of);
    NodesTally(Offers(s.tasks), of);
    OffersAreAccountedFor(run, i);
    FatesTally(s, f);
    TallyPermutes(Fates(s), Offers(s.tasks), f);
    H.HandoffIsExactlyOnce(run, i, 0);
  }
}
