/**
 Delivery receipts: the receipt-level attributes of one message, the grouping of messages
 buffered while offline, and the chunking of each group into aggregate stanzas.
 */
module Receipts {
  import opened GroupBy
  import opened Options

  datatype Server = Pn | Lid | GroupServer | Broadcast | Newsletter | OtherServer(name: string)

  datatype Jid = Jid(user: string, server: Server, agent: nat, device: nat, integrator: nat)

  const STATUS_BROADCAST_USER := "status"
  const MAX_RECEIPT_IDS_PER_STANZA: nat := 256

  predicate IsStatusBroadcast(jid: Jid) {
    jid.server == Broadcast && jid.user == STATUS_BROADCAST_USER
  }

  /** The account a device belongs to. */
  function ToNonAd(jid: Jid): Jid {
    Jid(jid.user, jid.server, 0, 0, jid.integrator)
  }

  datatype Category = Empty | Peer | OtherCategory(name: string)

  datatype Source = Source(chat: Jid, sender: Jid, isFromMe: bool, isGroup: bool, recipient: Option<Jid>)

  datatype MessageInfo = MessageInfo(id: string, category: Category, source: Source)

  predicate IsSelfFanout(s: Source) {
    && s.isFromMe && s.recipient.Some? && !s.isGroup
    && s.chat.server != GroupServer && !IsStatusBroadcast(s.chat) && s.chat.server != Newsletter
  }

  predicate IsGroupLike(info: MessageInfo) {
    info.source.isGroup || IsStatusBroadcast(info.source.chat)
  }

  predicate IsSenderReceipt(info: MessageInfo) {
    IsSelfFanout(info.source) && info.category != Peer
  }

  function DeliveryReceiptType(info: MessageInfo, active: bool): Option<string> {
    if info.category == Peer then Some("peer_msg")
    else if IsSelfFanout(info.source) then Some("sender")
    else if !active && !IsStatusBroadcast(info.source.chat) then Some("inactive")
    else None
  }

  /** Every receipt-level attribute except `id` and `t`. */
  datatype Attrs = Attrs(
    to: Jid,
    receiptType: Option<string>,
    recipient: Option<Jid>,
    participant: Option<Jid>,
    context: Option<string>)

  function DeliveryReceiptAttrs(info: MessageInfo, active: bool): Attrs {
    Attrs(
      to := if IsGroupLike(info) then info.source.chat else info.source.sender,
      receiptType := DeliveryReceiptType(info, active),
      recipient := if IsSenderReceipt(info) then Some(ToNonAd(info.source.recipient.value)) else None,
      participant := if IsGroupLike(info) then Some(info.source.sender) else None,
      context := if IsStatusBroadcast(info.source.chat) then Some("status") else None)
  }

  /** An own direct message synced from another of the account's devices, field by field: not in a
      group, a newsletter or the status chat, and with a recipient. */
  predicate OwnDirectMessage(s: Source) {
    && s.isFromMe && s.recipient != None && !s.isGroup
    && s.chat.server != GroupServer && s.chat.server != Newsletter
    && !(s.chat.server == Broadcast && s.chat.user == "status")
  }

  /** The type of every receipt, decided by the message's fields: one of three strings or none, each
      in exactly its case, and none for every ordinary message of an active account and of the
      status chat. */
  lemma ReceiptTypeExactly(info: MessageInfo, active: bool)
    ensures var t := DeliveryReceiptAttrs(info, active).receiptType;
            var own, peer := OwnDirectMessage(info.source), info.category == Peer;
            var status := info.source.chat.server == Broadcast && info.source.chat.user == "status";
            && (t == Some("peer_msg") <==> peer)
            && (t == Some("sender") <==> own && !peer)
            && (t == Some("inactive") <==> !peer && !own && !active && !status)
            && (t == None <==> !peer && !own && (active || status))
            && t in {None, Some("peer_msg"), Some("sender"), Some("inactive")}
  {
  }

  /** The shape of every receipt: a recipient exactly on sender receipts, the message's own stripped of
      agent and device; a participant exactly where the receipt goes to the chat, and then the
      author; a status context exactly for the status chat. */
  lemma ReceiptShape(info: MessageInfo, active: bool)
    ensures var a := DeliveryReceiptAttrs(info, active);
            var status := info.source.chat.server == Broadcast && info.source.chat.user == "status";
            && (a.recipient.Some? <==> a.receiptType == Some("sender"))
            && (a.recipient.Some? ==> (
                  && info.source.recipient.Some?
                  && a.recipient.value == info.source.recipient.value.(agent := 0, device := 0)))
            && (if info.source.isGroup || status then
                  a.to == info.source.chat && a.participant == Some(info.source.sender)
                else a.to == info.source.sender && a.participant == None)
            && a.context == (if status then Some("status") else None)
            && NodeIds(DeliveryReceiptNode(info, active)) == [info.id] && DeliveryReceiptNode(info, active).t == None
  {
  }

  /** A receipt stanza: its `id` attribute and the ids of its list items. */
  datatype Node = Node(attrs: Attrs, id: string, t: Option<string>, items: seq<string>)

  function NodeIds(node: Node): seq<string> {
    [node.id] + node.items
  }

  function DeliveryReceiptNode(info: MessageInfo, active: bool): Node {
    Node(DeliveryReceiptAttrs(info, active), info.id, None, [])
  }

  // -- What a list of stanzas acknowledges --

  /** One acknowledged message: its receipt attributes and its id. */
  type Pair = (Attrs, string)

  function Pairs(attrs: Attrs, ids: seq<string>): (pairs: seq<Pair>)
    ensures |pairs| == |ids|
    ensures forall i :: 0 <= i < |ids| ==> pairs[i] == (attrs, ids[i])
  {
    seq(|ids|, i requires 0 <= i < |ids| => (attrs, ids[i]))
  }

  function Expand(nodes: seq<Node>): seq<Pair> {
    if nodes == [] then [] else Pairs(nodes[0].attrs, NodeIds(nodes[0])) + Expand(nodes[1..])
  }

  /** What the one-per-message receipts acknowledge. */
  function Singles(infos: seq<MessageInfo>, active: bool): (nodes: seq<Node>)
    ensures |nodes| == |infos|
    ensures forall i :: 0 <= i < |infos| ==> nodes[i] == DeliveryReceiptNode(infos[i], active)
  {
    seq(|infos|, i requires 0 <= i < |infos| => DeliveryReceiptNode(infos[i], active))
  }

  lemma {:induction false} ExpandAppend(a: seq<Node>, b: seq<Node>)
    ensures Expand(a + b) == Expand(a) + Expand(b)
  {
    if a == [] {
      assert a + b == b;
    } else {
      assert (a + b)[1..] == a[1..] + b;
      ExpandAppend(a[1..], b);
    }
  }

  // -- Grouping --

  datatype Key = Key(to: Jid, participant: Option<Jid>, receiptType: Option<string>, recipient: Option<Jid>)

  function KeyOf(info: MessageInfo, active: bool): Key {
    Key(
      to := if IsGroupLike(info) then info.source.chat else info.source.sender,
      participant := if IsGroupLike(info) then Some(info.source.sender) else None,
      receiptType := DeliveryReceiptType(info, active),
      recipient := if IsSenderReceipt(info) then info.source.recipient else None)
  }

  /** Two messages have the same key if and only if their receipts have the same attributes and, on
      sender receipts, they had the same recipient down to the device the receipt drops. So the key
      decides every attribute, `context` too, which it does not hold, and splits no further. */
  lemma KeyDecidesAttrs(a: MessageInfo, b: MessageInfo, active: bool)
    ensures KeyOf(a, active) == KeyOf(b, active) <==>
            && DeliveryReceiptAttrs(a, active) == DeliveryReceiptAttrs(b, active)
            && (DeliveryReceiptAttrs(a, active).recipient.Some? ==> a.source.recipient == b.source.recipient)
  {
  }

  /** The key as a function value, for the statements about grouping. */
  function KeyBy(active: bool): MessageInfo -> Key {
    (info: MessageInfo) => KeyOf(info, active)
  }

  function IdOf(): MessageInfo -> string {
    (info: MessageInfo) => info.id
  }

  /** One buffered-offline delivery group: its first message and the ids it acknowledges. */
  type ReceiptGroup = Group<MessageInfo, string>

  // -- Aggregate stanzas --

  function Chunks(ids: seq<string>): (chunks: seq<seq<string>>)
    ensures forall c :: 0 <= c < |chunks| ==> 1 <= |chunks[c]| <= MAX_RECEIPT_IDS_PER_STANZA
  {
    if ids == [] then []
    else if |ids| <= MAX_RECEIPT_IDS_PER_STANZA then [ids]
    else [ids[..MAX_RECEIPT_IDS_PER_STANZA]] + Chunks(ids[MAX_RECEIPT_IDS_PER_STANZA..])
  }

  function AggregateNodes(rep: MessageInfo, ids: seq<string>, active: bool, timestamp: string): seq<Node> {
    var chunks := Chunks(ids);
    seq(|chunks|, c requires 0 <= c < |chunks| =>
      Node(DeliveryReceiptAttrs(rep, active), chunks[c][0], Some(timestamp), chunks[c][1..]))
  }

  /** Stanza `c` of a group holds the ids from 256 c up to 256 (c + 1), cut off at the end of the
      list, and there is no stanza without ids; so there are as few as the limit allows. Each
      carries the time of the flush. */
  lemma {:induction false} AggregateNodesTile(rep: MessageInfo, ids: seq<string>, active: bool, timestamp: string)
    ensures var nodes := AggregateNodes(rep, ids, active, timestamp);
            && (forall c :: 0 <= c < |nodes| ==> 1 <= |NodeIds(nodes[c])| <= MAX_RECEIPT_IDS_PER_STANZA)
            && (forall c :: 0 <= c < |nodes| - 1 ==> |NodeIds(nodes[c])| == MAX_RECEIPT_IDS_PER_STANZA)
            && (forall c :: 0 <= c < |nodes| ==> nodes[c].t == Some(timestamp))
            && |nodes| == (|ids| + 255) / 256
            && Expand(nodes) == Pairs(DeliveryReceiptAttrs(rep, active), ids)
    decreases |ids|
  {
    var nodes := AggregateNodes(rep, ids, active, timestamp);
    var attrs := DeliveryReceiptAttrs(rep, active);
    assert forall c :: 0 <= c < |nodes| ==> NodeIds(nodes[c]) == Chunks(ids)[c];
    if |ids| > MAX_RECEIPT_IDS_PER_STANZA {
      var rest := ids[MAX_RECEIPT_IDS_PER_STANZA..];
      AggregateNodesTile(rep, rest, active, timestamp);
      assert nodes[1..] == AggregateNodes(rep, rest, active, timestamp);
      assert NodeIds(nodes[0]) == ids[..MAX_RECEIPT_IDS_PER_STANZA];
      assert Pairs(attrs, ids) == Pairs(attrs, ids[..MAX_RECEIPT_IDS_PER_STANZA]) + Pairs(attrs, rest);
    } else if ids != [] {
      assert nodes[1..] == [];
    }
  }

  function AllNodes(groups: seq<ReceiptGroup>, active: bool, timestamp: string): seq<Node> {
    if groups == [] then []
    else
      var last := groups[|groups| - 1];
      AllNodes(groups[..|groups| - 1], active, timestamp) + AggregateNodes(last.rep, last.ids, active, timestamp)
  }

  // -- Lossless aggregation --

  lemma {:induction false} ExpandSingles(infos: seq<MessageInfo>, attrs: Attrs, active: bool)
    requires forall i :: 0 <= i < |infos| ==> DeliveryReceiptAttrs(infos[i], active) == attrs
    ensures Expand(Singles(infos, active)) == Pairs(attrs, Ids(infos, IdOf()))
  {
    if infos == [] {
    } else {
      ExpandSingles(infos[1..], attrs, active);
      assert Singles(infos, active)[1..] == Singles(infos[1..], active);
    }
  }

  function PairBy(active: bool): MessageInfo -> Pair {
    (info: MessageInfo) => (DeliveryReceiptAttrs(info, active), info.id)
  }

  lemma SinglesSnoc(infos: seq<MessageInfo>, info: MessageInfo, active: bool)
    ensures Expand(Singles(infos + [info], active)) == Expand(Singles(infos, active)) + [PairBy(active)(info)]
  {
    var one := [DeliveryReceiptNode(info, active)];
    assert Singles(infos + [info], active) == Singles(infos, active) + one;
    ExpandAppend(Singles(infos, active), one);
    assert Expand(one) == [PairBy(active)(info)] by {
      assert one[1..] == [];
    }
  }

  lemma {:induction false} SinglesTally(infos: seq<MessageInfo>, active: bool)
    ensures multiset(Expand(Singles(infos, active))) == Tally(infos, PairBy(active))
  {
    if infos == [] {
    } else {
      var init, last := infos[..|infos| - 1], infos[|infos| - 1];
      assert infos == init + [last];
      SinglesTally(init, active);
      SinglesSnoc(init, last, active);
    }
  }

  /** One group's stanzas acknowledge what the single receipts of its messages would, in order. */
  lemma GroupAcknowledges(infos: seq<MessageInfo>, group: ReceiptGroup, active: bool, timestamp: string)
    requires Holds(infos, group, KeyBy(active), IdOf())
    ensures Expand(AggregateNodes(group.rep, group.ids, active, timestamp)) ==
            Expand(Singles(Select(infos, KeyOf(group.rep, active), KeyBy(active)), active))
  {
    var k := KeyOf(group.rep, active);
    var members := Select(infos, k, KeyBy(active));
    SelectMembers(infos, k, KeyBy(active));
    forall i | 0 <= i < |members|
      ensures DeliveryReceiptAttrs(members[i], active) == DeliveryReceiptAttrs(group.rep, active)
    {
      KeyDecidesAttrs(members[i], group.rep, active);
    }
    ExpandSingles(members, DeliveryReceiptAttrs(group.rep, active), active);
    AggregateNodesTile(group.rep, group.ids, active, timestamp);
  }

  /** Whatever the messages, the aggregate stanzas of their groups acknowledge exactly what the
      one-per-message receipts would: the same attributes for the same ids, each as often. */
  lemma {:induction false} AggregationIsLossless(
    infos: seq<MessageInfo>, groups: seq<ReceiptGroup>, active: bool, timestamp: string)
    requires IsGrouping(infos, groups, KeyBy(active), IdOf())
    ensures multiset(Expand(AllNodes(groups, active, timestamp))) == multiset(Expand(Singles(infos, active)))
    decreases |groups|
  {
    if groups == [] {
      assert forall i :: 0 <= i < |infos| ==> HasGroup(groups, KeyBy(active)(infos[i]), KeyBy(active));
    } else {
      var init, last := groups[..|groups| - 1], groups[|groups| - 1];
      var k := KeyOf(last.rep, active);
      RestIsGrouped(infos, groups, KeyBy(active), IdOf());
      AggregationIsLossless(Reject(infos, k, KeyBy(active)), init, active, timestamp);
      TallySplits(infos, k, KeyBy(active), PairBy(active));
      SinglesTally(infos, active);
      SinglesTally(Select(infos, k, KeyBy(active)), active);
      SinglesTally(Reject(infos, k, KeyBy(active)), active);
      GroupAcknowledges(infos, last, active, timestamp);
      ExpandAppend(AllNodes(init, active, timestamp), AggregateNodes(last.rep, last.ids, active, timestamp));
    }
  }

  /** How many stanzas one group after another takes. */
  function StanzasFor(groups: seq<ReceiptGroup>): nat {
    if groups == [] then 0 else StanzasFor(groups[..|groups| - 1]) + (|groups[|groups| - 1].ids| + 255) / 256
  }

  /** The stanzas are those of the groups, each group's as few as possible. */
  ghost predicate Aggregated(infos: seq<MessageInfo>, active: bool, sent: seq<Node>) {
    exists groups: seq<ReceiptGroup> :: IsGrouping(infos, groups, KeyBy(active), IdOf()) && |sent| == StanzasFor(groups)
  }

  /** All stanzas of a list of groups are within the limit, carry the time and are as few as possible. */
  lemma {:induction false} AllNodesTile(groups: seq<ReceiptGroup>, active: bool, timestamp: string)
    ensures var nodes := AllNodes(groups, active, timestamp);
            && |nodes| == StanzasFor(groups)
            && forall i :: 0 <= i < |nodes| ==>
                 nodes[i].t == Some(timestamp) && 1 <= |NodeIds(nodes[i])| <= MAX_RECEIPT_IDS_PER_STANZA
    decreases |groups|
  {
    if groups == [] {
    } else {
      var init, last := groups[..|groups| - 1], groups[|groups| - 1];
      AllNodesTile(init, active, timestamp);
      AggregateNodesTile(last.rep, last.ids, active, timestamp);
      assert AllNodes(groups, active, timestamp) ==
             AllNodes(init, active, timestamp) + AggregateNodes(last.rep, last.ids, active, timestamp);
    }
  }

  /** The body of the flush task: the stanzas sent for one drained batch. */
  method AggregateBatch(infos: seq<MessageInfo>, active: bool, timestamp: string) returns (sent: seq<Node>)
    ensures Aggregated(infos, active, sent)
    ensures multiset(Expand(sent)) == multiset(Expand(Singles(infos, active)))
    ensures forall i :: 0 <= i < |sent| ==>
              sent[i].t == Some(timestamp) && 1 <= |NodeIds(sent[i])| <= MAX_RECEIPT_IDS_PER_STANZA
  {
    var groups := GroupItems(infos, KeyBy(active), IdOf());
    sent := [];
    for g := 0 to |groups|
      invariant sent == AllNodes(groups[..g], active, timestamp)
    {
      assert groups[..g + 1][..g] == groups[..g];
      sent := sent + AggregateNodes(groups[g].rep, groups[g].ids, active, timestamp);
    }
    assert groups[..|groups|] == groups;
    AllNodesTile(groups, active, timestamp);
    AggregationIsLossless(infos, groups, active, timestamp);
  }
}
