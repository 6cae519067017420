/**
 The LID <-> phone number cache: two lookup directions with different update rules (a LID always
 takes the new entry, a phone number only one that is not older), and the pairs known to be
 persisted.
 */
module LidPnCache {
  import opened Options

  datatype Entry = Entry(lid: string, phone: string, createdAt: int, learningSource: nat)

  datatype Cache = Cache(byLid: map<string, Entry>, byPn: map<string, Entry>, persisted: map<string, string>)

  const EMPTY := Cache(map[], map[], map[])

  function CurrentLid(c: Cache, phone: string): Option<string> {
    if phone in c.byPn then Some(c.byPn[phone].lid) else None
  }

  function PhoneNumber(c: Cache, lid: string): Option<string> {
    if lid in c.byLid then Some(c.byLid[lid].phone) else None
  }

  function Add(c: Cache, e: Entry): Cache {
    Cache(
      c.byLid[e.lid := e],
      if e.phone in c.byPn && c.byPn[e.phone].createdAt > e.createdAt then c.byPn else c.byPn[e.phone := e],
      c.persisted)
  }

  function AddAll(c: Cache, es: seq<Entry>): Cache {
    if es == [] then c else Add(AddAll(c, es[..|es| - 1]), es[|es| - 1])
  }

  predicate Resolvable(c: Cache, phone: string, lid: string) {
    CurrentLid(c, phone) == Some(lid) && PhoneNumber(c, lid) == Some(phone)
  }

  predicate CanSkip(c: Cache, phone: string, lid: string) {
    && phone in c.persisted && c.persisted[phone] == lid
    && Resolvable(c, phone, lid)
  }

  class LidPnMaps {
    var lidToEntry: map<string, Entry>
    var pnToEntry: map<string, Entry>
    var persisted: map<string, string>

    function View(): Cache
      reads this
    {
      Cache(lidToEntry, pnToEntry, persisted)
    }

    constructor ()
      ensures View() == EMPTY
    {
      lidToEntry, pnToEntry, persisted := map[], map[], map[];
    }

    method Insert(entry: Entry)
      modifies this
      ensures View() == Add(old(View()), entry)
    {
      var shouldUpdatePn := entry.phone !in pnToEntry || pnToEntry[entry.phone].createdAt <= entry.createdAt;
      lidToEntry := lidToEntry[entry.lid := entry];
      if shouldUpdatePn {
        pnToEntry := pnToEntry[entry.phone := entry];
      }
    }

    method WarmUp(entries: seq<Entry>)
      modifies this
      ensures View() == AddAll(old(View()), entries)
    {
      for i := 0 to |entries|
        invariant View() == AddAll(old(View()), entries[..i])
      {
        assert entries[..i + 1][..i] == entries[..i];
        Insert(entries[i]);
      }
      assert entries[..|entries|] == entries;
    }

    method IsPersisted(phone: string, lid: string) returns (yes: bool)
      ensures yes <==> (phone, lid) in persisted.Items
    {
      yes := phone in persisted && persisted[phone] == lid;
    }

    /** The learn fast path: both directions resolve and the pair is known to be stored. */
    method CanSkipRelearn(phone: string, lid: string) returns (skip: bool)
      ensures skip <==> CanSkip(View(), phone, lid)
    {
      skip := IsPersisted(phone, lid);
      skip := skip && phone in pnToEntry && pnToEntry[phone].lid == lid;
      skip := skip && lid in lidToEntry && lidToEntry[lid].phone == phone;
    }

    method MarkPersisted(phone: string, lid: string)
      modifies this`persisted
      ensures View() == Apply(old(View()), Mark(phone, lid))
    {
      persisted := persisted[phone := lid];
    }

    method Clear()
      modifies this
      ensures View() == Apply(old(View()), Forget)
    {
      lidToEntry, pnToEntry, persisted := map[], map[], map[];
    }
  }

  // -- Resolution --

  /** Entry `i` is the one a phone number should resolve to: no entry for the number is newer, and
      none as new was added later. */
  predicate Wins(es: seq<Entry>, phone: string, i: nat) {
    && i < |es| && es[i].phone == phone
    && forall j :: 0 <= j < |es| && es[j].phone == phone ==>
         es[j].createdAt < es[i].createdAt || (es[j].createdAt == es[i].createdAt && j <= i)
  }

  predicate IsLast(es: seq<Entry>, lid: string, i: nat) {
    && i < |es| && es[i].lid == lid
    && forall j :: i < j < |es| ==> es[j].lid != lid
  }

  predicate Mentions(es: seq<Entry>, phone: string) {
    exists i :: 0 <= i < |es| && es[i].phone == phone
  }

  /** After any adds a phone number resolves to the last-added entry among those with its greatest
      timestamp, and to nothing exactly when no entry names it. */
  lemma {:induction false} PhoneResolvesToWinner(es: seq<Entry>, phone: string) returns (i: nat)
    ensures phone in AddAll(EMPTY, es).byPn <==> Mentions(es, phone)
    ensures Mentions(es, phone) ==> Wins(es, phone, i) && AddAll(EMPTY, es).byPn[phone] == es[i]
  {
    if es == [] {
      i := 0;
    } else {
      var init, n := es[..|es| - 1], |es| - 1;
      i := PhoneResolvesToWinner(init, phone);
      assert Mentions(init, phone) ==> Mentions(es, phone) by {
        if k :| 0 <= k < |init| && init[k].phone == phone {
          assert es[k].phone == phone;
        }
      }
      if es[n].phone == phone && (!Mentions(init, phone) || es[i].createdAt <= es[n].createdAt) {
        assert forall j :: 0 <= j < |init| && es[j].phone == phone ==> init[j].phone == phone;
        i := n;
      }
    }
  }

  /** A LID resolves to the last entry added for it, whatever its timestamp. */
  lemma {:induction false} LidResolvesToLast(es: seq<Entry>, lid: string, i: nat)
    requires IsLast(es, lid, i)
    ensures lid in AddAll(EMPTY, es).byLid && AddAll(EMPTY, es).byLid[lid] == es[i]
  {
    var init := es[..|es| - 1];
    if i < |init| {
      assert IsLast(init, lid, i);
      LidResolvesToLast(init, lid, i);
    }
  }

  /** A LID is known exactly when some entry names it. */
  lemma {:induction false} LidKnownIffNamed(es: seq<Entry>, lid: string) returns (i: nat)
    ensures lid in AddAll(EMPTY, es).byLid <==> IsLast(es, lid, i)
  {
    if es == [] {
      i := 0;
    } else {
      var n := |es| - 1;
      i := LidKnownIffNamed(es[..n], lid);
      if es[n].lid == lid {
        i := n;
      } else {
        assert IsLast(es, lid, i) ==> IsLast(es[..n], lid, i);
        assert IsLast(es[..n], lid, i) ==> IsLast(es, lid, i);
      }
    }
  }

  // -- Order of warm-up --

  /** No entry for the number is newer. */
  predicate Newest(es: seq<Entry>, e: Entry) {
    e in es && forall j :: 0 <= j < |es| && es[j].phone == e.phone ==> es[j].createdAt <= e.createdAt
  }

  /** All newest entries for the number are the same entry. */
  predicate NoTie(es: seq<Entry>, phone: string) {
    forall x, y :: x in es && y in es && x.phone == phone && y.phone == phone && Newest(es, x) && Newest(es, y) ==> x == y
  }

  predicate SameLookup(a: seq<Entry>, b: seq<Entry>, phone: string) {
    var x, y := AddAll(EMPTY, a).byPn, AddAll(EMPTY, b).byPn;
    (phone in x <==> phone in y) && (phone in x ==> x[phone] == y[phone])
  }

  lemma WinnerIsNewest(es: seq<Entry>, phone: string, i: nat)
    requires Wins(es, phone, i)
    ensures Newest(es, es[i])
  {
  }

  lemma PermutationKeepsMembers(a: seq<Entry>, b: seq<Entry>, e: Entry)
    requires multiset(a) == multiset(b)
    ensures e in a <==> e in b
  {
    assert e in multiset(a) <==> e in multiset(b);
  }

  lemma PermutationKeepsNewest(a: seq<Entry>, b: seq<Entry>, e: Entry)
    requires multiset(a) == multiset(b) && Newest(a, e)
    ensures Newest(b, e)
  {
    PermutationKeepsMembers(a, b, e);
    forall j | 0 <= j < |b| && b[j].phone == e.phone
      ensures b[j].createdAt <= e.createdAt
    {
      PermutationKeepsMembers(a, b, b[j]);
    }
  }

  /** Without a tie among a number's newest entries, the order of warm-up does not matter. */
  lemma OrderIrrelevant(a: seq<Entry>, b: seq<Entry>, phone: string)
    requires multiset(a) == multiset(b) && NoTie(a, phone)
    ensures SameLookup(a, b, phone)
  {
    var i := PhoneResolvesToWinner(a, phone);
    var j := PhoneResolvesToWinner(b, phone);
    if Mentions(a, phone) {
      PermutationKeepsMembers(a, b, a[i]);
    }
    if Mentions(b, phone) {
      PermutationKeepsMembers(a, b, b[j]);
      WinnerIsNewest(b, phone, j);
      PermutationKeepsNewest(b, a, b[j]);
    }
    if Mentions(a, phone) && Mentions(b, phone) {
      WinnerIsNewest(a, phone, i);
    }
  }

  function MoveLast(es: seq<Entry>, i: nat): seq<Entry>
    requires i < |es|
  {
    es[..i] + es[i + 1..] + [es[i]]
  }

  lemma MoveLastPermutes(es: seq<Entry>, i: nat)
    requires i < |es|
    ensures multiset(MoveLast(es, i)) == multiset(es)
  {
    assert es == es[..i] + [es[i]] + es[i + 1..];
  }

  /** A newest entry added last is the one the number resolves to. */
  lemma LastNewestWins(es: seq<Entry>, e: Entry)
    requires Newest(es + [e], e)
    ensures AddAll(EMPTY, es + [e]).byPn[e.phone] == e
  {
    var all := es + [e];
    assert all[..|all| - 1] == es;
    var i := PhoneResolvesToWinner(es, e.phone);
    if e.phone in AddAll(EMPTY, es).byPn {
      assert all[i] == es[i];
    }
  }

  /** The condition is exact: warm-up is independent of order for a number exactly when its newest
      entries do not tie. */
  lemma OrderIrrelevantIffNoTie(es: seq<Entry>, phone: string)
    ensures (forall b :: multiset(b) == multiset(es) ==> SameLookup(es, b, phone)) <==> NoTie(es, phone)
  {
    if NoTie(es, phone) {
      forall b | multiset(b) == multiset(es)
        ensures SameLookup(es, b, phone)
      {
        OrderIrrelevant(es, b, phone);
      }
    } else {
      var x, y :| x in es && y in es && x.phone == phone && y.phone == phone && Newest(es, x) && Newest(es, y) && x != y;
      var xs := ResolvingTo(es, x);
      var ys := ResolvingTo(es, y);
      assert !SameLookup(es, xs, phone) || !SameLookup(es, ys, phone);
    }
  }

  /** Any newest entry is what the number resolves to under some order. */
  lemma ResolvingTo(es: seq<Entry>, e: Entry) returns (b: seq<Entry>)
    requires Newest(es, e)
    ensures multiset(b) == multiset(es)
    ensures e.phone in AddAll(EMPTY, b).byPn && AddAll(EMPTY, b).byPn[e.phone] == e
  {
    var i: nat :| i < |es| && es[i] == e;
    b := MoveLast(es, i);
    MoveLastPermutes(es, i);
    PermutationKeepsNewest(es, b, e);
    LastNewestWins(es[..i] + es[i + 1..], e);
  }

  lemma AddTwo(x: Entry, y: Entry)
    ensures AddAll(EMPTY, [x, y]) == Add(Add(EMPTY, x), y)
  {
    assert [x, y][..1] == [x] && [x][..0] == [];
    assert AddAll(EMPTY, [x]) == Add(EMPTY, x);
  }

  /** Tied entries do resolve by order: two identifiers learned for a number at the same time. */
  lemma TieResolvesByOrder(phone: string, at: int, a: string, b: string, source: nat)
    requires a != b
    ensures var x, y := Entry(a, phone, at, source), Entry(b, phone, at, source);
            && multiset([x, y]) == multiset([y, x])
            && AddAll(EMPTY, [x, y]).byPn == map[phone := y]
            && AddAll(EMPTY, [y, x]).byPn == map[phone := x]
            && !SameLookup([x, y], [y, x], phone)
  {
    AddTwo(Entry(a, phone, at, source), Entry(b, phone, at, source));
    AddTwo(Entry(b, phone, at, source), Entry(a, phone, at, source));
  }

  // -- Skipping a relearn --

  ghost predicate SameAnswers(c: Cache, d: Cache) {
    && (forall phone :: CurrentLid(c, phone) == CurrentLid(d, phone))
    && (forall lid :: PhoneNumber(c, lid) == PhoneNumber(d, lid))
  }

  /** Re-adding a pair, with whatever timestamp, leaves every lookup in both directions as it was
      exactly when the pair already resolves in both: what the fast path checks besides storage. */
  lemma RelearnIsIdempotentIffResolvable(c: Cache, phone: string, lid: string)
    ensures (forall t, source :: SameAnswers(c, Add(c, Entry(lid, phone, t, source)))) <==> Resolvable(c, phone, lid)
  {
    if !Resolvable(c, phone, lid) {
      var t := if phone in c.byPn then c.byPn[phone].createdAt else 0;
      var d := Add(c, Entry(lid, phone, t, 0));
      assert CurrentLid(d, phone) == Some(lid) && PhoneNumber(d, lid) == Some(phone);
      assert !SameAnswers(c, d);
    }
  }

  /** The same answers, and the same timestamps behind the numbers. */
  ghost predicate Alike(c: Cache, d: Cache) {
    && c.byPn.Keys == d.byPn.Keys && c.byLid.Keys == d.byLid.Keys
    && (forall phone :: phone in c.byPn ==>
          c.byPn[phone].lid == d.byPn[phone].lid && c.byPn[phone].createdAt == d.byPn[phone].createdAt)
    && (forall lid :: lid in c.byLid ==> c.byLid[lid].phone == d.byLid[lid].phone)
  }

  lemma {:induction false} AlikeForever(c: Cache, d: Cache, es: seq<Entry>)
    requires Alike(c, d)
    ensures Alike(AddAll(c, es), AddAll(d, es))
  {
    if es == [] {
    } else {
      AlikeForever(c, d, es[..|es| - 1]);
    }
  }

  /** The relearned pair's timestamp beats a remapping made at the old one. */
  lemma NewerRelearnMatters(c: Cache, phone: string, lid: string, t: int, source: nat) returns (remap: Entry)
    requires Resolvable(c, phone, lid) && c.byPn[phone].createdAt < t
    ensures !SameAnswers(AddAll(c, [remap]), AddAll(Add(c, Entry(lid, phone, t, source)), [remap]))
  {
    remap := Entry(lid + "0", phone, c.byPn[phone].createdAt, 0);
    var d := Add(c, Entry(lid, phone, t, source));
    assert [remap][..0] == [];
    assert AddAll(c, [remap]) == Add(c, remap) && AddAll(d, [remap]) == Add(d, remap);
    assert CurrentLid(Add(c, remap), phone) == Some(lid + "0");
    assert CurrentLid(Add(d, remap), phone) == Some(lid);
    assert |lid + "0"| != |lid|;
  }

  /** Skipping the relearn of a pair that resolves both ways is invisible now; it stays invisible
      whatever is added later if and only if the skipped timestamp is not newer than the one the
      number has. */
  lemma SkipIsInvisibleIffNotNewer(c: Cache, phone: string, lid: string, t: int, source: nat)
    requires Resolvable(c, phone, lid)
    ensures (forall es :: SameAnswers(AddAll(c, es), AddAll(Add(c, Entry(lid, phone, t, source)), es))) <==>
            t <= c.byPn[phone].createdAt
  {
    var d := Add(c, Entry(lid, phone, t, source));
    if t <= c.byPn[phone].createdAt {
      forall es
        ensures SameAnswers(AddAll(c, es), AddAll(d, es))
      {
        AlikeForever(c, d, es);
      }
    } else {
      var remap := NewerRelearnMatters(c, phone, lid, t, source);
    }
  }

  /** For instance: a pair learned at 1 and seen again at 9, when the fast path skips it, loses its
      number to a remapping made at 5. */
  lemma SkippingKeepsOldTimestamp()
    ensures var c := Cache(map["l" := Entry("l", "p", 1, 0)], map["p" := Entry("l", "p", 1, 0)], map["p" := "l"]);
            var remap := Entry("m", "p", 5, 0);
            && CanSkip(c, "p", "l")
            && CurrentLid(Add(c, remap), "p") == Some("m")
            && CurrentLid(Add(Add(c, Entry("l", "p", 9, 0)), remap), "p") == Some("l")
  {
  }

  // -- Persisted pairs --

  datatype Op = Learn(entry: Entry) | Mark(phone: string, lid: string) | Forget

  function Apply(c: Cache, op: Op): Cache {
    match op
    case Learn(e) => Add(c, e)
    case Mark(phone, lid) => c.(persisted := c.persisted[phone := lid])
    case Forget => EMPTY
  }

  function ApplyAll(ops: seq<Op>): Cache {
    if ops == [] then EMPTY else Apply(ApplyAll(ops[..|ops| - 1]), ops[|ops| - 1])
  }

  /** Operation `i` marked the number, and no mark of it or clear came later. */
  predicate LastMark(ops: seq<Op>, phone: string, lid: string, i: nat) {
    && i < |ops| && ops[i] == Mark(phone, lid)
    && forall j :: i < j < |ops| ==> !ops[j].Forget? && !(ops[j].Mark? && ops[j].phone == phone)
  }

  /** Over every run a pair counts as persisted if and only if the last mark of its number since the
      last clear was for this very LID: a late mark for another LID unmarks it, learning does not. */
  lemma {:induction false} PersistedIffLastMark(ops: seq<Op>, phone: string, lid: string)
    ensures (phone, lid) in ApplyAll(ops).persisted.Items <==> exists i: nat :: LastMark(ops, phone, lid, i)
  {
    if ops == [] {
    } else {
      var init, n := ops[..|ops| - 1], |ops| - 1;
      PersistedIffLastMark(init, phone, lid);
      if ops[n] == Mark(phone, lid) {
        assert LastMark(ops, phone, lid, n);
      }
      if i: nat :| LastMark(ops, phone, lid, i) && i < n {
        assert LastMark(init, phone, lid, i);
      }
      if i: nat :| LastMark(init, phone, lid, i) && !ops[n].Forget? && !(ops[n].Mark? && ops[n].phone == phone) {
        assert LastMark(ops, phone, lid, i);
      }
    }
  }

  /** The entries learned since the last clear, in order. */
  function Learned(ops: seq<Op>): seq<Entry> {
    if ops == [] then []
    else
      match ops[|ops| - 1]
      case Learn(e) => Learned(ops[..|ops| - 1]) + [e]
      case Mark(_, _) => Learned(ops[..|ops| - 1])
      case Forget => []
  }

  /** Over every run, both directions are the warm-up of what was learned since the last clear. */
  lemma {:induction false} LookupsAreLearned(ops: seq<Op>)
    ensures ApplyAll(ops).byLid == AddAll(EMPTY, Learned(ops)).byLid
    ensures ApplyAll(ops).byPn == AddAll(EMPTY, Learned(ops)).byPn
  {
    if ops == [] {
    } else {
      var init, op := ops[..|ops| - 1], ops[|ops| - 1];
      LookupsAreLearned(init);
      if op.Learn? {
        assert (Learned(init) + [op.entry])[..|Learned(init)|] == Learned(init);
      }
    }
  }

  lemma CurrentLidIffNewest(es: seq<Entry>, phone: string, lid: string)
    ensures CurrentLid(AddAll(EMPTY, es), phone) == Some(lid) <==> exists i: nat :: Wins(es, phone, i) && es[i].lid == lid
  {
    var i := PhoneResolvesToWinner(es, phone);
    if n: nat :| Wins(es, phone, n) && es[n].lid == lid {
      assert Mentions(es, phone) && es[i].phone == phone;
      assert n == i;
    }
  }

  lemma PhoneNumberIffLast(es: seq<Entry>, lid: string, phone: string)
    ensures PhoneNumber(AddAll(EMPTY, es), lid) == Some(phone) <==> exists i: nat :: IsLast(es, lid, i) && es[i].phone == phone
  {
    var j := LidKnownIffNamed(es, lid);
    if IsLast(es, lid, j) {
      LidResolvesToLast(es, lid, j);
    }
    if n: nat :| IsLast(es, lid, n) && es[n].phone == phone {
      LidResolvesToLast(es, lid, n);
    }
  }

  /** Over every run a relearn may be skipped if and only if the last mark of the number was for this
      LID, the newest entry for the number names it, and the last entry for the LID names the
      number, all since the last clear. */
  lemma SkipsIffMarkedAndNewest(ops: seq<Op>, phone: string, lid: string)
    ensures CanSkip(ApplyAll(ops), phone, lid) <==>
            && (exists i: nat :: LastMark(ops, phone, lid, i))
            && (exists i: nat :: Wins(Learned(ops), phone, i) && Learned(ops)[i].lid == lid)
            && (exists i: nat :: IsLast(Learned(ops), lid, i) && Learned(ops)[i].phone == phone)
  {
    LookupsAreLearned(ops);
    PersistedIffLastMark(ops, phone, lid);
    CurrentLidIffNewest(Learned(ops), phone, lid);
    PhoneNumberIffLast(Learned(ops), lid, phone);
    var c := ApplyAll(ops);
    assert (phone, lid) in c.persisted.Items <==> phone in c.persisted && c.persisted[phone] == lid;
  }
}
