/**
 The window arithmetic of pre-key uploads: from the two watermarks (FIRST_UNUPLOAD and
 NEXT_PK_ID) to the window to upload and the range to generate. Casts to `u32` are explicit.
 */
module PreKeyPlan {

  const MAX_PREKEY_ID: nat := 16_777_215
  const MIN_PRE_KEY_COUNT: nat := 5
  const MAX_PRE_KEY_UPLOAD_BATCH: nat := 65_535
  const U32_LIMIT: nat := 0x1_0000_0000

  type U32 = x: nat | x < 0x1_0000_0000

  function AsU32(x: nat): U32 {
    x % U32_LIMIT
  }

  function Max(x: nat, y: nat): nat {
    if x >= y then x else y
  }

  function Min(x: nat, y: nat): nat {
    if x <= y then x else y
  }

  /** The 64-bit candidate, before it is wrapped into the 24-bit range. */
  function RawStart(next: U32, maxStoreId: U32): nat {
    if next > 0 then Max(next, maxStoreId + 1) else maxStoreId + 1
  }

  function StartPreKeyId(next: U32, maxStoreId: U32): U32 {
    AsU32((RawStart(next, maxStoreId) - 1) % MAX_PREKEY_ID + 1)
  }

  datatype Plan = Plan(windowStart: U32, available: U32, genCount: U32, genStart: U32, newNext: U32)

  function FreshWindow(candidate: nat, wanted: nat): Plan {
    var start := if candidate + wanted > MAX_PREKEY_ID + 1 then 1 else candidate;
    Plan(AsU32(start), 0, AsU32(wanted), AsU32(start), AsU32(start + wanted))
  }

  /** The window or the generated range would cross the 24-bit boundary. */
  predicate CrossesBoundary(first: nat, next: nat, wanted: nat)
    requires first <= next
  {
    var genCount := wanted - Min(next - first, wanted);
    first + wanted > MAX_PREKEY_ID + 1 || (genCount > 0 && next + genCount > MAX_PREKEY_ID + 1)
  }

  function PlanPreKeyUpload(firstUnupload: U32, next: U32, maxStoreId: U32, wanted: nat): Plan {
    var first, nextEff := firstUnupload, next;
    if first == 0 || first > nextEff then FreshWindow(StartPreKeyId(next, maxStoreId), wanted)
    else if CrossesBoundary(first, nextEff, wanted) then FreshWindow(1, wanted)
    else
      var available := Min(nextEff - first, wanted);
      var genCount := wanted - available;
      Plan(AsU32(first), AsU32(available), AsU32(genCount), AsU32(nextEff), AsU32(nextEff + genCount))
  }

  function ClampWantedPreKeyCount(n: nat): nat {
    if n < MIN_PRE_KEY_COUNT then MIN_PRE_KEY_COUNT
    else if n > MAX_PRE_KEY_UPLOAD_BATCH then MAX_PRE_KEY_UPLOAD_BATCH
    else n
  }

  /** A batch always fits the upload node's 16-bit list length and the id space, and never sits
      below the server's refill threshold; it is the count in that range nearest to the one asked
      for, and so that count itself if it is in range. */
  lemma ClampIsInRange(n: nat)
    ensures 5 <= ClampWantedPreKeyCount(n) <= 0xFFFF <= MAX_PREKEY_ID
    ensures 5 <= n <= 0xFFFF <==> ClampWantedPreKeyCount(n) == n
    ensures n <= 5 ==> ClampWantedPreKeyCount(n) == 5
    ensures n >= 0xFFFF ==> ClampWantedPreKeyCount(n) == 0xFFFF
  {
  }

  /** An id in range, at or above the counter and past every stored row, unless it wrapped. */
  lemma StartIsFresh(next: U32, maxStoreId: U32)
    ensures 1 <= StartPreKeyId(next, maxStoreId) <= MAX_PREKEY_ID
    ensures RawStart(next, maxStoreId) <= MAX_PREKEY_ID ==>
              && StartPreKeyId(next, maxStoreId) == RawStart(next, maxStoreId)
              && StartPreKeyId(next, maxStoreId) >= next
              && StartPreKeyId(next, maxStoreId) > maxStoreId
    ensures (RawStart(next, maxStoreId) - StartPreKeyId(next, maxStoreId)) % MAX_PREKEY_ID == 0
  {
    var raw := RawStart(next, maxStoreId);
    assert raw - StartPreKeyId(next, maxStoreId) == (raw - 1) / MAX_PREKEY_ID * MAX_PREKEY_ID;
  }

  /** Nothing wraps: no candidate leaves the id range and no window collapses to 1. */
  predicate WrapFree(firstUnupload: U32, next: U32, maxStoreId: U32, wanted: nat) {
    if firstUnupload == 0 || firstUnupload > next then
      RawStart(next, maxStoreId) + wanted <= MAX_PREKEY_ID + 1
    else !CrossesBoundary(firstUnupload, next, wanted)
  }

  lemma FreshWindowShape(candidate: nat, wanted: nat)
    requires 1 <= wanted <= MAX_PREKEY_ID && 1 <= candidate <= MAX_PREKEY_ID
    ensures var p := FreshWindow(candidate, wanted);
            && 1 <= p.windowStart <= MAX_PREKEY_ID + 1 - wanted
            && p.windowStart == (if candidate + wanted > MAX_PREKEY_ID + 1 then 1 else candidate)
            && p.available == 0 && p.genCount == wanted && p.genStart == p.windowStart
            && p.newNext == p.windowStart + wanted
  {
  }

  lemma KeptWindowShape(first: U32, next: U32, maxStoreId: U32, wanted: nat)
    requires 1 <= wanted <= MAX_PREKEY_ID && 0 < first <= next
    requires !CrossesBoundary(first, next, wanted)
    ensures var p := PlanPreKeyUpload(first, next, maxStoreId, wanted);
            && p.windowStart == first && p.genStart == next
            && p.available == Min(next - first, wanted)
            && p.genCount == wanted - Min(next - first, wanted)
            && p.newNext == next + p.genCount
  {
  }

  /** What every plan satisfies, for all watermarks: the window lies in 1..MAX and is covered
      exactly by the leftovers and the generated range, and the counter ends past the window. */
  predicate Covers(p: Plan, wanted: nat) {
    && 1 <= p.windowStart <= MAX_PREKEY_ID + 1 - wanted
    && p.available + p.genCount == wanted
    && p.windowStart + p.available <= p.genStart
    && (p.genCount > 0 ==>
          && p.genStart == p.windowStart + p.available
          && p.newNext == p.windowStart + wanted)
    && p.newNext == p.genStart + p.genCount
    && p.windowStart + wanted <= p.newNext
  }

  /** The counts and sums above are the unbounded ones, so no cast loses a bit. */
  lemma PlanCoversWindow(first: U32, next: U32, maxStoreId: U32, wanted: nat)
    requires 1 <= wanted <= MAX_PREKEY_ID
    ensures Covers(PlanPreKeyUpload(first, next, maxStoreId, wanted), wanted)
  {
    StartIsFresh(next, maxStoreId);
    if first == 0 || first > next {
      FreshWindowShape(StartPreKeyId(next, maxStoreId), wanted);
    } else if CrossesBoundary(first, next, wanted) {
      FreshWindowShape(1, wanted);
    } else {
      KeptWindowShape(first, next, maxStoreId, wanted);
    }
  }

  /** Without a wrap, generation starts at or above the old counter, the counter never regresses
      and the window never moves back; a fresh window also starts past every stored row. */
  lemma PlanIsMonotone(first: U32, next: U32, maxStoreId: U32, wanted: nat)
    requires 1 <= wanted <= MAX_PREKEY_ID && WrapFree(first, next, maxStoreId, wanted)
    ensures var p := PlanPreKeyUpload(first, next, maxStoreId, wanted);
            && p.genStart >= next && p.newNext >= next
            && (if first == 0 || first > next then
                  p.windowStart == p.genStart > maxStoreId && p.genCount == wanted
                else p.windowStart == first && p.genStart == next)
  {
    StartIsFresh(next, maxStoreId);
    if first == 0 || first > next {
      FreshWindowShape(StartPreKeyId(next, maxStoreId), wanted);
    } else {
      KeptWindowShape(first, next, maxStoreId, wanted);
    }
  }

  /** A window that is in use survives a plan exactly when the boundary is not crossed; when it is,
      the collapse is complete: a full batch from 1. For batches an upload can ask for, that is
      also exactly when the counter regresses. */
  lemma CollapseExactly(first: U32, next: U32, maxStoreId: U32, wanted: nat)
    requires 1 <= wanted <= MAX_PREKEY_ID && 0 < first <= next
    ensures var p := PlanPreKeyUpload(first, next, maxStoreId, wanted);
            && (CrossesBoundary(first, next, wanted) <==> !(p.windowStart == first && p.genStart == next))
            && (CrossesBoundary(first, next, wanted) ==>
                  p == Plan(1, 0, wanted, 1, wanted + 1))
            && (wanted <= MAX_PRE_KEY_UPLOAD_BATCH ==>
                  (CrossesBoundary(first, next, wanted) <==> p.newNext < next))
  {
  }

  /** A collapsed window (FIRST at NEXT) always generates a full batch, so the rerun after a
      fully consumed window cannot meet the generate-nothing branch again. */
  lemma CollapsedWindowGenerates(next: U32, maxStoreId: U32, wanted: nat)
    requires 1 <= wanted <= MAX_PREKEY_ID
    ensures PlanPreKeyUpload(next, next, maxStoreId, wanted).genCount == wanted
    ensures PlanPreKeyUpload(next, next, maxStoreId, wanted).available == 0
  {
  }

  // -- The planner in plain arithmetic on ids --

  predicate Has24Bits(id: int) {
    id <= 0xFF_FFFF
  }

  /** Every id of a batch from `start` on has 24 bits. */
  ghost predicate Fits(start: int, count: int) {
    forall id :: start <= id < start + count ==> Has24Bits(id)
  }

  lemma FitsMeaning(start: int, count: int)
    ensures Fits(start, count) <==> count <= 0 || start + count - 1 <= 0xFF_FFFF
  {
    assert Fits(start, count) && 0 < count ==> Has24Bits(start + count - 1);
  }

  /** A window in use is kept, with its leftovers and a batch generated from the counter on, if and
      only if all ids of the window, and all it generates, have 24 bits. Otherwise a full batch
      starts over at 1. */
  lemma WindowKeptIffItFits(first: U32, next: U32, maxStoreId: U32, wanted: nat)
    requires 1 <= wanted <= 0xFF_FFFF && 0 < first <= next
    ensures var p := PlanPreKeyUpload(first, next, maxStoreId, wanted);
            && (p.windowStart == first && p.genStart == next <==> Fits(first, wanted) && Fits(next, first + wanted - next))
            && (if Fits(first, wanted) then
                  && p.available as int == (if next - first < wanted then next - first else wanted)
                  && p.newNext as int == (if next < first + wanted then first + wanted else next)
                else p == Plan(1, 0, wanted, 1, wanted + 1))
  {
    FitsMeaning(first, wanted);
    FitsMeaning(next, first + wanted - next);
    if Fits(first, wanted) {
      KeptWindowShape(first, next, maxStoreId, wanted);
    } else {
      FreshWindowShape(1, wanted);
    }
  }

  /** An id from which a batch would collide with no counter value used, no stored row and no bound. */
  ghost predicate Usable(id: nat, next: U32, maxStoreId: U32, wanted: nat) {
    1 <= id && next <= id && maxStoreId < id && Fits(id, wanted)
  }

  /** Without a window the batch starts at the least usable id, and there is one if and only if the
      batch after counter and stored rows has 24-bit ids. If there is none it starts over at or
      below them: at the due id wrapped into 24 bits, or at 1 if the batch from there does not fit. */
  lemma FreshStartIsLeast(first: U32, next: U32, maxStoreId: U32, wanted: nat)
    requires 1 <= wanted <= 0xFF_FFFF && (first == 0 || first > next)
    ensures var p := PlanPreKeyUpload(first, next, maxStoreId, wanted);
            && p == Plan(p.windowStart, 0, wanted, p.windowStart, p.windowStart + wanted)
            && 1 <= p.windowStart && Fits(p.windowStart, wanted)
            && (forall id: nat :: Usable(id, next, maxStoreId, wanted) ==>
                  Usable(p.windowStart, next, maxStoreId, wanted) && p.windowStart <= id)
            && (Usable(p.windowStart, next, maxStoreId, wanted) <==>
                  Fits(if next > maxStoreId then next else maxStoreId + 1, wanted))
            && p.windowStart == (if Fits(StartPreKeyId(next, maxStoreId), wanted) then StartPreKeyId(next, maxStoreId) else 1)
  {
    var p, raw := PlanPreKeyUpload(first, next, maxStoreId, wanted), RawStart(next, maxStoreId);
    StartIsFresh(next, maxStoreId);
    FreshWindowShape(StartPreKeyId(next, maxStoreId), wanted);
    FitsMeaning(raw, wanted);
    FitsMeaning(p.windowStart, wanted);
    FitsMeaning(StartPreKeyId(next, maxStoreId), wanted);
    forall id: nat | Usable(id, next, maxStoreId, wanted)
      ensures Usable(p.windowStart, next, maxStoreId, wanted) && p.windowStart <= id
    {
      FitsMeaning(id, wanted);
    }
  }

  /** Where the batch a plan is asked for would have to start, in the watermarks and the largest stored id. */
  function DueStart(first: U32, next: U32, maxStoreId: U32): nat {
    if 0 < first <= next then first else if next > maxStoreId then next else maxStoreId + 1
  }

  /** A plan is free of wrapping exactly when the batch that is due has 24-bit ids. */
  lemma WrapFreeIffItFits(first: U32, next: U32, maxStoreId: U32, wanted: nat)
    requires 1 <= wanted
    ensures WrapFree(first, next, maxStoreId, wanted) <==> Fits(DueStart(first, next, maxStoreId), wanted)
  {
    FitsMeaning(DueStart(first, next, maxStoreId), wanted);
  }
}
