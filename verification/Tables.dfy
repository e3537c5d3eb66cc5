/** When the event table that a generator leaves serves the rest of the program. */
module Tables {
  import opened Bundles
  import opened DataFormat
  import opened Generators
  import opened Ring

  /** An event table and its data buffer, filled by the generator of node `id` with these lengths. */
  datatype Filling = Filling(m: Memory, payloads: seq<nat>, data: seq<EventHeader>, id: nat)

  ghost predicate Generated(g: Filling): (filled: bool)
    ensures filled ==> g.m.Cut()
  {
    && 0 < g.m.bulk && 1 < g.m.slots && |g.m.table| == |g.payloads| == g.m.bulk * g.m.slots
    && RECORD_SIZE <= g.m.maxFragment && Drawn(g.payloads, g.m.maxFragment)
    && |g.data| == g.m.maxFragment * |g.m.table| && LaidOut(g.m.table, |g.m.table|, g.payloads, |g.data|)
    && Mirrored(g.m.table, |g.m.table|, g.data, g.id)
  }

  /** What has to be true of the payloads: no multievent starts with one below 8 bytes, and, if the
      maximum is a bare header, none makes up for empty events of earlier ones. */
  predicate Suitable(payloads: seq<nat>, bulk: nat, slots: nat, maxFragment: nat)
    requires |payloads| == bulk * slots
  {
    forall x :: 0 <= x < slots ==> SuitableSlot(payloads, bulk, slots, maxFragment, x)
  }

  predicate SuitableSlot(payloads: seq<nat>, bulk: nat, slots: nat, maxFragment: nat, x: nat)
    requires |payloads| == bulk * slots && x < slots
  {
    MulMono(x, slots, bulk);
    && 0 < bulk && 8 <= payloads[bulk * x]
    && (maxFragment == RECORD_SIZE ==> Spare(payloads, bulk * x) <= Spare(payloads, bulk * x + bulk))
  }

  lemma {:induction false} SumIsBounded(table: seq<EventMetaData>, lo: nat, hi: nat, max: nat)
    requires lo <= hi <= |table| && forall i :: lo <= i < hi ==> table[i].length <= max
    ensures SumLengths(table, lo, hi) <= (hi - lo) * max
    decreases hi
  {
    if lo < hi {
      SumIsBounded(table, lo, hi - 1, max);
      MulMono(hi - lo - 1, hi - lo, max);
    }
  }

  /** A multievent fits in a receive chunk exactly when it does not take bytes saved before it. */
  lemma BundleFitsChunk(g: Filling, x: nat)
    requires Generated(g) && x < g.m.slots
    ensures SumLengths(g.m.table, g.m.Start(x), g.m.Start(x) + g.m.bulk) <= g.m.bulk * g.m.maxFragment
        <==> (g.m.maxFragment == RECORD_SIZE ==>
                Spare(g.payloads, g.m.Start(x)) <= Spare(g.payloads, g.m.Start(x) + g.m.bulk))
  {
    var lo, hi := g.m.Start(x), g.m.Start(x) + g.m.bulk;
    MulMono(RECORD_SIZE, g.m.maxFragment, |g.m.table|);
    if g.m.maxFragment == RECORD_SIZE {
      SumIsExtent(g.m.table, lo, hi);
      SpareIsUnused(g.m.table, g.payloads, lo);
      SpareIsUnused(g.m.table, g.payloads, hi);
    } else {
      forall i | lo <= i < hi
        ensures g.m.table[i].length <= g.m.maxFragment
      {
        LayoutFits(g.m.table, g.payloads, |g.data|, i);
      }
      SumIsBounded(g.m.table, lo, hi, g.m.maxFragment);
    }
  }

  lemma SlotIsOk(g: Filling, x: nat)
    requires Generated(g) && x < g.m.slots
    ensures g.m.SlotOk(x) <==> SuitableSlot(g.payloads, g.m.bulk, g.m.slots, g.m.maxFragment, x)
  {
    MulMono(RECORD_SIZE, g.m.maxFragment, |g.m.table|);
    LayoutFits(g.m.table, g.payloads, |g.data|, g.m.Start(x));
    BundleFitsChunk(g, x);
  }

  /** The table is what the rest of the program needs exactly when the payloads are suitable. */
  lemma TableIsReady(g: Filling)
    requires Generated(g)
    ensures g.m.Ok() <==> Suitable(g.payloads, g.m.bulk, g.m.slots, g.m.maxFragment)
  {
    forall x | 0 <= x < g.m.slots
      ensures g.m.SlotOk(x) <==> SuitableSlot(g.payloads, g.m.bulk, g.m.slots, g.m.maxFragment, x)
    {
      SlotIsOk(g, x);
    }
  }

  /** A multievent can be sent as intended: at its address lies the header of its own first event,
      which is not empty, and it fits in a receive chunk. */
  ghost predicate Serves(m: Memory, data: seq<EventHeader>, id: nat, x: nat)
    requires m.Cut() && x < m.slots
  {
    var first := m.table[m.Start(x)];
    && first.offset < |data| && data[first.offset].length != 0
    && data[first.offset] == EventHeader(m.Start(x), first.length, id)
    && SumLengths(m.table, m.Start(x), m.Start(x) + m.bulk) <= m.bulk * m.maxFragment
  }

  /** Otherwise some multievent cannot be. */
  lemma ReadyIsServing(g: Filling)
    requires Generated(g)
    ensures g.m.Ok() <==> forall x :: 0 <= x < g.m.slots ==> Serves(g.m, g.data, g.id, x)
  {
    forall x | 0 <= x < g.m.slots
      ensures g.m.SlotOk(x) <==> Serves(g.m, g.data, g.id, x)
    {
      assert HeaderAt(g.m.table, |g.m.table|, g.data, g.id, g.m.Start(x));
    }
  }

  /** The header at the start of every multievent is the one of its first event. */
  lemma HeaderIsSent(g: Filling, t: nat)
    requires Generated(g) && g.m.Ok()
    ensures g.m.Base(t) < |g.data|
    ensures g.data[g.m.Base(t)] == EventHeader(g.m.bulk * (t % g.m.slots), g.m.table[g.m.First(t)].length, g.id)
  {
    assert g.m.SlotOk(t % g.m.slots);
    assert HeaderAt(g.m.table, |g.m.table|, g.data, g.id, g.m.First(t));
  }

  // ---- what the check of a builder unit makes of empty events

  /** The first payload at or after `i` that does not give an empty event, or else the last. */
  function FirstFull(payloads: seq<nat>, i: nat): (j: nat)
    requires i < |payloads|
    ensures i <= j < |payloads|
    ensures (forall l :: i <= l < j ==> payloads[l] < 8) && (j == |payloads| - 1 || 8 <= payloads[j])
    decreases |payloads| - i
  {
    if i == |payloads| - 1 || 8 <= payloads[i] then i else FirstFull(payloads, i + 1)
  }

  lemma {:induction false} SurfacingIsFull(g: Filling, i: nat)
    requires Generated(g) && i < |g.payloads|
    ensures Surfacing(g.m.table, |g.m.table|, i) == FirstFull(g.payloads, i)
    ensures g.m.table[FirstFull(g.payloads, i)].length == 0 <==> g.payloads[FirstFull(g.payloads, i)] < 8
    decreases |g.payloads| - i
  {
    MulMono(RECORD_SIZE, g.m.maxFragment, |g.m.table|);
    LayoutFits(g.m.table, g.payloads, |g.data|, i);
    if i < |g.payloads| - 1 && g.payloads[i] < 8 {
      SurfacingIsFull(g, i + 1);
    }
  }

  /** A node sends the header first of the multievent in a slot. */
  ghost predicate Sends(g: Filling, x: nat, h: EventHeader) {
    && Generated(g) && x < g.m.slots
    && g.m.table[g.m.Start(x)].offset < |g.data| && h == g.data[g.m.table[g.m.Start(x)].offset]
  }

  lemma SentIsFull(g: Filling, x: nat, h: EventHeader)
    requires Sends(g, x, h)
    ensures var e := FirstFull(g.payloads, g.m.Start(x)); h.id == e && (h.length != 0 <==> 8 <= g.payloads[e])
  {
    SurfacingIsFull(g, g.m.Start(x));
    assert HeaderAt(g.m.table, |g.m.table|, g.data, g.id, g.m.Start(x));
  }

  /** The first events from `i` on that are not empty have the same number. */
  predicate SameFull(p: seq<nat>, p': seq<nat>, i: nat)
    requires i < |p| && i < |p'|
  {
    FirstFull(p, i) == FirstFull(p', i) && 8 <= p[FirstFull(p, i)]
  }

  /** However many nodes there are, the check of a builder unit succeeds on a multievent exactly when all
      of them have the same first event there that is not empty. */
  lemma CheckOfAllHeaders(gs: seq<Filling>, x: nat, i: nat, fronts: seq<EventHeader>)
    requires 0 < |gs| == |fronts|
    requires forall r :: 0 <= r < |gs| ==> Sends(gs[r], x, fronts[r]) && gs[r].m.Start(x) == i
    ensures SameEvent(fronts) <==> forall r :: 0 <= r < |gs| ==>
              i < |gs[r].payloads| && i < |gs[0].payloads| && SameFull(gs[r].payloads, gs[0].payloads, i)
  {
    forall r | 0 <= r < |gs|
      ensures i < |gs[r].payloads| && fronts[r].id == FirstFull(gs[r].payloads, i)
      ensures fronts[r].length != 0 <==> 8 <= gs[r].payloads[FirstFull(gs[r].payloads, i)]
    {
      SentIsFull(gs[r], x, fronts[r]);
    }
  }

  // ---- addresses

  lemma StartsOrdered(m: Memory, x: nat, y: nat)
    requires m.Cut() && x < y < m.slots
    ensures m.Start(x) + m.bulk <= m.Start(y) && (y == x + 1 ==> m.Start(y) == m.Start(x) + m.bulk)
  {
    MulMono(x, y, m.bulk);
    assert m.Start(x) == x * m.bulk && m.Start(y) == y * m.bulk;
  }

  /** Two slots have the same address exactly when everything from the first up to the second is empty. */
  lemma SharedAddress(g: Filling, x: nat, y: nat)
    requires Generated(g) && x < y < g.m.slots
    ensures SameAddress(g.m, x, y) <==> forall i :: g.m.Start(x) <= i < g.m.Start(y) ==> g.payloads[i] < 8
  {
    MulMono(RECORD_SIZE, g.m.maxFragment, |g.m.table|);
    StartsOrdered(g.m, x, y);
    SharedOffset(g.m.table, g.payloads, |g.data|, g.m.Start(x), g.m.Start(y));
  }

  lemma {:induction false} SharedOffset(table: seq<EventMetaData>, payloads: seq<nat>, dataSize: nat, i: nat, j: nat)
    requires LaidOut(table, |table|, payloads, dataSize) && RECORD_SIZE * |table| <= dataSize && i <= j < |table|
    ensures table[i].offset == table[j].offset <==> forall l :: i <= l < j ==> payloads[l] < 8
    decreases j
  {
    if i < j {
      SharedOffset(table, payloads, dataSize, i, j - 1);
      OffsetsGrow(table, |table|, i, j - 1);
      LayoutFits(table, payloads, dataSize, j - 1);
    }
  }

  /** A multievent in which every event is empty. */
  predicate WhollyEmpty(m: Memory, payloads: seq<nat>, x: nat)
    requires m.Cut() && |payloads| == |m.table| && x < m.slots
  {
    forall i :: m.Start(x) <= i < m.Start(x) + m.bulk ==> payloads[i] < 8
  }

  ghost predicate SameAddress(m: Memory, x: nat, y: nat)
    requires m.Cut() && x < m.slots && y < m.slots
  {
    m.table[m.Start(x)].offset == m.table[m.Start(y)].offset
  }

  lemma SharedWithNext(g: Filling, x: nat)
    requires Generated(g) && x + 1 < g.m.slots
    ensures SameAddress(g.m, x, x + 1) <==> WhollyEmpty(g.m, g.payloads, x)
  {
    StartsOrdered(g.m, x, x + 1);
    SharedAddress(g, x, x + 1);
  }

  lemma SharedIsEmpty(g: Filling, x: nat, y: nat)
    requires Generated(g) && x < y < g.m.slots && SameAddress(g.m, x, y)
    ensures WhollyEmpty(g.m, g.payloads, x)
  {
    StartsOrdered(g.m, x, y);
    SharedAddress(g, x, y);
  }

  /** All multievents of a table have different addresses exactly when none but the last is wholly empty. */
  lemma DistinctAddresses(g: Filling)
    requires Generated(g)
    ensures (forall x, y :: 0 <= x < y < g.m.slots ==> !SameAddress(g.m, x, y))
        <==> forall x :: 0 <= x < g.m.slots - 1 ==> !WhollyEmpty(g.m, g.payloads, x)
  {
    forall x | 0 <= x < g.m.slots - 1
      ensures SameAddress(g.m, x, x + 1) <==> WhollyEmpty(g.m, g.payloads, x)
    {
      SharedWithNext(g, x);
    }
    forall x, y | 0 <= x < y < g.m.slots && SameAddress(g.m, x, y)
      ensures WhollyEmpty(g.m, g.payloads, x)
    {
      SharedIsEmpty(g, x, y);
    }
  }

  // ---- examples

  /** Memory of the given size, filled with events of the given lengths. */
  ghost predicate Fills(g: Filling, payloads: seq<nat>, id: nat, maxFragment: nat, bulk: nat, slots: nat) {
    && g.payloads == payloads && g.id == id
    && g.m.maxFragment == maxFragment && g.m.bulk == bulk && g.m.slots == slots && Generated(g)
  }

  method Fill(payloads: seq<nat>, id: nat, maxFragment: nat, bulk: nat, slots: nat) returns (g: Filling)
    requires 0 < bulk && 1 < slots && |payloads| == bulk * slots && 0 < |payloads|
    requires RECORD_SIZE <= maxFragment && Drawn(payloads, maxFragment)
    requires (maxFragment * |payloads|) % DATA_PADDING == 0
    ensures Fills(g, payloads, id, maxFragment, bulk, slots)
  {
    MulMono(RECORD_SIZE, maxFragment, |payloads|);
    var metadata := new EventMetaData[|payloads|](_ => EventMetaData(0, 0, 0));
    var data := new EventHeader[maxFragment * |payloads|](_ => EventHeader(0, 0, 0));
    var _ := new Generator(payloads, metadata, data, id);
    g := Filling(Memory(metadata[..], maxFragment, bulk, slots), payloads, data[..], id);
  }

  /** Two nodes with multievents of two events; on the second, the first event of all has no payload. */
  method ShortPayloadExample() returns (g: Filling, g': Filling, h: EventHeader, h': EventHeader)
    ensures Fills(g, [8, 8, 8, 8, 8, 8], 0, 48, 2, 3) && Fills(g', [0, 8, 8, 8, 8, 8], 1, 48, 2, 3)
    ensures Sends(g, 0, h) && h == EventHeader(0, 32, 0) && Sends(g', 0, h') && h' == EventHeader(1, 32, 1)
  {
    g := Fill([8, 8, 8, 8, 8, 8], 0, 48, 2, 3);
    g' := Fill([0, 8, 8, 8, 8, 8], 1, 48, 2, 3);
    assert HeaderAt(g.m.table, 6, g.data, 0, 0) && HeaderAt(g'.m.table, 6, g'.data, 1, 0);
    assert g.m.table[0].length == 32 && g'.m.table[0].length == 0 && g'.m.table[1].length == 32;
    h, h' := g.data[g.m.table[0].offset], g'.data[g'.m.table[0].offset];
  }

  /** The check of a builder unit fails on what those two nodes send first. */
  lemma ShortPayloadFails(g: Filling, g': Filling, h: EventHeader, h': EventHeader)
    requires Fills(g, [8, 8, 8, 8, 8, 8], 0, 48, 2, 3) && Fills(g', [0, 8, 8, 8, 8, 8], 1, 48, 2, 3)
    requires Sends(g, 0, h) && Sends(g', 0, h')
    ensures h.id == 0 && h'.id == 1 && !SameEvent([h, h'])
  {
    SentIsFull(g, 0, h);
    SentIsFull(g', 0, h');
    assert FirstFull([8, 8, 8, 8, 8, 8], 0) == 0 && FirstFull([0, 8, 8, 8, 8, 8], 0) == 1;
    assert [h, h'][0].id == 0 && [h, h'][1].id == 1;
  }

  /** With a maximum of a bare header and multievents of four events: three empty events leave room that
      the second multievent takes. */
  method BareHeaderExample() returns (g: Filling)
    ensures Fills(g, [8, 0, 0, 0, 8, 8, 8, 8, 8, 8, 8, 8], 0, RECORD_SIZE, 4, 3)
  {
    g := Fill([8, 0, 0, 0, 8, 8, 8, 8, 8, 8, 8, 8], 0, RECORD_SIZE, 4, 3);
  }

  /** It takes 128 bytes, and the receive chunk has 96. */
  lemma BareHeaderOutgrows(g: Filling)
    requires Fills(g, [8, 0, 0, 0, 8, 8, 8, 8, 8, 8, 8, 8], 0, RECORD_SIZE, 4, 3)
    ensures SumLengths(g.m.table, 4, 8) == 128 && g.m.bulk * g.m.maxFragment == 96 && !g.m.SlotOk(1)
  {
    SpareInExample(g.payloads);
    SumIsExtent(g.m.table, 4, 8);
    SpareIsUnused(g.m.table, g.payloads, 4);
    SpareIsUnused(g.m.table, g.payloads, 8);
    assert g.m.Start(1) == 4;
  }

  lemma SpareInExample(payloads: seq<nat>)
    requires payloads == [8, 0, 0, 0, 8, 8, 8, 8, 8, 8, 8, 8]
    ensures Spare(payloads, 4) == 72 && Spare(payloads, 8) == 40
  {
    assert Spare(payloads, 1) == 0;
    assert Spare(payloads, 2) == 24;
    assert Spare(payloads, 3) == 48;
    assert Spare(payloads, 4) == 72;
    assert Spare(payloads, 5) == 64;
    assert Spare(payloads, 6) == 56;
    assert Spare(payloads, 7) == 48;
  }

  /** A first multievent without any payload has the address of the second. */
  method EmptyMultieventExample() returns (g: Filling)
    ensures Fills(g, [0, 0, 8, 8, 8, 8], 0, 48, 2, 3) && SameAddress(g.m, 0, 1)
  {
    g := Fill([0, 0, 8, 8, 8, 8], 0, 48, 2, 3);
    SharedAddress(g, 0, 1);
  }
}
