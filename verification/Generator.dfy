/** The event generator: a fixed table of events laid out once, then handed out over and over. */
module Generators {
  import opened Buffers
  import opened DataFormat
  import opened Ring

  const DATA_PADDING: nat := 32

  /** Size of an event with this payload, rounded down to the padding. */
  function RoundedSize(payload: nat): nat {
    var size := RECORD_SIZE + payload;
    size - size % DATA_PADDING
  }

  lemma RoundedSizeFacts(payload: nat)
    ensures RoundedSize(payload) % 8 == 0
    ensures RoundedSize(payload) == 0 <==> payload < 8
    ensures RoundedSize(payload) != 0 ==> DATA_PADDING <= RoundedSize(payload) <= RECORD_SIZE + payload
  {
    var size := RECORD_SIZE + payload;
    var units, rest := size / DATA_PADDING, size % DATA_PADDING;
    assert size == units * DATA_PADDING + rest;
    assert RoundedSize(payload) == units * DATA_PADDING == (4 * units) * 8;
    ModShift(0, 4 * units, 8);
  }

  /** The size is cut down to a bare header when the rest of the table would not fit any more. */
  function EventSize(payload: nat, dataAvailable: nat, recordsAvailable: nat): nat
    requires 0 < recordsAvailable
  {
    if dataAvailable < RoundedSize(payload) + (recordsAvailable - 1) * RECORD_SIZE then
      RECORD_SIZE
    else
      RoundedSize(payload)
  }

  /** The first `count` records of the table are those of events with the given payloads. */
  ghost predicate LaidOut(table: seq<EventMetaData>, count: nat, payloads: seq<nat>, dataSize: nat) {
    && |table| <= |payloads|
    && BackToBack(table, count)
    && forall i :: 0 <= i < count ==>
         && table[i].offset <= dataSize
         && table[i].length == EventSize(payloads[i], dataSize - table[i].offset, |table| - i)
  }

  /** Of the events up to `count`, the one whose header is found where event `i` starts: the first at
      or after it that is not empty, or else the last. */
  function Surfacing(table: seq<EventMetaData>, count: nat, i: nat): (j: nat)
    requires i < count <= |table|
    ensures i <= j < count && (table[j].length != 0 || j == count - 1)
    ensures forall l :: i <= l < j ==> table[l].length == 0
    decreases count - i
  {
    if i == count - 1 || table[i].length != 0 then i else Surfacing(table, count, i + 1)
  }

  /** What lies at the offset of each record. An empty event has no extent of its own, so its header
      is lost to the next one. */
  ghost predicate Mirrored(table: seq<EventMetaData>, count: nat, data: seq<EventHeader>, id: nat)
    requires count <= |table|
  {
    forall i :: 0 <= i < count ==> HeaderAt(table, count, data, id, i)
  }

  ghost predicate HeaderAt(table: seq<EventMetaData>, count: nat, data: seq<EventHeader>, id: nat, i: nat)
    requires i < count <= |table|
  {
    var j := Surfacing(table, count, i);
    table[i].offset < |data| && data[table[i].offset] == EventHeader(j, table[j].length, id)
  }

  /** Where the event after the first `count` starts. */
  function End(table: seq<EventMetaData>, count: nat): nat
    requires count <= |table|
  {
    if count == 0 then 0 else table[count - 1].offset + table[count - 1].length
  }

  /** Room for a bare header for every event still to come is never given away. */
  ghost predicate Underway(table: seq<EventMetaData>, count: nat, payloads: seq<nat>, data: seq<EventHeader>, id: nat) {
    && LaidOut(table, count, payloads, |data|)
    && Mirrored(table, count, data, id)
    && End(table, count) + RECORD_SIZE * (|table| - count) <= |data|
  }

  /** All events before the surfacing one start where it starts. */
  lemma {:induction false} SameStart(table: seq<EventMetaData>, count: nat, i: nat)
    requires BackToBack(table, count) && i < count
    ensures table[Surfacing(table, count, i)].offset == table[i].offset
    decreases count - i
  {
    if i < count - 1 && table[i].length == 0 {
      SameStart(table, count, i + 1);
      assert table[i + 1].offset == table[i + 1 - 1].offset + table[i + 1 - 1].length;
    }
  }

  /** A new record takes over from a surfacing event that is empty. */
  lemma {:induction false} SurfacingNext(table: seq<EventMetaData>, count: nat, r: EventMetaData, i: nat)
    requires i <= count < |table|
    ensures var next := Surfacing(table[count := r], count + 1, i);
            if i < count && table[Surfacing(table, count, i)].length != 0 then
              next == Surfacing(table, count, i)
            else
              next == count
    decreases count - i
  {
    if i < count && table[i].length == 0 {
      SurfacingNext(table, count, r, i + 1);
    }
  }

  lemma MirrorOne(table: seq<EventMetaData>, count: nat, data: seq<EventHeader>, id: nat, r: EventMetaData)
    requires BackToBack(table, count) && count < |table| && Mirrored(table, count, data, id)
    requires r.offset == End(table, count) < |data|
    ensures Mirrored(table[count := r], count + 1, data[r.offset := EventHeader(count, r.length, id)], id)
  {
    var next, table', data' := count + 1, table[count := r], data[r.offset := EventHeader(count, r.length, id)];
    forall i | 0 <= i < next
      ensures HeaderAt(table', next, data', id, i)
    {
      SurfacingNext(table, count, r, i);
      if i < count {
        assert HeaderAt(table, count, data, id, i);
        var j := Surfacing(table, count, i);
        SameStart(table, count, i);
        OffsetsGrow(table, count, j, count - 1);
      }
    }
  }

  lemma LayOutOne(table: seq<EventMetaData>, count: nat, placed: nat, payloads: seq<nat>, data: seq<EventHeader>,
                  id: nat, r: EventMetaData)
    requires placed == count + 1
    requires Underway(table, count, payloads, data, id) && count < |table|
    requires r.id == count && r.offset == End(table, count)
    requires r.length == EventSize(payloads[count], |data| - r.offset, |table| - count)
    ensures r.offset < |data|
    ensures r.offset + r.length + RECORD_SIZE * (|table| - count - 1) <= |data|
    ensures Underway(table[count := r], placed, payloads, data[r.offset := EventHeader(count, r.length, id)], id)
  {
    MirrorOne(table, count, data, id, r);
    assert LaidOut(table[count := r], count + 1, payloads, |data|);
  }

  /** The space taken is a multiple of the padding, or a bare header; where the headers still to come
      had room before, they have room after; and the event is empty exactly for a payload below 8. */
  method ChooseSize(payload: nat, dataAvailable: nat, recordsAvailable: nat) returns (eventSize: nat)
    requires 0 < recordsAvailable
    ensures eventSize == EventSize(payload, dataAvailable, recordsAvailable)
    ensures var m := (24 + payload) / 32 * 32;
            eventSize == if m + 24 * (recordsAvailable - 1) <= dataAvailable then m else 24
    ensures RECORD_SIZE * recordsAvailable <= dataAvailable ==>
              && eventSize + RECORD_SIZE * (recordsAvailable - 1) <= dataAvailable
              && (eventSize == 0 <==> payload < 8) && eventSize % 8 == 0
              && (eventSize != 0 ==> RECORD_SIZE <= eventSize <= RECORD_SIZE + payload)
  {
    SizeIsExact(payload, dataAvailable, recordsAvailable);
    if RECORD_SIZE * recordsAvailable <= dataAvailable {
      EventSizeFacts(payload, dataAvailable, recordsAvailable);
    }
    eventSize := RECORD_SIZE + payload;
    eventSize := eventSize - eventSize % DATA_PADDING;
    if dataAvailable < eventSize + (recordsAvailable - 1) * RECORD_SIZE {
      eventSize := RECORD_SIZE;
    }
  }

  /** Constructs a record and its header at the write cursors, then claims their space unless that
      would fill the table; returns the offset that follows. */
  method PlaceEvent(buffer: Buffer, dataBuffer: Buffer, metadata: array<EventMetaData>, data: array<EventHeader>,
                    r: EventMetaData, id: nat)
    returns (next: nat)
    requires buffer != dataBuffer && buffer.Valid() && dataBuffer.Valid()
    requires buffer.size == metadata.Length && dataBuffer.size == data.Length
    requires buffer.nextRead == 0 && dataBuffer.nextRead == 0 && r.offset == dataBuffer.nextWrite
    requires buffer.Available() != 1 ==> r.length < dataBuffer.Available()
    modifies buffer, dataBuffer, metadata, data
    ensures buffer.Valid() && dataBuffer.Valid() && buffer.nextRead == 0 && dataBuffer.nextRead == 0
    ensures metadata[..] == old(metadata[..])[old(buffer.nextWrite) := r]
    ensures data[..] == old(data[..])[r.offset := EventHeader(r.id, r.length, id)]
    ensures if old(buffer.Available()) == 1 then
              buffer.nextWrite == old(buffer.nextWrite)
            else
              buffer.nextWrite == old(buffer.nextWrite) + 1 && next == dataBuffer.nextWrite == r.offset + r.length
  {
    metadata[buffer.nextWrite] := r;
    data[dataBuffer.nextWrite] := EventHeader(r.id, metadata[buffer.nextWrite].length, id);
    if buffer.Available() != 1 {
      buffer.Reserve(1);
      dataBuffer.Reserve(r.length);
      CursorStep(r.offset, r.length, dataBuffer.size);
    }
    next := (r.offset + r.length) % dataBuffer.size;
  }

  /** Between two rounds of the layout loop: the cursors stand behind what has been laid out, except
      that the last record is not claimed. */
  ghost predicate Between(buffer: Buffer, dataBuffer: Buffer, metadata: array<EventMetaData>, data: array<EventHeader>,
                          payloads: seq<nat>, id: nat, count: nat, offset: nat)
    reads buffer, dataBuffer, metadata, data
  {
    && buffer.Valid() && dataBuffer.Valid() && buffer.nextRead == dataBuffer.nextRead == 0
    && buffer.size == metadata.Length && dataBuffer.size == data.Length && count <= metadata.Length <= |payloads|
    && buffer.nextWrite == (if count < metadata.Length then count else metadata.Length - 1)
    && (count < metadata.Length ==> dataBuffer.nextWrite == offset == End(metadata[..], count))
    && Underway(metadata[..], count, payloads, data[..], id)
  }

  /** One round of the layout loop. */
  method LayOutNext(buffer: Buffer, dataBuffer: Buffer, metadata: array<EventMetaData>, data: array<EventHeader>,
                    payloads: seq<nat>, id: nat, count: nat, offset: nat)
    returns (metadataAvail: bool, placed: nat, next: nat)
    requires buffer != dataBuffer && Between(buffer, dataBuffer, metadata, data, payloads, id, count, offset)
    requires count < metadata.Length
    modifies buffer, dataBuffer, metadata, data
    ensures placed == count + 1 && Between(buffer, dataBuffer, metadata, data, payloads, id, placed, next)
    ensures metadataAvail == (placed < metadata.Length)
  {
    var eventSize := ChooseSize(payloads[count], dataBuffer.Available(), buffer.Available());
    metadataAvail := buffer.Available() != 1;
    var record := EventMetaData(count, eventSize, offset);
    placed := count + 1;
    LayOutOne(metadata[..], count, placed, payloads, data[..], id, record);
    next := PlaceEvent(buffer, dataBuffer, metadata, data, record, id);
  }

  /** The layout loop, with the records and headers it leaves behind. */
  method LayOut(buffer: Buffer, payloads: seq<nat>, metadata: array<EventMetaData>, data: array<EventHeader>, id: nat)
    requires buffer.Valid() && buffer.nextRead == buffer.nextWrite == 0
    requires buffer.size == metadata.Length <= |payloads|
    requires RECORD_SIZE * metadata.Length <= data.Length
    modifies buffer, metadata, data
    ensures buffer.Valid() && buffer.nextRead == buffer.nextWrite == metadata.Length - 1
    ensures LaidOut(metadata[..], metadata.Length, payloads, data.Length)
    ensures Mirrored(metadata[..], metadata.Length, data[..], id)
  {
    var dataBuffer := new Buffer(data.Length);
    var eventsCounter, offset := 0, 0;
    var metadataAvail := true;
    while metadataAvail
      invariant Between(buffer, dataBuffer, metadata, data, payloads, id, eventsCounter, offset) && fresh(dataBuffer)
      invariant metadataAvail == (eventsCounter < metadata.Length)
      decreases metadata.Length - eventsCounter
    {
      metadataAvail, eventsCounter, offset :=
        LayOutNext(buffer, dataBuffer, metadata, data, payloads, id, eventsCounter, offset);
    }
    buffer.Release(buffer.Ready());
    dataBuffer.Release(dataBuffer.Ready());
  }

  class Generator {
    const id: nat
    const buffer: Buffer

    ghost predicate Valid()
      reads this, buffer
    {
      buffer.Valid()
    }

    /** Lays out one event per metadata record. `payloads` are the successive draws of the length
        generator; entry `o` of `data` is the header that starts at byte `o`. */
    constructor (payloads: seq<nat>, metadata: array<EventMetaData>, data: array<EventHeader>, id: nat)
      requires 0 < metadata.Length <= |payloads|
      requires RECORD_SIZE * metadata.Length <= data.Length && data.Length % DATA_PADDING == 0
      modifies metadata, data
      ensures Valid() && fresh(buffer) && this.id == id
      ensures buffer.size == metadata.Length
      ensures buffer.nextRead == buffer.nextWrite == metadata.Length - 1
      ensures LaidOut(metadata[..], metadata.Length, payloads, data.Length)
      ensures Mirrored(metadata[..], metadata.Length, data[..], id)
      ensures metadata[0].offset == 0 && forall i :: 0 <= i < metadata.Length ==> metadata[i].id == i
      ensures forall i :: 0 < i < metadata.Length ==>
                metadata[i].offset == metadata[i - 1].offset + metadata[i - 1].length
      ensures forall i :: 0 <= i < metadata.Length ==>
                var m := (24 + payloads[i]) / 32 * 32;
                metadata[i].length
                == if metadata[i].offset + m + 24 * (metadata.Length - 1 - i) <= data.Length then m else 24
      ensures forall i :: 0 <= i < metadata.Length && metadata[i].length != 0 ==>
                metadata[i].offset < data.Length
                && data[metadata[i].offset] == EventHeader(i, metadata[i].length, id)
    {
      this.id := id;
      buffer := new Buffer(metadata.Length);
      new;
      LayOut(buffer, payloads, metadata, data, id);
      LayoutIsExact(metadata[..], payloads, data[..], id);
    }

    method ReleaseEvents(n: nat)
      requires Valid() && n <= buffer.Ready()
      modifies buffer
      ensures Valid() && buffer.nextWrite == old(buffer.nextWrite)
      ensures buffer.nextRead == Turn(old(buffer.nextRead) + n, buffer.size)
      ensures buffer.Ready() == old(buffer.Ready()) - n
    {
      if n != 0 {
        buffer.Release(n - 1);
        buffer.Release(1);
      }
    }

    /** As many events as asked for and as one unused slot allows. */
    method GenerateEvents(n: nat) returns (count: nat)
      requires Valid()
      modifies buffer
      ensures Valid() && buffer.nextRead == old(buffer.nextRead)
      ensures count == if n <= buffer.size - 1 - old(buffer.Ready()) then n else buffer.size - 1 - old(buffer.Ready())
      ensures buffer.nextWrite == Turn(old(buffer.nextWrite) + count, buffer.size)
      ensures buffer.Ready() == old(buffer.Ready()) + count
    {
      count := if n <= buffer.Available() - 1 then n else buffer.Available() - 1;
      if count != 0 {
        buffer.Reserve(count - 1);
        buffer.Reserve(1);
      }
    }
  }

  /** The size, without its rounding: the largest multiple of 32 within header and payload, if that leaves
      24 bytes for each header still to come, and a bare header if not. */
  lemma SizeIsExact(payload: nat, dataAvailable: nat, recordsAvailable: nat)
    requires 0 < recordsAvailable
    ensures var m := (24 + payload) / 32 * 32;
            && m <= 24 + payload < m + 32
            && EventSize(payload, dataAvailable, recordsAvailable)
               == if m + 24 * (recordsAvailable - 1) <= dataAvailable then m else 24
  {
  }

  lemma EventSizeFacts(payload: nat, dataAvailable: nat, recordsAvailable: nat)
    requires 0 < recordsAvailable && RECORD_SIZE * recordsAvailable <= dataAvailable
    ensures var size, most := EventSize(payload, dataAvailable, recordsAvailable), (24 + payload) / 32 * 32;
            && size == (if most + 24 * (recordsAvailable - 1) <= dataAvailable then most else 24)
            && size % 8 == 0
            && size + RECORD_SIZE * (recordsAvailable - 1) <= dataAvailable
            && (size == 0 <==> payload < 8)
            && (size != 0 ==> RECORD_SIZE <= size <= RECORD_SIZE + payload)
  {
    RoundedSizeFacts(payload);
  }

  /** Every event ends inside the data range with room to spare for the headers after it, starts
      on an 8-byte boundary, and is empty exactly when its payload is shorter than 8 bytes. */
  lemma {:induction false} LayoutFits(table: seq<EventMetaData>, payloads: seq<nat>, dataSize: nat, i: nat)
    requires LaidOut(table, |table|, payloads, dataSize) && i < |table|
    requires RECORD_SIZE * |table| <= dataSize
    ensures table[i].offset + table[i].length + RECORD_SIZE * (|table| - 1 - i) <= dataSize
    ensures table[i].offset % 8 == 0 && table[i].length % 8 == 0
    ensures table[i].length == 0 <==> payloads[i] < 8
    ensures table[i].length != 0 ==> RECORD_SIZE <= table[i].length <= RECORD_SIZE + payloads[i]
    ensures var m := (24 + payloads[i]) / 32 * 32;
            table[i].length == if table[i].offset + m + 24 * (|table| - 1 - i) <= dataSize then m else 24
  {
    SizeIsExact(payloads[i], dataSize - table[i].offset, |table| - i);
    var here, left := table[i].offset, |table| - i;
    if i == 0 {
      assert here == 0;
    } else {
      LayoutFits(table, payloads, dataSize, i - 1);
      var before := table[i - 1];
      assert here == before.offset + before.length;
      SumOfEights(before.offset, before.length);
    }
    assert here + RECORD_SIZE * left <= dataSize;
    EventSizeFacts(payloads[i], dataSize - here, left);
  }

  /** Records and headers of a layout, event by event. */
  lemma LayoutIsExact(table: seq<EventMetaData>, payloads: seq<nat>, data: seq<EventHeader>, id: nat)
    requires LaidOut(table, |table|, payloads, |data|) && Mirrored(table, |table|, data, id)
    requires RECORD_SIZE * |table| <= |data|
    ensures forall i :: 0 <= i < |table| ==>
              var m := (24 + payloads[i]) / 32 * 32;
              table[i].length == if table[i].offset + m + 24 * (|table| - 1 - i) <= |data| then m else 24
    ensures forall i :: 0 <= i < |table| && table[i].length != 0 ==>
              table[i].offset < |data| && data[table[i].offset] == EventHeader(i, table[i].length, id)
  {
    forall i | 0 <= i < |table|
      ensures var m := (24 + payloads[i]) / 32 * 32;
              table[i].length == if table[i].offset + m + 24 * (|table| - 1 - i) <= |data| then m else 24
      ensures table[i].length != 0 ==>
                table[i].offset < |data| && data[table[i].offset] == EventHeader(i, table[i].length, id)
    {
      LayoutFits(table, payloads, |data|, i);
      assert HeaderAt(table, |table|, data, id, i);
    }
  }

  lemma SumOfEights(a: nat, b: nat)
    requires a % 8 == 0 && b % 8 == 0
    ensures (a + b) % 8 == 0
  {
  }

  /** With a maximum of a bare header: the bytes that empty events among the first `i` leave for
      those after them, which may take more than a bare header then. */
  function Spare(payloads: seq<nat>, i: nat): nat
    requires i <= |payloads|
  {
    if i == 0 then 0 else
      var spare := Spare(payloads, i - 1) + RECORD_SIZE;
      if RoundedSize(payloads[i - 1]) <= spare then spare - RoundedSize(payloads[i - 1]) else spare - RECORD_SIZE
  }

  lemma {:induction false} SpareIsUnused(table: seq<EventMetaData>, payloads: seq<nat>, i: nat)
    requires LaidOut(table, |table|, payloads, RECORD_SIZE * |table|) && i <= |table|
    ensures End(table, i) + Spare(payloads, i) == RECORD_SIZE * i
  {
    if 0 < i {
      SpareIsUnused(table, payloads, i - 1);
      assert table[i - 1].offset == End(table, i - 1);
    }
  }

  /** The draws of the length generator for a maximum fragment size: nothing longer than the
      fragment leaves for the payload, except that a maximum of zero counts as none. */
  ghost predicate Drawn(payloads: seq<nat>, maxFragment: nat) {
    RECORD_SIZE < maxFragment ==> forall i :: 0 <= i < |payloads| ==> payloads[i] <= maxFragment - RECORD_SIZE
  }
}
