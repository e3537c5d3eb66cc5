/** Records shared by every component of a node. Addresses are offsets into the data range. */
module DataFormat {

  /** Both records occupy this many bytes. */
  const RECORD_SIZE: nat := 24

  datatype EventMetaData = EventMetaData(id: nat, length: nat, offset: nat)

  datatype EventHeader = EventHeader(id: nat, length: nat, flags: nat)

  datatype Iovec = Iovec(base: nat, len: nat)

  /** The first `count` events lie back to back from offset 0 and carry their index as id. */
  ghost predicate BackToBack(table: seq<EventMetaData>, count: nat) {
    && count <= |table|
    && (0 < count ==> table[0].offset == 0)
    && (forall i :: 0 <= i < count ==> table[i].id == i)
    && (forall i :: 0 < i < count ==> table[i].offset == table[i - 1].offset + table[i - 1].length)
  }

  /** What a builder unit checks of the front fragments of its connections. */
  ghost predicate SameEvent(fronts: seq<EventHeader>) {
    forall i :: 0 <= i < |fronts| ==> fronts[i].id == fronts[0].id && fronts[i].length != 0
  }

  lemma OffsetsGrow(table: seq<EventMetaData>, count: nat, i: nat, j: nat)
    requires BackToBack(table, count) && i <= j < count
    ensures table[i].offset <= table[j].offset
    ensures i < j ==> table[i].offset + table[i].length <= table[j].offset
    decreases j
  {
    if i < j {
      OffsetsGrow(table, count, i, j - 1);
    }
  }
}
