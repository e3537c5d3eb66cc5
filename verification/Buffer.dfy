/** The ring buffer of event records: one slot always stays unused. */
module Buffers {
  import opened Ring

  class Buffer {
    const size: nat
    var nextRead: nat
    var nextWrite: nat

    ghost predicate Valid()
      reads this
    {
      nextRead < size && nextWrite < size
    }

    constructor (size: nat)
      requires 0 < size
      ensures Valid() && this.size == size
      ensures nextRead == 0 && nextWrite == 0
    {
      this.size := size;
      nextRead, nextWrite := 0, 0;
    }

    /** Records between the cursors; `ReadyIsRemainder` gives the form the program computes. */
    function Ready(): (r: nat)
      requires Valid()
      reads this
      ensures r < size
    {
      Distance(nextRead, nextWrite, size)
    }

    function Available(): (r: nat)
      requires Valid()
      reads this
      ensures 0 < r == size - Ready()
    {
      size - Ready()
    }

    method Release(n: nat)
      requires Valid() && n <= Ready()
      modifies this
      ensures Valid() && nextWrite == old(nextWrite) && nextRead == Turn(old(nextRead) + n, size)
      ensures Ready() == old(Ready()) - n
    {
      CursorStep(nextRead, n, size);
      nextRead := (nextRead + n) % size;
    }

    method Reserve(n: nat)
      requires Valid() && n < Available()
      modifies this
      ensures Valid() && nextRead == old(nextRead) && nextWrite == Turn(old(nextWrite) + n, size)
      ensures Ready() == old(Ready()) + n
    {
      CursorStep(nextWrite, n, size);
      nextWrite := (nextWrite + n) % size;
    }
  }

  lemma ReadyIsRemainder(b: Buffer)
    requires b.Valid()
    ensures b.Ready() == (b.size + (b.nextWrite - b.nextRead)) % b.size
    ensures b.Available() == b.size - (b.size + (b.nextWrite - b.nextRead)) % b.size
  {
    if b.nextRead <= b.nextWrite {
      ModShift(b.nextWrite - b.nextRead, 1, b.size);
    } else {
      ModShift(b.size + b.nextWrite - b.nextRead, 0, b.size);
    }
  }

  /** A cursor that has moved by less than a full turn. */
  function Turn(x: nat, size: nat): nat
    requires x < 2 * size
  {
    if x < size then x else x - size
  }

  lemma CursorStep(cursor: nat, n: nat, size: nat)
    requires cursor < size && n < size
    ensures (cursor + n) % size == Turn(cursor + n, size)
  {
    if cursor + n < size {
      ModShift(cursor + n, 0, size);
    } else {
      ModShift(cursor + n - size, 1, size);
    }
  }
}
