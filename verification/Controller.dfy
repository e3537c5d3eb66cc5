/** Paces the generator by the clock and speaks of events as cyclic ranges of the table. */
module Controllers {
  import opened Buffers
  import opened Generators
  import opened Ring

  class Controller {
    const generator: Generator
    /** Records in the metadata range. */
    const size: nat
    var current: nat
    var generatedEvents: nat
    /** Events given back so far. */
    ghost var releasedEvents: nat
    /** Events the clock had asked for at the last reading. */
    ghost var lastDue: nat

    /** The three ring cursors are the unbounded counters reduced: this one in step with the events
        generated, those of the generator one slot behind. */
    ghost predicate Valid()
      reads this, generator, generator.buffer
    {
      && generator.Valid() && generator.buffer.size == size
      && releasedEvents <= generatedEvents <= lastDue
      && current == generatedEvents % size
      && generator.buffer.nextWrite == (generatedEvents + size - 1) % size
      && generator.buffer.nextRead == (releasedEvents + size - 1) % size
      && generator.buffer.Ready() == generatedEvents - releasedEvents
    }

    constructor (generator: Generator)
      requires generator.Valid()
      requires generator.buffer.nextRead == generator.buffer.nextWrite == generator.buffer.size - 1
      ensures Valid() && this.generator == generator && size == generator.buffer.size
      ensures generatedEvents == releasedEvents == lastDue == 0
    {
      this.generator := generator;
      size := generator.buffer.size;
      current, generatedEvents, releasedEvents, lastDue := 0, 0, 0, 0;
    }

    /** `due` is how many events the clock has asked for since the start. */
    method Read(due: nat) returns (first: nat, last: nat)
      requires Valid() && lastDue <= due
      modifies this, generator.buffer
      ensures Valid() && lastDue == due && releasedEvents == old(releasedEvents)
      ensures generatedEvents == if due - old(generatedEvents) <= size - 1 - (old(generatedEvents) - releasedEvents)
                                 then due
                                 else releasedEvents + size - 1
      ensures first == old(current) < size && last == current < size
      ensures Distance(first, last, size) == generatedEvents - old(generatedEvents)
    {
      var count := generator.GenerateEvents(due - generatedEvents);
      first := current;
      AdvanceIsModular(current, count, size);
      RangesAreLossless(current, count, size);
      TurnIsModular(generatedEvents + size - 1, count, size);
      ModAdd(generatedEvents, count, size);
      current := Advance(current, count, size);
      generatedEvents := generatedEvents + count;
      lastDue := due;
      last := current;
    }

    method Release(first: nat, last: nat)
      requires Valid() && first < size && last < size
      requires Distance(first, last, size) <= generatedEvents - releasedEvents
      modifies this`releasedEvents, generator.buffer
      ensures Valid() && releasedEvents == old(releasedEvents) + Distance(first, last, size)
    {
      var events := Distance(first, last, size);
      TurnIsModular(releasedEvents + size - 1, events, size);
      generator.ReleaseEvents(events);
      releasedEvents := releasedEvents + events;
    }
  }

  lemma TurnIsModular(counter: nat, n: nat, size: nat)
    requires n < size
    ensures counter % size + n < 2 * size
    ensures Turn(counter % size + n, size) == (counter + n) % size
  {
    CursorStep(counter % size, n, size);
    ModAdd(counter, n, size);
  }
}
