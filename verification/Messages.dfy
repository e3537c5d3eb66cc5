/** A message of key=value pairs on its way from the printed line to the table. */
module Messages {
  import opened KeyVals
  import opened LineReaders

  /** The printed line without its newline. */
  function Body(pairs: seq<Pair>): string {
    if pairs == [] then ""
    else pairs[0].0 + "=" + pairs[0].1 + (if |pairs| == 1 then "" else " " + Body(pairs[1..]))
  }

  lemma {:induction false} OneLine(pairs: seq<Pair>)
    requires AllProper(pairs)
    ensures Print(pairs) == Body(pairs) + "\n" && '\n' !in Body(pairs)
  {
    if pairs != [] {
      assert Proper(pairs[0]);
      OneLine(pairs[1..]);
    }
  }

  /** However the bytes are delivered, the line reader returns the message and leaves what follows
      it, and the parser finds the pairs that were printed. */
  lemma MessageRoundTrip(pairs: seq<Pair>, script: seq<Portion>, more: string, room: nat)
    requires AllProper(pairs) && |Print(pairs)| <= room
    requires (forall portion <- script :: !portion.Nothing?) && Delivered(script) == Print(pairs) + more
    ensures var line := NextLine(Stream(script), room);
            && line == Outcome(Print(pairs), false, Chars(more))
            && Parse(line.text).code == 0 && Parse(line.text).pairs == pairs
  {
    var text := Print(pairs) + more;
    PortionsDoNotMatter(script);
    NextLineOfText(text, room);
    OneLine(pairs);
    LineLengthOf(Body(pairs), more, room);
    ParsedPrint(pairs);
  }

  lemma {:induction false} LineFits(items: seq<Item>, room: nat)
    ensures |NextLine(items, room).text| <= room
    decreases room
  {
    if 0 < room && items != [] && items[0].Char? {
      LineFits(items[1..], room - 1);
    }
  }

  /** A line that has been read into the program's line buffer stays inside the table exactly when it
      has no more pairs than the table has entries. */
  lemma ReadLinesFit(items: seq<Item>)
    ensures var line := NextLine(items, 1023).text;
            Storable(Parse(line).pairs) <==> |Parse(line).pairs| <= 64
  {
    LineFits(items, 1023);
    ShortLines(NextLine(items, 1023).text);
  }
}
