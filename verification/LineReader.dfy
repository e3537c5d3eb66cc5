/** A buffered reader of lines from file descriptors that deliver their bytes in arbitrary portions. */
module LineReaders {
  import opened SafeStr

  const MAX_READLINE: nat := 1024

  /** What one `read` brings: some bytes, nothing (end of file or an error), or an interrupt. */
  datatype Portion = Bytes(data: string) | Nothing(error: bool) | Interrupted

  /** The stream without its portions. */
  datatype Item = Char(c: char) | Stop(error: bool)

  function Chars(s: string): (items: seq<Item>)
    ensures |items| == |s| && forall i :: 0 <= i < |s| ==> items[i] == Char(s[i])
  {
    seq(|s|, i requires 0 <= i < |s| => Char(s[i]))
  }

  function Stream(script: seq<Portion>): seq<Item> {
    if script == [] then
      []
    else
      match script[0]
      case Bytes(data) => Chars(data) + Stream(script[1..])
      case Nothing(error) => [Stop(error)] + Stream(script[1..])
      case Interrupted => Stream(script[1..])
  }

  ghost predicate Deliverable(script: seq<Portion>) {
    forall portion <- script :: portion.Bytes? ==> 0 < |portion.data| <= 1023
  }

  datatype Outcome = Outcome(text: string, failed: bool, rest: seq<Item>)

  /** The next line of a stream, of at most `room` characters. */
  function NextLine(items: seq<Item>, room: nat): Outcome {
    if room == 0 || items == [] then
      Outcome("", false, items)
    else
      match items[0]
      case Stop(error) => Outcome("", error, items[1..])
      case Char(c) =>
        if c == '\n' then
          Outcome("\n", false, items[1..])
        else
          var more := NextLine(items[1..], room - 1);
          Outcome([c] + more.text, false, more.rest)
  }

  /** What ends a line: there is no room for more, the stream ends, there is a newline, or an end of file or
      an error; an error is reported only if nothing has been read before it. */
  lemma NextLineCases(text: string, more: seq<Item>, room: nat)
    requires '\n' !in text
    ensures var line := NextLine(Chars(text) + more, room);
            if room <= |text| then
              line == Outcome(text[..room], false, Chars(text[room..]) + more)
            else if more == [] then
              line == Outcome(text, false, [])
            else if more[0].Stop? then
              line == Outcome(text, text == "" && more[0].error, more[1..])
            else
              more[0].c == '\n' ==> line == Outcome(text + "\n", false, more[1..])
  {
    if room <= |text| {
      TextFirst(text[..room], Chars(text[room..]) + more, room);
      SplitChars(text, room, more);
    } else {
      TextFirst(text, more, room);
    }
  }

  lemma SplitChars(text: string, k: nat, more: seq<Item>)
    requires k <= |text|
    ensures Chars(text[..k]) + (Chars(text[k..]) + more) == Chars(text) + more
  {
  }

  /** Characters that are no newlines go into the line as long as there is room. */
  lemma {:induction false} TextFirst(text: string, more: seq<Item>, room: nat)
    requires '\n' !in text && |text| <= room
    ensures var rest := NextLine(more, room - |text|);
            NextLine(Chars(text) + more, room) == Outcome(text + rest.text, text == "" && rest.failed, rest.rest)
  {
    if text == "" {
      assert Chars(text) + more == more;
    } else {
      assert (Chars(text) + more)[1..] == Chars(text[1..]) + more;
      TextFirst(text[1..], more, room - 1);
      var rest := NextLine(more, room - |text|);
      assert [text[0]] + (text[1..] + rest.text) == text + rest.text;
    }
  }

  /** `text` has been taken for the line, and `rest` has not been looked at. */
  ghost predicate Resumes(items: seq<Item>, room: nat, text: string, rest: seq<Item>) {
    && |text| <= room
    && var more := NextLine(rest, room - |text|);
       NextLine(items, room) == Outcome(text + more.text, text == "" && more.failed, more.rest)
  }

  lemma OneMore(items: seq<Item>, room: nat, text: string, c: char, rest: seq<Item>)
    requires |text| < room && Resumes(items, room, text, [Char(c)] + rest)
    ensures if c == '\n' then
              NextLine(items, room) == Outcome(text + [c], false, rest)
            else
              Resumes(items, room, text + [c], rest)
  {
    assert ([Char(c)] + rest)[1..] == rest;
    var more := NextLine(rest, room - |text| - 1);
    assert text + ([c] + more.text) == (text + [c]) + more.text;
  }

  /** A stream that stops, or has stopped before. */
  ghost predicate Ended(items: seq<Item>, error: bool, rest: seq<Item>) {
    if items == [] then !error && rest == [] else items == [Stop(error)] + rest
  }

  lemma NoMore(items: seq<Item>, room: nat, text: string, pending: seq<Item>, error: bool, rest: seq<Item>)
    requires |text| < room && Resumes(items, room, text, pending) && Ended(pending, error, rest)
    ensures NextLine(items, room) == Outcome(text, text == "" && error, rest)
  {
  }

  /** A file descriptor with the portions it will still deliver; at their end it is at end of file. */
  class Descriptor {
    const fd: int
    var script: seq<Portion>

    constructor (fd: int, script: seq<Portion>)
      ensures this.fd == fd && this.script == script
    {
      this.fd, this.script := fd, script;
    }

    /** The system call, repeated while it is interrupted: the number of bytes, or -1 on an error. */
    method Read(buffer: array<char>) returns (n: int)
      requires Deliverable(script) && buffer.Length == MAX_READLINE
      modifies this`script, buffer
      ensures Deliverable(script) && -1 <= n < MAX_READLINE
      ensures 0 < n ==> old(Stream(script)) == Chars(buffer[..n]) + Stream(script)
      ensures n <= 0 ==> Ended(old(Stream(script)), n < 0, Stream(script))
    {
      while script != [] && script[0].Interrupted?
        invariant Deliverable(script) && Stream(script) == old(Stream(script))
        decreases |script|
      {
        script := script[1..];
      }
      if script == [] {
        return 0;
      }
      match script[0] {
        case Nothing(error) =>
          n := if error then -1 else 0;
        case Bytes(data) =>
          n := |data|;
          forall i | 0 <= i < n {
            buffer[i] := data[i];
          }
          assert buffer[..n] == data;
      }
      script := script[1..];
    }
  }

  class LineReader {
    const readbuf: array<char>
    var next: nat
    var last: nat
    var lastFd: int

    ghost predicate Valid()
      reads this
    {
      readbuf.Length == MAX_READLINE && next <= last < MAX_READLINE
    }

    constructor ()
      ensures Valid() && Buffered() == "" && fresh(readbuf)
    {
      readbuf := new char[MAX_READLINE];
      next, last, lastFd := 0, 0, -1;
    }

    ghost function Buffered(): string
      requires Valid()
      reads this, readbuf
    {
      readbuf[next..last]
    }

    /** What is still to be returned of a stream: the characters read ahead, then the unread ones. */
    ghost function Pending(input: Descriptor): seq<Item>
      requires Valid()
      reads this, readbuf, input
    {
      Chars(Buffered()) + Stream(input.script)
    }

    /** What has been read ahead, if anything, comes from this descriptor. */
    ghost predicate Attuned(input: Descriptor)
      reads this, input
    {
      Valid() && Deliverable(input.script) && (next < last ==> lastFd == input.fd)
    }

    /** Reads ahead. */
    method Fill(input: Descriptor) returns (n: int)
      requires Attuned(input) && next == last
      modifies this, readbuf, input
      ensures Attuned(input)
      ensures 0 < n ==> next < last && Pending(input) == old(Pending(input))
      ensures n <= 0 ==> next == last && Ended(old(Pending(input)), n < 0, Pending(input))
    {
      lastFd := input.fd;
      n := input.Read(readbuf);
      if 0 < n {
        next, last := 0, n;
        readbuf[n] := NUL;
      }
    }

    /** The next character, unless there is none. */
    method TakeOne(input: Descriptor) returns (n: int, ch: char)
      requires Attuned(input)
      modifies this, readbuf, input
      ensures Attuned(input)
      ensures 0 < n ==> old(Pending(input)) == [Char(ch)] + Pending(input)
      ensures n <= 0 ==> Ended(old(Pending(input)), n < 0, Pending(input))
    {
      n, ch := 1, NUL;
      if next == last {
        n := Fill(input);
      }
      if 0 < n {
        ghost var ahead := Buffered();
        ch := readbuf[next];
        next := next + 1;
        assert ahead == [ch] + Buffered();
      }
    }

    method ReadLine(input: Descriptor, buf: array<char>, maxlen: int) returns (count: int)
      requires Valid() && Deliverable(input.script)
      requires maxlen <= buf.Length && 0 < buf.Length && buf != readbuf
      modifies this, readbuf, input, buf
      ensures Valid() && Deliverable(input.script)
      ensures old(!Attuned(input)) ==>
                && count == -1 && buf[..] == old(buf[..]) && lastFd == old(lastFd)
                && Buffered() == old(Buffered()) && input.script == old(input.script)
      ensures old(Attuned(input)) ==>
                var line := NextLine(old(Pending(input)), if maxlen <= 1 then 0 else maxlen - 1);
                && Attuned(input) && count == (if line.failed then -1 else |line.text|)
                && |line.text| < buf.Length && buf[..|line.text|] == line.text && buf[|line.text|] == NUL
                && Pending(input) == line.rest
    {
      if next != last && input.fd != lastFd {
        return -1;
      }
      var p;
      p, count := Copy(input, buf, maxlen);
      buf[p] := NUL;
    }

    /** Takes the next character and stores it. */
    method CopyOne(input: Descriptor, buf: array<char>, p: nat, ghost items: seq<Item>, ghost room: nat)
      returns (n: int, ch: char)
      requires Attuned(input) && buf != readbuf && p < room <= buf.Length
      requires Resumes(items, room, buf[..p], Pending(input))
      modifies this, readbuf, input, buf
      ensures Attuned(input)
      ensures n <= 0 ==> NextLine(items, room) == Outcome(buf[..p], p == 0 && n < 0, Pending(input))
      ensures 0 < n && ch == '\n' ==> NextLine(items, room) == Outcome(buf[..p + 1], false, Pending(input))
      ensures 0 < n && ch != '\n' ==> Resumes(items, room, buf[..p + 1], Pending(input))
    {
      ghost var text, pending := buf[..p], Pending(input);
      n, ch := TakeOne(input);
      if n <= 0 {
        NoMore(items, room, text, pending, n < 0, Pending(input));
      } else {
        OneMore(items, room, text, ch, Pending(input));
        buf[p] := ch;
        assert buf[..p + 1] == text + [ch];
      }
    }

    /** The loop of `ReadLine`: stores the line but for its null. */
    method Copy(input: Descriptor, buf: array<char>, maxlen: int) returns (p: nat, count: int)
      requires Attuned(input)
      requires maxlen <= buf.Length && 0 < buf.Length && buf != readbuf
      modifies this, readbuf, input, buf
      ensures Attuned(input)
      ensures p < buf.Length && count == (if p == 0 && count < 0 then -1 else p)
      ensures NextLine(old(Pending(input)), if maxlen <= 1 then 0 else maxlen - 1)
              == Outcome(buf[..p], count < 0, Pending(input))
    {
      ghost var items := Pending(input);
      ghost var room := if maxlen <= 1 then 0 else maxlen - 1;
      var curlen := 1;
      p := 0;
      while curlen < maxlen
        invariant Attuned(input)
        invariant p == curlen - 1 <= room
        invariant Resumes(items, room, buf[..p], Pending(input))
      {
        var n, ch := CopyOne(input, buf, p, items, room);
        if n <= 0 {
          if n < 0 && curlen == 1 {
            curlen := 0;
          }
          return p, curlen - 1;
        }
        p, curlen := p + 1, curlen + 1;
        if ch == '\n' {
          return p, curlen - 1;
        }
      }
      count := curlen - 1;
    }
  }

  /** The characters a script delivers, however they are divided. */
  function Delivered(script: seq<Portion>): string {
    if script == [] then ""
    else (if script[0].Bytes? then script[0].data else "") + Delivered(script[1..])
  }

  /** What `ReadLine` returns is a function of the stream, and the stream of an undisturbed descriptor
      is its text: portions and interrupts leave no trace. */
  lemma {:induction false} PortionsDoNotMatter(script: seq<Portion>)
    requires forall portion <- script :: !portion.Nothing?
    ensures Stream(script) == Chars(Delivered(script))
  {
    if script != [] {
      PortionsDoNotMatter(script[1..]);
    }
  }

  /** Up to the first newline, but no more than the room or the text. */
  function LineLength(text: string, room: nat): (k: nat)
    ensures k <= room && k <= |text|
    ensures forall i :: 0 <= i < k - 1 ==> text[i] != '\n'
    ensures k == room || k == |text| || (0 < k && text[k - 1] == '\n')
  {
    if room == 0 || text == "" then 0
    else if text[0] == '\n' then 1
    else 1 + LineLength(text[1..], room - 1)
  }

  lemma {:induction false} NextLineOfText(text: string, room: nat)
    ensures var k := LineLength(text, room);
            NextLine(Chars(text), room) == Outcome(text[..k], false, Chars(text[k..]))
  {
    if room != 0 && text != "" {
      assert Chars(text)[1..] == Chars(text[1..]);
      if text[0] != '\n' {
        NextLineOfText(text[1..], room - 1);
      }
    }
  }

  /** All lines of a text, read one after the other. */
  function Lines(text: string, room: nat): seq<string>
    requires 0 < room
  {
    if text == "" then []
    else
      var k := LineLength(text, room);
      [text[..k]] + Lines(text[k..], room)
  }

  function Concat(lines: seq<string>): string {
    if lines == [] then "" else lines[0] + Concat(lines[1..])
  }

  /** No character is lost or repeated, whatever the length allowed. */
  lemma {:induction false} LinesAreTheText(text: string, room: nat)
    requires 0 < room
    ensures Concat(Lines(text, room)) == text
    decreases |text|
  {
    if text != "" {
      var k := LineLength(text, room);
      var first, others := text[..k], Lines(text[k..], room);
      LinesAreTheText(text[k..], room);
      assert Concat([first] + others) == first + Concat(others) by {
        assert ([first] + others)[1..] == others;
      }
      assert first + text[k..] == text;
    }
  }

  predicate IsLine(line: string, room: nat) {
    0 < |line| <= room && line[|line| - 1] == '\n' && '\n' !in line[..|line| - 1]
  }

  lemma {:induction false} LineLengthOf(line: string, more: string, room: nat)
    requires '\n' !in line && |line| < room
    ensures LineLength(line + "\n" + more, room) == |line| + 1
  {
    if line != "" {
      LineLengthOf(line[1..], more, room - 1);
      assert (line + "\n" + more)[1..] == line[1..] + "\n" + more;
    }
  }

  /** Lines that fit come back as they were written. */
  lemma {:induction false} LinesRoundTrip(lines: seq<string>, room: nat)
    requires 0 < room
    requires forall i :: 0 <= i < |lines| ==> IsLine(lines[i], room)
    ensures Lines(Concat(lines), room) == lines
  {
    if lines != [] {
      var body, more := lines[0][..|lines[0]| - 1], Concat(lines[1..]);
      assert lines[0] == body + "\n";
      LineLengthOf(body, more, room);
      LinesRoundTrip(lines[1..], room);
      assert Concat(lines) == body + "\n" + more;
      assert Concat(lines)[|lines[0]|..] == more && Concat(lines)[..|lines[0]|] == lines[0];
    }
  }
}
