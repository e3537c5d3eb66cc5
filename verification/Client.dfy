/** The answer of the process manager to a request. */
module Clients {
  import opened SafeStr
  import opened LineReaders
  import opened KeyVals
  import opened Messages

  const PMIU_MAXLINE: nat := 1024
  const PMI_SUCCESS: int := 0
  const PMI_FAIL: int := -1

  /** The answer is to the command, and reports no failure. */
  ghost predicate Accepted(pairs: seq<Pair>, expectedCmd: string, checkRc: bool) {
    && (exists i :: 0 <= i < |pairs| && FirstWith(pairs, "cmd", i) && pairs[i].1 == expectedCmd)
    && (checkRc ==> forall i :: 0 <= i < |pairs| && FirstWith(pairs, "rc", i) ==> pairs[i].1 == "0")
  }

  /** What is returned for a line. */
  ghost predicate Responds(line: string, expectedCmd: string, checkRc: bool, err: int, fault: bool) {
    var parsed := Parse(line);
    && (fault <==> 64 < |parsed.pairs|)
    && (!fault ==> (err == 0 || err == -1)
                   && (err == 0 <==> parsed.code == 0 && Accepted(Kept(parsed.pairs), expectedCmd, checkRc)))
  }

  lemma {:induction false} CodeIs(s: string)
    ensures Parse(s).code == 0 || Parse(s).code == -1
    decreases |s|, 1
  {
    PairCodeIs(s[Span(s, Blank)..]);
  }

  lemma {:induction false} PairCodeIs(t: string)
    ensures ParsePair(t).code == 0 || ParsePair(t).code == -1
    decreases |t|, 0
  {
    var k := Span(t, Key);
    if t != "" && t[0] != '\n' && 0 < k < |t| && t[k] == '=' {
      var u := t[k + 1..];
      CodeIs(u[Span(u, Kind.Value)..]);
    }
  }

  /** A printed answer of at most 64 pairs with keys below 32 characters that fits the line buffer: whatever the
      portions it comes in, it is taken exactly when its first "cmd" is the one expected and its first "rc", if
      it has one and it is asked for, is "0"; and its pairs are in the table. */
  lemma PrintedAnswer(pairs: seq<Pair>, script: seq<Portion>, more: string, expectedCmd: string, checkRc: bool,
                      err: int, fault: bool)
    requires AllProper(pairs) && |pairs| <= 64 && |Print(pairs)| <= 1023
    requires forall i :: 0 <= i < |pairs| ==> |pairs[i].0| < 32
    requires (forall portion <- script :: !portion.Nothing?) && Delivered(script) == Print(pairs) + more
    requires Responds(CString(NextLine(Stream(script), 1023).text, 0), expectedCmd, checkRc, err, fault)
    ensures !fault && (err == 0 <==> Accepted(pairs, expectedCmd, checkRc))
    ensures NextLine(Stream(script), 1023).rest == Chars(more)
    ensures Kept(Parse(CString(NextLine(Stream(script), 1023).text, 0)).pairs) == pairs
  {
    MessageRoundTrip(pairs, script, more, 1023);
    PrintIsString(pairs);
    PrintedIsKept(pairs);
  }

  lemma PrintedIsKept(pairs: seq<Pair>)
    requires AllProper(pairs) && |Print(pairs)| <= 1023
    requires forall i :: 0 <= i < |pairs| ==> |pairs[i].0| < 32
    ensures Parse(Print(pairs)).code == 0 && Parse(Print(pairs)).pairs == pairs
    ensures Kept(pairs) == pairs
  {
    FoundIsProper(Print(pairs));
    ParsedPrint(pairs);
    KeptPrint(pairs);
  }

  lemma {:induction false} PrintIsString(pairs: seq<Pair>)
    requires AllProper(pairs)
    ensures NUL !in Print(pairs) && CString(Print(pairs), 0) == Print(pairs)
  {
    if pairs != [] {
      assert Proper(pairs[0]);
      PrintIsString(pairs[1..]);
    }
    LengthIs(Print(pairs), 0, |Print(pairs)|);
  }

  /** The same by what a look-up finds. */
  lemma AcceptedIs(pairs: seq<Pair>, expectedCmd: string, checkRc: bool)
    ensures var cmd, rc := Find(pairs, "cmd"), Find(pairs, "rc");
            Accepted(pairs, expectedCmd, checkRc)
            <==> && cmd < |pairs| && pairs[cmd].1 == expectedCmd
                 && (checkRc && rc < |pairs| ==> pairs[rc].1 == "0")
  {
    FirstIsFound(pairs, "cmd");
    FirstIsFound(pairs, "rc");
  }

  lemma FirstIsFound(pairs: seq<Pair>, key: string)
    ensures forall i: nat :: FirstWith(pairs, key, i) <==> i < |pairs| && i == Find(pairs, key)
  {
    forall i: nat
      ensures FirstWith(pairs, key, i) <==> i < |pairs| && i == Find(pairs, key)
    {
    }
  }

  /** Looks a key up with room for any value that the table holds. */
  method LookUpFirst(table: Table, key: string, valstr: array<char>) returns (found: bool)
    requires table.Valid() && valstr != table.tab && valstr.Length == PMIU_MAXLINE
    modifies valstr
    ensures found <==> Find(table.Pairs(), key) < table.count
    ensures found ==> CString(valstr[..], 0) == table.Pairs()[Find(table.Pairs(), key)].1
  {
    ghost var pairs, was := table.Pairs(), valstr[..];
    StoredIsString(table.tab[..], table.count);
    found := table.GetVal(key, valstr, PMIU_MAXLINE);
    WholeValue(pairs, key, PMIU_MAXLINE, found, was, valstr[..]);
  }

  lemma WholeValue(pairs: seq<Pair>, key: string, room: nat, found: bool, was: seq<char>, now: seq<char>)
    requires LookUp(pairs, key, room, found, was, now)
    requires forall pair <- pairs :: NUL !in pair.1 && |pair.1| < room
    ensures found <==> Find(pairs, key) < |pairs|
    ensures found ==> CString(now, 0) == pairs[Find(pairs, key)].1
  {
    FirstIsFound(pairs, key);
    LookUpMeans(pairs, key, room, found, was, now);
  }

  lemma StoredIsString(tab: seq<char>, count: nat)
    requires Entries(tab, count)
    ensures forall pair <- PairsIn(tab, count) :: NUL !in pair.1 && |pair.1| < 1024
  {
    forall i | 0 <= i < count
      ensures NUL !in PairsIn(tab, count)[i].1 && |PairsIn(tab, count)[i].1| < 1024
    {
      assert EntryOk(tab, i) && PairsIn(tab, count)[i] == PairIn(tab, i);
    }
  }

  /** Looks at the command and the return code. */
  method CheckAnswer(table: Table, expectedCmd: string, checkRc: bool) returns (err: int)
    requires table.Valid()
    ensures err == if Accepted(table.Pairs(), expectedCmd, checkRc) then 0 else -1
  {
    AcceptedIs(table.Pairs(), expectedCmd, checkRc);
    var cmdName := new char[PMIU_MAXLINE];
    var p := LookUpFirst(table, "cmd", cmdName);
    if !p || expectedCmd != CString(cmdName[..], 0) {
      return PMI_FAIL;
    }
    if checkRc {
      p := LookUpFirst(table, "rc", cmdName);
      if p && CString(cmdName[..], 0) != "0" {
        return PMI_FAIL;
      }
    }
    err := PMI_SUCCESS;
  }

  /** Parses an answer and checks it. */
  method Answer(table: Table, recvbuf: array<char>, ghost line: string, expectedCmd: string, checkRc: bool)
    returns (err: int, fault: bool)
    requires table.Valid() && recvbuf != table.tab && Terminated(recvbuf[..], 0) && CString(recvbuf[..], 0) == line
    requires |line| < 1024
    modifies recvbuf, table`count, table.tab
    ensures table.Valid() && Responds(line, expectedCmd, checkRc, err, fault)
    ensures !fault ==> table.Pairs() == Kept(Parse(line).pairs)
  {
    ShortLines(line);
    CodeIs(line);
    err, fault := table.ParseLine(recvbuf);
    if !fault && err == 0 {
      err := CheckAnswer(table, expectedCmd, checkRc);
    }
  }

  /** Reads the answer to a request that was written with result `written`, and checks it. */
  method GetResponse(written: int, reader: LineReader, input: Descriptor, table: Table,
                     expectedCmd: string, checkRc: bool) returns (err: int, fault: bool)
    requires reader.Valid() && Deliverable(input.script) && table.Valid() && table.tab != reader.readbuf
    modifies reader, reader.readbuf, input, table`count, table.tab
    ensures reader.Valid() && Deliverable(input.script) && table.Valid()
    ensures written != 0 ==> err == written && !fault && input.script == old(input.script)
    ensures written == 0 && !old(reader.Attuned(input)) ==> err == -1 && !fault
    ensures written == 0 && old(reader.Attuned(input)) ==>
              var line := NextLine(old(reader.Pending(input)), 1023);
              && reader.Pending(input) == line.rest
              && if line.text == "" then
                   err == -1 && !fault && table.Pairs() == old(table.Pairs())
                 else
                   && Responds(CString(line.text, 0), expectedCmd, checkRc, err, fault)
                   && (!fault ==> table.Pairs() == Kept(Parse(CString(line.text, 0)).pairs))
  {
    if written != 0 {
      return written, false;
    }
    var recvbuf := new char[PMIU_MAXLINE];
    var n := reader.ReadLine(input, recvbuf, PMIU_MAXLINE);
    if n <= 0 {
      return PMI_FAIL, false;
    }
    LineInBuffer(recvbuf[..], n);
    err, fault := Answer(table, recvbuf, CString(recvbuf[..n], 0), expectedCmd, checkRc);
  }

  lemma LineInBuffer(buffer: seq<char>, n: nat)
    requires n < |buffer| && buffer[n] == NUL
    ensures Terminated(buffer, 0) && CString(buffer, 0) == CString(buffer[..n], 0)
  {
    var m := Length(buffer[..n], 0);
    assert forall i :: 0 <= i < m ==> buffer[i] == buffer[..n][i];
    LengthIs(buffer, 0, m);
  }
}
