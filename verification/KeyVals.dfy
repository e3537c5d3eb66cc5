/** The table of key=value pairs of a message line, parsed in place. */
module KeyVals {
  import opened SafeStr

  const MAXKEYLEN: nat := 32
  const MAXVALLEN: nat := 1024
  const TABLE: nat := 64
  /** An entry of the table: room for the key and then for the value. */
  const ENTRY: nat := MAXKEYLEN + MAXVALLEN

  type Pair = (string, string)

  /** The characters that a blank, a key or a value runs over. */
  datatype Kind = Blank | Key | Value

  predicate Is(c: char, kind: Kind) {
    match kind
    case Blank => c == ' '
    case Key => c != ' ' && c != '=' && c != '\n' && c != NUL
    case Value => c != ' ' && c != '\n' && c != NUL
  }

  /** How many characters at the front are of a kind. */
  function Span(s: string, kind: Kind): (n: nat)
    ensures n <= |s| && AllOf(s[..n], kind) && Stops(s[n..], kind)
  {
    if s == "" || !Is(s[0], kind) then 0 else 1 + Span(s[1..], kind)
  }

  ghost predicate AllOf(s: string, kind: Kind) {
    forall i :: 0 <= i < |s| ==> Is(s[i], kind)
  }

  ghost predicate Stops(s: string, kind: Kind) {
    s == "" || !Is(s[0], kind)
  }

  /** Return code, pairs, and what is left of the line. */
  datatype Parsed = Parsed(code: int, pairs: seq<Pair>, left: string)

  /** The longest front of a string that has at most `n` characters. */
  function Cut(s: string, n: nat): (front: string)
    ensures front <= s && |front| <= n && (front == s || |front| == n)
  {
    s[..Min(|s|, n)]
  }

  /** The result of parsing a line. Pairs read before an error count. */
  function Parse(s: string): Parsed
    decreases |s|, 1
  {
    var b := Span(s, Blank);
    var rest := ParsePair(s[b..]);
    Parsed(rest.code, rest.pairs, s[..b] + rest.left)
  }

  function ParsePair(t: string): Parsed
    decreases |t|, 0
  {
    if t == "" || t[0] == '\n' then
      Parsed(0, [], t)
    else
      var k := Span(t, Key);
      if k == 0 || k == |t| || t[k] != '=' then
        Parsed(-1, [], t)
      else
        var u := t[k + 1..];
        var v := Span(u, Value);
        var rest := Parse(u[v..]);
        Parsed(rest.code, [(t[..k], u[..v])] + rest.pairs, t[..k] + [NUL] + u[..v] + rest.left)
  }

  /** What the table keeps of a pair. */
  function KeptPair(pair: Pair): Pair {
    (Cut(pair.0, MAXKEYLEN - 1), Cut(pair.1, MAXVALLEN - 1))
  }

  function Kept(pairs: seq<Pair>): (kept: seq<Pair>)
    ensures |kept| == |pairs| && forall i :: 0 <= i < |kept| ==> kept[i] == KeptPair(pairs[i])
  {
    seq(|pairs|, i requires 0 <= i < |pairs| => KeptPair(pairs[i]))
  }

  /** All that is written for pair number `i` lies in the table. The last write is the null behind the
      value, at the place where the value would end if it were not cut. */
  predicate InTable(i: nat, pair: Pair) {
    i < TABLE && i * ENTRY + MAXKEYLEN + |pair.1| < TABLE * ENTRY
  }

  ghost predicate Storable(pairs: seq<Pair>) {
    forall i :: 0 <= i < |pairs| ==> InTable(i, pairs[i])
  }

  // ---- Printing ----

  function Print(pairs: seq<Pair>): string {
    if pairs == [] then "\n"
    else pairs[0].0 + "=" + pairs[0].1 + (if |pairs| == 1 then "\n" else " " + Print(pairs[1..]))
  }

  ghost predicate Proper(pair: Pair) {
    pair.0 != "" && AllOf(pair.0, Key) && AllOf(pair.1, Value)
  }

  ghost predicate AllProper(pairs: seq<Pair>) {
    forall i :: 0 <= i < |pairs| ==> Proper(pairs[i])
  }

  /** Short enough to be kept as it is. */
  predicate Short(pair: Pair) {
    |pair.0| < MAXKEYLEN && |pair.1| < MAXVALLEN
  }

  ghost predicate AllShort(pairs: seq<Pair>) {
    forall i :: 0 <= i < |pairs| ==> Short(pairs[i])
  }

  lemma {:induction false} SpanOf(s: string, kind: Kind, more: string)
    requires AllOf(s, kind) && Stops(more, kind)
    ensures Span(s + more, kind) == |s|
    decreases |s|
  {
    if s == "" {
      assert s + more == more;
    } else {
      assert (s + more)[0] == s[0] && (s + more)[1..] == s[1..] + more;
      SpanOf(s[1..], kind, more);
    }
  }

  lemma SpanSplit(s: string, kind: Kind, more: string)
    requires AllOf(s, kind) && Stops(more, kind)
    ensures Span(s + more, kind) == |s| && (s + more)[..|s|] == s && (s + more)[|s|..] == more
  {
    SpanOf(s, kind, more);
  }

  /** One pair, parsed: the recursive step of the parser, read from the text that causes it. */
  lemma OnePair(key: string, value: string, more: string)
    requires key != "" && AllOf(key, Key) && AllOf(value, Value) && Stops(more, Value)
    ensures var rest := Parse(more);
            ParsePair(key + ("=" + (value + more)))
            == Parsed(rest.code, [(key, value)] + rest.pairs, key + [NUL] + value + rest.left)
  {
    var u := value + more;
    var t := key + ("=" + u);
    SpanSplit(key, Key, "=" + u);
    SpanSplit(value, Value, more);
    assert t[|key| + 1..] == u;
    assert Is(t[0], Key);
  }

  /** Blanks before a word are skipped. */
  lemma SkipBlank(s: string, t: string)
    requires s == t || s == " " + t
    requires t != "" && t[0] != ' '
    ensures Parse(s).code == ParsePair(t).code && Parse(s).pairs == ParsePair(t).pairs
  {
    SpanSplit(s[..|s| - |t|], Blank, t);
    assert s == s[..|s| - |t|] + t;
  }

  lemma PrintOne(key: string, value: string, others: seq<Pair>)
    requires Proper((key, value))
    ensures var more := if others == [] then "\n" else " " + Print(others);
            && Print([(key, value)] + others) == key + ("=" + (value + more))
            && key + ("=" + (value + more)) != "" && (key + ("=" + (value + more)))[0] != ' '
            && Stops(more, Value)
  {
  }

  /** Printed pairs are read back, in order, whatever '=' the values hold. */
  lemma {:induction false} RoundTrip(pairs: seq<Pair>)
    requires AllProper(pairs)
    ensures ParsePair(Print(pairs)).code == 0 && ParsePair(Print(pairs)).pairs == pairs
    ensures Print(pairs) != "" && Print(pairs)[0] != ' '
  {
    if pairs != [] {
      var (key, value) := pairs[0];
      var others := pairs[1..];
      assert pairs == [(key, value)] + others && Proper(pairs[0]);
      PrintOne(key, value, others);
      var more := if others == [] then "\n" else " " + Print(others);
      RoundTrip(others);
      SkipBlank(more, Print(others));
      OnePair(key, value, more);
    }
  }

  lemma ParsedPrint(pairs: seq<Pair>)
    requires AllProper(pairs)
    ensures Parse(Print(pairs)).code == 0 && Parse(Print(pairs)).pairs == pairs
  {
    RoundTrip(pairs);
    SkipBlank(Print(pairs), Print(pairs));
  }

  lemma CutNothing(s: string, n: nat)
    ensures Cut(s, n) == s <==> |s| <= n
  {
    if |s| <= n {
      assert s[..|s|] == s;
    } else {
      assert |s[..n]| == n;
    }
  }

  lemma KeptAsIs(pair: Pair)
    ensures KeptPair(pair) == pair <==> Short(pair)
  {
    CutNothing(pair.0, MAXKEYLEN - 1);
    CutNothing(pair.1, MAXVALLEN - 1);
  }

  /** So the table holds what was printed exactly when keys and values are short enough. */
  lemma KeptPrint(pairs: seq<Pair>)
    requires AllProper(pairs)
    ensures Kept(Parse(Print(pairs)).pairs) == pairs
            <==> forall i :: 0 <= i < |pairs| ==> |pairs[i].0| <= 31 && |pairs[i].1| <= 1023
  {
    ParsedPrint(pairs);
    forall i | 0 <= i < |pairs|
      ensures Kept(pairs)[i] == pairs[i] <==> |pairs[i].0| <= 31 && |pairs[i].1| <= 1023
    {
      KeptAsIs(pairs[i]);
    }
  }

  /** A longer key is cut to 31 characters and a longer value to 1023. */
  lemma KeptOf(pair: Pair)
    ensures KeptPair(pair).0 == if |pair.0| <= 31 then pair.0 else pair.0[..31]
    ensures KeptPair(pair).1 == if |pair.1| <= 1023 then pair.1 else pair.1[..1023]
  {
  }

  /** Up to 64 printed pairs with keys below 32 and values below 1024 characters are stored without a fault
      as they are, and each key is found with the value it was first printed with. */
  lemma PrintedIsStored(pairs: seq<Pair>, key: string)
    requires AllProper(pairs) && |pairs| <= 64
    requires forall i :: 0 <= i < |pairs| ==> |pairs[i].0| < 32 && |pairs[i].1| < 1024
    ensures var parsed := Parse(Print(pairs));
            && parsed.code == 0 && Storable(parsed.pairs) && Kept(parsed.pairs) == pairs
            && (key in Keys(pairs) <==> Find(Kept(parsed.pairs), key) < |pairs|)
    ensures forall i :: 0 <= i < |pairs| && FirstWith(pairs, key, i) ==>
              Find(Kept(Parse(Print(pairs)).pairs), key) == i
  {
    ParsedPrint(pairs);
    KeptPrint(pairs);
    ShortValues(pairs);
    forall i | 0 <= i < |pairs| && FirstWith(pairs, key, i)
      ensures Find(pairs, key) == i
    {
      FindIs(pairs, key, i);
    }
  }

  ghost function Keys(pairs: seq<Pair>): (keys: set<string>)
    ensures forall key :: key in keys <==> exists i :: 0 <= i < |pairs| && pairs[i].0 == key
  {
    set pair | pair in pairs :: pair.0
  }

  ghost predicate FirstWith(pairs: seq<Pair>, key: string, i: nat) {
    i < |pairs| && pairs[i].0 == key && forall j :: 0 <= j < i ==> pairs[j].0 != key
  }

  /** The front of a reply of the process manager. */
  const MAXES: seq<Pair> := [("cmd", "maxes"), ("kvsname_max", "256")]

  lemma MaxesExample()
    ensures var parsed := Parse("cmd=maxes kvsname_max=256\n");
            && parsed.code == 0 && Storable(parsed.pairs) && Kept(parsed.pairs) == MAXES
            && Find(MAXES, "kvsname_max") == 1
  {
    MaxesPrinted();
    assert Proper(MAXES[0]) && Proper(MAXES[1]);
    PrintedIsStored(MAXES, "kvsname_max");
    assert MAXES[0].0[0] != "kvsname_max"[0];
    FindIs(MAXES, "kvsname_max", 1);
  }

  lemma MaxesPrinted()
    ensures Print(MAXES) == "cmd=maxes kvsname_max=256\n"
  {
    assert MAXES[1..] == [("kvsname_max", "256")];
    assert Print(MAXES[1..]) == "kvsname_max=256\n";
  }

  /** Whatever is found in a line, errors included, is a proper key and value no longer than the line. */
  lemma {:induction false} FoundIsProper(s: string)
    ensures AllProper(Parse(s).pairs)
    ensures forall i :: 0 <= i < |Parse(s).pairs| ==> |Parse(s).pairs[i].1| <= |s|
    decreases |s|, 1
  {
    FirstIsProper(s[Span(s, Blank)..]);
  }

  lemma {:induction false} FirstIsProper(t: string)
    ensures AllProper(ParsePair(t).pairs)
    ensures forall i :: 0 <= i < |ParsePair(t).pairs| ==> |ParsePair(t).pairs[i].1| <= |t|
    decreases |t|, 0
  {
    var k := Span(t, Key);
    if t != "" && t[0] != '\n' && 0 < k < |t| && t[k] == '=' {
      var u := t[k + 1..];
      FoundIsProper(u[Span(u, Value)..]);
    }
  }

  lemma KeptIsClean(pair: Pair)
    requires Proper(pair)
    ensures Proper(KeptPair(pair)) && Short(KeptPair(pair))
  {
  }

  /** Whatever a line holds, errors included, what is kept would be printed and read back the same. */
  lemma StoredIsClean(s: string)
    ensures var stored := Kept(Parse(s).pairs);
            AllProper(stored) && AllShort(stored)
  {
    FoundIsProper(s);
    forall i | 0 <= i < |Parse(s).pairs|
      ensures Proper(Kept(Parse(s).pairs)[i]) && Short(Kept(Parse(s).pairs)[i])
    {
      KeptIsClean(Parse(s).pairs[i]);
    }
  }

  lemma NormalForm(s: string)
    ensures var stored := Kept(Parse(s).pairs);
            Kept(Parse(Print(stored)).pairs) == stored
  {
    StoredIsClean(s);
    KeptPrint(Kept(Parse(s).pairs));
  }

  // ---- What fits the table ----

  /** A line that is short enough for the line reader fits exactly when it has no more pairs than the
      table has entries. */
  lemma ShortLines(s: string)
    requires |s| < 1024
    ensures Storable(Parse(s).pairs) <==> |Parse(s).pairs| <= 64
  {
    FoundIsProper(s);
    ShortValues(Parse(s).pairs);
  }

  lemma ShortValues(pairs: seq<Pair>)
    requires forall i :: 0 <= i < |pairs| ==> |pairs[i].1| < MAXVALLEN
    ensures Storable(pairs) <==> |pairs| <= 64
  {
    if TABLE < |pairs| {
      assert !InTable(TABLE, pairs[TABLE]);
    }
  }

  function Repeated(pair: Pair, n: nat): (pairs: seq<Pair>)
    ensures |pairs| == n && forall i :: 0 <= i < n ==> pairs[i] == pair
  {
    seq(n, _ => pair)
  }

  lemma {:induction false} RepeatedLength(n: nat)
    requires 0 < n
    ensures |Print(Repeated(("a", ""), n))| == 3 * n
  {
    if 1 < n {
      RepeatedLength(n - 1);
      assert Repeated(("a", ""), n)[1..] == Repeated(("a", ""), n - 1);
    }
  }

  /** A line of 195 characters that does not fit: one pair more than there are entries. */
  lemma TooManyPairs()
    ensures var line := Print(Repeated(("a", ""), 65));
            |line| == 195 && |Parse(line).pairs| == 65 && !Storable(Parse(line).pairs)
  {
    var pairs := Repeated(("a", ""), TABLE + 1);
    RepeatedLength(TABLE + 1);
    assert AllProper(pairs);
    ParsedPrint(pairs);
    ShortLines(Print(pairs));
  }

  /** A value alone on its line: longer than its entry, it is cut; the null behind it lands in another
      entry, and outside the table only if the value is longer than the table. */
  lemma LongValue(value: string)
    requires AllOf(value, Value)
    ensures var pairs := Parse(Print([("a", value)])).pairs;
            && (Storable(pairs) <==> |value| < 64 * (32 + 1024) - 32)
            && Kept(pairs) == [("a", if |value| < 1024 then value else value[..1023])]
  {
    assert AllProper([("a", value)]);
    ParsedPrint([("a", value)]);
    CutNothing("a", MAXKEYLEN - 1);
    KeptOf(("a", value));
    assert Storable([("a", value)]) <==> InTable(0, ("a", value));
  }

  // ---- Looking up ----

  /** The first pair with the key, or the number of pairs. */
  function Find(pairs: seq<Pair>, key: string): (i: nat)
    ensures i <= |pairs|
    ensures forall j :: 0 <= j < i ==> pairs[j].0 != key
    ensures i < |pairs| ==> pairs[i].0 == key
  {
    if pairs == [] || pairs[0].0 == key then 0 else 1 + Find(pairs[1..], key)
  }

  lemma FindIs(pairs: seq<Pair>, key: string, i: nat)
    requires i <= |pairs| && (forall j :: 0 <= j < i ==> pairs[j].0 != key) && (i < |pairs| ==> pairs[i].0 == key)
    ensures Find(pairs, key) == i
  {
  }

  /** What looking up a key returns and leaves in the caller's array. */
  ghost predicate LookUp(pairs: seq<Pair>, key: string, room: nat, found: bool, was: seq<char>, now: seq<char>) {
    var i := Find(pairs, key);
    if i == |pairs| then
      !found && was != [] && now == was[0 := NUL]
    else if room == 0 then
      found && now == was
    else
      var value := Cut(pairs[i].1, room - 1);
      && found == (|pairs[i].1| < room)
      && room <= |was| && now == value + [NUL] + was[|value| + 1..]
  }

  /** With room for it the value of the first pair with the key is left in the array; a missing key leaves
      the empty string. */
  lemma LookUpMeans(pairs: seq<Pair>, key: string, room: nat, found: bool, was: seq<char>, now: seq<char>)
    requires LookUp(pairs, key, room, found, was, now) && forall pair <- pairs :: NUL !in pair.1
    ensures key !in Keys(pairs) ==> !found && |now| == |was| && CString(now, 0) == "" && now[1..] == was[1..]
    ensures forall i :: 0 <= i < |pairs| && FirstWith(pairs, key, i) ==>
              var value := pairs[i].1;
              && (found <==> room == 0 || |value| < room)
              && (room == 0 ==> now == was)
              && (0 < room ==>
                    && Terminated(now, 0) && |now| == |was|
                    && CString(now, 0) == if |value| < room then value else value[..room - 1])
  {
    var i := Find(pairs, key);
    if i < |pairs| {
      assert FirstWith(pairs, key, i) && pairs[i].0 in Keys(pairs);
      if 0 < room {
        StringInFront(now, Cut(pairs[i].1, room - 1), was[|Cut(pairs[i].1, room - 1)| + 1..]);
      }
    }
  }

  lemma StringInFront(s: seq<char>, text: string, rest: seq<char>)
    requires s == text + [NUL] + rest && NUL !in text
    ensures Terminated(s, 0) && CString(s, 0) == text
  {
    LengthIs(s, 0, |text|);
  }

  /** The first `n` pairs with the key have been given the value. */
  function Changed(pairs: seq<Pair>, key: string, value: string, n: nat): (after: seq<Pair>)
    ensures |after| == |pairs|
    ensures forall i :: 0 <= i < |pairs| ==> after[i] == if i < n && pairs[i].0 == key then (key, value) else pairs[i]
  {
    seq(|pairs|, i requires 0 <= i < |pairs| => if i < n && pairs[i].0 == key then (key, value) else pairs[i])
  }

  lemma ChangeOne(pairs: seq<Pair>, key: string, value: string, n: nat)
    requires n < |pairs|
    ensures Changed(pairs, key, value, n)[n].0 == pairs[n].0
    ensures Changed(pairs, key, value, n + 1)
            == if pairs[n].0 == key then Changed(pairs, key, value, n)[n := (key, value)]
               else Changed(pairs, key, value, n)
  {
  }

  /** A change is seen by look-ups of the key, wherever the key is, and by no others. */
  lemma FindAfterChange(pairs: seq<Pair>, key: string, value: string, other: string)
    ensures var after, i := Changed(pairs, key, value, |pairs|), Find(pairs, other);
            Find(after, other) == i
            && (i < |pairs| ==> after[i].1 == if other == key then value else pairs[i].1)
  {
  }

  // ---- The table ----

  /** Where the key and the value of an entry start. */
  function KeyAt(i: nat): nat {
    i * ENTRY
  }

  function ValueAt(i: nat): nat {
    i * ENTRY + MAXKEYLEN
  }

  lemma EntryFits(i: nat)
    requires i < TABLE
    ensures KeyAt(i) + ENTRY <= TABLE * ENTRY
  {
  }

  lemma EntryOrder(i: nat, j: nat)
    requires i < j
    ensures KeyAt(i) + ENTRY <= KeyAt(j)
  {
  }

  /** An entry holds two null-terminated strings. */
  ghost predicate EntryOk(tab: seq<char>, i: nat) {
    && KeyAt(i) + ENTRY <= |tab|
    && Length(tab, KeyAt(i)) < MAXKEYLEN && Length(tab, ValueAt(i)) < MAXVALLEN
  }

  ghost function PairIn(tab: seq<char>, i: nat): Pair
    requires KeyAt(i) + ENTRY <= |tab|
  {
    (CString(tab, KeyAt(i)), CString(tab, ValueAt(i)))
  }

  ghost predicate Entries(tab: seq<char>, count: nat) {
    forall i :: 0 <= i < count ==> EntryOk(tab, i)
  }

  ghost function PairsIn(tab: seq<char>, count: nat): (pairs: seq<Pair>)
    requires Entries(tab, count)
    ensures |pairs| == count && forall i :: 0 <= i < count ==> EntryOk(tab, i) && pairs[i] == PairIn(tab, i)
  {
    seq(count, i requires 0 <= i < count => assert EntryOk(tab, i); PairIn(tab, i))
  }

  lemma PairsAre(tab: seq<char>, count: nat, pairs: seq<Pair>)
    requires |pairs| == count && forall i :: 0 <= i < count ==> EntryOk(tab, i) && PairIn(tab, i) == pairs[i]
    ensures Entries(tab, count) && PairsIn(tab, count) == pairs
  {
  }

  /** An entry does not notice writes behind it. */
  lemma EntryKept(tab: seq<char>, was: seq<char>, i: nat, bound: nat)
    requires EntryOk(was, i) && |tab| == |was| && KeyAt(i) + ENTRY <= bound <= |tab|
    requires tab[..bound] == was[..bound]
    ensures EntryOk(tab, i) && PairIn(tab, i) == PairIn(was, i)
  {
    SameString(was, tab, KeyAt(i), bound);
    SameString(was, tab, ValueAt(i), bound);
  }

  /** Filling the next entry leaves those before it alone. */
  lemma NextEntry(tab: seq<char>, was: seq<char>, count: nat)
    requires Entries(was, count) && |tab| == |was| && EntryOk(tab, count)
    requires tab[..KeyAt(count)] == was[..KeyAt(count)]
    ensures Entries(tab, count + 1)
    ensures PairsIn(tab, count + 1) == PairsIn(was, count) + [PairIn(tab, count)]
  {
    var pairs := PairsIn(was, count) + [PairIn(tab, count)];
    forall i | 0 <= i < count + 1
      ensures EntryOk(tab, i) && PairIn(tab, i) == pairs[i]
    {
      if i < count {
        assert EntryOk(was, i);
        EntryOrder(i, count);
        EntryKept(tab, was, i, KeyAt(count));
      }
    }
    PairsAre(tab, count + 1, pairs);
  }

  /** A copy of a string, ended earlier. */
  lemma CutCopy(s: seq<char>, was: seq<char>, d: nat, src: seq<char>, from: nat, k: nat, n: nat)
    requires CopiedTo(s, was, d, src, from, k) && n <= k <= Length(src, from)
    ensures var t := s[d + n := NUL];
            t[..d] == was[..d] && Length(t, d) == n && CString(t, d) == src[from..from + n]
  {
    var t := s[d + n := NUL];
    assert forall i :: d <= i < d + n ==> t[i] == s[i] == src[from + (i - d)];
    LengthIs(t, d, n);
    assert t[..d] == was[..d] && t[d..d + n] == src[from..from + n];
  }

  /** What lies behind a slot stays the same. */
  lemma SameTail(s: seq<char>, was: seq<char>, bound: nat, from: nat)
    requires bound <= from <= |s| == |was| && s[bound..] == was[bound..]
    ensures Length(s, from) == Length(was, from) && CString(s, from) == CString(was, from)
  {
  }

  lemma EntryBehind(tab: seq<char>, was: seq<char>, i: nat, bound: nat)
    requires EntryOk(was, i) && |tab| == |was| && bound <= KeyAt(i) && tab[bound..] == was[bound..]
    ensures EntryOk(tab, i) && PairIn(tab, i) == PairIn(was, i)
  {
    SameTail(tab, was, bound, KeyAt(i));
    SameTail(tab, was, bound, ValueAt(i));
  }

  /** Replacing the value of one entry leaves everything else alone. */
  lemma OneValue(tab: seq<char>, was: seq<char>, count: nat, i: nat)
    requires Entries(was, count) && i < count && |tab| == |was| && EntryOk(was, i)
    requires Length(tab, ValueAt(i)) < MAXVALLEN
    requires tab[..ValueAt(i)] == was[..ValueAt(i)] && tab[KeyAt(i) + ENTRY..] == was[KeyAt(i) + ENTRY..]
    ensures Entries(tab, count)
    ensures PairsIn(tab, count) == PairsIn(was, count)[i := (PairIn(was, i).0, CString(tab, ValueAt(i)))]
  {
    var pairs := PairsIn(was, count)[i := (PairIn(was, i).0, CString(tab, ValueAt(i)))];
    forall j | 0 <= j < count
      ensures EntryOk(tab, j) && PairIn(tab, j) == pairs[j]
    {
      assert EntryOk(was, j);
      if j < i {
        EntryOrder(j, i);
        EntryKept(tab, was, j, ValueAt(i));
      } else if j == i {
        SameString(was, tab, KeyAt(i), ValueAt(i));
      } else {
        EntryOrder(i, j);
        EntryBehind(tab, was, j, KeyAt(i) + ENTRY);
      }
    }
    PairsAre(tab, count, pairs);
  }

  /** A string copied to the start of an array with some room. */
  lemma CopiedWhole(s: seq<char>, was: seq<char>, src: seq<char>, from: nat, room: nat)
    requires 0 < room && from <= |src| && CopiedTo(s, was, 0, src, from, Min(Length(src, from), room - 1))
    ensures var value := Cut(CString(src, from), room - 1); s == value + [NUL] + was[|value| + 1..]
  {
    var k := Min(Length(src, from), room - 1);
    assert Cut(CString(src, from), room - 1) == src[from..from + k];
  }

  /** A string copied into a slot with room to spare, and a null at the end of the slot. */
  lemma Overwritten(s: seq<char>, was: seq<char>, d: nat, size: nat, src: seq<char>, k: nat)
    requires CopiedTo(s, was, d, src, 0, k) && k <= Length(src, 0) && k + 1 < size && d + size <= |was|
    ensures var t := s[d + (size - 1) := NUL];
            && Length(t, d) < size && CString(t, d) == CString(src, 0)[..k]
            && t[..d] == was[..d] && t[d + size..] == was[d + size..]
  {
    var end := d + size - 1;
    CopiedString(s, was, d, src, 0, k);
    assert s[..end] == s[end := NUL][..end];
    SameString(s, s[end := NUL], d, end);
    assert s[..d] == was[..d] && s[d + k + 1..] == was[d + k + 1..];
    assert s[d + size..] == s[d + k + 1..][size - k - 1..] == was[d + size..];
  }

  /** Where the parser is: what it has stored and left behind, and that the rest decides the rest. */
  ghost predicate Continues(all: Parsed, pairs: seq<Pair>, left: string, rest: string) {
    all == Prepend(pairs, left, Parse(rest))
  }

  /** The same past the blanks. */
  ghost predicate AtWord(all: Parsed, pairs: seq<Pair>, left: string, rest: string) {
    all == Prepend(pairs, left, ParsePair(rest))
  }

  ghost function Prepend(pairs: seq<Pair>, left: string, more: Parsed): Parsed {
    Parsed(more.code, pairs + more.pairs, left + more.left)
  }

  lemma PrependTwice(p: seq<Pair>, s: string, q: seq<Pair>, t: string, more: Parsed)
    ensures Prepend(p, s, Prepend(q, t, more)) == Prepend(p + q, s + t, more)
  {
  }

  lemma AtStart(line: string)
    ensures Continues(Parse(line), [], "", line)
  {
    assert [] + Parse(line).pairs == Parse(line).pairs && "" + Parse(line).left == Parse(line).left;
  }

  lemma PastBlanks(all: Parsed, pairs: seq<Pair>, left: string, blanks: string, rest: string)
    requires Continues(all, pairs, left, blanks + rest)
    requires AllOf(blanks, Blank) && Stops(rest, Blank)
    ensures AtWord(all, pairs, left + blanks, rest)
  {
    SpanSplit(blanks, Blank, rest);
    PrependTwice(pairs, left, [], blanks, ParsePair(rest));
    assert pairs + [] == pairs;
  }

  /** The parser stops at the end of the line, and at a '=' without a key. */
  lemma AtEnd(all: Parsed, pairs: seq<Pair>, left: string, rest: string)
    requires AtWord(all, pairs, left, rest)
    requires rest == "" || rest[0] == '\n' || rest[0] == '='
    ensures all == Parsed(if rest != "" && rest[0] == '=' then -1 else 0, pairs, left + rest)
  {
  }

  /** It also stops at a key without a '='. */
  lemma AtBareKey(all: Parsed, pairs: seq<Pair>, left: string, key: string, rest: string)
    requires AtWord(all, pairs, left, key + rest) && key != ""
    requires AllOf(key, Key) && Stops(rest, Key) && (rest == "" || rest[0] != '=')
    ensures all == Parsed(-1, pairs, left + (key + rest))
  {
    SpanSplit(key, Key, rest);
    assert (key + rest)[0] == key[0];
    assert pairs + [] == pairs;
  }

  lemma AfterValue(all: Parsed, pairs: seq<Pair>, left: string, rest: string)
    requires Continues(all, pairs, left, rest) && (rest == "" || rest[0] == '\n')
    ensures all == Parsed(0, pairs, left + rest)
  {
    assert "" + rest == rest && left + "" == left;
    PastBlanks(all, pairs, left, "", rest);
    AtEnd(all, pairs, left, rest);
  }

  lemma AfterPair(all: Parsed, pairs: seq<Pair>, s: seq<char>, q: nat, n: nat)
    requires q <= n < |s| && Continues(all, pairs, s[..q], s[q..n])
    requires NUL !in s[q..n] && !Is(s[q], Value) && s[q] != ' '
    ensures all == Parsed(0, pairs, s[..n])
  {
    if q < n {
      assert s[q] in s[q..n];
    }
    AfterValue(all, pairs, s[..q], s[q..n]);
    assert s[..q] + s[q..n] == s[..n];
  }

  lemma PastPair(all: Parsed, pairs: seq<Pair>, left: string, rest: string, key: string, value: string, more: string)
    requires AtWord(all, pairs, left, rest) && rest == key + ("=" + (value + more))
    requires key != "" && AllOf(key, Key) && AllOf(value, Value) && Stops(more, Value)
    ensures Continues(all, pairs + [(key, value)], left + (key + [NUL] + value), more)
  {
    OnePair(key, value, more);
    PrependTwice(pairs, left, [(key, value)], key + [NUL] + value, Parse(more));
  }

  lemma Tail(s: seq<char>, p: nat, q: nat, n: nat)
    requires p <= q <= n <= |s| && NUL !in s[p..n]
    ensures NUL !in s[q..n] && s[p..n][q - p..] == s[q..n]
  {
  }

  lemma AtKey(all: Parsed, pairs: seq<Pair>, s: seq<char>, p: nat, q: nat, n: nat)
    requires p <= q <= n < |s| && Continues(all, pairs, s[..p], s[p..n])
    requires AllOf(s[p..q], Blank) && !Is(s[q], Blank)
    ensures AtWord(all, pairs, s[..q], s[q..n])
  {
    assert s[p..n] == s[p..q] + s[q..n] && s[..q] == s[..p] + s[p..q];
    PastBlanks(all, pairs, s[..p], s[p..q], s[q..n]);
  }

  lemma NoKey(all: Parsed, pairs: seq<Pair>, s: seq<char>, p: nat, n: nat)
    requires p <= n < |s| && s[n] == NUL && NUL !in s[p..n]
    requires AtWord(all, pairs, s[..p], s[p..n]) && (s[p] == '=' || s[p] == '\n' || s[p] == NUL)
    ensures all == Parsed(if s[p] == '=' then -1 else 0, pairs, s[..n])
  {
  }

  lemma BareKey(all: Parsed, pairs: seq<Pair>, s: seq<char>, keyStart: nat, keyEnd: nat, n: nat)
    requires keyStart < keyEnd <= n < |s|
    requires AtWord(all, pairs, s[..keyStart], s[keyStart..n])
    requires AllOf(s[keyStart..keyEnd], Key) && !Is(s[keyEnd], Key) && s[keyEnd] != '='
    ensures all == Parsed(-1, pairs, s[..n])
  {
    var key, rest := s[keyStart..keyEnd], s[keyEnd..n];
    assert s[keyStart..n] == key + rest;
    assert rest != "" ==> rest[0] == s[keyEnd];
    AtBareKey(all, pairs, s[..keyStart], key, rest);
    assert s[..keyStart] + (key + rest) == s[..n];
  }

  lemma KeepOne(pairs: seq<Pair>, n: nat)
    requires n < |pairs| && Storable(pairs[..n]) && InTable(n, pairs[n])
    ensures Storable(pairs[..n + 1]) && Kept(pairs[..n + 1]) == Kept(pairs[..n]) + [KeptPair(pairs[n])]
  {
    forall i | 0 <= i < n + 1
      ensures InTable(i, pairs[..n + 1][i])
      ensures Kept(pairs[..n + 1])[i] == (Kept(pairs[..n]) + [KeptPair(pairs[n])])[i]
    {
      assert i < n ==> pairs[..n + 1][i] == pairs[..n][i];
    }
  }

  /** The line around a pair, before and after its '=' is overwritten. */
  lemma Pieces(s: seq<char>, keyStart: nat, keyEnd: nat, q: nat, n: nat)
    requires keyStart <= keyEnd < q <= n <= |s|
    ensures s[keyStart..n] == s[keyStart..keyEnd] + ([s[keyEnd]] + (s[keyEnd + 1..q] + s[q..n]))
    ensures s[keyEnd := NUL][..q] == s[..keyStart] + (s[keyStart..keyEnd] + [NUL] + s[keyEnd + 1..q])
    ensures s[keyEnd := NUL][q..n] == s[q..n] && s[keyEnd := NUL][keyEnd + 1..q] == s[keyEnd + 1..q]
  {
  }

  /** The strings at the two ends of a pair once its '=' is overwritten. */
  lemma PairStrings(s: seq<char>, keyStart: nat, keyEnd: nat, q: nat, n: nat)
    requires keyStart <= keyEnd < q <= n < |s| && s[keyEnd] == NUL && s[n] == NUL
    requires AllOf(s[keyStart..keyEnd], Key) && AllOf(s[keyEnd + 1..q], Value)
    ensures Terminated(s, keyStart) && CString(s, keyStart) == s[keyStart..keyEnd]
    ensures Terminated(s, keyEnd + 1) && q <= keyEnd + 1 + Length(s, keyEnd + 1)
  {
    assert forall i :: keyStart <= i < keyEnd ==> s[i] == s[keyStart..keyEnd][i - keyStart];
    assert forall i :: keyEnd < i < q ==> s[i] == s[keyEnd + 1..q][i - (keyEnd + 1)];
    LengthIs(s, keyStart, keyEnd - keyStart);
  }

  /** What has been found once the ends of key and value are known. */
  lemma FoundPair(all: Parsed, pairs: seq<Pair>, was: seq<char>, s: seq<char>,
                  keyStart: nat, keyEnd: nat, q: nat, n: nat)
    requires keyStart < keyEnd < q <= n < |was| && was[keyEnd] == '=' && s == was[keyEnd := NUL] && s[n] == NUL
    requires AllOf(was[keyStart..keyEnd], Key) && AllOf(s[keyEnd + 1..q], Value) && !Is(s[q], Value)
    requires AtWord(all, pairs, was[..keyStart], was[keyStart..n])
    ensures Continues(all, pairs + [(s[keyStart..keyEnd], s[keyEnd + 1..q])], s[..q], s[q..n])
    ensures s[q..n] == was[q..n]
  {
    var key, value, more := was[keyStart..keyEnd], was[keyEnd + 1..q], was[q..n];
    Pieces(was, keyStart, keyEnd, q, n);
    assert s[keyStart..keyEnd] == key;
    PastPair(all, pairs, was[..keyStart], was[keyStart..n], key, value, more);
  }

  /** It is the next of all pairs. */
  lemma FoundNext(all: Parsed, k: nat, was: seq<char>, s: seq<char>, keyStart: nat, keyEnd: nat, q: nat, n: nat)
    requires keyStart < keyEnd < q <= n < |was| && was[keyEnd] == '=' && s == was[keyEnd := NUL] && s[n] == NUL
    requires AllOf(was[keyStart..keyEnd], Key) && AllOf(s[keyEnd + 1..q], Value) && !Is(s[q], Value)
    requires k <= |all.pairs| && AtWord(all, all.pairs[..k], was[..keyStart], was[keyStart..n])
    ensures k < |all.pairs| && all.pairs[k] == (s[keyStart..keyEnd], s[keyEnd + 1..q])
    ensures Continues(all, all.pairs[..k + 1], s[..q], s[q..n]) && s[q..n] == was[q..n]
  {
    var pair := (s[keyStart..keyEnd], s[keyEnd + 1..q]);
    FoundPair(all, all.pairs[..k], was, s, keyStart, keyEnd, q, n);
    assert all.pairs[k] == (all.pairs[..k] + [pair])[k];
    assert all.pairs[..k + 1] == all.pairs[..k] + [pair];
  }

  /** A value copied to its entry and ended where it would end if it were not cut. */
  lemma EndedCopy(s: seq<char>, was: seq<char>, d: nat, src: seq<char>, from: nat, offset: nat)
    requires from <= |src| && offset <= Length(src, from) && d + MAXVALLEN <= |was| && d + offset < |was|
    requires CopiedTo(s, was, d, src, from, Min(Length(src, from), MAXVALLEN - 1))
    ensures var t := s[d + offset := NUL];
            && t[..d] == was[..d] && Length(t, d) < MAXVALLEN
            && CString(t, d) == Cut(src[from..from + offset], MAXVALLEN - 1)
  {
    if offset < MAXVALLEN {
      CutCopy(s, was, d, src, from, Min(Length(src, from), MAXVALLEN - 1), offset);
      CutNothing(src[from..from + offset], MAXVALLEN - 1);
    } else {
      CopiedString(s, was, d, src, from, MAXVALLEN - 1);
      SameString(s, s[d + offset := NUL], d, d + offset);
      assert CString(src, from)[..MAXVALLEN - 1] == src[from..from + offset][..MAXVALLEN - 1];
      assert s[d + offset := NUL][..d] == was[..d];
    }
  }

  /** A string of less than `size` characters has been written, and nothing before it. */
  ghost predicate Writes(s: seq<char>, was: seq<char>, d: nat, size: nat, text: string) {
    |s| == |was| && d <= |s| && s[..d] == was[..d] && Length(s, d) < size && CString(s, d) == text
  }

  /** An entry once its key and then its value have been written. */
  lemma FilledEntry(tab: seq<char>, keyed: seq<char>, was: seq<char>, i: nat, pair: Pair)
    requires Entries(was, i) && KeyAt(i) + ENTRY <= |tab|
    requires Writes(keyed, was, KeyAt(i), MAXKEYLEN, KeptPair(pair).0)
    requires Writes(tab, keyed, ValueAt(i), MAXVALLEN, KeptPair(pair).1)
    ensures Entries(tab, i + 1) && PairsIn(tab, i + 1) == PairsIn(was, i) + [KeptPair(pair)]
  {
    SameString(keyed, tab, KeyAt(i), ValueAt(i));
    assert tab[..KeyAt(i)] == tab[..ValueAt(i)][..KeyAt(i)] == keyed[..ValueAt(i)][..KeyAt(i)] == was[..KeyAt(i)];
    NextEntry(tab, was, i);
  }

  class Table {
    /** All entries, one after the other. */
    const tab: array<char>
    var count: nat

    ghost predicate Sized()
      reads this
    {
      tab.Length == TABLE * ENTRY
    }

    ghost predicate Valid()
      reads this, tab
    {
      Sized() && count <= TABLE && Entries(tab[..], count)
    }

    ghost function Pairs(): (pairs: seq<Pair>)
      requires Valid()
      reads this, tab
      ensures |pairs| == count
    {
      PairsIn(tab[..], count)
    }

    /** The first pairs of a line are in the table. */
    ghost predicate Holds(all: Parsed)
      reads this, tab
    {
      && Valid() && count <= |all.pairs|
      && Pairs() == Kept(all.pairs[..count]) && Storable(all.pairs[..count])
    }

    /** The next one would be written outside it. */
    ghost predicate Stopped(all: Parsed)
      reads this, tab
    {
      Holds(all) && count < |all.pairs| && !InTable(count, all.pairs[count])
    }

    constructor ()
      ensures Valid() && Pairs() == [] && fresh(tab)
    {
      tab := new char[TABLE * ENTRY];
      count := 0;
    }

    method StoreKey(st: array<char>, keyStart: nat, ghost key: string)
      requires Sized() && count < TABLE && st != tab && Terminated(st[..], keyStart) && CString(st[..], keyStart) == key
      modifies tab
      ensures Writes(tab[..], old(tab[..]), KeyAt(count), MAXKEYLEN, Cut(key, MAXKEYLEN - 1))
    {
      ghost var was := tab[..];
      var _ := Strncpy(tab, KeyAt(count), st, keyStart, MAXKEYLEN);
      CopiedString(tab[..], was, KeyAt(count), st[..], keyStart, Min(|key|, MAXKEYLEN - 1));
    }

    /** Copies all that is left of the line, as far as the entry has room, then ends the value where it
        should end, which may be in another entry. */
    method StoreValue(st: array<char>, valueStart: nat, offset: nat, ghost value: string)
      requires Sized() && count < TABLE && st != tab && Terminated(st[..], valueStart)
      requires offset <= Length(st[..], valueStart) && st[valueStart..valueStart + offset] == value
      requires ValueAt(count) + offset < TABLE * ENTRY
      modifies tab
      ensures Writes(tab[..], old(tab[..]), ValueAt(count), MAXVALLEN, Cut(value, MAXVALLEN - 1))
    {
      ghost var was := tab[..];
      var slot := ValueAt(count);
      var _ := Strncpy(tab, slot, st, valueStart, MAXVALLEN);
      ghost var copied := tab[..];
      tab[slot + offset] := NUL;
      assert tab[..] == copied[slot + offset := NUL];
      EndedCopy(copied, was, slot, st[..], valueStart, offset);
    }

    /** Stores a key and a value, both ended in place. */
    method Store(st: array<char>, keyStart: nat, valueStart: nat, offset: nat, ghost pair: Pair)
      requires Valid() && st != tab && InTable(count, pair)
      requires Terminated(st[..], keyStart) && CString(st[..], keyStart) == pair.0
      requires Terminated(st[..], valueStart) && offset <= Length(st[..], valueStart)
      requires st[valueStart..valueStart + offset] == pair.1
      modifies this`count, tab
      ensures Valid() && count == old(count) + 1 && Pairs() == old(Pairs()) + [KeptPair(pair)]
    {
      ghost var was := tab[..];
      EntryFits(count);
      StoreKey(st, keyStart, pair.0);
      ghost var keyed := tab[..];
      StoreValue(st, valueStart, offset, pair.1);
      FilledEntry(tab[..], keyed, was, count, pair);
      count := count + 1;
    }

    /** Stores the next of all pairs. */
    method StoreNext(st: array<char>, keyStart: nat, valueStart: nat, offset: nat, ghost all: Parsed)
      requires Holds(all) && count < |all.pairs| && st != tab && InTable(count, all.pairs[count])
      requires Terminated(st[..], keyStart) && CString(st[..], keyStart) == all.pairs[count].0
      requires Terminated(st[..], valueStart) && offset <= Length(st[..], valueStart)
      requires st[valueStart..valueStart + offset] == all.pairs[count].1
      modifies this`count, tab
      ensures Holds(all) && count == old(count) + 1
    {
      KeepOne(all.pairs, count);
      Store(st, keyStart, valueStart, offset, all.pairs[count]);
    }

    /** Moves past the characters that are of a kind. */
    static method Scan(st: array<char>, p: nat, kind: Kind, ghost n: nat) returns (q: nat)
      requires p <= n < st.Length && st[n] == NUL && !Is(NUL, kind)
      ensures p <= q <= n && AllOf(st[p..q], kind) && !Is(st[q], kind)
    {
      q := p;
      while Is(st[q], kind)
        invariant p <= q <= n && AllOf(st[p..q], kind)
        decreases n - q
      {
        q := q + 1;
      }
    }

    /** The part of a round that ends the key in place and stores the pair. */
    method StorePair(st: array<char>, keyStart: nat, keyEnd: nat, ghost n: nat, ghost all: Parsed)
      returns (q: nat, fault: bool)
      requires st != tab && keyStart < keyEnd < n < st.Length && st[n] == NUL
      requires st[keyEnd] == '=' && AllOf(st[keyStart..keyEnd], Key)
      requires Holds(all) && AtWord(all, all.pairs[..count], st[..keyStart], st[keyStart..n])
      modifies this`count, tab, st
      ensures Holds(all) && st[n..] == old(st[n..])
      ensures keyEnd < q <= n && !Is(st[q], Value) && st[q..n] == old(st[..])[q..n]
      ensures if fault then Stopped(all) else Continues(all, all.pairs[..count], st[..q], st[q..n])
    {
      ghost var was := st[..];
      st[keyEnd] := NUL;
      assert st[..] == was[keyEnd := NUL];
      q := Scan(st, keyEnd + 1, Value, n);
      FoundNext(all, count, was, st[..], keyStart, keyEnd, q, n);
      fault := StoreFound(st, keyStart, keyEnd, q, n, all);
    }

    /** Stores the pair whose ends have been found. Stops where the program would write outside the table:
        with the key, if there is no entry, and otherwise with the null behind the value. */
    method StoreFound(st: array<char>, keyStart: nat, keyEnd: nat, q: nat, ghost n: nat, ghost all: Parsed)
      returns (fault: bool)
      requires st != tab && keyStart < keyEnd < q <= n < st.Length && st[keyEnd] == NUL && st[n] == NUL
      requires AllOf(st[keyStart..keyEnd], Key) && AllOf(st[keyEnd + 1..q], Value)
      requires Holds(all) && count < |all.pairs| && all.pairs[count] == (st[keyStart..keyEnd], st[keyEnd + 1..q])
      modifies this`count, tab
      ensures if fault then Stopped(all) && count == old(count) else Holds(all) && count == old(count) + 1
    {
      var offset := q - (keyEnd + 1);
      fault := count == TABLE || ValueAt(count) + offset >= TABLE * ENTRY;
      if !fault {
        PairStrings(st[..], keyStart, keyEnd, q, n);
        StoreNext(st, keyStart, keyEnd + 1, offset, all);
      }
    }

    /** Parses from `p` on, up to and including one pair; `more` if a blank follows it. */
    method ParseOne(st: array<char>, p: nat, ghost n: nat, ghost all: Parsed)
      returns (q: nat, more: bool, rc: int, fault: bool)
      requires st != tab && p <= n < st.Length && st[n] == NUL && NUL !in st[p..n]
      requires Holds(all) && Continues(all, all.pairs[..count], st[..p], st[p..n])
      modifies this`count, tab, st
      ensures Holds(all) && st[n..] == old(st[n..]) && q <= n
      ensures if fault then
                !more && Stopped(all)
              else if more then
                p < q && NUL !in st[q..n] && Continues(all, all.pairs[..count], st[..q], st[q..n])
              else
                all == Parsed(rc, all.pairs[..count], st[..n])
    {
      ghost var found := all.pairs[..count];
      var keyStart := SkipBlanks(st, p, n, all, found);
      var keyEnd;
      keyEnd, rc := FindKey(st, keyStart, n, all, found);
      if keyStart == keyEnd {
        return keyStart, false, rc, false;
      }
      ghost var s := st[..];
      q, fault := StorePair(st, keyStart, keyEnd, n, all);
      if fault {
        more := false;
        return;
      }
      Tail(s, keyStart, q, n);
      more := st[q] == ' ';
      if !more {
        AfterPair(all, all.pairs[..count], st[..], q, n);
      }
    }

    static method SkipBlanks(st: array<char>, p: nat, ghost n: nat, ghost all: Parsed, ghost found: seq<Pair>)
      returns (keyStart: nat)
      requires p <= n < st.Length && st[n] == NUL && NUL !in st[p..n]
      requires Continues(all, found, st[..p], st[p..n])
      ensures p <= keyStart <= n && st[keyStart] != ' ' && NUL !in st[keyStart..n]
      ensures AtWord(all, found, st[..keyStart], st[keyStart..n])
    {
      keyStart := Scan(st, p, Blank, n);
      AtKey(all, found, st[..], p, keyStart, n);
      Tail(st[..], p, keyStart, n);
    }

    /** Where the key ends; where it starts if the line ends or breaks off, with the return code for that. */
    static method FindKey(st: array<char>, keyStart: nat, ghost n: nat, ghost all: Parsed, ghost found: seq<Pair>)
      returns (keyEnd: nat, rc: int)
      requires keyStart <= n < st.Length && st[n] == NUL && NUL !in st[keyStart..n]
      requires st[keyStart] != ' ' && AtWord(all, found, st[..keyStart], st[keyStart..n])
      ensures keyStart <= keyEnd <= n
      ensures keyStart == keyEnd ==> all == Parsed(rc, found, st[..n])
      ensures keyStart < keyEnd ==>
                keyEnd < n && st[keyEnd] == '=' && AllOf(st[keyStart..keyEnd], Key) && rc == 0
    {
      ghost var s := st[..];
      if st[keyStart] == '=' {
        NoKey(all, found, s, keyStart, n);
        return keyStart, -1;
      }
      if st[keyStart] == '\n' || st[keyStart] == NUL {
        NoKey(all, found, s, keyStart, n);
        return keyStart, 0;
      }
      keyEnd := Scan(st, keyStart, Key, n);
      if st[keyEnd] == ' ' || st[keyEnd] == '\n' || st[keyEnd] == NUL {
        BareKey(all, found, s, keyStart, keyEnd, n);
        return keyStart, -1;
      }
      rc := 0;
    }

    /**
     * Parses a line into the table, which it replaces, and overwrites the '=' after each key. Without a
     * fault every write of the program stays inside the table, and values that are too long for their
     * entries are cut.
     */
    method ParseLine(st: array?<char>) returns (rc: int, fault: bool)
      requires Valid() && st != tab
      requires st != null ==> Terminated(st[..], 0)
      modifies this`count, tab, st
      ensures Valid()
      ensures st == null ==> rc == -1 && !fault && Pairs() == old(Pairs())
      ensures st != null ==>
                var line := old(CString(st[..], 0));
                && (fault <==> !Storable(Parse(line).pairs))
                && (fault ==> Stopped(Parse(line)))
                && (!fault ==> Parse(line) == Parsed(rc, Parse(line).pairs, st[..|line|]))
                && (!fault ==> Pairs() == Kept(Parse(line).pairs))
                && st[|line|..] == old(st[..])[|line|..]
    {
      if st == null {
        return -1, false;
      }
      ghost var n := Length(st[..], 0);
      count := 0;
      AtStart(st[..n]);
      rc, fault := ParsePairs(st, n, Parse(st[..n]));
    }

    method ParsePairs(st: array<char>, ghost n: nat, ghost all: Parsed) returns (rc: int, fault: bool)
      requires Valid() && count == 0 && st != tab && n < st.Length && st[n] == NUL && NUL !in st[..n]
      requires Continues(all, [], "", st[..n])
      modifies this`count, tab, st
      ensures Holds(all) && st[n..] == old(st[n..])
      ensures if fault then Stopped(all) else all == Parsed(rc, all.pairs[..count], st[..n])
    {
      var p, more := 0, true;
      rc, fault := 0, false;
      assert all.pairs[..0] == [] && Kept([]) == Pairs();
      while more
        invariant Holds(all) && p <= n && st[n..] == old(st[n..])
        invariant if fault then
                    !more && Stopped(all)
                  else if more then
                    NUL !in st[p..n] && Continues(all, all.pairs[..count], st[..p], st[p..n])
                  else
                    all == Parsed(rc, all.pairs[..count], st[..n])
        decreases if more then n - p + 1 else 0
      {
        p, more, rc, fault := ParseOne(st, p, n, all);
      }
    }

    method Search(keystr: string, from: nat) returns (i: nat)
      requires Valid() && from <= count
      ensures from <= i <= count
      ensures forall j :: from <= j < i ==> Pairs()[j].0 != keystr
      ensures i < count ==> Pairs()[i].0 == keystr
    {
      i := from;
      while i < count
        invariant from <= i <= count
        invariant forall j :: from <= j < i ==> Pairs()[j].0 != keystr
      {
        assert EntryOk(tab[..], i) && Pairs()[i] == PairIn(tab[..], i);
        if CString(tab[..], KeyAt(i)) == keystr {
          return;
        }
        i := i + 1;
      }
    }

    /** Copies the value of the first pair with this key; it must fit with its null, unless there is no
        room at all. */
    method GetVal(keystr: string, valstr: array<char>, vallen: nat) returns (found: bool)
      requires Valid() && valstr != tab && vallen <= valstr.Length && 0 < valstr.Length
      modifies valstr
      ensures LookUp(Pairs(), keystr, vallen, found, old(valstr[..]), valstr[..])
    {
      var i := Search(keystr, 0);
      FindIs(Pairs(), keystr, i);
      ghost var was := valstr[..];
      if i == count {
        valstr[0] := NUL;
        assert valstr[..] == was[0 := NUL];
        return false;
      }
      found := CopyOut(i, valstr, vallen);
    }

    method CopyOut(i: nat, valstr: array<char>, vallen: nat) returns (found: bool)
      requires Valid() && i < count && valstr != tab && vallen <= valstr.Length
      modifies valstr
      ensures found == (vallen == 0 || |Pairs()[i].1| < vallen)
      ensures if vallen == 0 then
                valstr[..] == old(valstr[..])
              else
                var value := Cut(Pairs()[i].1, vallen - 1);
                valstr[..] == value + [NUL] + old(valstr[..])[|value| + 1..]
    {
      assert EntryOk(tab[..], i) && Pairs()[i] == PairIn(tab[..], i);
      ghost var was := valstr[..];
      var rc := Strncpy(valstr, 0, tab, ValueAt(i), vallen);
      if 0 < vallen {
        CopiedWhole(valstr[..], was, tab[..], ValueAt(i), vallen);
      }
      found := rc == 0;
    }

    /** Replaces the value of every pair with this key; one character less fits than in a value that
        has been parsed. */
    method ChgVal(keystr: string, valstr: array<char>)
      requires Valid() && valstr != tab && Terminated(valstr[..], 0)
      modifies tab
      ensures Valid()
      ensures Pairs() == Changed(old(Pairs()), keystr, Cut(CString(valstr[..], 0), MAXVALLEN - 2), count)
      ensures forall i :: 0 <= i < count ==>
                Pairs()[i] == if old(Pairs())[i].0 == keystr then (keystr, Cut(CString(valstr[..], 0), 1022))
                              else old(Pairs())[i]
    {
      ghost var value, before := Cut(CString(valstr[..], 0), MAXVALLEN - 2), Pairs();
      for i := 0 to count
        invariant Valid() && Pairs() == Changed(before, keystr, value, i)
      {
        assert EntryOk(tab[..], i) && Pairs()[i] == PairIn(tab[..], i);
        ChangeOne(before, keystr, value, i);
        if CString(tab[..], KeyAt(i)) == keystr {
          Change(i, valstr);
        }
      }
    }

    method Change(i: nat, valstr: array<char>)
      requires Valid() && i < count && valstr != tab && Terminated(valstr[..], 0)
      modifies tab
      ensures Valid()
      ensures Pairs() == old(Pairs())[i := (old(Pairs())[i].0, Cut(CString(valstr[..], 0), MAXVALLEN - 2))]
    {
      ghost var was := tab[..];
      assert EntryOk(was, i) && Pairs()[i] == PairIn(was, i);
      Overwrite(ValueAt(i), valstr);
      OneValue(tab[..], was, count, i);
    }

    method Overwrite(d: nat, valstr: array<char>)
      requires d + MAXVALLEN <= tab.Length && valstr != tab && Terminated(valstr[..], 0)
      modifies tab
      ensures Length(tab[..], d) < MAXVALLEN
      ensures CString(tab[..], d) == Cut(CString(valstr[..], 0), MAXVALLEN - 2)
      ensures tab[..d] == old(tab[..d]) && tab[d + MAXVALLEN..] == old(tab[d + MAXVALLEN..])
    {
      ghost var was := tab[..];
      var _ := Strncpy(tab, d, valstr, 0, MAXVALLEN - 1);
      ghost var copied := tab[..];
      tab[d + (MAXVALLEN - 1)] := NUL;
      assert tab[..] == copied[d + (MAXVALLEN - 1) := NUL];
      Overwritten(copied, was, d, MAXVALLEN, valstr[..], Min(Length(valstr[..], 0), MAXVALLEN - 2));
    }
  }
}
