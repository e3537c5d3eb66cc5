/** What a message line is, without the parser: the words of its first line. */
module LineWords {
  import opened SafeStr
  import opened KeyVals

  /** Where the character is first found, or the length. */
  function Upto(s: string, c: char): (n: nat)
    ensures n <= |s| && c !in s[..n] && (n < |s| ==> s[n] == c)
  {
    if s == "" || s[0] == c then 0 else 1 + Upto(s[1..], c)
  }

  lemma UptoIs(s: string, c: char, n: nat)
    requires n <= |s| && c !in s[..n] && (n < |s| ==> s[n] == c)
    ensures Upto(s, c) == n
  {
    assert forall i :: 0 <= i < n ==> s[..n][i] == s[i];
    assert forall i :: 0 <= i < Upto(s, c) ==> s[..Upto(s, c)][i] == s[i];
  }

  function FirstLine(s: string): string {
    s[..Upto(s, '\n')]
  }

  /** What lies between the blanks of a line. */
  function Words(line: string): (words: seq<string>)
    ensures "" !in words
    decreases |line|
  {
    if line == "" then []
    else if line[0] == ' ' then Words(line[1..])
    else
      var n := Upto(line, ' ');
      [line[..n]] + Words(line[n..])
  }

  /** A key and a value: what lies before and after the first '='. */
  predicate IsPair(word: string) {
    0 < Upto(word, '=') < |word|
  }

  function SplitWord(word: string): Pair
    requires IsPair(word)
  {
    (word[..Upto(word, '=')], word[Upto(word, '=') + 1..])
  }

  /** The pairs up to the first word that is not one. */
  function PairsOf(words: seq<string>): seq<Pair> {
    if words == [] || !IsPair(words[0]) then [] else [SplitWord(words[0])] + PairsOf(words[1..])
  }

  ghost predicate AllPairs(words: seq<string>) {
    forall word <- words :: IsPair(word)
  }

  /** The parser succeeds exactly when all words of the first line are pairs, and what it finds, errors
      included, are the pairs up to the first word that is none. */
  lemma {:induction false} ParseByWords(s: string)
    requires NUL !in s
    ensures Parse(s).code == if AllPairs(Words(FirstLine(s))) then 0 else -1
    ensures Parse(s).pairs == PairsOf(Words(FirstLine(s)))
    decreases |s|, 1
  {
    var b := Span(s, Blank);
    WordsPastBlanks(s, b);
    PairByWords(s[b..]);
  }

  /** Blanks before the first word do not matter. */
  lemma {:induction false} WordsPastBlanks(s: string, b: nat)
    requires b <= |s| && AllOf(s[..b], Blank)
    ensures Words(FirstLine(s)) == Words(FirstLine(s[b..]))
  {
    if b == 0 {
      assert s[0..] == s;
    } else {
      assert s[..b][0] == ' ' && s[..b][1..] == s[1..][..b - 1];
      WordsPastBlanks(s[1..], b - 1);
      assert s[1..][b - 1..] == s[b..];
      assert FirstLine(s)[1..] == FirstLine(s[1..]);
    }
  }

  lemma {:induction false} PairByWords(t: string)
    requires NUL !in t && Stops(t, Blank)
    ensures ParsePair(t).code == if AllPairs(Words(FirstLine(t))) then 0 else -1
    ensures ParsePair(t).pairs == PairsOf(Words(FirstLine(t)))
    decreases |t|, 0
  {
    if t != "" && t[0] != '\n' {
      var n := Upto(FirstLine(t), ' ');
      var word, more := t[..n], t[n..];
      FirstWord(t);
      assert t == word + more;
      var words := Words(FirstLine(more));
      assert ([word] + words)[1..] == words;
      if IsPair(word) {
        GoodWord(word, more);
        ParseByWords(more);
      } else {
        BadWord(word, more);
      }
    }
  }

  /** The first word and what is behind it. */
  lemma FirstWord(t: string)
    requires NUL !in t && t != "" && t[0] != '\n' && t[0] != ' '
    ensures var n := Upto(FirstLine(t), ' ');
            && 0 < n <= |t| && AllOf(t[..n], Value) && Stops(t[n..], Value)
            && Words(FirstLine(t)) == [t[..n]] + Words(FirstLine(t[n..]))
  {
    var e := Upto(t, '\n');
    var line := t[..e];
    var n := Upto(line, ' ');
    assert line[0] == t[0] && line[..n] == t[..n];
    forall i | 0 <= i < n
      ensures Is(t[..n][i], Value)
    {
      assert t[i] == line[i] && line[i] == line[..n][i];
      assert line[i] in line && line[..n][i] in line[..n] && t[i] in t;
    }
    LineBehind(t, n);
  }

  lemma LineBehind(t: string, n: nat)
    requires n <= Upto(t, '\n')
    ensures FirstLine(t[n..]) == FirstLine(t)[n..]
  {
    var e := Upto(t, '\n');
    assert t[n..][..e - n] == t[..e][n..];
    UptoIs(t[n..], '\n', e - n);
  }

  /** A word with a key and a '=' is parsed to its two sides. */
  lemma GoodWord(word: string, more: string)
    requires IsPair(word) && AllOf(word, Value) && Stops(more, Value)
    ensures var rest := Parse(more);
            && ParsePair(word + more).code == rest.code
            && ParsePair(word + more).pairs == [SplitWord(word)] + rest.pairs
  {
    var (key, value) := SplitWord(word);
    assert word + more == key + ("=" + (value + more));
    forall i | 0 <= i < |key|
      ensures Is(key[i], Key)
    {
      assert key[i] in key && Is(word[i], Value);
    }
    OnePair(key, value, more);
  }

  /** Any other word is an error. */
  lemma BadWord(word: string, more: string)
    requires word != "" && !IsPair(word) && AllOf(word, Value) && Stops(more, Value)
    ensures ParsePair(word + more).code == -1 && ParsePair(word + more).pairs == []
  {
    var t := word + more;
    assert t[0] == word[0] && Is(word[0], Value);
    if Upto(word, '=') == |word| {
      forall i | 0 <= i < |word|
        ensures Is(word[i], Key)
      {
        assert word[..|word|][i] in word[..|word|] && Is(word[i], Value);
      }
      SpanSplit(word, Key, more);
    }
  }
}
