/** Bounded copies of C strings, in place in character arrays. */
module SafeStr {

  const NUL: char := '\0'

  /** Length of the C string that starts at `from`; it ends at a null or with the array. */
  function Length(s: seq<char>, from: nat): (n: nat)
    requires from <= |s|
    ensures from + n <= |s|
    ensures forall i :: from <= i < from + n ==> s[i] != NUL
    ensures from + n < |s| ==> s[from + n] == NUL
    decreases |s| - from
  {
    if from == |s| || s[from] == NUL then 0 else 1 + Length(s, from + 1)
  }

  function CString(s: seq<char>, from: nat): seq<char>
    requires from <= |s|
  {
    s[from..from + Length(s, from)]
  }

  ghost predicate Terminated(s: seq<char>, from: nat) {
    from <= |s| && from + Length(s, from) < |s|
  }

  lemma LengthIs(s: seq<char>, from: nat, n: nat)
    requires from + n <= |s|
    requires forall i :: from <= i < from + n ==> s[i] != NUL
    requires from + n < |s| ==> s[from + n] == NUL
    ensures Length(s, from) == n
  {
  }

  /** A string depends on the characters up to its null only. */
  lemma SameString(s: seq<char>, t: seq<char>, from: nat, bound: nat)
    requires from <= |s| && from + Length(s, from) < bound <= |s| && bound <= |t| && s[..bound] == t[..bound]
    ensures Length(t, from) == Length(s, from) && CString(t, from) == CString(s, from)
  {
  }

  function Min(a: nat, b: nat): nat {
    if a < b then a else b
  }

  /** `s` is `was` with `k` characters of `src` written over those at `d`. */
  ghost predicate Spliced(s: seq<char>, was: seq<char>, d: nat, src: seq<char>, from: nat, k: nat) {
    && |s| == |was| && d + k <= |was| && from + k <= |src|
    && forall i :: 0 <= i < |s| ==> s[i] == if d <= i < d + k then src[from + (i - d)] else was[i]
  }

  /** The same with a null after those characters. */
  ghost predicate CopiedTo(s: seq<char>, was: seq<char>, d: nat, src: seq<char>, from: nat, k: nat) {
    && |s| == |was| && d + k < |was| && from + k <= |src|
    && forall i :: 0 <= i < |s| ==>
         s[i] == if d <= i < d + k then src[from + (i - d)] else if i == d + k then NUL else was[i]
  }

  lemma SpliceOne(s: seq<char>, was: seq<char>, d: nat, src: seq<char>, from: nat, k: nat)
    requires Spliced(s, was, d, src, from, k) && d + k < |was| && from + k < |src|
    ensures Spliced(s[d + k := src[from + k]], was, d, src, from, k + 1)
  {
  }

  lemma CloseSplice(s: seq<char>, was: seq<char>, d: nat, src: seq<char>, from: nat, k: nat, m: nat)
    requires Spliced(s, was, d, src, from, k) && d + m < |was| && (m == k || m + 1 == k)
    ensures CopiedTo(s[d + m := NUL], was, d, src, from, m)
  {
  }

  /** The loop that both copies share: `i` is the room left, one less than none when the string did
      not fit. */
  method CopyRun(dest: array<char>, d: nat, src: array<char>, s: nat, room: nat) returns (k: nat, i: int)
    requires dest != src && d + room <= dest.Length && Terminated(src[..], s)
    modifies dest
    ensures k == Min(Length(src[..], s), room)
    ensures i == if Length(src[..], s) <= room then room - k else -1
    ensures Spliced(dest[..], old(dest[..]), d, src[..], s, k)
  {
    k, i := 0, room;
    while src[s + k] != NUL && 0 < i
      invariant 0 <= i == room - k && k <= Length(src[..], s)
      invariant Spliced(dest[..], old(dest[..]), d, src[..], s, k)
      decreases i
    {
      SpliceOne(dest[..], old(dest[..]), d, src[..], s, k);
      ghost var next := dest[..][d + k := src[s + k]];
      dest[d + k] := src[s + k];
      assert dest[..] == next;
      i, k := i - 1, k + 1;
    }
    if src[s + k] != NUL {
      i := i - 1;
    }
  }

  /** Copies the string at `src[s..]` to `dest[d..]`, at most `n` characters with the null, which is
      always there unless `n` is zero. Returns 0 exactly when the string fits. */
  method Strncpy(dest: array<char>, d: nat, src: array<char>, s: nat, n: nat) returns (rc: int)
    requires dest != src && d + n <= dest.Length && Terminated(src[..], s)
    modifies dest
    ensures rc == if n == 0 || Length(src[..], s) < n then 0 else 1
    ensures n == 0 ==> dest[..] == old(dest[..])
    ensures 0 < n ==> CopiedTo(dest[..], old(dest[..]), d, src[..], s, Min(Length(src[..], s), n - 1))
  {
    if n == 0 {
      return 0;
    }
    var k, i := CopyRun(dest, d, src, s, n);
    var last := if 0 < i then k else n - 1;
    CloseSplice(dest[..], old(dest[..]), d, src[..], s, k, last);
    ghost var next := dest[..][d + last := NUL];
    dest[d + last] := NUL;
    assert dest[..] == next;
    rc := if 0 < i then 0 else 1;
  }

  /** What is copied is a string again. */
  lemma CopiedString(s: seq<char>, was: seq<char>, d: nat, src: seq<char>, from: nat, k: nat)
    requires CopiedTo(s, was, d, src, from, k) && k <= Length(src, from)
    ensures Terminated(s, d) && CString(s, d) == CString(src, from)[..k]
  {
    forall i | d <= i < d + k ensures s[i] != NUL {
      assert s[i] == src[from + (i - d)];
    }
    LengthIs(s, d, k);
    assert s[d..d + k] == src[from..from + Length(src, from)][..k];
  }

  /** Appends the string at `src` to the one at `dest`, which may grow to `n` characters with the
      null. Nothing is appended when there is room for less than one character, and when the source
      does not fit, one character less is kept than there is room for. */
  method Strnapp(dest: array<char>, src: array<char>, n: nat) returns (rc: int)
    requires dest != src && n <= dest.Length && Terminated(src[..], 0)
    modifies dest
    ensures Appends(dest[..], old(dest[..]), src[..], n, rc)
    ensures rc == 0 || rc == 1
    ensures rc == 0 <==>
              Length(old(dest[..]), 0) + 1 < n && Length(old(dest[..]), 0) + Length(src[..], 0) < n
  {
    var i: int, d := n, 0;
    ghost var was := dest[..];
    ghost var l := Length(was, 0);
    while 0 < i && dest[d] != NUL
      invariant 0 <= i == n - d && d <= l
      decreases i
    {
      i, d := i - 1, d + 1;
    }
    i := i - 1;
    if i <= 0 {
      return 1;
    }
    var k;
    k, i := CopyRun(dest, d, src, 0, i);
    var end := if 0 <= i then k else k - 1;
    CloseSplice(dest[..], was, d, src[..], 0, k, end);
    ghost var next := dest[..][d + end := NUL];
    dest[d + end] := NUL;
    assert dest[..] == next;
    rc := if 0 <= i then 0 else 1;
  }

  /** The case in which `Strnapp` reports success; with one free character it always fails. */
  ghost predicate Fits(dest: seq<char>, src: seq<char>, n: nat) {
    Length(dest, 0) + 1 < n && Length(dest, 0) + Length(src, 0) < n
  }

  /** What `Strnapp` returns and leaves. */
  ghost predicate Appends(now: seq<char>, was: seq<char>, src: seq<char>, n: nat, rc: int) {
    var l, m := Length(was, 0), Length(src, 0);
    && rc == (if Fits(was, src, n) then 0 else 1)
    && if n <= l + 1 then now == was else CopiedTo(now, was, l, src, 0, if Fits(was, src, n) then m else n - l - 2)
  }

  /** The description of `Strnapp` promises the longest result of less than `n` characters. That is what
      it leaves exactly when the source fits, which is when it reports success, or the destination was
      full already. */
  lemma AppendMeetsDescription(now: seq<char>, was: seq<char>, src: seq<char>, n: nat, rc: int)
    requires Length(was, 0) < n <= |was| && Appends(now, was, src, n, rc)
    ensures CString(now, 0) == (CString(was, 0) + CString(src, 0))[..Min(Length(was, 0) + Length(src, 0), n - 1)]
            <==> Length(was, 0) + Length(src, 0) < n || n == Length(was, 0) + 1
  {
    AppendLeaves(now, was, src, n, rc);
    LongestIsAdded(was, src, n);
  }

  /** "xy" appended to "ab" in four characters: there is room for "x", and nothing is appended. */
  lemma AppendExample(now: seq<char>, was: seq<char>, src: seq<char>, rc: int)
    requires was == ['a', 'b', NUL, NUL] && src == ['x', 'y', NUL] && Appends(now, was, src, 4, rc)
    ensures rc == 1 && CString(now, 0) == "ab" && (CString(was, 0) + CString(src, 0))[..3] == "abx"
  {
    LengthIs(was, 0, 2);
    LengthIs(src, 0, 2);
    AppendedString(now, was, src, 0);
  }

  lemma LongestIsAdded(was: seq<char>, src: seq<char>, n: nat)
    requires Length(was, 0) < n <= |was|
    ensures var whole, l := CString(was, 0) + CString(src, 0), Length(was, 0);
            whole[..l + Added(was, src, n)] == whole[..Min(l + Length(src, 0), n - 1)] <==>
              Fits(was, src, n) || n == l + 1
  {
    var whole, l, m := CString(was, 0) + CString(src, 0), Length(was, 0), Length(src, 0);
    assert |whole| == l + m;
    AddedIsMost(was, src, n);
    TakesEqual(whole, l + Added(was, src, n), Min(l + m, n - 1));
  }

  /** How many characters are appended. */
  ghost function Added(was: seq<char>, src: seq<char>, n: nat): (k: nat)
    requires Length(was, 0) < n
    ensures k <= Length(src, 0)
  {
    if n == Length(was, 0) + 1 then 0 else if Fits(was, src, n) then Length(src, 0) else n - Length(was, 0) - 2
  }

  lemma AddedIsMost(was: seq<char>, src: seq<char>, n: nat)
    requires Length(was, 0) < n
    ensures Length(was, 0) + Added(was, src, n) == Min(Length(was, 0) + Length(src, 0), n - 1)
            <==> Fits(was, src, n) || n == Length(was, 0) + 1
  {
  }

  lemma AppendLeaves(now: seq<char>, was: seq<char>, src: seq<char>, n: nat, rc: int)
    requires Length(was, 0) < n <= |was| && Appends(now, was, src, n, rc)
    ensures CString(now, 0) == (CString(was, 0) + CString(src, 0))[..Length(was, 0) + Added(was, src, n)]
  {
    var a, b, k := CString(was, 0), CString(src, 0), Added(was, src, n);
    if n == Length(was, 0) + 1 {
      assert a + b[..0] == a;
    } else {
      AppendedString(now, was, src, k);
    }
    TakeOfConcat(a, b, k);
  }

  lemma TakesEqual(s: string, x: nat, y: nat)
    requires x <= |s| && y <= |s|
    ensures s[..x] == s[..y] <==> x == y
  {
    assert |s[..x]| == x && |s[..y]| == y;
  }

  lemma TakeOfConcat(a: string, b: string, k: nat)
    requires k <= |b|
    ensures a + b[..k] == (a + b)[..|a| + k]
  {
  }

  lemma AppendedString(s: seq<char>, was: seq<char>, src: seq<char>, k: nat)
    requires CopiedTo(s, was, Length(was, 0), src, 0, k) && k <= Length(src, 0)
    ensures CString(s, 0) == CString(was, 0) + CString(src, 0)[..k]
  {
    var l := Length(was, 0);
    forall i | 0 <= i < l + k ensures s[i] != NUL {
      if l <= i {
        assert s[i] == src[i - l];
      }
    }
    LengthIs(s, 0, l + k);
    JoinedPrefix(s, was, src, l, k);
    assert CString(src, 0)[..k] == src[..k];
  }

  lemma JoinedPrefix(s: seq<char>, was: seq<char>, src: seq<char>, l: nat, k: nat)
    requires l + k <= |s| && l <= |was| && k <= |src|
    requires forall i :: 0 <= i < l + k ==> s[i] == if i < l then was[i] else src[i - l]
    ensures s[..l + k] == was[..l] + src[..k]
  {
  }
}
