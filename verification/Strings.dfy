/** Byte-wise string order, sorting, and splitting at and joining with a separator. */
module Strings {

  // ---------- Order ----------

  predicate Less(a: string, b: string) {
    b != "" && (a == "" || a[0] < b[0] || (a[0] == b[0] && Less(a[1..], b[1..])))
  }

  /** At k, and not before, a and b part: a ends there, or has the smaller character. */
  ghost predicate ComesFirstAt(a: string, b: string, k: int) {
    0 <= k <= |a| && k < |b| && a[..k] == b[..k] && (k == |a| || a[k] < b[k])
  }

  /** The order is that of the first place where the texts differ. */
  lemma {:induction false} LessIff(a: string, b: string)
    ensures Less(a, b) <==> exists k :: ComesFirstAt(a, b, k)
  {
    if a == "" || b == "" || a[0] != b[0] {
      assert b != "" ==> a[..0] == b[..0];
      assert Less(a, b) ==> ComesFirstAt(a, b, 0);
      forall k
        ensures ComesFirstAt(a, b, k) ==> k == 0
      {
        if 0 < k <= |a| && k < |b| {
          assert a[..k][0] == a[0] && b[..k][0] == b[0];
        }
      }
    } else {
      LessIff(a[1..], b[1..]);
      forall k
        ensures ComesFirstAt(a, b, k) <==> k > 0 && ComesFirstAt(a[1..], b[1..], k - 1)
      {
        if 0 < k <= |a| && k < |b| {
          assert a[..k] == [a[0]] + a[1..][..k - 1] && b[..k] == [b[0]] + b[1..][..k - 1];
          assert a[1..][..k - 1] == a[..k][1..] && b[1..][..k - 1] == b[..k][1..];
        }
      }
      if k :| ComesFirstAt(a[1..], b[1..], k) {
        assert ComesFirstAt(a, b, k + 1);
      }
    }
  }

  lemma AtMostIff(a: string, b: string)
    ensures AtMost(a, b) <==> a == b || exists k :: ComesFirstAt(a, b, k)
  {
    LessIff(a, b);
    LessTotal(a, b);
    LessIrreflexive(a);
    if Less(a, b) {
      LessAtMost(a, b);
    }
  }

  lemma {:induction false} LessIrreflexive(a: string)
    ensures !Less(a, a)
  {
    if a != "" {
      LessIrreflexive(a[1..]);
    }
  }

  lemma {:induction false} LessTransitive(a: string, b: string, c: string)
    requires Less(a, b) && Less(b, c)
    ensures Less(a, c)
  {
    if a != "" && a[0] == b[0] == c[0] {
      LessTransitive(a[1..], b[1..], c[1..]);
    }
  }

  lemma {:induction false} LessTotal(a: string, b: string)
    ensures Less(a, b) || a == b || Less(b, a)
  {
    if a != "" && b != "" && a[0] == b[0] {
      LessTotal(a[1..], b[1..]);
      assert a == [a[0]] + a[1..] && b == [b[0]] + b[1..];
    }
  }

  predicate AtMost(a: string, b: string) {
    !Less(b, a)
  }

  lemma AtMostTransitive(a: string, b: string, c: string)
    requires AtMost(a, b) && AtMost(b, c)
    ensures AtMost(a, c)
  {
    if Less(c, a) {
      LessTotal(a, b);
      if Less(a, b) {
        LessTransitive(c, a, b);
      }
    }
  }

  ghost predicate Sorted(s: seq<string>) {
    forall i, j :: 0 <= i <= j < |s| ==> AtMost(s[i], s[j])
  }

  /** Sorted is ascending in that order. */
  lemma SortedIff(s: seq<string>)
    ensures Sorted(s) <==>
            forall i, j :: 0 <= i < j < |s| ==> s[i] == s[j] || exists k :: ComesFirstAt(s[i], s[j], k)
  {
    forall i, j | 0 <= i <= j < |s|
      ensures AtMost(s[i], s[j]) <==> s[i] == s[j] || exists k :: ComesFirstAt(s[i], s[j], k)
    {
      AtMostIff(s[i], s[j]);
    }
  }

  ghost predicate NoDuplicates(s: seq<string>) {
    forall i, j :: 0 <= i < j < |s| ==> s[i] != s[j]
  }

  /** A sorted list of distinct strings is fixed by the strings in it. */
  lemma {:induction false} SortedSetUnique(s: seq<string>, t: seq<string>)
    requires Sorted(s) && Sorted(t) && NoDuplicates(s) && NoDuplicates(t)
    requires forall x :: x in s <==> x in t
    ensures s == t
    decreases |s|
  {
    assert s != [] ==> s[0] in t;
    assert t != [] ==> t[0] in s;
    if s != [] && t != [] {
      var a, b := s[|s| - 1], t[|t| - 1];
      assert a in t && b in s;
      assert AtMost(a, b) && AtMost(b, a);
      LessTotal(a, b);
      var s', t' := s[..|s| - 1], t[..|t| - 1];
      assert s == s' + [a] && t == t' + [b];
      forall x
        ensures x in s' <==> x in t'
      {
        assert x in s <==> x in s' || x == a;
        assert x in t <==> x in t' || x == a;
      }
      SortedSetUnique(s', t');
    }
  }

  // ---------- Sorting in place ----------

  /** Sorts by insertion; the order makes the result the only sorted arrangement. */
  method Sort(a: array<string>)
    modifies a
    ensures Sorted(a[..])
    ensures multiset(a[..]) == multiset(old(a[..]))
  {
    for n := 0 to a.Length
      invariant Sorted(a[..n])
      invariant multiset(a[..]) == multiset(old(a[..]))
    {
      SortedUpTo(a[..], n);
      var i := n;
      while i > 0 && Less(a[i], a[i - 1])
        invariant 0 <= i <= n
        invariant SortedExcept(a[..], n, i)
        invariant multiset(a[..]) == multiset(old(a[..]))
      {
        SwapDown(a[..], n, i);
        a[i - 1], a[i] := a[i], a[i - 1];
        i := i - 1;
      }
      SettledIsSorted(a[..], n, i);
    }
    assert a[..a.Length] == a[..];
  }

  /** The first n + 1 elements are sorted but for the one at i, which may be too far right. */
  ghost predicate SortedExcept(s: seq<string>, n: nat, i: nat)
    requires i <= n < |s|
  {
    && (forall j, k :: 0 <= j <= k <= n && j != i && k != i ==> AtMost(s[j], s[k]))
    && (forall k :: i < k <= n ==> AtMost(s[i], s[k]))
  }

  lemma SortedUpTo(s: seq<string>, n: nat)
    requires n < |s| && Sorted(s[..n])
    ensures SortedExcept(s, n, n)
  {
    forall j, k | 0 <= j <= k <= n && j != n && k != n
      ensures AtMost(s[j], s[k])
    {
      assert s[..n][j] == s[j] && s[..n][k] == s[k];
    }
  }

  lemma SwapDown(s: seq<string>, n: nat, i: nat)
    requires 0 < i <= n < |s| && SortedExcept(s, n, i) && Less(s[i], s[i - 1])
    ensures SortedExcept(s[i - 1 := s[i]][i := s[i - 1]], n, i - 1)
  {
    LessAtMost(s[i], s[i - 1]);
  }

  lemma LessAtMost(a: string, b: string)
    requires Less(a, b)
    ensures AtMost(a, b)
  {
    if Less(b, a) {
      LessTransitive(a, b, a);
      LessIrreflexive(a);
    }
  }

  lemma SettledIsSorted(s: seq<string>, n: nat, i: nat)
    requires i <= n < |s| && SortedExcept(s, n, i)
    requires i == 0 || AtMost(s[i - 1], s[i])
    ensures Sorted(s[..n + 1])
  {
    var t := s[..n + 1];
    forall j, k | 0 <= j <= k < |t|
      ensures AtMost(t[j], t[k])
    {
      if j == k {
        LessIrreflexive(t[j]);
      } else if k == i && j < i - 1 {
        AtMostTransitive(t[j], t[i - 1], t[i]);
      }
    }
  }

  // ---------- Split and join ----------

  /** The pieces between the separators; a text without one is a single piece. */
  function Split(s: string, sep: char): (r: seq<string>)
    ensures r != []
  {
    if s == "" then [""]
    else
      var rest := Split(s[1..], sep);
      if s[0] == sep then [""] + rest else [[s[0]] + rest[0]] + rest[1..]
  }

  function Join(parts: seq<string>, sep: char): string {
    if parts == [] then ""
    else if |parts| == 1 then parts[0]
    else parts[0] + [sep] + Join(parts[1..], sep)
  }

  lemma {:induction false} JoinSplit(s: string, sep: char)
    ensures Join(Split(s, sep), sep) == s
  {
    if s != "" {
      var rest := Split(s[1..], sep);
      JoinSplit(s[1..], sep);
      if s[0] == sep {
        assert ([""] + rest)[1..] == rest;
      } else {
        assert ([[s[0]] + rest[0]] + rest[1..])[1..] == rest[1..];
      }
    }
  }

  /** Joining is determined by this: parts in order, a separator between any two, and nothing else. */
  lemma {:induction false} JoinAppend(parts: seq<string>, more: seq<string>, sep: char)
    requires parts != [] && more != []
    ensures Join(parts + more, sep) == Join(parts, sep) + [sep] + Join(more, sep)
    ensures Join([], sep) == "" && forall s :: Join([s], sep) == s
    decreases |parts|
  {
    if |parts| == 1 {
      assert (parts + more)[1..] == more;
    } else {
      JoinAppend(parts[1..], more, sep);
      assert (parts + more)[1..] == parts[1..] + more;
    }
  }

  /** The piece before the first separator comes off whole. */
  lemma {:induction false} SplitFirst(a: string, b: string, sep: char)
    requires sep !in a
    ensures Split(a + [sep] + b, sep) == [a] + Split(b, sep)
  {
    var s := a + [sep] + b;
    if a == "" {
      assert s[1..] == b;
    } else {
      assert s[1..] == a[1..] + [sep] + b;
      SplitFirst(a[1..], b, sep);
      assert a == [a[0]] + a[1..];
    }
  }

  lemma {:induction false} SplitWhole(a: string, sep: char)
    requires sep !in a
    ensures Split(a, sep) == [a]
  {
    if a != "" {
      SplitWhole(a[1..], sep);
      assert a == [a[0]] + a[1..];
    }
  }

  lemma {:induction false} PiecesHaveNoSeparator(s: string, sep: char, i: nat)
    requires i < |Split(s, sep)|
    ensures sep !in Split(s, sep)[i]
  {
    if s != "" {
      if s[0] == sep {
        if i > 0 {
          PiecesHaveNoSeparator(s[1..], sep, i - 1);
        }
      } else {
        PiecesHaveNoSeparator(s[1..], sep, i);
      }
    }
  }

  /** A separator with nothing between it and the next one or the end. */
  predicate NothingAfter(s: string, sep: char, k: int) {
    0 <= k < |s| && s[k] == sep && (k + 1 == |s| || s[k + 1] == sep)
  }

  lemma {:induction false} LaterPieceEmptyIff(s: string, sep: char)
    ensures "" in Split(s, sep)[1..] <==> exists k :: NothingAfter(s, sep, k)
  {
    if s != "" {
      var rest := Split(s[1..], sep);
      LaterPieceEmptyIff(s[1..], sep);
      assert "" in rest <==> rest[0] == "" || "" in rest[1..];
      assert s[0] == sep ==> (rest[0] == "" <==> NothingAfter(s, sep, 0));
      forall k
        ensures k > 0 ==> (NothingAfter(s, sep, k) <==> NothingAfter(s[1..], sep, k - 1))
      {
      }
      if k :| NothingAfter(s[1..], sep, k) {
        assert NothingAfter(s, sep, k + 1);
      }
      assert Split(s, sep)[1..] == if s[0] == sep then rest else rest[1..];
    }
  }

  /** There is an empty piece exactly if a separator comes first, last or after another, or nothing at all. */
  lemma EmptyPieceIff(s: string, sep: char)
    ensures "" in Split(s, sep) <==> s == "" || s[0] == sep || exists k :: NothingAfter(s, sep, k)
  {
    LaterPieceEmptyIff(s, sep);
    var parts := Split(s, sep);
    assert parts == [parts[0]] + parts[1..];
  }

  // ---------- Words ----------

  predicate White(c: char) {
    c == ' ' || c == '\t' || c == '\n'
  }

  /** The words a shell finds in a text: its longest pieces without white space. */
  function Words(s: string): (r: seq<string>)
    ensures s != "" && !White(s[0]) ==> r != []
  {
    if s == "" then []
    else if White(s[0]) then Words(s[1..])
    else if |s| == 1 || White(s[1]) then [[s[0]]] + Words(s[1..])
    else
      var rest := Words(s[1..]);
      [[s[0]] + rest[0]] + rest[1..]
  }

  predicate IsWord(w: string) {
    w != "" && forall i :: 0 <= i < |w| ==> !White(w[i])
  }

  lemma IsWordIff(w: string)
    ensures IsWord(w) <==> w != "" && ' ' !in w && '\t' !in w && '\n' !in w
  {
  }

  /** White space of any of the three kinds separates words, and does nothing else. */
  lemma {:induction false} WordsConcat(a: string, c: char, b: string)
    requires c == ' ' || c == '\t' || c == '\n'
    ensures Words(a + [c] + b) == Words(a) + Words(b)
    ensures Words("") == []
  {
    var s := a + [c] + b;
    if a == "" {
      assert s[0] == c && s[1..] == b;
    } else {
      assert s[0] == a[0] && s[1..] == a[1..] + [c] + b;
      WordsConcat(a[1..], c, b);
      if |a| == 1 {
        assert s[1] == c && a[1..] == "";
      } else {
        assert s[1] == a[1];
      }
    }
  }

  lemma {:induction false} WordsAreWords(s: string, i: nat)
    requires i < |Words(s)|
    ensures IsWord(Words(s)[i])
  {
    if White(s[0]) {
      WordsAreWords(s[1..], i);
    } else if |s| == 1 || White(s[1]) {
      if i > 0 {
        WordsAreWords(s[1..], i - 1);
      }
    } else {
      WordsAreWords(s[1..], i);
    }
  }

  lemma {:induction false} WordsOfWord(w: string)
    requires IsWord(w)
    ensures Words(w) == [w]
  {
    assert !White(w[0]);
    if |w| == 1 {
      assert w == [w[0]] && Words(w[1..]) == [];
    } else {
      assert !White(w[1]);
      WordsOfWord(w[1..]);
      assert Words(w) == [[w[0]] + w[1..]] + [w[1..]][1..];
      assert w == [w[0]] + w[1..];
    }
  }

  lemma {:induction false} WordsFirst(w: string, rest: string)
    requires IsWord(w)
    ensures Words(w + [' '] + rest) == [w] + Words(rest)
  {
    var s := w + [' '] + rest;
    assert !White(w[0]) && s[0] == w[0];
    if |w| == 1 {
      assert w == [w[0]] && s[1..] == [' '] + rest && s[1..][1..] == rest;
      assert Words(s[1..]) == Words(rest);
    } else {
      assert s[1..] == w[1..] + [' '] + rest && s[1] == w[1] && !White(w[1]);
      WordsFirst(w[1..], rest);
      assert Words(s[1..]) == [w[1..]] + Words(rest);
      assert Words(s) == [[w[0]] + w[1..]] + Words(s[1..])[1..];
      assert w == [w[0]] + w[1..];
    }
  }

  lemma {:induction false} WordsOfJoin(parts: seq<string>)
    requires forall i :: 0 <= i < |parts| ==> IsWord(parts[i])
    ensures Words(Join(parts, ' ')) == parts
  {
    if |parts| == 1 {
      WordsOfWord(parts[0]);
    } else if |parts| > 1 {
      WordsOfJoin(parts[1..]);
      WordsFirst(parts[0], Join(parts[1..], ' '));
    }
  }

  /** A list joined with spaces is read back as words exactly if each of its texts is a word. */
  lemma JoinReadAsWordsIff(parts: seq<string>)
    ensures Words(Join(parts, ' ')) == parts <==> forall i :: 0 <= i < |parts| ==> IsWord(parts[i])
  {
    if forall i :: 0 <= i < |parts| ==> IsWord(parts[i]) {
      WordsOfJoin(parts);
    }
    if Words(Join(parts, ' ')) == parts {
      forall i | 0 <= i < |parts|
        ensures IsWord(parts[i])
      {
        WordsAreWords(Join(parts, ' '), i);
      }
    }
  }
}
