/** Strings as Go's `strings` package treats them: trimming, splitting on newlines, and ordering. */
module Text {
  /** Go's unicode.IsSpace. */
  predicate IsSpace(c: char) {
    || '\t' <= c <= '\r' || c == ' ' || c == '\U{85}' || c == '\U{A0}' || c == '\U{1680}'
    || '\U{2000}' <= c <= '\U{200A}' || c == '\U{2028}' || c == '\U{2029}'
    || c == '\U{202F}' || c == '\U{205F}' || c == '\U{3000}'
  }

  function TrimLeft(s: string): string {
    if s != [] && IsSpace(s[0]) then TrimLeft(s[1..]) else s
  }

  function TrimRight(s: string): string {
    if s != [] && IsSpace(s[|s| - 1]) then TrimRight(s[..|s| - 1]) else s
  }

  function Trim(s: string): string { TrimRight(TrimLeft(s)) }

  predicate Trimmed(s: string) {
    s != [] ==> !IsSpace(s[0]) && !IsSpace(s[|s| - 1])
  }

  ghost predicate Blank(s: string) { forall i :: 0 <= i < |s| ==> IsSpace(s[i]) }

  lemma {:induction false} TrimLeftIs(s: string)
    ensures |TrimLeft(s)| <= |s|
    ensures TrimLeft(s) == s[|s| - |TrimLeft(s)|..]
    ensures TrimLeft(s) != [] ==> !IsSpace(TrimLeft(s)[0])
    ensures Blank(s[..|s| - |TrimLeft(s)|])
  {
    if s != [] && IsSpace(s[0]) {
      TrimLeftIs(s[1..]);
      assert s[..|s| - |TrimLeft(s)|] == [s[0]] + s[1..][..|s| - 1 - |TrimLeft(s)|];
    }
  }

  lemma {:induction false} TrimRightIs(s: string)
    ensures |TrimRight(s)| <= |s|
    ensures TrimRight(s) == s[..|TrimRight(s)|]
    ensures TrimRight(s) != [] ==> !IsSpace(TrimRight(s)[|TrimRight(s)| - 1])
    ensures Blank(s[|TrimRight(s)|..])
  {
    if s != [] && IsSpace(s[|s| - 1]) {
      TrimRightIs(s[..|s| - 1]);
      assert s[|TrimRight(s)|..] == s[..|s| - 1][|TrimRight(s)|..] + [s[|s| - 1]];
    }
  }

  lemma TrimIsTrimmed(s: string)
    ensures Trimmed(Trim(s))
    ensures |Trim(s)| <= |TrimLeft(s)| <= |s|
    ensures Trimmed(s) ==> Trim(s) == s
  {
    TrimLeftIs(s);
    TrimRightIs(TrimLeft(s));
  }

  /** Trimming takes away blanks on both sides, and nothing else. */
  lemma TrimTakesBlanks(s: string) returns (left: string, right: string)
    ensures s == left + Trim(s) + right && Blank(left) && Blank(right) && Trimmed(Trim(s))
  {
    TrimLeftIs(s);
    TrimRightIs(TrimLeft(s));
    left, right := s[..|s| - |TrimLeft(s)|], TrimLeft(s)[|Trim(s)|..];
  }

  /** Text up to a non-space survives trimming on the right. */
  lemma {:induction false} TrimRightAfter(a: string, b: string)
    requires a != [] && !IsSpace(a[|a| - 1])
    ensures TrimRight(a + b) == a + TrimRight(b)
  {
    if b == [] {
      assert a + b == a;
    } else if IsSpace(b[|b| - 1]) {
      assert (a + b)[..|a + b| - 1] == a + b[..|b| - 1];
      TrimRightAfter(a, b[..|b| - 1]);
    }
  }

  /** strings.Split(s, "\n"). */
  function SplitLines(s: string): (r: seq<string>)
    ensures r != []
  {
    if s == [] then [[]]
    else
      var rest := SplitLines(s[1..]);
      if s[0] == '\n' then [[]] + rest else [[s[0]] + rest[0]] + rest[1..]
  }

  /** Each line followed by a newline. */
  function Unlines(lines: seq<string>): string {
    if lines == [] then "" else lines[0] + "\n" + Unlines(lines[1..])
  }

  lemma UnlinesTwo(a: string, b: string)
    ensures Unlines([a, b]) == a + "\n" + b + "\n"
  {
    assert [a, b][1..] == [b] && [b][1..] == [];
    assert Unlines([b]) == b + "\n";
  }

  lemma {:induction false} SplitFirstLine(line: string, rest: string)
    requires '\n' !in line
    ensures SplitLines(line + "\n" + rest) == [line] + SplitLines(rest)
  {
    var s := line + "\n" + rest;
    if line == [] {
      assert s[1..] == rest;
    } else {
      assert s[1..] == line[1..] + "\n" + rest;
      SplitFirstLine(line[1..], rest);
      assert [s[0]] + line[1..] == line;
    }
  }

  lemma {:induction false} SplitUnlines(lines: seq<string>)
    requires forall l :: l in lines ==> '\n' !in l
    ensures SplitLines(Unlines(lines)) == lines + [""]
  {
    if lines != [] {
      SplitUnlines(lines[1..]);
      SplitFirstLine(lines[0], Unlines(lines[1..]));
    }
  }

  lemma {:induction false} UnlinesConcat(a: seq<string>, b: seq<string>)
    ensures Unlines(a + b) == Unlines(a) + Unlines(b)
  {
    if a == [] {
      assert a + b == b;
    } else {
      assert (a + b)[1..] == a[1..] + b;
      UnlinesConcat(a[1..], b);
    }
  }

  /** The order of cmp.Compare on strings. */
  predicate Leq(a: string, b: string) {
    a == [] || (b != [] && (a[0] < b[0] || (a[0] == b[0] && Leq(a[1..], b[1..]))))
  }

  lemma {:induction false} LeqIsTotal(a: string, b: string)
    ensures Leq(a, b) || Leq(b, a)
    ensures Leq(a, b) && Leq(b, a) ==> a == b
  {
    if a != [] && b != [] && a[0] == b[0] {
      LeqIsTotal(a[1..], b[1..]);
      assert a == [a[0]] + a[1..] && b == [b[0]] + b[1..];
    }
  }

  lemma {:induction false} LeqIsTransitive(a: string, b: string, c: string)
    requires Leq(a, b) && Leq(b, c)
    ensures Leq(a, c)
  {
    if a != [] && a[0] == b[0] == c[0] {
      LeqIsTransitive(a[1..], b[1..], c[1..]);
    }
  }

  predicate IsLeast(k: string, keys: set<string>) {
    k in keys && forall j :: j in keys ==> Leq(k, j)
  }

  lemma {:induction false} LeastExists(keys: set<string>)
    requires keys != {}
    ensures exists k :: IsLeast(k, keys)
    ensures forall j, k :: IsLeast(j, keys) && IsLeast(k, keys) ==> j == k
  {
    forall j, k | IsLeast(j, keys) && IsLeast(k, keys) ensures j == k {
      LeqIsTotal(j, k);
    }
    var x :| x in keys;
    if keys == {x} {
      LeqIsTotal(x, x);
      assert IsLeast(x, keys);
    } else {
      LeastExists(keys - {x});
      var k :| IsLeast(k, keys - {x});
      var least := if Leq(x, k) then x else k;
      LeqIsTotal(x, k);
      LeqIsTotal(x, x);
      forall j | j in keys ensures Leq(least, j) {
        if j != x {
          LeqIsTransitive(least, k, j) by { LeqIsTotal(k, k); }
        }
      }
      assert IsLeast(least, keys);
    }
  }

  /** slices.Sorted over a map's keys. */
  function SortedKeys(keys: set<string>): seq<string> {
    if keys == {} then []
    else
      LeastExists(keys);
      var k :| IsLeast(k, keys);
      [k] + SortedKeys(keys - {k})
  }

  ghost predicate Ascending(keys: seq<string>) {
    forall i, j :: 0 <= i < j < |keys| ==> Leq(keys[i], keys[j]) && keys[i] != keys[j]
  }

  lemma {:induction false} SortedKeysSort(keys: set<string>)
    ensures forall k :: k in SortedKeys(keys) <==> k in keys
    ensures Ascending(SortedKeys(keys))
  {
    if keys != {} {
      LeastExists(keys);
      var k :| IsLeast(k, keys);
      var rest := SortedKeys(keys - {k});
      assert SortedKeys(keys) == [k] + rest;
      SortedKeysSort(keys - {k});
      forall j | 0 <= j < |rest| ensures Leq(k, rest[j]) && k != rest[j] {
        assert rest[j] in keys - {k};
      }
    }
  }

  /** Two lists that ascend over the same keys are the same list. */
  lemma {:induction false} AscendingIsUnique(one: seq<string>, other: seq<string>)
    requires Ascending(one) && Ascending(other) && forall k :: k in one <==> k in other
    ensures one == other
    decreases |one|
  {
    var first, least := if one == [] then "" else one[0], if other == [] then "" else other[0];
    assert (one != [] ==> first in one) && (other != [] ==> least in other);
    if one != [] {
      assert one[0] in other && other[0] in one;
      LeqIsTotal(one[0], other[0]);
      assert one[0] == other[0];
      forall k ensures k in one[1..] <==> k in other[1..] {
        assert k in one[1..] <==> k in one && k != one[0];
        assert k in other[1..] <==> k in other && k != other[0];
      }
      AscendingIsUnique(one[1..], other[1..]);
      assert one == [one[0]] + one[1..] && other == [other[0]] + other[1..];
    }
  }
}
