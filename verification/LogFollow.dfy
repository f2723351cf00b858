/**
 Following a log: a poll reads what was appended past an offset, emits the
 complete lines and holds the trailing partial one. `B` is the type of a byte,
 `nl` the newline and `budget` the most a poll reads.
 */
module LogFollow {
  import opened Wrappers

  /** Each line followed by a newline. */
  function Unlines<B>(lines: seq<seq<B>>, nl: B): seq<B> {
    if lines == [] then [] else Unlines(lines[..|lines| - 1], nl) + lines[|lines| - 1] + [nl]
  }

  lemma {:induction false} UnlinesConcat<B>(a: seq<seq<B>>, b: seq<seq<B>>, nl: B)
    ensures Unlines(a + b, nl) == Unlines(a, nl) + Unlines(b, nl)
    decreases |b|
  {
    if b == [] {
      assert a + b == a;
    } else {
      assert (a + b)[..|a + b| - 1] == a + b[..|b| - 1];
      UnlinesConcat(a, b[..|b| - 1], nl);
    }
  }

  ghost predicate NoBreaks<B>(lines: seq<seq<B>>, nl: B) { forall i :: 0 <= i < |lines| ==> nl !in lines[i] }

  /** bytes.IndexByte: the first newline, or the length when there is none. */
  function IndexByte<B(==)>(data: seq<B>, nl: B, from: nat): (i: nat)
    requires from <= |data|
    ensures from <= i <= |data|
    ensures i < |data| ==> data[i] == nl
    ensures forall j :: from <= j < i ==> data[j] != nl
    decreases |data| - from
  {
    if from == |data| || data[from] == nl then from else IndexByte(data, nl, from + 1)
  }

  /** Cuts the complete lines off; what is left is the partial line. */
  method CutLines<B(==)>(bytes: seq<B>, nl: B) returns (lines: seq<seq<B>>, rest: seq<B>)
    ensures Unlines(lines, nl) + rest == bytes
    ensures NoBreaks(lines, nl) && nl !in rest
  {
    lines, rest := [], bytes;
    while true
      invariant Unlines(lines, nl) + rest == bytes
      invariant NoBreaks(lines, nl)
      decreases |rest|
    {
      var index := IndexByte(rest, nl, 0);
      if index == |rest| {
        break;
      }
      var line := rest[..index];
      assert (lines + [line])[..|lines|] == lines;
      assert rest == line + [nl] + rest[index + 1..];
      lines := lines + [line];
      rest := rest[index + 1..];
    }
  }

  /** Where a follower stands: how far it has read and the partial line it holds. */
  datatype Place<B> = Place(offset: nat, partial: seq<B>)

  /** Where a poll starts reading: past a truncation it starts over, and a burst over the budget is skipped. */
  function From<B>(size: nat, at: Place<B>, budget: nat): Place<B> {
    var back := if size < at.offset then Place(0, []) else at;
    if size - back.offset > budget then Place(size - budget, []) else back
  }

  /** The answer of one poll. */
  ghost predicate Polled<B>(file: Option<seq<B>>, nl: B, at: Place<B>, budget: nat, lines: seq<seq<B>>, next: Place<B>) {
    && NoBreaks(lines, nl) && nl !in next.partial
    && if file.None? then lines == [] && next == Place(0, [])
       else
         var start := From(|file.value|, at, budget);
         && next.offset == |file.value|
         && Unlines(lines, nl) + next.partial == start.partial + file.value[start.offset..]
  }

  /** A poll of the file, absent when it was archived away. */
  method ReadNewLines<B(==)>(file: Option<seq<B>>, nl: B, at: Place<B>, budget: nat)
    returns (lines: seq<seq<B>>, next: Place<B>)
    requires nl !in at.partial
    ensures Polled(file, nl, at, budget, lines, next)
  {
    if file.None? {
      return [], Place(0, []);
    }
    var size, offset, partial := |file.value|, at.offset, at.partial;
    if size < offset {
      offset, partial := 0, [];
    }
    if size - offset > budget {
      offset, partial := size - budget, [];
    }
    if size == offset {
      assert file.value[offset..] == [];
      return [], Place(offset, partial);
    }
    var rest;
    lines, rest := CutLines(partial + file.value[offset..], nl);
    next := Place(size, rest);
  }

  /** The bytes a poll emits as lines or holds as a partial one. */
  ghost function Taken<B>(lines: seq<seq<B>>, next: Place<B>, nl: B): seq<B> { Unlines(lines, nl) + next.partial }

  /**
   A file that shrank is read from its beginning and what was held is forgotten; more
   than the budget is cut down to exactly the last `budget` bytes; anything else is
   read on from where the last poll stood.
   */
  lemma PollTakes<B>(file: seq<B>, nl: B, at: Place<B>, budget: nat, lines: seq<seq<B>>, next: Place<B>)
    requires Polled(Some(file), nl, at, budget, lines, next)
    ensures next.offset == |file|
    ensures |file| < at.offset && |file| <= budget ==> Taken(lines, next, nl) == file
    ensures |file| - (if |file| < at.offset then 0 else at.offset) > budget ==> Taken(lines, next, nl) == file[|file| - budget..]
    ensures at.offset <= |file| <= at.offset + budget ==> Taken(lines, next, nl) == at.partial + file[at.offset..]
  {
    assert file[0..] == file;
    assert [] + file[From(|file|, at, budget).offset..] == file[From(|file|, at, budget).offset..];
  }

  /** A log that was archived away is followed anew: whatever replaces it is taken whole, as far as the budget allows. */
  lemma AReplacementIsTakenWhole<B>(file: seq<B>, nl: B, at: Place<B>, budget: nat, lines: seq<seq<B>>, between: Place<B>,
                                    more: seq<seq<B>>, next: Place<B>)
    requires Polled(None, nl, at, budget, lines, between) && Polled(Some(file), nl, between, budget, more, next)
    ensures lines == [] && Taken(more, next, nl) == if |file| <= budget then file else file[|file| - budget..]
  {
    PollTakes(file, nl, between, budget, more, next);
    assert [] + file[0..] == file;
  }

  /** What follows the last newline is determined. */
  lemma RestIsUnique<B>(a: seq<B>, b: seq<B>, x: seq<B>, y: seq<B>, nl: B)
    requires nl !in x && nl !in y && a + x == b + y
    requires a != [] && a[|a| - 1] == nl && (b != [] ==> b[|b| - 1] == nl)
    ensures a == b && x == y
  {
    var whole := a + x;
    assert whole[|a| - 1] == nl;
    assert forall i :: |a| <= i < |whole| ==> whole[i] == x[i - |a|];
    assert forall i :: |b| <= i < |whole| ==> whole[i] == y[i - |b|];
    assert |a| <= |b|;
    assert whole[|b| - 1] == b[|b| - 1];
    assert |a| == |b|;
    assert whole[..|a|] == a && whole[..|b|] == b && whole[|a|..] == x && whole[|b|..] == y;
  }

  /** A line holds no newline, so the bytes determine the lines: a poll has only one answer. */
  lemma {:induction false} LinesAreUnique<B>(a: seq<seq<B>>, b: seq<seq<B>>, x: seq<B>, y: seq<B>, nl: B)
    requires NoBreaks(a, nl) && NoBreaks(b, nl) && nl !in x && nl !in y
    requires Unlines(a, nl) + x == Unlines(b, nl) + y
    ensures a == b && x == y
    decreases |a| + |b|
  {
    if a == [] && b == [] {
      assert Unlines(a, nl) + x == x && Unlines(b, nl) + y == y;
    } else if a == [] {
      RestIsUnique(Unlines(b, nl), Unlines(a, nl), y, x, nl);
    } else {
      RestIsUnique(Unlines(a, nl), Unlines(b, nl), x, y, nl);
      assert b != [];
      LinesAreUnique(a[..|a| - 1], b[..|b| - 1], a[|a| - 1], b[|b| - 1], nl) by {
        var u, v := Unlines(a[..|a| - 1], nl) + a[|a| - 1], Unlines(b[..|b| - 1], nl) + b[|b| - 1];
        assert Unlines(a, nl)[..|Unlines(a, nl)| - 1] == u;
        assert Unlines(b, nl)[..|Unlines(b, nl)| - 1] == v;
      }
      assert a == a[..|a| - 1] + [a[|a| - 1]] && b == b[..|b| - 1] + [b[|b| - 1]];
    }
  }

  // ------------------------------------------------------------------
  // The follow loop
  // ------------------------------------------------------------------

  function Content<B>(file: Option<seq<B>>): seq<B> { if file.Some? then file.value else [] }

  /** The file as the follow began and at each poll. */
  ghost predicate AppendOnly<B>(files: seq<Option<seq<B>>>) {
    forall i :: 0 <= i < |files| - 1 ==> (files[i].Some? ==> files[i + 1].Some?) && Content(files[i]) <= Content(files[i + 1])
  }

  /** Every burst between two polls fits the budget. */
  predicate Fits<B>(files: seq<Option<seq<B>>>, n: nat, budget: nat)
    requires n < |files|
  {
    forall i :: 0 <= i < n ==> |Content(files[i + 1])| - |Content(files[i])| <= budget
  }

  /** What was emitted, each line with its newline, then what is held. */
  ghost function Delivered<B>(emitted: seq<seq<B>>, at: Place<B>, nl: B): seq<B> {
    Unlines(emitted, nl) + at.partial
  }

  /** After poll `n` the follower is at the file's end, with every byte appended or with some bytes skipped. */
  ghost predicate Conserved<B>(files: seq<Option<seq<B>>>, n: nat, nl: B, emitted: seq<seq<B>>, at: Place<B>, budget: nat)
    requires n < |files|
  {
    && at.offset == |Content(files[n])| && |Content(files[0])| <= at.offset
    && NoBreaks(emitted, nl) && nl !in at.partial
    && if Fits(files, n, budget) then Delivered(emitted, at, nl) == Content(files[n])[|Content(files[0])|..]
       else |Delivered(emitted, at, nl)| < |Content(files[n])| - |Content(files[0])|
  }

  /** What a poll of a file that grew from `was` to `now` adds to what was delivered. */
  lemma PollText<B>(emitted: seq<B>, at: Place<B>, was: seq<B>, now: seq<B>, budget: nat)
    requires was <= now && at.offset == |was|
    ensures var start := From(|now|, at, budget);
            var text := start.partial + now[start.offset..];
            if |now| - |was| <= budget then emitted + text == (emitted + at.partial) + now[|was|..]
            else |emitted + text| < |emitted + at.partial| + |now| - |was|
  {
  }

  lemma Extend<B>(was: seq<B>, now: seq<B>, begin: nat)
    requires was <= now && begin <= |was|
    ensures now[begin..] == was[begin..] + now[|was|..]
  {
  }

  lemma PollConserves<B>(files: seq<Option<seq<B>>>, n: nat, nl: B, emitted: seq<seq<B>>, at: Place<B>, budget: nat,
                         lines: seq<seq<B>>, next: Place<B>)
    requires n + 1 < |files| && AppendOnly(files) && Conserved(files, n, nl, emitted, at, budget)
    requires Polled(files[n + 1], nl, at, budget, lines, next)
    ensures Conserved(files, n + 1, nl, emitted + lines, next, budget)
  {
    var was, now := Content(files[n]), Content(files[n + 1]);
    PollDelivers(files[n + 1], nl, emitted, at, was, budget, lines, next);
    OneMoreBurst(files, n, budget);
    Extend(was, now, |Content(files[0])|);
    BreaksConcat(emitted, lines, nl);
  }

  /** A poll of a file that grew delivers exactly what was appended, or less when that is over the budget. */
  lemma PollDelivers<B>(file: Option<seq<B>>, nl: B, emitted: seq<seq<B>>, at: Place<B>, was: seq<B>, budget: nat,
                        lines: seq<seq<B>>, next: Place<B>)
    requires Polled(file, nl, at, budget, lines, next)
    requires was <= Content(file) && at.offset == |was| && (file.None? ==> Delivered(emitted, at, nl) == [])
    ensures next.offset == |Content(file)|
    ensures var before, after, now := Delivered(emitted, at, nl), Delivered(emitted + lines, next, nl), Content(file);
            if |now| - |was| <= budget then after == before + now[|was|..] else |after| < |before| + |now| - |was|
  {
    UnlinesConcat(emitted, lines, nl);
    if file.Some? {
      assert Delivered(emitted + lines, next, nl) == Unlines(emitted, nl) + (Unlines(lines, nl) + next.partial);
      PollText(Unlines(emitted, nl), at, was, file.value, budget);
    }
  }

  lemma BreaksConcat<B>(a: seq<seq<B>>, b: seq<seq<B>>, nl: B)
    requires NoBreaks(a, nl) && NoBreaks(b, nl)
    ensures NoBreaks(a + b, nl)
  {
  }

  lemma OneMoreBurst<B>(files: seq<Option<seq<B>>>, n: nat, budget: nat)
    requires n + 1 < |files|
    ensures Fits(files, n + 1, budget) <==>
            Fits(files, n, budget) && |Content(files[n + 1])| - |Content(files[n])| <= budget
  {
  }

  /**
   The loop of a follow over any number of polls of an append-only file: exactly
   the bytes appended since it began are delivered, if and only if no burst was
   over the budget.
   */
  method Follow<B(==)>(files: seq<Option<seq<B>>>, nl: B, budget: nat) returns (emitted: seq<seq<B>>, at: Place<B>)
    requires files != [] && AppendOnly(files)
    ensures NoBreaks(emitted, nl) && nl !in at.partial
    ensures var first, last := Content(files[0]), Content(files[|files| - 1]);
            && |first| <= |last|
            && (Unlines(emitted, nl) + at.partial == last[|first|..] <==> Fits(files, |files| - 1, budget))
  {
    emitted, at := [], Place(if files[0].Some? then |files[0].value| else 0, []);
    for n := 0 to |files| - 1
      invariant Conserved(files, n, nl, emitted, at, budget)
    {
      var lines, next := ReadNewLines(files[n + 1], nl, at, budget);
      PollConserves(files, n, nl, emitted, at, budget, lines, next);
      emitted, at := emitted + lines, next;
    }
  }
}
