/**
 The tail of a log: a reader that walks the file backwards in chunks until it has
 seen enough newlines or spent its budget, and a formatter that keeps the last
 lines of what was read. `B` is the type of a byte and `nl` the newline.
 */
module LogTail {
  const ChunkSize: nat := 64 * 1024
  const MaxTailReadBytes: nat := 10 * 1024 * 1024

  function Count<B(==)>(s: seq<B>, nl: B): nat {
    if s == [] then 0 else Count(s[..|s| - 1], nl) + if s[|s| - 1] == nl then 1 else 0
  }

  // ------------------------------------------------------------------
  // Formatting
  // ------------------------------------------------------------------

  /** bytes.Split on the newline. */
  function Split<B(==)>(s: seq<B>, nl: B): (parts: seq<seq<B>>)
    ensures |parts| == Count(s, nl) + 1
  {
    if s == [] then [[]]
    else
      var parts := Split(s[..|s| - 1], nl);
      if s[|s| - 1] == nl then parts + [[]]
      else parts[..|parts| - 1] + [parts[|parts| - 1] + [s[|s| - 1]]]
  }

  /** bytes.Join with the newline. */
  function Join<B>(parts: seq<seq<B>>, nl: B): seq<B> {
    if parts == [] then []
    else if |parts| == 1 then parts[0]
    else Join(parts[..|parts| - 1], nl) + [nl] + parts[|parts| - 1]
  }

  function KeepLast<T>(parts: seq<T>, n: nat): seq<T> {
    if |parts| > n then parts[|parts| - n..] else parts
  }

  predicate EndsLine<B(==)>(s: seq<B>, nl: B) { s != [] && s[|s| - 1] == nl }

  function FormatTail<B(==)>(data: seq<B>, nl: B, lines: nat): seq<B> {
    var trailing := EndsLine(data, nl);
    var parts := if trailing then Split(data, nl)[..Count(data, nl)] else Split(data, nl);
    var result := Join(KeepLast(parts, lines), nl);
    if trailing && result != [] then result + [nl] else result
  }

  /** Where the last `n` lines of a text begin: after its n-th newline from the end, or at its start. */
  function LastLines<B(==)>(s: seq<B>, nl: B, n: nat): (start: nat)
    requires n > 0
    ensures start <= |s|
  {
    if s == [] then 0
    else if s[|s| - 1] != nl then LastLines(s[..|s| - 1], nl, n)
    else if n == 1 then |s|
    else LastLines(s[..|s| - 1], nl, n - 1)
  }

  /** The list with its last part one byte longer. */
  function Longer<B>(parts: seq<seq<B>>, b: B): seq<seq<B>>
    requires parts != []
  {
    parts[..|parts| - 1] + [parts[|parts| - 1] + [b]]
  }

  lemma JoinLonger<B>(parts: seq<seq<B>>, nl: B, b: B)
    requires parts != []
    ensures Join(Longer(parts, b), nl) == Join(parts, nl) + [b]
  {
    var more := Longer(parts, b);
    assert more[|more| - 1] == parts[|parts| - 1] + [b] && more[..|more| - 1] == parts[..|parts| - 1];
  }

  lemma JoinOneMore<B>(parts: seq<seq<B>>, nl: B)
    requires parts != []
    ensures Join(parts + [[]], nl) == Join(parts, nl) + [nl]
  {
    var more := parts + [[]];
    assert more[|more| - 1] == [] && more[..|more| - 1] == parts;
  }

  lemma KeepLonger<B>(parts: seq<seq<B>>, b: B, n: nat)
    requires parts != [] && n > 0
    ensures KeepLast(Longer(parts, b), n) == Longer(KeepLast(parts, n), b)
  {
  }

  lemma KeepOneMore<T>(parts: seq<T>, part: T, n: nat)
    requires n > 0
    ensures KeepLast(parts + [part], n) == KeepLast(parts, n - 1) + [part]
  {
  }

  /** JoinedTail for one more byte that is not a newline. */
  lemma JoinedTailGrows<B>(parts: seq<seq<B>>, rest: seq<B>, from: nat, nl: B, b: B, n: nat)
    requires n > 0 && parts != [] && from <= |rest| && Join(KeepLast(parts, n), nl) == rest[from..]
    ensures Join(KeepLast(Longer(parts, b), n), nl) == (rest + [b])[from..]
  {
    KeepLonger(parts, b, n);
    JoinLonger(KeepLast(parts, n), nl, b);
  }

  /** JoinedTail for one more newline. */
  lemma JoinedTailBreaks<B>(parts: seq<seq<B>>, rest: seq<B>, from: nat, nl: B, n: nat)
    requires n > 1 && parts != [] && from <= |rest| && Join(KeepLast(parts, n - 1), nl) == rest[from..]
    ensures Join(KeepLast(parts + [[]], n), nl) == (rest + [nl])[from..]
  {
    KeepOneMore(parts, [], n);
    JoinOneMore(KeepLast(parts, n - 1), nl);
  }

  /** The last parts of a split, joined, are the last lines of the text. */
  lemma {:induction false} JoinedTail<B>(s: seq<B>, nl: B, n: nat)
    requires n > 0
    ensures Join(KeepLast(Split(s, nl), n), nl) == s[LastLines(s, nl, n)..]
    decreases |s|
  {
    if s != [] {
      var rest, b := s[..|s| - 1], s[|s| - 1];
      assert s == rest + [b];
      if b != nl {
        JoinedTail(rest, nl, n);
        JoinedTailGrows(Split(rest, nl), rest, LastLines(rest, nl, n), nl, b, n);
      } else if n == 1 {
        KeepOneMore(Split(rest, nl), [], 1);
      } else {
        JoinedTail(rest, nl, n - 1);
        JoinedTailBreaks(Split(rest, nl), rest, LastLines(rest, nl, n - 1), nl, n);
      }
    }
  }

  /** The text without the newline that ends it. */
  function Body<B(==)>(data: seq<B>, nl: B): seq<B> {
    if EndsLine(data, nl) then data[..|data| - 1] else data
  }

  function Ended<B(==)>(kept: seq<B>, trailing: bool, nl: B): seq<B> {
    if trailing && kept != [] then kept + [nl] else kept
  }

  /**
   The formatter keeps the last lines as they stand, with the newline that ends
   them unless they are a single empty line.
   */
  lemma FormatTailIs<B>(data: seq<B>, nl: B, lines: nat)
    requires lines > 0
    ensures FormatTail(data, nl, lines) ==
            Ended(Body(data, nl)[LastLines(Body(data, nl), nl, lines)..], EndsLine(data, nl), nl)
  {
    JoinedTail(Body(data, nl), nl, lines);
    if EndsLine(data, nl) {
      assert Split(data, nl)[..Count(data, nl)] == Split(Body(data, nl), nl);
    }
  }

  // ------------------------------------------------------------------
  // Reading backwards
  // ------------------------------------------------------------------

  function Reversed<T>(s: seq<T>): seq<T> {
    if s == [] then [] else [s[|s| - 1]] + Reversed(s[..|s| - 1])
  }

  function Concat<B>(chunks: seq<seq<B>>): seq<B> {
    if chunks == [] then [] else chunks[0] + Concat(chunks[1..])
  }

  lemma ConcatReversed<B>(chunks: seq<seq<B>>, chunk: seq<B>)
    ensures Concat(Reversed(chunks + [chunk])) == chunk + Concat(Reversed(chunks))
  {
    assert (chunks + [chunk])[..|chunks|] == chunks;
    var all := Reversed(chunks + [chunk]);
    assert all == [chunk] + Reversed(chunks);
    assert all[1..] == Reversed(chunks);
  }

  lemma {:induction false} CountConcat<B>(a: seq<B>, b: seq<B>, nl: B)
    ensures Count(a + b, nl) == Count(a, nl) + Count(b, nl)
    decreases |b|
  {
    if b == [] {
      assert a + b == a;
    } else {
      assert (a + b)[..|a + b| - 1] == a + b[..|b| - 1];
      CountConcat(a, b[..|b| - 1], nl);
    }
  }

  function Min(a: int, b: int): int { if a <= b then a else b }
  function Max(a: int, b: int): int { if a >= b then a else b }

  /** The length of `m` whole chunks. */
  function Span(chunkSize: nat, m: nat): nat { if m == 0 then 0 else Span(chunkSize, m - 1) + chunkSize }

  /** How many of a file's `size` bytes `m` chunks hold: never more than the file or the budget. */
  function BytesAfter(size: nat, chunkSize: nat, budget: nat, m: nat): nat {
    Min(Min(size, budget), Span(chunkSize, m))
  }

  function LastBytes<B>(file: seq<B>, n: nat): seq<B>
    requires n <= |file|
  {
    file[|file| - n..]
  }

  lemma MoreBytes<B>(file: seq<B>, nl: B, less: nat, more: nat)
    requires less <= more <= |file|
    ensures var chunk := file[|file| - more..|file| - less];
            && LastBytes(file, more) == chunk + LastBytes(file, less)
            && Count(LastBytes(file, more), nl) == Count(chunk, nl) + Count(LastBytes(file, less), nl)
  {
    var chunk := file[|file| - more..|file| - less];
    assert LastBytes(file, more) == chunk + LastBytes(file, less);
    CountConcat(chunk, LastBytes(file, less), nl);
  }

  /** After `m` chunks there is nothing left to read, or the newlines are enough. */
  predicate Enough<B(==)>(file: seq<B>, nl: B, lines: int, chunkSize: nat, budget: nat, m: nat) {
    var bytes := BytesAfter(|file|, chunkSize, budget, m);
    bytes == |file| || bytes == budget || Count(LastBytes(file, bytes), nl) >= lines
  }

  /** The reader stops after the first chunk that is enough. */
  predicate StopsAfter<B(==)>(file: seq<B>, nl: B, lines: int, chunkSize: nat, budget: nat, m: nat) {
    Enough(file, nl, lines, chunkSize, budget, m) && (m > 0 ==> !Enough(file, nl, lines, chunkSize, budget, m - 1))
  }

  lemma {:induction false} EnoughStays<B>(file: seq<B>, nl: B, lines: int, chunkSize: nat, budget: nat, m: nat, n: nat)
    requires m <= n && Enough(file, nl, lines, chunkSize, budget, m)
    ensures Enough(file, nl, lines, chunkSize, budget, n)
    decreases n
  {
    if m < n {
      EnoughStays(file, nl, lines, chunkSize, budget, m, n - 1);
      MoreBytes(file, nl, BytesAfter(|file|, chunkSize, budget, n - 1), BytesAfter(|file|, chunkSize, budget, n));
    }
  }

  lemma StopsNoLater<B>(file: seq<B>, nl: B, lines: int, chunkSize: nat, budget: nat, m: nat, n: nat)
    requires Enough(file, nl, lines, chunkSize, budget, m) && (n > 0 ==> !Enough(file, nl, lines, chunkSize, budget, n - 1))
    ensures n <= m
  {
    if m < n {
      EnoughStays(file, nl, lines, chunkSize, budget, m, n - 1);
    }
  }

  /** Where the reader stops is determined by the file, the line count and the chunk size. */
  lemma StopIsUnique<B>(file: seq<B>, nl: B, lines: int, chunkSize: nat, budget: nat, m: nat, n: nat)
    requires StopsAfter(file, nl, lines, chunkSize, budget, m) && StopsAfter(file, nl, lines, chunkSize, budget, n)
    ensures m == n
  {
    StopsNoLater(file, nl, lines, chunkSize, budget, m, n);
    StopsNoLater(file, nl, lines, chunkSize, budget, n, m);
  }

  /** What the loop holds once the last `n` bytes are read. */
  ghost predicate HasRead<B>(text: seq<B>, nl: B, n: nat, chunks: seq<seq<B>>, newlines: nat) {
    n <= |text| && Concat(Reversed(chunks)) == LastBytes(text, n) && newlines == Count(LastBytes(text, n), nl)
  }

  lemma ReadOn<B>(text: seq<B>, nl: B, less: nat, more: nat, chunks: seq<seq<B>>, newlines: nat, chunk: seq<B>)
    requires HasRead(text, nl, less, chunks, newlines)
    requires less <= more <= |text| && chunk == text[|text| - more..|text| - less]
    ensures HasRead(text, nl, more, chunks + [chunk], newlines + Count(chunk, nl))
  {
    ConcatReversed(chunks, chunk);
    MoreBytes(text, nl, less, more);
  }

  lemma SliceOfPrefix<B>(file: seq<B>, size: nat, from: nat, end: nat)
    requires from <= end <= size <= |file|
    ensures file[from..end] == file[..size][from..end]
  {
  }

  /** `data` is what the reader has read when it stops, after `m` chunks. */
  ghost predicate IsRead<B>(file: seq<B>, nl: B, lines: int, chunkSize: nat, budget: nat, m: nat, data: seq<B>) {
    StopsAfter(file, nl, lines, chunkSize, budget, m) && data == LastBytes(file, BytesAfter(|file|, chunkSize, budget, m))
  }

  /** The loop after `m` chunks, none of which was enough before the last. */
  ghost predicate Reading<B>(text: seq<B>, nl: B, lines: int, chunkSize: nat, budget: nat, m: nat, chunks: seq<seq<B>>,
                             totalBytes: nat, newlines: nat) {
    && totalBytes == BytesAfter(|text|, chunkSize, budget, m) && HasRead(text, nl, totalBytes, chunks, newlines)
    && (m > 0 ==> !Enough(text, nl, lines, chunkSize, budget, m - 1))
  }

  lemma NextSpan(size: nat, chunkSize: nat, budget: nat, m: nat)
    ensures BytesAfter(size, chunkSize, budget, m + 1) ==
            Min(Min(size, budget), BytesAfter(size, chunkSize, budget, m) + chunkSize)
  {
  }

  lemma NotEnough<B>(text: seq<B>, nl: B, lines: int, chunkSize: nat, budget: nat, m: nat, chunks: seq<seq<B>>,
                     totalBytes: nat, newlines: nat)
    requires Reading(text, nl, lines, chunkSize, budget, m, chunks, totalBytes, newlines)
    requires totalBytes < |text| && totalBytes < budget && newlines < lines
    ensures !Enough(text, nl, lines, chunkSize, budget, m)
  {
  }

  /** The loop's guard says that what was read is not enough, and then the next chunk is read. */
  lemma ReadsNext<B>(text: seq<B>, nl: B, lines: int, chunkSize: nat, budget: nat, m: nat, chunks: seq<seq<B>>,
                     totalBytes: nat, newlines: nat, more: nat, chunk: seq<B>)
    requires Reading(text, nl, lines, chunkSize, budget, m, chunks, totalBytes, newlines)
    requires totalBytes < |text| && totalBytes < budget && newlines < lines
    requires more == Min(Min(|text|, budget), totalBytes + chunkSize) && chunk == text[|text| - more..|text| - totalBytes]
    ensures Reading(text, nl, lines, chunkSize, budget, m + 1, chunks + [chunk], more, newlines + Count(chunk, nl))
  {
    NextSpan(|text|, chunkSize, budget, m);
    NotEnough(text, nl, lines, chunkSize, budget, m, chunks, totalBytes, newlines);
    ReadOn(text, nl, totalBytes, more, chunks, newlines, chunk);
  }

  lemma ReadsNoMore<B>(text: seq<B>, nl: B, lines: int, chunkSize: nat, budget: nat, m: nat, chunks: seq<seq<B>>,
                       totalBytes: nat, newlines: nat)
    requires Reading(text, nl, lines, chunkSize, budget, m, chunks, totalBytes, newlines)
    requires !(totalBytes < |text| && totalBytes < budget && newlines < lines)
    ensures IsRead(text, nl, lines, chunkSize, budget, m, Concat(Reversed(chunks)))
  {
  }

  /** Reads back from `size` until the start, the budget or enough newlines stop it, and no further. */
  method ReadTailChunks<B(==)>(file: seq<B>, nl: B, size: nat, lines: int, chunkSize: nat, budget: nat)
    returns (data: seq<B>)
    requires size <= |file| && chunkSize > 0
    ensures exists m: nat :: IsRead(file[..size], nl, lines, chunkSize, budget, m, data)
  {
    ghost var text, m: nat := file[..size], 0;
    var chunks: seq<seq<B>>, totalBytes: nat, newlines: nat, end := [], 0, 0, size;
    assert LastBytes(text, 0) == [];
    while end > 0 && totalBytes < budget && newlines < lines
      invariant 0 <= end <= size && totalBytes == size - end
      invariant Reading(text, nl, lines, chunkSize, budget, m, chunks, totalBytes, newlines)
      decreases end
    {
      var readSize := Min(chunkSize, budget - totalBytes);
      var from := Max(0, end - readSize);
      var chunk := file[from..end];
      SliceOfPrefix(file, size, from, end);
      ReadsNext(text, nl, lines, chunkSize, budget, m, chunks, totalBytes, newlines, size - from, chunk);
      chunks := chunks + [chunk];
      totalBytes := totalBytes + |chunk|;
      newlines := newlines + Count(chunk, nl);
      end := from;
      m := m + 1;
    }
    ReadsNoMore(text, nl, lines, chunkSize, budget, m, chunks, totalBytes, newlines);
    data := Concat(Reversed(chunks));
  }

  // ------------------------------------------------------------------
  // The chunked tail against the simple one
  // ------------------------------------------------------------------

  /** The last lines of a text, from the last lines of its end. */
  lemma {:induction false} LastLinesOfEnd<B>(a: seq<B>, b: seq<B>, nl: B, n: nat)
    requires n > 0
    ensures LastLines(a + b, nl, n) ==
            if Count(b, nl) >= n then |a| + LastLines(b, nl, n) else LastLines(a, nl, n - Count(b, nl))
    ensures Count(b, nl) < n ==> LastLines(b, nl, n) == 0
    decreases |b|
  {
    if b == [] {
      assert a + b == a;
    } else {
      var rest := b[..|b| - 1];
      assert (a + b)[..|a + b| - 1] == a + rest;
      LastLinesOfEnd(a, rest, nl, n);
      if b[|b| - 1] == nl && n > 1 {
        LastLinesOfEnd(a, rest, nl, n - 1);
      }
    }
  }

  lemma NothingToKeepIff<B>(a: seq<B>, nl: B, n: nat)
    requires n > 0
    ensures LastLines(a, nl, n) == |a| <==> a == [] || (n == 1 && EndsLine(a, nl))
  {
  }

  /** Whether what was read from `start` on holds the last lines whole. */
  predicate ReadsEnough<B(==)>(file: seq<B>, nl: B, start: nat, lines: nat)
    requires start <= |file|
  {
    || start == 0
    || Count(file[start..], nl) > lines
    || (Count(file[start..], nl) == lines && (!EndsLine(file, nl) || file[start - 1] == nl))
    || (Count(file[start..], nl) == lines - 1 && !EndsLine(file, nl) && file[start - 1] == nl)
  }

  ghost predicate IsSuffix<B>(s: seq<B>, whole: seq<B>) {
    |s| <= |whole| && s == whole[|whole| - |s|..]
  }

  /** Where the last lines begin in the whole text and in its end, and when that is one place. */
  lemma SameLastLinesIff<B>(a: seq<B>, b: seq<B>, nl: B, n: nat)
    requires n > 0
    ensures LastLines(a + b, nl, n) <= |a| + LastLines(b, nl, n)
    ensures LastLines(a + b, nl, n) == |a| + LastLines(b, nl, n) <==>
            a == [] || Count(b, nl) >= n || (Count(b, nl) == n - 1 && EndsLine(a, nl))
  {
    LastLinesOfEnd(a, b, nl, n);
    if Count(b, nl) < n {
      NothingToKeepIff(a, nl, n - Count(b, nl));
    }
  }

  /** The newline that ends a file ends what was read of it, and the rest is the end of the rest. */
  lemma BodyOfEnd<B>(file: seq<B>, nl: B, start: nat)
    requires start < |file|
    ensures EndsLine(file[start..], nl) <==> EndsLine(file, nl)
    ensures Body(file, nl) == file[..start] + Body(file[start..], nl)
    ensures Count(file[start..], nl) == Count(Body(file[start..], nl), nl) + if EndsLine(file, nl) then 1 else 0
  {
  }

  /** Where the last lines of the whole file begin, against where those of its end do. */
  lemma CutIsBefore<B>(file: seq<B>, nl: B, start: nat, lines: nat)
    requires lines > 0 && start < |file|
    ensures var whole, from := LastLines(Body(file, nl), nl, lines), LastLines(Body(file[start..], nl), nl, lines);
            && whole <= start + from
            && (whole == start + from <==> ReadsEnough(file, nl, start, lines))
  {
    BodyOfEnd(file, nl, start);
    SameLastLinesIff(file[..start], Body(file[start..], nl), nl, lines);
    assert start > 0 ==> (EndsLine(file[..start], nl) <==> file[start - 1] == nl);
  }

  lemma TailTexts<B>(file: seq<B>, nl: B, start: nat, lines: nat)
    requires lines > 0 && start < |file|
    ensures var a, b := file[..start], Body(file[start..], nl);
            && LastLines(Body(file, nl), nl, lines) <= |a + b|
            && FormatTail(file, nl, lines) == Ended((a + b)[LastLines(Body(file, nl), nl, lines)..], EndsLine(file, nl), nl)
            && FormatTail(file[start..], nl, lines) == Ended(b[LastLines(b, nl, lines)..], EndsLine(file, nl), nl)
  {
    FormatTailIs(file, nl, lines);
    FormatTailIs(file[start..], nl, lines);
    BodyOfEnd(file, nl, start);
  }

  /**
   Whatever the reader stopped at, the tail is a suffix of the last lines of the
   whole file; it is exactly those lines if and only if enough was read.
   */
  lemma ChunkedTailRefines<B>(file: seq<B>, nl: B, start: nat, lines: nat)
    requires lines > 0 && start <= |file| && (file != [] ==> start < |file|)
    ensures IsSuffix(FormatTail(file[start..], nl, lines), FormatTail(file, nl, lines))
    ensures FormatTail(file[start..], nl, lines) == FormatTail(file, nl, lines) <==> ReadsEnough(file, nl, start, lines)
  {
    if file == [] {
      assert file[start..] == file;
    } else {
      CutIsBefore(file, nl, start, lines);
      TailTexts(file, nl, start, lines);
      KeptIsSuffix(file[..start], Body(file[start..], nl), LastLines(Body(file, nl), nl, lines),
                   LastLines(Body(file[start..], nl), nl, lines), EndsLine(file, nl), nl);
    }
  }

  lemma KeptIsSuffix<B>(a: seq<B>, b: seq<B>, whole: nat, from: nat, trailing: bool, nl: B)
    requires from <= |b| && whole <= |a| + from
    ensures var text, short := Ended((a + b)[whole..], trailing, nl), Ended(b[from..], trailing, nl);
            IsSuffix(short, text) && (short == text <==> whole == |a| + from)
  {
    var kept := b[from..];
    assert (a + b)[whole..] == (a + b)[whole..|a| + from] + kept;
    assert |(a + b)[whole..]| == |kept| + |a| + from - whole;
  }

  /** `m` chunks from the file's end cut a line open: they hold exactly `lines` newlines, the last one the file's end. */
  predicate CutsAt<B(==)>(file: seq<B>, nl: B, lines: nat, chunkSize: nat, m: nat) {
    && m > 0 && 0 < Span(chunkSize, m) < |file| && EndsLine(file, nl)
    && Count(LastBytes(file, Span(chunkSize, m - 1)), nl) < lines
    && Count(LastBytes(file, Span(chunkSize, m)), nl) == lines
    && file[|file| - Span(chunkSize, m) - 1] != nl
  }

  lemma CutStops<B>(file: seq<B>, nl: B, lines: nat, chunkSize: nat, budget: nat, m: nat)
    requires |file| <= budget && chunkSize > 0 && CutsAt(file, nl, lines, chunkSize, m)
    ensures StopsAfter(file, nl, lines, chunkSize, budget, m)
  {
  }

  /** Within the budget a stop before the file's start has its newlines, so only a line cut open is not enough. */
  lemma EnoughUnlessCut<B>(file: seq<B>, nl: B, lines: nat, chunkSize: nat, budget: nat, m: nat)
    requires lines > 0 && chunkSize > 0 && |file| <= budget && StopsAfter(file, nl, lines, chunkSize, budget, m)
    ensures ReadsEnough(file, nl, |file| - BytesAfter(|file|, chunkSize, budget, m), lines) <==> !CutsAt(file, nl, lines, chunkSize, m)
  {
    var bytes := BytesAfter(|file|, chunkSize, budget, m);
    if bytes < |file| {
      assert m > 0 ==> bytes == Span(chunkSize, m) && BytesAfter(|file|, chunkSize, budget, m - 1) == Span(chunkSize, m - 1);
    }
  }

  lemma OnlyTheStopCuts<B>(file: seq<B>, nl: B, lines: nat, chunkSize: nat, budget: nat, m: nat)
    requires chunkSize > 0 && |file| <= budget && StopsAfter(file, nl, lines, chunkSize, budget, m)
    ensures CutsAt(file, nl, lines, chunkSize, m) <==> exists n: nat :: CutsAt(file, nl, lines, chunkSize, n)
  {
    if n: nat :| CutsAt(file, nl, lines, chunkSize, n) {
      CutStops(file, nl, lines, chunkSize, budget, n);
      StopIsUnique(file, nl, lines, chunkSize, budget, m, n);
    }
  }

  lemma ReadsSomething<B>(file: seq<B>, nl: B, lines: nat, chunkSize: nat, budget: nat, m: nat)
    requires lines > 0 && chunkSize > 0 && StopsAfter(file, nl, lines, chunkSize, budget, m)
    ensures file != [] && budget > 0 ==> BytesAfter(|file|, chunkSize, budget, m) > 0
  {
    assert m == 0 ==> LastBytes(file, 0) == [];
  }

  /** Where the reader leaves off. */
  predicate StartsAt<B(==)>(file: seq<B>, nl: B, lines: int, chunkSize: nat, budget: nat, m: nat, start: int) {
    StopsAfter(file, nl, lines, chunkSize, budget, m) && start == |file| - BytesAfter(|file|, chunkSize, budget, m)
  }

  /** Enough was read exactly when no whole number of chunks cuts a line open. */
  lemma EnoughIff<B>(file: seq<B>, nl: B, lines: nat, chunkSize: nat, budget: nat, m: nat, start: nat)
    requires lines > 0 && chunkSize > 0 && |file| <= budget && StartsAt(file, nl, lines, chunkSize, budget, m, start)
    ensures start <= |file| && (file != [] ==> start < |file|)
    ensures ReadsEnough(file, nl, start, lines) <==> !exists n: nat :: CutsAt(file, nl, lines, chunkSize, n)
  {
    ReadsSomething(file, nl, lines, chunkSize, budget, m);
    EnoughUnlessCut(file, nl, lines, chunkSize, budget, m);
    OnlyTheStopCuts(file, nl, lines, chunkSize, budget, m);
  }

  /**
   A file that fits the budget loses the beginning of its first tail line exactly
   when a whole number of chunks from its end cuts that line open.
   */
  lemma FirstLineIsCutIff<B>(file: seq<B>, nl: B, lines: nat, chunkSize: nat, budget: nat, m: nat, start: nat)
    requires lines > 0 && chunkSize > 0 && |file| <= budget && StartsAt(file, nl, lines, chunkSize, budget, m, start)
    ensures start <= |file|
    ensures FormatTail(file[start..], nl, lines) != FormatTail(file, nl, lines)
            <==> exists n: nat :: CutsAt(file, nl, lines, chunkSize, n)
  {
    EnoughIff(file, nl, lines, chunkSize, budget, m, start);
    ChunkedTailRefines(file, nl, start, lines);
  }

  /** One line longer than a chunk, with its newline. */
  lemma ALongLineIsCut<B>(line: seq<B>, nl: B, chunkSize: nat)
    requires |line| >= chunkSize > 0 && nl !in line
    ensures CutsAt(line + [nl], nl, 1, chunkSize, 1)
  {
    var file := line + [nl];
    var end := LastBytes(file, chunkSize);
    assert Span(chunkSize, 0) == 0 && Span(chunkSize, 1) == chunkSize;
    assert end[..|end| - 1] == line[|line| - chunkSize + 1..];
    NoNewlines(end[..|end| - 1], nl);
    assert file[|file| - chunkSize - 1] == line[|line| - chunkSize];
  }

  lemma {:induction false} NoNewlines<B>(s: seq<B>, nl: B)
    requires nl !in s
    ensures Count(s, nl) == 0
    decreases |s|
  {
    if s != [] {
      NoNewlines(s[..|s| - 1], nl);
    }
  }

  /** The tail a caller gets: of the last lines of the whole file, all unless the budget ran out or a line is cut. */
  method Tail<B(==)>(file: seq<B>, nl: B, lines: nat) returns (text: seq<B>)
    requires lines > 0
    ensures exists m: nat, start: nat :: IsTail(file, nl, lines, m, start, text)
    ensures IsSuffix(text, FormatTail(file, nl, lines))
    ensures |file| <= MaxTailReadBytes ==>
            (text == FormatTail(file, nl, lines) <==> !exists n: nat :: CutsAt(file, nl, lines, ChunkSize, n))
  {
    assert file[..|file|] == file;
    var data := ReadTailChunks(file, nl, |file|, lines, ChunkSize, MaxTailReadBytes);
    ghost var m, start := ReadStarts(file, nl, lines, data);
    TailOf(file, nl, lines, m, start);
    text := FormatTail(data, nl, lines);
    assert IsTail(file, nl, lines, m, start, text);
  }

  /** The text formatted from where the reader leaves off. */
  ghost predicate IsTail<B>(file: seq<B>, nl: B, lines: nat, m: nat, start: nat, text: seq<B>) {
    && StartsAt(file, nl, lines, ChunkSize, MaxTailReadBytes, m, start)
    && start <= |file| && text == FormatTail(file[start..], nl, lines)
  }

  /** Where what was read begins. */
  lemma ReadStarts<B>(file: seq<B>, nl: B, lines: nat, data: seq<B>) returns (m: nat, start: nat)
    requires exists n: nat :: IsRead(file, nl, lines, ChunkSize, MaxTailReadBytes, n, data)
    ensures StartsAt(file, nl, lines, ChunkSize, MaxTailReadBytes, m, start) && start <= |file| && data == file[start..]
  {
    m :| IsRead(file, nl, lines, ChunkSize, MaxTailReadBytes, m, data);
    start := |file| - BytesAfter(|file|, ChunkSize, MaxTailReadBytes, m);
  }

  lemma TailOf<B>(file: seq<B>, nl: B, lines: nat, m: nat, start: nat)
    requires lines > 0 && StartsAt(file, nl, lines, ChunkSize, MaxTailReadBytes, m, start)
    ensures start <= |file| && IsSuffix(FormatTail(file[start..], nl, lines), FormatTail(file, nl, lines))
    ensures |file| <= MaxTailReadBytes ==>
            (FormatTail(file[start..], nl, lines) == FormatTail(file, nl, lines) <==>
             !exists n: nat :: CutsAt(file, nl, lines, ChunkSize, n))
  {
    ReadsSomething(file, nl, lines, ChunkSize, MaxTailReadBytes, m);
    ChunkedTailRefines(file, nl, start, lines);
    if |file| <= MaxTailReadBytes {
      FirstLineIsCutIff(file, nl, lines, ChunkSize, MaxTailReadBytes, m, start);
    }
  }
}
