/** What an edit of models.ini by hand means to its parser. */
module IniEditing {
  import opened Wrappers
  import opened Text
  import opened ModelKeys
  import opened ModelsIni
  import opened IniParser
  import opened IniRoundTrip

  ghost predicate NoBreaks(lines: seq<string>) { forall l :: l in lines ==> '\n' !in l }

  function SectionsOf(r: Result<Reader>): Result<Sections> {
    match r
    case Err => Err
    case Ok(st) => Ok(st.sections)
  }

  /** A file is read line by line; the empty line after its last newline adds nothing. */
  lemma ParseOfLines(canon: Canon, lines: seq<string>)
    requires NoBreaks(lines)
    ensures Parse(canon, Unlines(lines)) == SectionsOf(Fold(LineStep(canon), Start, lines))
  {
    SplitUnlines(lines);
    FoldConcat(LineStep(canon), Start, lines, [""]);
    match Fold(LineStep(canon), Start, lines)
    case Err =>
    case Ok(st) => FoldOne(LineStep(canon), st, "");
  }

  /** Blank, or a comment of its own. */
  predicate IsRemark(line: string) { Trim(line) == "" || Trim(line)[0] == ';' || Trim(line)[0] == '#' }

  /** A blank line or a comment can be put anywhere. */
  lemma RemarksChangeNothing(canon: Canon, before: seq<string>, line: string, after: seq<string>)
    requires NoBreaks(before) && '\n' !in line && NoBreaks(after) && IsRemark(line)
    ensures Parse(canon, Unlines(before + [line] + after)) == Parse(canon, Unlines(before + after))
  {
    var step := LineStep(canon);
    ParseOfLines(canon, before + [line] + after);
    ParseOfLines(canon, before + after);
    FoldConcat(step, Start, before + [line], after);
    FoldConcat(step, Start, before, [line]);
    FoldConcat(step, Start, before, after);
    match Fold(step, Start, before)
    case Err =>
    case Ok(st) => FoldOne(step, st, line);
  }

  /** A line that says nothing the parser knows: a header that is not closed or names nothing, or, within a section, no `=`. */
  predicate IsUnreadable(line: string, inSection: bool) {
    var t := Trim(line);
    && !IsRemark(line)
    && if t[0] == '[' then t[|t| - 1] != ']' || !ValidName(Trim(t[1..|t| - 1])) else inSection && '=' !in t
  }

  lemma {:induction false} NoIndex(s: string, c: char)
    requires c !in s
    ensures IndexOf(s, c) == |s|
  {
    if s != "" {
      NoIndex(s[1..], c);
    }
  }

  /** One such line makes the whole file an error, whatever follows. */
  lemma AnUnreadableLineFails(canon: Canon, before: seq<string>, st: Reader, line: string, after: seq<string>)
    requires NoBreaks(before) && '\n' !in line && NoBreaks(after)
    requires Fold(LineStep(canon), Start, before) == Ok(st) && IsUnreadable(line, st.current.Some?)
    ensures Parse(canon, Unlines(before + [line] + after)).Err?
  {
    var step := LineStep(canon);
    ParseOfLines(canon, before + [line] + after);
    FoldConcat(step, Start, before + [line], after);
    FoldConcat(step, Start, before, [line]);
    FoldOne(step, st, line);
    if Trim(line)[0] != '[' {
      NoIndex(Trim(line), '=');
    }
  }

  /** So does, within a section, a line whose key is none. */
  lemma ABadKeyFails(canon: Canon, before: seq<string>, st: Reader, line: string, key: string, value: string, after: seq<string>)
    requires NoBreaks(before) && '\n' !in line && NoBreaks(after)
    requires Fold(LineStep(canon), Start, before) == Ok(st) && st.current.Some?
    requires !IsRemark(line) && Trim(line)[0] != '[' && Trim(line) == key + "=" + value && '=' !in key && canon(Trim(key)).Err?
    ensures Parse(canon, Unlines(before + [line] + after)).Err?
  {
    var step := LineStep(canon);
    ParseOfLines(canon, before + [line] + after);
    FoldConcat(step, Start, before + [line], after);
    FoldConcat(step, Start, before, [line]);
    FoldOne(step, st, line);
    IndexOfAfter(key, '=', value);
    assert Trim(line)[..|key|] == key;
  }

  /** Of two lines for one key the later one counts. */
  lemma TheLaterValueCounts(canon: Canon, st: Reader, key: string, value: string, later: string)
    requires KeyPattern(key) && canon(key) == Ok(key) && st.current.Some?
    ensures var step := LineStep(canon);
            Fold(step, st, [KeyLine(key, value), KeyLine(key, later)]) == Fold(step, st, [KeyLine(key, later)])
  {
    var once := Put(st, key, StoredValue(value));
    KeyLineParses(canon, st, key, value);
    KeyLineParses(canon, st, key, later);
    KeyLineParses(canon, once, key, later);
    PutAgain(st, key, StoredValue(value), StoredValue(later));
    FoldTwo(LineStep(canon), st, once, KeyLine(key, value), KeyLine(key, later));
    FoldOne(LineStep(canon), st, KeyLine(key, later));
  }

  lemma PutAgain(st: Reader, key: string, value: string, later: string)
    requires st.current.Some?
    ensures Put(Put(st, key, value), key, later) == Put(st, key, later)
  {
    var name := st.current.value;
    var values := if name in st.sections then st.sections[name] else map[];
    assert values[key := value][key := later] == values[key := later];
    assert st.sections[name := values[key := value]][name := values[key := later]] == st.sections[name := values[key := later]];
  }

  lemma FoldTwo(step: Step, st: Reader, mid: Reader, a: string, b: string)
    requires step(st, a) == Ok(mid)
    ensures Fold(step, st, [a, b]) == step(mid, b)
  {
    assert [a, b][1..] == [b];
    FoldOne(step, mid, b);
  }

  /** A comment is cut where it begins. */
  lemma {:induction false} CutsAt(s: string, comment: string)
    requires NoComment(s) && |comment| > 1 && CommentAt(comment, 0)
    ensures CutComment(s + comment) == s
  {
    if s == "" {
      assert s + comment == comment;
    } else {
      assert (s + comment)[1..] == s[1..] + comment;
      NoCommentCons(s);
      assert !CommentAt(s + comment, 0) by {
        assert !CommentAt(s, 0);
        assert |s| > 1 ==> (s + comment)[1] == s[1];
        assert |s| == 1 ==> (s + comment)[1] == comment[0];
      }
      CutsAt(s[1..], comment);
    }
  }

  /** A comment behind a value, after a blank, is no part of it. */
  lemma ATrailingCommentIsDropped(canon: Canon, st: Reader, key: string, value: string, mark: char, remark: string)
    requires KeyPattern(key) && canon(key) == Ok(key) && st.current.Some?
    requires NoComment(" " + value) && (mark == ';' || mark == '#')
    ensures ParseLine(canon, st, KeyLine(key, value + " " + [mark] + remark)) == Ok(Put(st, key, Trim(value)))
  {
    var front, whole := " " + value + " " + [mark], value + " " + [mark] + remark;
    KeyLineParses(canon, st, key, whole);
    assert " " + whole == front + remark;
    TrimRightAfter(front, remark);
    var comment := " " + [mark] + TrimRight(remark);
    assert front + TrimRight(remark) == (" " + value) + comment;
    CutsAt(" " + value, comment);
    TrimLeftOfBlank(" " + value);
    assert (" " + value)[1..] == value;
  }

  /** A value with a line break of either kind is never written. */
  lemma ABreakIsNeverWritten(canon: Canon, s: Section, key: string)
    requires key in s.values && ('\r' in s.values[key] || '\n' in s.values[key])
    ensures !Writable(canon, s)
  {
  }

  lemma {:induction false} CharsAllowed(name: string)
    ensures NameChars(name) <==> forall c :: c in "[]\r\n;#=" ==> c !in name
  {
    NameCharsAre(name);
    var bad := "[]\r\n;#=";
    assert forall c :: c in bad <==> !NameChar(c);
    assert forall c :: c in name <==> exists i :: 0 <= i < |name| && name[i] == c;
  }

  /** A section can be named by anything but blanks that has none of the marks the format itself uses. */
  lemma ValidNameIff(name: string)
    ensures ValidName(name) <==> (exists c :: c in name && !IsSpace(c)) && forall c :: c in "[]\r\n;#=" ==> c !in name
  {
    CharsAllowed(name);
    var left, right := TrimTakesBlanks(name);
    if Trim(name) != "" {
      assert Trim(name)[0] in name && !IsSpace(Trim(name)[0]);
    } else {
      assert name == left + right;
      assert forall c :: c in name ==> IsSpace(c);
    }
  }
}
