/** The hand-written models.ini parser. */
module IniParser {
  import opened Wrappers
  import opened Text
  import opened ModelKeys
  import opened ModelsIni

  type Sections = map<string, Values>

  /** The sections read so far and the one the next key belongs to, if any. */
  datatype Reader = Reader(sections: Sections, current: Option<string>)

  const Start := Reader(map[], None)

  type Step = (Reader, string) -> Result<Reader>

  /** Feeds the lines to `step` until one fails. */
  function Fold(step: Step, st: Reader, lines: seq<string>): Result<Reader>
    decreases |lines|
  {
    if lines == [] then Ok(st)
    else
      match step(st, lines[0])
      case Err => Err
      case Ok(next) => Fold(step, next, lines[1..])
  }

  lemma {:induction false} FoldConcat(step: Step, st: Reader, a: seq<string>, b: seq<string>)
    ensures Fold(step, st, a + b) == match Fold(step, st, a)
                                     case Err => Err
                                     case Ok(mid) => Fold(step, mid, b)
    decreases |a|
  {
    if a == [] {
      assert a + b == b;
    } else {
      assert (a + b)[1..] == a[1..] + b;
      match step(st, a[0])
      case Err =>
      case Ok(next) => FoldConcat(step, next, a[1..], b);
    }
  }

  /** The first position of `c`, or the length when there is none. */
  function IndexOf(s: string, c: char): nat {
    if s == "" || s[0] == c then 0 else 1 + IndexOf(s[1..], c)
  }

  /** A blank followed by `;` or `#`. */
  predicate CommentAt(s: string, i: nat) {
    i + 1 < |s| && (s[i] == ' ' || s[i] == '\t') && (s[i + 1] == ';' || s[i + 1] == '#')
  }

  /** The text before the first inline comment. */
  function CutComment(s: string): string {
    if s == "" || CommentAt(s, 0) then "" else [s[0]] + CutComment(s[1..])
  }

  function ParseHeader(trimmed: string, sections: Sections): Result<string>
    requires trimmed != "" && trimmed[0] == '['
  {
    if trimmed[|trimmed| - 1] != ']' then Err
    else
      var name := Trim(trimmed[1..|trimmed| - 1]);
      if !ValidName(name) || name in sections then Err else Ok(name)
  }

  function ParseValueLine(canon: Canon, trimmed: string): Result<(string, string)> {
    var eq := IndexOf(trimmed, '=');
    if eq >= |trimmed| then Err
    else
      match canon(Trim(trimmed[..eq]))
      case Err => Err
      case Ok(key) => Ok((key, Trim(CutComment(trimmed[eq + 1..]))))
  }

  predicate Skipped(trimmed: string) {
    trimmed == "" || trimmed[0] == ';' || trimmed[0] == '#'
  }

  function ParseLine(canon: Canon, st: Reader, line: string): Result<Reader> {
    var trimmed := Trim(line);
    if Skipped(trimmed) then Ok(st)
    else if trimmed[0] == '[' then
      match ParseHeader(trimmed, st.sections)
      case Err => Err
      case Ok(name) => Ok(Reader(st.sections[name := map[]], Some(name)))
    else if st.current.None? then Ok(st)
    else
      match ParseValueLine(canon, trimmed)
      case Err => Err
      case Ok((key, value)) => Ok(Put(st, key, value))
  }

  /** Sets one key of the current section. */
  function Put(st: Reader, key: string, value: string): Reader
    requires st.current.Some?
  {
    var name := st.current.value;
    var values := if name in st.sections then st.sections[name] else map[];
    st.(sections := st.sections[name := values[key := value]])
  }

  function LineStep(canon: Canon): Step {
    (st, line) => ParseLine(canon, st, line)
  }

  function Parse(canon: Canon, text: string): Result<Sections> {
    match Fold(LineStep(canon), Start, SplitLines(text))
    case Err => Err
    case Ok(st) => Ok(st.sections)
  }

  method ParseINI(canon: Canon, text: string) returns (r: Result<Sections>)
    ensures r == Parse(canon, text)
  {
    var lines := SplitLines(text);
    var sections: Sections, current: Option<string> := map[], None;
    assert lines[0..] == lines;
    for i := 0 to |lines|
      invariant Fold(LineStep(canon), Start, lines) == Fold(LineStep(canon), Reader(sections, current), lines[i..])
    {
      assert lines[i..][1..] == lines[i + 1..];
      var trimmed := Trim(lines[i]);
      if Skipped(trimmed) {
        continue;
      }
      if trimmed[0] == '[' {
        var header := ParseHeader(trimmed, sections);
        if header.Err? {
          return Err;
        }
        sections, current := sections[header.value := map[]], Some(header.value);
        continue;
      }
      if current.None? {
        continue;
      }
      var entry := ParseValueLine(canon, trimmed);
      if entry.Err? {
        return Err;
      }
      sections := Put(Reader(sections, current), entry.value.0, entry.value.1).sections;
    }
    r := Ok(sections);
  }
}
