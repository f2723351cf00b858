/** What the parser makes of the file the renderer wrote. */
module IniRoundTrip {
  import opened Wrappers
  import opened Text
  import opened Rekey
  import opened ModelKeys
  import opened ModelsIni
  import opened IniParser

  // ------------------------------------------------------------------
  // Values
  // ------------------------------------------------------------------

  /** What is read back for a value written after "= ". */
  function StoredValue(value: string): string {
    Trim(CutComment(TrimRight(" " + value)))
  }

  /** Trimmed, and with no blank before a `;` or `#` once it follows "= ". */
  ghost predicate Representable(value: string) {
    Trimmed(value) && NoComment(" " + value)
  }

  lemma {:induction false} CutCommentIsPrefix(s: string)
    ensures |CutComment(s)| <= |s| && CutComment(s) == s[..|CutComment(s)|]
  {
    if s != "" && !CommentAt(s, 0) {
      CutCommentIsPrefix(s[1..]);
    }
  }

  ghost predicate NoComment(s: string) { forall i: nat :: !CommentAt(s, i) }

  lemma NoCommentCons(s: string)
    requires s != ""
    ensures NoComment(s) <==> !CommentAt(s, 0) && NoComment(s[1..])
  {
    assert forall i: nat :: CommentAt(s[1..], i) <==> CommentAt(s, i + 1);
    if !CommentAt(s, 0) && NoComment(s[1..]) {
      forall i: nat ensures !CommentAt(s, i) {
        assert i > 0 ==> !CommentAt(s[1..], i - 1);
      }
    }
  }

  lemma {:induction false} CutCommentIs(s: string)
    ensures |CutComment(s)| <= |s| && CutComment(s) == s[..|CutComment(s)|]
    ensures |CutComment(s)| == |s| <==> NoComment(s)
  {
    CutCommentIsPrefix(s);
    if s != "" {
      NoCommentCons(s);
      if !CommentAt(s, 0) {
        CutCommentIs(s[1..]);
      }
    }
  }

  /** A value survives the file exactly when it is representable. */
  lemma StoredIffRepresentable(value: string)
    ensures StoredValue(value) == value <==> Representable(value)
  {
    var line := " " + value;
    TrimRightIs(line);
    CutCommentIs(TrimRight(line));
    TrimIsTrimmed(CutComment(TrimRight(line)));
    if Trimmed(value) {
      TrimIsTrimmed(value);
      if value == "" {
        assert TrimRight(line[..0]) == "";
        assert TrimRight(line) == "";
      } else {
        assert TrimRight(line) == line;
        CutCommentIs(line);
        TrimLeftOfBlank(CutComment(line));
        assert line[1..] == value;
      }
    }
  }

  /** Trimming drops a leading blank, so the text gets shorter. */
  lemma TrimLeftOfBlank(s: string)
    requires s != "" ==> s[0] == ' '
    ensures s != "" ==> Trim(s) == Trim(s[1..]) && |Trim(s)| < |s|
  {
    if s != "" {
      TrimIsTrimmed(s[1..]);
    }
  }

  // ------------------------------------------------------------------
  // Lines
  // ------------------------------------------------------------------

  lemma {:induction false} NameCharsAre(s: string)
    ensures NameChars(s) <==> forall i :: 0 <= i < |s| ==> NameChar(s[i])
  {
    if s != "" {
      NameCharsAre(s[1..]);
      assert forall i :: 0 <= i < |s| - 1 ==> s[1..][i] == s[i + 1];
      if NameChars(s[1..]) && NameChar(s[0]) {
        forall i | 0 <= i < |s| ensures NameChar(s[i]) {
          if i > 0 {
            assert s[i] == s[1..][i - 1];
          }
        }
      }
    }
  }

  lemma TrimmedNameIsValid(name: string)
    requires ValidName(name)
    ensures ValidName(Trim(name)) && Trim(Trim(name)) == Trim(name)
  {
    TrimIsTrimmed(name);
    TrimIsTrimmed(Trim(name));
    TrimLeftIs(name);
    TrimRightIs(TrimLeft(name));
    NameCharsAre(name);
    NameCharsAre(Trim(name));
    var n := |name| - |TrimLeft(name)|;
    assert forall i :: 0 <= i < |Trim(name)| ==> Trim(name)[i] == name[n + i];
  }

  /** A rendered header opens the section under its trimmed name, unless that is taken. */
  lemma HeaderLineParses(canon: Canon, st: Reader, name: string)
    requires ValidName(name)
    ensures ParseLine(canon, st, HeaderLine(name)) ==
            if Trim(name) in st.sections then Err
            else Ok(Reader(st.sections[Trim(name) := map[]], Some(Trim(name))))
  {
    var line := HeaderLine(name);
    assert line[0] == '[' && line[|line| - 1] == ']' && Trimmed(line);
    TrimIsTrimmed(line);
    assert line[1..|line| - 1] == name;
    TrimmedNameIsValid(name);
  }

  lemma {:induction false} IndexOfAfter(key: string, c: char, rest: string)
    requires c !in key
    ensures IndexOf(key + [c] + rest, c) == |key|
  {
    if key != "" {
      assert (key + [c] + rest)[1..] == key[1..] + [c] + rest;
      IndexOfAfter(key[1..], c, rest);
    }
  }

  /** A rendered key line sets its key to what is stored of its value. */
  lemma KeyLineParses(canon: Canon, st: Reader, key: string, value: string)
    requires KeyPattern(key) && canon(key) == Ok(key) && st.current.Some?
    ensures ParseLine(canon, st, KeyLine(key, value)) == Ok(Put(st, key, StoredValue(value)))
  {
    var line, front := KeyLine(key, value), key + " =";
    PatternIsPlain(key);
    assert key[0] in key;
    assert line == front + (" " + value);
    assert TrimLeft(line) == line;
    TrimRightAfter(front, " " + value);
    var trimmed := Trim(line);
    assert trimmed == front + TrimRight(" " + value);
    assert trimmed == key + " " + "=" + TrimRight(" " + value);
    assert '=' !in key + " ";
    IndexOfAfter(key + " ", '=', TrimRight(" " + value));
    assert trimmed[..|key| + 1] == key + " ";
    assert trimmed[|key| + 2..] == TrimRight(" " + value);
    TrimRightAfter(key, " ");
    assert TrimRight(" ") == "" by { assert " "[..0] == ""; }
    assert Trim(key + " ") == key;
  }

  lemma RenderedLinesHaveNoNewline(name: string, key: string, value: string)
    ensures ValidName(name) ==> '\n' !in HeaderLine(name)
    ensures KeyPattern(key) && !HasNewline(value) ==> '\n' !in KeyLine(key, value)
  {
    NameCharsAre(name);
    if KeyPattern(key) {
      PatternIsPlain(key);
    }
  }

  // ------------------------------------------------------------------
  // Stanzas
  // ------------------------------------------------------------------

  /** What a rendered stanza may hold. */
  ghost predicate Plain(canon: Canon, values: Values) {
    forall k :: k in values ==> KeyPattern(k) && canon(k) == Ok(k) && !HasNewline(values[k])
  }

  lemma CanonicalValuesArePlain(canon: Canon, raw: Values)
    requires KeyRules(canon) && Canonicalizable(canon, raw)
    ensures Plain(canon, CanonicalValues(canon, raw))
  {
    RekeyedFits(raw, canon, OneLine);
    var values := CanonicalValues(canon, raw);
    forall c | c in values ensures KeyPattern(c) && canon(c) == Ok(c) && !HasNewline(values[c]) {
      var k :| k in raw.Keys && canon(k) == Ok(c);
      assert OneLine(raw[k]) == Ok(values[c]);
    }
  }

  /** What the stanza proofs use of the parser: how it reads the three kinds of line a stanza is made of. */
  ghost predicate ReadsStanzas(step: Step, canon: Canon) {
    && (forall st: Reader :: step(st, "") == Ok(st))
    && (forall st: Reader, name :: ValidName(name) ==> step(st, HeaderLine(name)) == Opened(st, name))
    && (forall st: Reader, key, value :: KeyPattern(key) && canon(key) == Ok(key) && st.current.Some? ==>
          step(st, KeyLine(key, value)) == Ok(Put(st, key, StoredValue(value))))
  }

  function Opened(st: Reader, name: string): Result<Reader> {
    if Trim(name) in st.sections then Err
    else Ok(Reader(st.sections[Trim(name) := map[]], Some(Trim(name))))
  }

  lemma TheParserReadsStanzas(canon: Canon)
    ensures ReadsStanzas(LineStep(canon), canon)
  {
    forall st: Reader, name | ValidName(name) ensures LineStep(canon)(st, HeaderLine(name)) == Opened(st, name) {
      HeaderLineParses(canon, st, name);
    }
    forall st: Reader, key, value | KeyPattern(key) && canon(key) == Ok(key) && st.current.Some?
      ensures LineStep(canon)(st, KeyLine(key, value)) == Ok(Put(st, key, StoredValue(value)))
    {
      KeyLineParses(canon, st, key, value);
    }
  }

  function Stored(values: Values): Values {
    map k | k in values :: StoredValue(values[k])
  }

  /** `onto` with the stored value of each of `keys`. */
  function StoredOnto(onto: Values, keys: seq<string>, values: Values): Values
    decreases |keys|
  {
    if keys == [] then onto
    else StoredOnto(onto[keys[0] := StoredValue(ValueOf(values, keys[0]))], keys[1..], values)
  }

  lemma {:induction false} StoredOntoIs(onto: Values, keys: seq<string>, values: Values, k: string)
    ensures k in StoredOnto(onto, keys, values) <==> k in keys || k in onto
    ensures k in keys ==> StoredOnto(onto, keys, values)[k] == StoredValue(ValueOf(values, k))
    ensures k !in keys && k in onto ==> StoredOnto(onto, keys, values)[k] == onto[k]
    decreases |keys|
  {
    if keys != [] {
      StoredOntoIs(onto[keys[0] := StoredValue(ValueOf(values, keys[0]))], keys[1..], values, k);
      assert k in keys <==> k == keys[0] || k in keys[1..];
    }
  }

  lemma StoredOntoIsStored(values: Values)
    ensures StoredOnto(map[], SortedKeys(values.Keys), values) == Stored(values)
  {
    var r := StoredOnto(map[], SortedKeys(values.Keys), values);
    SortedKeysSort(values.Keys);
    forall k ensures k in r <==> k in Stored(values)
             ensures k in r ==> r[k] == Stored(values)[k]
    {
      StoredOntoIs(map[], SortedKeys(values.Keys), values, k);
    }
  }

  lemma {:induction false} KeyLinesAre(keys: seq<string>, values: Values, n: nat)
    requires n <= |keys|
    ensures |KeyLines(keys, values, n)| == n
    ensures forall i :: 0 <= i < n ==> KeyLines(keys, values, n)[i] == KeyLine(keys[i], ValueOf(values, keys[i]))
  {
    if n > 0 {
      KeyLinesAre(keys, values, n - 1);
    }
  }

  lemma FoldOne(step: Step, st: Reader, line: string)
    ensures Fold(step, st, [line]) == step(st, line)
  {
    assert [line][1..] == [];
    match step(st, line)
    case Err =>
    case Ok(next) => assert Fold(step, next, []) == Ok(next);
  }

  /** `st` with `values` as its current section. */
  function Filled(st: Reader, values: Values): Reader
    requires st.current.Some?
  {
    st.(sections := st.sections[st.current.value := values])
  }

  lemma {:induction false} KeyLinesParse(step: Step, canon: Canon, st: Reader, onto: Values,
                                         keys: seq<string>, values: Values, lines: seq<string>)
    requires ReadsStanzas(step, canon) && Plain(canon, values) && st.current.Some?
    requires |lines| == |keys| && forall k :: k in keys ==> k in values
    requires forall i :: 0 <= i < |keys| ==> lines[i] == KeyLine(keys[i], ValueOf(values, keys[i]))
    ensures Fold(step, Filled(st, onto), lines) == Ok(Filled(st, StoredOnto(onto, keys, values)))
    decreases |keys|
  {
    if keys != [] {
      var key, value := keys[0], StoredValue(ValueOf(values, keys[0]));
      assert key in keys;
      PutInFilled(st, onto, key, value);
      forall i | 0 <= i < |keys| - 1
        ensures lines[1..][i] == KeyLine(keys[1..][i], ValueOf(values, keys[1..][i]))
      {
        assert lines[1..][i] == lines[i + 1] && keys[1..][i] == keys[i + 1];
      }
      KeyLinesParse(step, canon, st, onto[key := value], keys[1..], values, lines[1..]);
    }
  }

  lemma PutInFilled(st: Reader, values: Values, key: string, value: string)
    requires st.current.Some?
    ensures Put(Filled(st, values), key, value) == Filled(st, values[key := value])
  {
    SetTwice(st.sections, st.current.value, values, values[key := value]);
  }

  lemma SetTwice(m: Sections, k: string, a: Values, b: Values)
    ensures m[k := a][k := b] == m[k := b]
  {
  }

  /** `st` with one more section, now the current one; a name already there is an error. */
  function AddSection(st: Reader, name: string, values: Values): Result<Reader> {
    if name in st.sections then Err else Ok(Reader(st.sections[name := values], Some(name)))
  }

  lemma BlockParses(step: Step, canon: Canon, st: Reader, name: string, values: Values)
    requires ReadsStanzas(step, canon) && ValidName(name) && Plain(canon, values)
    ensures Fold(step, st, BlockLines(name, values)) == AddSection(st, Trim(name), Stored(values))
  {
    var keys := SortedKeys(values.Keys);
    SortedKeysSort(values.Keys);
    FoldConcat(step, st, ["", HeaderLine(name)], KeyLines(keys, values, |keys|));
    HeadParses(step, canon, st, name);
    if Trim(name) !in st.sections {
      var mid := Opened(st, name).value;
      assert mid == Filled(mid, map[]);
      KeyLinesAre(keys, values, |keys|);
      KeyLinesParse(step, canon, mid, map[], keys, values, KeyLines(keys, values, |keys|));
      StoredOntoIsStored(values);
      SetTwice(st.sections, Trim(name), map[], Stored(values));
    }
  }

  lemma HeadParses(step: Step, canon: Canon, st: Reader, name: string)
    requires ReadsStanzas(step, canon) && ValidName(name)
    ensures Fold(step, st, ["", HeaderLine(name)]) == Opened(st, name)
  {
    assert ["", HeaderLine(name)] == [""] + [HeaderLine(name)];
    FoldConcat(step, st, [""], [HeaderLine(name)]);
    FoldOne(step, st, "");
    FoldOne(step, st, HeaderLine(name));
  }

  lemma {:induction false} KeyLinesHaveNoNewline(canon: Canon, keys: seq<string>, values: Values, n: nat)
    requires Plain(canon, values) && n <= |keys| && forall k :: k in keys ==> k in values
    ensures forall l :: l in KeyLines(keys, values, n) ==> '\n' !in l
  {
    if n > 0 {
      KeyLinesHaveNoNewline(canon, keys, values, n - 1);
      assert keys[n - 1] in keys;
      RenderedLinesHaveNoNewline("", keys[n - 1], values[keys[n - 1]]);
    }
  }

  lemma BlockHasNoNewline(canon: Canon, name: string, values: Values)
    requires ValidName(name) && Plain(canon, values)
    ensures forall l :: l in BlockLines(name, values) ==> '\n' !in l
  {
    SortedKeysSort(values.Keys);
    var keys := SortedKeys(values.Keys);
    KeyLinesHaveNoNewline(canon, keys, values, |keys|);
    RenderedLinesHaveNoNewline(name, "", "");
  }

  // ------------------------------------------------------------------
  // The whole file
  // ------------------------------------------------------------------

  /** `m` with the first `n` entries added in turn; a key already there is an error. */
  ghost function Added<K(!new), V>(m: map<K, V>, keys: seq<K>, values: seq<V>, n: nat): Result<map<K, V>>
    requires n <= |keys| == |values|
  {
    if n == 0 then Ok(m)
    else
      var before := Added(m, keys, values, n - 1);
      if before.Err? || keys[n - 1] in before.value then Err else Ok(before.value[keys[n - 1] := values[n - 1]])
  }

  /** No key repeats, and none is there already. */
  ghost predicate AllNew<K(!new), V>(m: map<K, V>, keys: seq<K>, n: nat)
    requires n <= |keys|
  {
    && (forall i :: 0 <= i < n ==> keys[i] !in m)
    && (forall i, j :: 0 <= i < j < n ==> keys[i] != keys[j])
  }

  /** `r` is `m` with the first `n` entries and nothing else. */
  ghost predicate HoldsAll<K(!new), V>(m: map<K, V>, keys: seq<K>, values: seq<V>, n: nat, r: map<K, V>)
    requires n <= |keys| == |values|
  {
    && (forall k :: k in r <==> k in m || exists i :: 0 <= i < n && keys[i] == k)
    && (forall k :: k in m ==> k in r && r[k] == m[k])
    && (forall i :: 0 <= i < n ==> keys[i] in r && r[keys[i]] == values[i])
  }

  lemma {:induction false} AddedIs<K(!new), V>(m: map<K, V>, keys: seq<K>, values: seq<V>, n: nat)
    requires n <= |keys| == |values|
    ensures Added(m, keys, values, n).Ok? <==> AllNew(m, keys, n)
    ensures Added(m, keys, values, n).Ok? ==> HoldsAll(m, keys, values, n, Added(m, keys, values, n).value)
    decreases n
  {
    if n > 0 {
      AddedIs(m, keys, values, n - 1);
    }
  }

  /** The canonical values of a section that renders. */
  ghost function CanonicalOf(canon: Canon, raw: Values): Values {
    if Canonicalizable(canon, raw) then CanonicalValues(canon, raw) else map[]
  }

  /** Reading the stanza adds the section `key` with `stored`, whatever was read before. */
  ghost predicate Adds(step: Step, block: Result<seq<string>>, key: string, stored: Values) {
    && block.Ok?
    && (forall st :: Fold(step, st, block.value) == AddSection(st, key, stored))
    && (forall l :: l in block.value ==> '\n' !in l)
  }

  lemma StanzaAdds(canon: Canon, s: Section)
    requires KeyRules(canon) && SectionRenders(canon, s)
    ensures Adds(LineStep(canon), Block(canon, s), Trim(s.name), Stored(CanonicalOf(canon, s.values)))
  {
    var values, step := CanonicalValues(canon, s.values), LineStep(canon);
    CanonicalValuesArePlain(canon, s.values);
    TheParserReadsStanzas(canon);
    BlockHasNoNewline(canon, s.name, values);
    forall st ensures Fold(step, st, BlockLines(s.name, values)) == AddSection(st, Trim(s.name), Stored(values)) {
      BlockParses(step, canon, st, s.name, values);
    }
  }

  /** Reading stanzas joined by the renderer adds their sections in turn. */
  lemma {:induction false} JoinedParses(step: Step, st: Reader, names: seq<string>, blocks: seq<Result<seq<string>>>,
                                        keys: seq<string>, stored: seq<Values>, n: nat)
    requires n <= |names| == |blocks| == |keys| == |stored|
    requires forall i :: 0 <= i < n ==> Adds(step, blocks[i], keys[i], stored[i])
    requires Joined(names, blocks, n).Ok?
    ensures Fold(step, st, Joined(names, blocks, n).value) ==
            match Added(st.sections, keys, stored, n)
            case Err => Err
            case Ok(m) => Ok(Reader(m, if n == 0 then st.current else Some(keys[n - 1])))
    ensures forall l :: l in Joined(names, blocks, n).value ==> '\n' !in l
    decreases n
  {
    if n > 0 {
      JoinedParses(step, st, names, blocks, keys, stored, n - 1);
      assert Adds(step, blocks[n - 1], keys[n - 1], stored[n - 1]);
      FoldConcat(step, st, Joined(names, blocks, n - 1).value, blocks[n - 1].value);
    }
  }

  /** Lines above the first section that hold no header. */
  ghost predicate Preamble(header: seq<string>) {
    forall l :: l in header ==> '\n' !in l && (Trim(l) == "" || Trim(l)[0] != '[')
  }

  lemma {:induction false} PreambleIsSkipped(canon: Canon, header: seq<string>)
    requires Preamble(header)
    ensures Fold(LineStep(canon), Start, header) == Ok(Start)
  {
    if header != [] {
      assert header[0] in header;
      assert ParseLine(canon, Start, header[0]) == Ok(Start);
      PreambleIsSkipped(canon, header[1..]);
    }
  }

  // ------------------------------------------------------------------
  // The theorems
  // ------------------------------------------------------------------

  function ReadNames(sections: seq<Section>): (r: seq<string>)
    ensures |r| == |sections| && forall i :: 0 <= i < |r| ==> r[i] == Trim(sections[i].name)
  {
    seq(|sections|, i requires 0 <= i < |sections| => Trim(sections[i].name))
  }

  ghost function ReadValues(canon: Canon, sections: seq<Section>): (r: seq<Values>)
    ensures |r| == |sections| && forall i :: 0 <= i < |r| ==> r[i] == Stored(CanonicalOf(canon, sections[i].values))
  {
    seq(|sections|, i requires 0 <= i < |sections| => Stored(CanonicalOf(canon, sections[i].values)))
  }

  /** What the defaults read back as: [*] when there are any. */
  ghost function ReadDefaults(canon: Canon, defaults: Values): Sections {
    if defaults == map[] then map[] else map[GlobalSection := Stored(CanonicalOf(canon, defaults))]
  }

  lemma DefaultsParse(canon: Canon, defaults: Values) returns (current: Option<string>)
    requires KeyRules(canon) && DefaultBlock(canon, defaults).Ok?
    ensures Fold(LineStep(canon), Start, DefaultBlock(canon, defaults).value) ==
            Ok(Reader(ReadDefaults(canon, defaults), current))
    ensures forall l :: l in DefaultBlock(canon, defaults).value ==> '\n' !in l
  {
    if defaults == map[] {
      current := None;
    } else {
      current := Some(GlobalSection);
      GlobalNameIsValid();
      StanzaAdds(canon, Section(GlobalSection, defaults));
      assert AddSection(Start, GlobalSection, Stored(CanonicalOf(canon, defaults))) ==
             Ok(Reader(ReadDefaults(canon, defaults), Some(GlobalSection)));
    }
  }

  lemma SectionsParse(canon: Canon, st: Reader, sections: seq<Section>)
    requires KeyRules(canon) && SectionBlocks(canon, sections).Ok?
    ensures var sorted := SortByName(sections);
            var r := Fold(LineStep(canon), st, SectionBlocks(canon, sections).value);
            var expected := Added(st.sections, ReadNames(sorted), ReadValues(canon, sorted), |sorted|);
            if expected.Err? then r.Err? else r.Ok? && r.value.sections == expected.value
    ensures forall l :: l in SectionBlocks(canon, sections).value ==> '\n' !in l
  {
    var sorted := SortByName(sections);
    var blocks := Blocks(canon, sorted);
    JoinedNeeds(Names(sorted), blocks, |sorted|);
    forall i | 0 <= i < |sorted| ensures Adds(LineStep(canon), blocks[i], ReadNames(sorted)[i], ReadValues(canon, sorted)[i]) {
      StanzaAdds(canon, sorted[i]);
    }
    JoinedParses(LineStep(canon), st, Names(sorted), blocks, ReadNames(sorted), ReadValues(canon, sorted), |sorted|);
  }

  /** The parser's result on the rendered file: the defaults, then the sections in file order. */
  lemma ParseOfRendered(canon: Canon, header: seq<string>, defaults: Values, sections: seq<Section>)
    requires KeyRules(canon) && Preamble(header) && RenderedLines(canon, header, defaults, sections).Ok?
    ensures var sorted := SortByName(sections);
            Parse(canon, Unlines(RenderedLines(canon, header, defaults, sections).value)) ==
            Added(ReadDefaults(canon, defaults), ReadNames(sorted), ReadValues(canon, sorted), |sorted|)
  {
    var step := LineStep(canon);
    var top, rest := DefaultBlock(canon, defaults).value, SectionBlocks(canon, sections).value;
    PreambleIsSkipped(canon, header);
    FoldConcat(step, Start, header, top);
    var current := DefaultsParse(canon, defaults);
    var mid := Reader(ReadDefaults(canon, defaults), current);
    FoldConcat(step, Start, header + top, rest);
    SectionsParse(canon, mid, sections);
    var lines := header + top + rest;
    SplitUnlines(lines);
    FoldConcat(step, Start, lines, [""]);
    if Fold(step, Start, lines).Ok? {
      FoldOne(step, Fold(step, Start, lines).value, "");
    }
  }

  /** No two sections, counting the defaults, read back under one name. */
  ghost predicate ReadApart(defaults: Values, sections: seq<Section>) {
    && (forall s, t :: s in sections && t in sections && Trim(s.name) == Trim(t.name) ==> s == t)
    && (defaults != map[] ==> forall s :: s in sections ==> Trim(s.name) != GlobalSection)
  }

  /** `keys` and `values` list the keys and values of the distinct items `order`, which are those of `items`. */
  ghost predicate Lists<S(!new), K(!new), V(!new)>(items: seq<S>, order: seq<S>, key: S -> K, value: S -> V,
                                                  keys: seq<K>, values: seq<V>)
  {
    && (forall s :: s in order <==> s in items)
    && (forall i, j :: 0 <= i < j < |order| ==> order[i] != order[j])
    && |keys| == |values| == |order|
    && (forall i :: 0 <= i < |order| ==> order[i] in items && keys[i] == key(order[i]) && values[i] == value(order[i]))
  }

  ghost predicate KeyedApart<S(!new), K(!new), V>(items: seq<S>, key: S -> K, base: map<K, V>) {
    && (forall s, t :: s in items && t in items && key(s) == key(t) ==> s == t)
    && (forall s :: s in items ==> key(s) !in base)
  }

  lemma AllNewInAnyOrder<S(!new), K(!new), V(!new)>(items: seq<S>, order: seq<S>, key: S -> K, value: S -> V,
                                                   base: map<K, V>, keys: seq<K>, values: seq<V>)
    requires Lists(items, order, key, value, keys, values)
    ensures AllNew(base, keys, |order|) <==> KeyedApart(items, key, base)
  {
    if AllNew(base, keys, |order|) {
      forall s | s in items ensures key(s) !in base {
        var i :| 0 <= i < |order| && order[i] == s;
      }
      forall s, t | s in items && t in items && key(s) == key(t) ensures s == t {
        var i :| 0 <= i < |order| && order[i] == s;
        var j :| 0 <= j < |order| && order[j] == t;
        assert keys[i] == keys[j];
      }
    }
  }

  /** What `base` becomes when every item is added under its key. */
  ghost predicate IsWith<S(!new), K(!new), V(!new)>(items: seq<S>, key: S -> K, value: S -> V, base: map<K, V>, r: map<K, V>) {
    && (forall k :: k in r <==> k in base || exists s :: s in items && key(s) == k)
    && (forall k :: k in base && k in r ==> r[k] == base[k])
    && (forall s :: s in items && key(s) in r ==> r[key(s)] == value(s))
  }

  /** Adding distinct items succeeds exactly when no two share a key or hit `base`, in any order. */
  lemma AddedInAnyOrder<S(!new), K(!new), V(!new)>(items: seq<S>, order: seq<S>, key: S -> K, value: S -> V,
                                                  base: map<K, V>, keys: seq<K>, values: seq<V>)
    requires Lists(items, order, key, value, keys, values)
    ensures var r := Added(base, keys, values, |order|);
            && (r.Ok? <==> KeyedApart(items, key, base))
            && (r.Ok? ==> IsWith(items, key, value, base, r.value))
  {
    AddedIs(base, keys, values, |order|);
    AllNewInAnyOrder(items, order, key, value, base, keys, values);
    var r := Added(base, keys, values, |order|);
    if r.Ok? {
      forall s | s in items ensures key(s) in r.value && r.value[key(s)] == value(s) {
        var i :| 0 <= i < |order| && order[i] == s;
        assert keys[i] == key(s);
      }
      forall k | k in r.value && k !in base ensures exists s :: s in items && key(s) == k {
        var i :| 0 <= i < |order| && keys[i] == k;
        assert order[i] in items;
      }
    }
  }

  /** Sections that render are pairwise different, and none is named like the defaults. */
  lemma RenderedSectionsDiffer(canon: Canon, sections: seq<Section>)
    requires SectionBlocks(canon, sections).Ok?
    ensures var sorted := SortByName(sections);
            && (forall i, j :: 0 <= i < j < |sorted| ==> sorted[i] != sorted[j])
            && (forall i, j :: 0 <= i < j < |sorted| ==> sorted[i].name != sorted[j].name)
            && (forall i :: 0 <= i < |sorted| ==> sorted[i].name != GlobalSection)
  {
    var sorted := SortByName(sections);
    var names := Names(sorted);
    JoinedNeeds(names, Blocks(canon, sorted), |sorted|);
    forall i, j | 0 <= i < j < |sorted| ensures sorted[i].name != sorted[j].name {
      assert names[i] != names[j];
    }
    forall i | 0 <= i < |sorted| ensures sorted[i].name != GlobalSection {
      assert names[i] != GlobalSection;
    }
  }

  lemma ReadDefaultsIs(canon: Canon, defaults: Values, name: string)
    ensures name in ReadDefaults(canon, defaults) <==> defaults != map[] && name == GlobalSection
    ensures defaults != map[] ==> ReadDefaults(canon, defaults)[GlobalSection] == Stored(CanonicalOf(canon, defaults))
  {
  }

  function ReadName(s: Section): string { Trim(s.name) }

  ghost function ReadValue(canon: Canon): Section -> Values {
    (s: Section) => Stored(CanonicalOf(canon, s.values))
  }

  /** The stored form of the defaults, when there are any, and of every section under its trimmed name, and nothing else. */
  ghost predicate ReadBack(canon: Canon, defaults: Values, sections: seq<Section>, read: Sections) {
    && (forall n :: n in read <==> (defaults != map[] && n == GlobalSection) || exists s :: s in sections && Trim(s.name) == n)
    && (defaults != map[] ==> GlobalSection in read && read[GlobalSection] == Stored(CanonicalOf(canon, defaults)))
    && (forall s :: s in sections ==> Trim(s.name) in read && read[Trim(s.name)] == Stored(CanonicalOf(canon, s.values)))
  }

  lemma WithSectionsIsReadBack(canon: Canon, defaults: Values, sections: seq<Section>, read: Sections)
    requires IsWith(sections, ReadName, ReadValue(canon), ReadDefaults(canon, defaults), read)
    ensures ReadBack(canon, defaults, sections, read)
  {
    forall n ensures n in ReadDefaults(canon, defaults) <==> defaults != map[] && n == GlobalSection {
      ReadDefaultsIs(canon, defaults, n);
    }
    ReadDefaultsIs(canon, defaults, GlobalSection);
    forall s | s in sections ensures Trim(s.name) in read && read[Trim(s.name)] == Stored(CanonicalOf(canon, s.values)) {
      assert ReadName(s) in read && ReadValue(canon)(s) == Stored(CanonicalOf(canon, s.values));
    }
    forall n ensures n in read <==> (defaults != map[] && n == GlobalSection) || exists s :: s in sections && Trim(s.name) == n {
      if s :| s in sections && Trim(s.name) == n {
        assert ReadName(s) == n;
      }
      if s :| s in sections && ReadName(s) == n {
        assert Trim(s.name) == n;
      }
    }
  }

  lemma ApartIsReadApart(canon: Canon, defaults: Values, sections: seq<Section>)
    ensures KeyedApart(sections, ReadName, ReadDefaults(canon, defaults)) <==> ReadApart(defaults, sections)
  {
    forall s ensures ReadName(s) in ReadDefaults(canon, defaults) <==> defaults != map[] && Trim(s.name) == GlobalSection {
      ReadDefaultsIs(canon, defaults, Trim(s.name));
    }
    if KeyedApart(sections, ReadName, ReadDefaults(canon, defaults)) {
      forall s, t | s in sections && t in sections && Trim(s.name) == Trim(t.name) ensures s == t {
        assert ReadName(s) == ReadName(t);
      }
    }
  }

  lemma SectionsAreListed(canon: Canon, sections: seq<Section>)
    requires SectionBlocks(canon, sections).Ok?
    ensures var sorted := SortByName(sections);
            Lists(sections, sorted, ReadName, ReadValue(canon), ReadNames(sorted), ReadValues(canon, sorted))
  {
    var sorted := SortByName(sections);
    SortHolds(sections);
    RenderedSectionsDiffer(canon, sections);
    forall i | 0 <= i < |sorted| ensures ReadNames(sorted)[i] == ReadName(sorted[i]) && ReadValues(canon, sorted)[i] == ReadValue(canon)(sorted[i]) {
    }
  }

  /**
   Reading back a rendered file. It fails exactly when two sections read back
   under one name. Otherwise it holds the trimmed names of the sections, and [*]
   when there are defaults, and nothing else, each with the stored form of its
   canonical values; no line is taken for a header, a comment or a file-level key.
   */
  lemma RoundTrip(canon: Canon, header: seq<string>, defaults: Values, sections: seq<Section>)
    requires KeyRules(canon) && Preamble(header) && RenderedLines(canon, header, defaults, sections).Ok?
    ensures var r := Parse(canon, Unlines(RenderedLines(canon, header, defaults, sections).value));
            && (r.Ok? <==> ReadApart(defaults, sections))
            && (r.Ok? ==> ReadBack(canon, defaults, sections, r.value))
  {
    var sorted := SortByName(sections);
    var base := ReadDefaults(canon, defaults);
    ParseOfRendered(canon, header, defaults, sections);
    SectionsAreListed(canon, sections);
    AddedInAnyOrder(sections, sorted, ReadName, ReadValue(canon), base, ReadNames(sorted), ReadValues(canon, sorted));
    ApartIsReadApart(canon, defaults, sections);
    var r := Added(base, ReadNames(sorted), ReadValues(canon, sorted), |sorted|);
    if r.Ok? {
      WithSectionsIsReadBack(canon, defaults, sections, r.value);
    }
  }

  /** Trimmed names and representable values come back exactly as they were rendered. */
  lemma ExactRoundTrip(canon: Canon, header: seq<string>, defaults: Values, sections: seq<Section>)
    requires KeyRules(canon) && Preamble(header) && RenderedLines(canon, header, defaults, sections).Ok?
    requires forall s :: s in sections ==> Trimmed(s.name)
    ensures var r := Parse(canon, Unlines(RenderedLines(canon, header, defaults, sections).value));
            && r.Ok?
            && (forall s :: s in sections ==>
                  && s.name in r.value
                  && (r.value[s.name] == CanonicalOf(canon, s.values) <==>
                      AllRepresentable(CanonicalOf(canon, s.values))))
            && (defaults != map[] ==>
                  && GlobalSection in r.value
                  && (r.value[GlobalSection] == CanonicalOf(canon, defaults) <==>
                      AllRepresentable(CanonicalOf(canon, defaults))))
  {
    RoundTrip(canon, header, defaults, sections);
    DistinctNamesReadApart(canon, defaults, sections);
    forall s | s in sections
      ensures Trim(s.name) == s.name
      ensures Stored(CanonicalOf(canon, s.values)) == CanonicalOf(canon, s.values) <==> AllRepresentable(CanonicalOf(canon, s.values))
    {
      TrimIsTrimmed(s.name);
      StoredIsExact(CanonicalOf(canon, s.values));
    }
    StoredIsExact(CanonicalOf(canon, defaults));
  }

  ghost predicate AllRepresentable(values: Values) {
    forall k :: k in values ==> Representable(values[k])
  }

  lemma StoredIsExact(values: Values)
    ensures Stored(values) == values <==> AllRepresentable(values)
  {
    forall k | k in values ensures Stored(values)[k] == values[k] <==> Representable(values[k]) {
      StoredIffRepresentable(values[k]);
    }
  }

  lemma DistinctNamesReadApart(canon: Canon, defaults: Values, sections: seq<Section>)
    requires SectionBlocks(canon, sections).Ok? && forall s :: s in sections ==> Trimmed(s.name)
    ensures ReadApart(defaults, sections)
  {
    var sorted := SortByName(sections);
    SortHolds(sections);
    RenderedSectionsDiffer(canon, sections);
    forall s | s in sections ensures Trim(s.name) == s.name && s.name != GlobalSection {
      TrimIsTrimmed(s.name);
      var i :| 0 <= i < |sorted| && sorted[i] == s;
    }
    forall s, t | s in sections && t in sections && Trim(s.name) == Trim(t.name) ensures s == t {
      var i :| 0 <= i < |sorted| && sorted[i] == s;
      var j :| 0 <= j < |sorted| && sorted[j] == t;
    }
  }

  /** The generated header is such a preamble, whatever its comment lines say. */
  lemma GeneratedHeaderIsAPreamble(comments: seq<string>)
    requires forall l :: l in comments ==> l != "" && l[0] == ';' && '\n' !in l
    ensures Preamble(comments + ["version = 1"])
  {
    forall l | l in comments + ["version = 1"] ensures '\n' !in l && Trim(l) != "" && Trim(l)[0] != '[' {
      assert l[0] == ';' || l == "version = 1";
      assert TrimLeft(l) == l;
      TrimRightAfter(l[..1], l[1..]);
      assert l == l[..1] + l[1..];
    }
  }

  /** The sections a file with these defaults and sections holds. */
  ghost predicate IsWhatWasRendered(canon: Canon, defaults: Values, sections: seq<Section>, read: Sections) {
    && (forall n :: n in read <==> (defaults != map[] && n == GlobalSection) || n in Names(sections))
    && (defaults != map[] ==> read[GlobalSection] == CanonicalOf(canon, defaults))
    && (forall s :: s in sections ==> s.name in read && read[s.name] == CanonicalOf(canon, s.values))
  }

  lemma NamesAreTrimmed(sections: seq<Section>, n: string)
    requires forall s :: s in sections ==> Trimmed(s.name)
    ensures n in Names(sections) <==> exists s :: s in sections && Trim(s.name) == n
  {
    forall s | s in sections ensures Trim(s.name) == s.name {
      TrimIsTrimmed(s.name);
    }
    if n in Names(sections) {
      var i :| 0 <= i < |sections| && Names(sections)[i] == n;
      assert sections[i] in sections;
    }
    if s :| s in sections && Trim(s.name) == n {
      var i :| 0 <= i < |sections| && sections[i] == s;
      assert Names(sections)[i] == n;
    }
  }

  /**
   The round trip of the generated file itself: its own header and its own keys,
   every name trimmed and every value representable.
   */
  lemma GeneratedFileRoundTrip(comments: seq<string>, defaults: Values, sections: seq<Section>)
    requires forall l :: l in comments ==> l != "" && l[0] == ';' && '\n' !in l
    requires RenderedLines(CanonicalKey, comments + ["version = 1"], defaults, sections).Ok?
    requires forall s :: s in sections ==> Trimmed(s.name) && AllRepresentable(CanonicalOf(CanonicalKey, s.values))
    requires AllRepresentable(CanonicalOf(CanonicalKey, defaults))
    ensures var r := Parse(CanonicalKey, Unlines(RenderedLines(CanonicalKey, comments + ["version = 1"], defaults, sections).value));
            r.Ok? && IsWhatWasRendered(CanonicalKey, defaults, sections, r.value)
  {
    CanonicalKeyMeetsTheRules();
    GeneratedHeaderIsAPreamble(comments);
    RoundTrip(CanonicalKey, comments + ["version = 1"], defaults, sections);
    ExactRoundTrip(CanonicalKey, comments + ["version = 1"], defaults, sections);
    forall n ensures n in Names(sections) <==> exists s :: s in sections && Trim(s.name) == n {
      NamesAreTrimmed(sections, n);
    }
  }
}
