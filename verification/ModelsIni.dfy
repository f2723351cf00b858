/**
 The generated models.ini as it is rendered, for any key canonicaliser and header:
 what the file is, when rendering succeeds, and that the order of the sections does
 not matter. Errors all mark the same ErrInvalidINI, so they are one `Err`.
 */
module ModelsIni {
  import opened Wrappers
  import opened Text
  import opened Rekey
  import opened ModelKeys

  type Values = map<string, string>

  datatype Section = Section(name: string, values: Values)

  const GlobalSection := "*"

  // ------------------------------------------------------------------
  // Rendering
  // ------------------------------------------------------------------

  predicate NameChar(c: char) {
    c != '[' && c != ']' && c != '\r' && c != '\n' && c != ';' && c != '#' && c != '='
  }

  predicate NameChars(name: string) {
    name == "" || (NameChar(name[0]) && NameChars(name[1..]))
  }

  predicate ValidName(name: string) { Trim(name) != "" && NameChars(name) }

  predicate HasNewline(s: string) { '\r' in s || '\n' in s }

  /** A value that spans lines would inject keys or sections. */
  function OneLine(value: string): Result<string> {
    if HasNewline(value) then Err else Ok(value)
  }

  ghost predicate Canonicalizable(canon: Canon, raw: Values) { Rekeys(raw, canon, OneLine) }

  ghost function CanonicalValues(canon: Canon, raw: Values): Values
    requires Canonicalizable(canon, raw)
  {
    Rekeyed(raw, canon, OneLine)
  }

  function ValueOf(values: Values, key: string): string {
    if key in values then values[key] else ""
  }

  function KeyLine(key: string, value: string): string { key + " = " + value }

  /** The lines of the first `n` keys. */
  function KeyLines(keys: seq<string>, values: Values, n: nat): seq<string>
    requires n <= |keys|
  {
    if n == 0 then [] else KeyLines(keys, values, n - 1) + [KeyLine(keys[n - 1], ValueOf(values, keys[n - 1]))]
  }

  function HeaderLine(name: string): string { "[" + name + "]" }

  /** The lines of one stanza: a blank line, the header, the keys in order. */
  function BlockLines(name: string, values: Values): seq<string> {
    var keys := SortedKeys(values.Keys);
    ["", HeaderLine(name)] + KeyLines(keys, values, |keys|)
  }

  ghost predicate SectionRenders(canon: Canon, s: Section) { ValidName(s.name) && Canonicalizable(canon, s.values) }

  /** The stanza of a section, or the error of one that does not render. */
  ghost function Block(canon: Canon, s: Section): Result<seq<string>> {
    if SectionRenders(canon, s) then Ok(BlockLines(s.name, CanonicalValues(canon, s.values))) else Err
  }

  /** A rendered stanza as text. */
  ghost function TextOf(lines: Result<seq<string>>): Result<string> {
    if lines.Ok? then Ok(Unlines(lines.value)) else Err
  }

  lemma OneMoreLine(head: seq<string>, lines: seq<string>, line: string)
    ensures Unlines(head + (lines + [line])) == Unlines(head + lines) + line + "\n"
  {
    assert head + (lines + [line]) == (head + lines) + [line];
    UnlinesConcat(head + lines, [line]);
    assert [line][1..] == [];
  }

  method WriteBlock(name: string, values: Values) returns (out: string)
    ensures out == Unlines(BlockLines(name, values))
  {
    out := "\n[" + name + "]\n";
    var keys := SortedKeys(values.Keys);
    SortedKeysSort(values.Keys);
    ghost var head := ["", HeaderLine(name)];
    UnlinesTwo("", HeaderLine(name));
    assert head + KeyLines(keys, values, 0) == head;
    for i := 0 to |keys|
      invariant out == Unlines(head + KeyLines(keys, values, i))
    {
      var line := KeyLine(keys[i], values[keys[i]]);
      OneMoreLine(head, KeyLines(keys, values, i), line);
      out := out + line + "\n";
    }
  }

  method RenderSection(canon: Canon, s: Section) returns (r: Result<string>)
    ensures r == TextOf(Block(canon, s))
  {
    if !ValidName(s.name) {
      return Err;
    }
    var values := RekeyMap(s.values, canon, OneLine);
    if values.Err? {
      return Err;
    }
    var out := WriteBlock(s.name, values.value);
    r := Ok(out);
  }

  /** slices.SortFunc by name. */
  function InsertByName(s: Section, ordered: seq<Section>): seq<Section> {
    if ordered == [] || Leq(s.name, ordered[0].name) then [s] + ordered
    else [ordered[0]] + InsertByName(s, ordered[1..])
  }

  function SortByName(sections: seq<Section>): seq<Section> {
    if sections == [] then [] else InsertByName(sections[0], SortByName(sections[1..]))
  }

  /** The first `n` stanzas one after the other; a failed one, one named like the defaults or a repeated name is an error. */
  ghost function Joined(names: seq<string>, blocks: seq<Result<seq<string>>>, n: nat): Result<seq<string>>
    requires n <= |names| == |blocks|
  {
    if n == 0 then Ok([])
    else
      var before := Joined(names, blocks, n - 1);
      if before.Err? || names[n - 1] == GlobalSection || names[n - 1] in names[..n - 1] || blocks[n - 1].Err? then Err
      else Ok(before.value + blocks[n - 1].value)
  }

  lemma {:induction false} OneFailsAll(names: seq<string>, blocks: seq<Result<seq<string>>>, i: nat, n: nat)
    requires i <= n <= |names| == |blocks| && Joined(names, blocks, i).Err?
    ensures Joined(names, blocks, n).Err?
  {
    if i < n {
      OneFailsAll(names, blocks, i, n - 1);
    }
  }

  function Names(sections: seq<Section>): (r: seq<string>)
    ensures |r| == |sections| && forall i :: 0 <= i < |sections| ==> r[i] == sections[i].name
  {
    seq(|sections|, i requires 0 <= i < |sections| => sections[i].name)
  }

  ghost function Blocks(canon: Canon, sections: seq<Section>): (r: seq<Result<seq<string>>>)
    ensures |r| == |sections| && forall i :: 0 <= i < |sections| ==> r[i] == Block(canon, sections[i])
  {
    seq(|sections|, i requires 0 <= i < |sections| => Block(canon, sections[i]))
  }

  /** What the first `n` sections of an ordered list have rendered to. */
  ghost function RenderedUpTo(canon: Canon, ordered: seq<Section>, n: nat): Result<string>
    requires n <= |ordered|
  {
    TextOf(Joined(Names(ordered), Blocks(canon, ordered), n))
  }

  /** The next section is an error, or adds its text. */
  lemma RenderNext(canon: Canon, ordered: seq<Section>, n: nat, out: string)
    requires n < |ordered| && RenderedUpTo(canon, ordered, n) == Ok(out)
    ensures var s, block := ordered[n], TextOf(Block(canon, ordered[n]));
            RenderedUpTo(canon, ordered, n + 1) ==
            if s.name == GlobalSection || s.name in Names(ordered)[..n] || block.Err? then Err else Ok(out + block.value)
  {
    var names, blocks := Names(ordered), Blocks(canon, ordered);
    if !(names[n] == GlobalSection || names[n] in names[..n] || blocks[n].Err?) {
      UnlinesConcat(Joined(names, blocks, n).value, blocks[n].value);
    }
  }

  /** One error is an error for the whole list. */
  lemma RenderFails(canon: Canon, ordered: seq<Section>, n: nat)
    requires n <= |ordered| && RenderedUpTo(canon, ordered, n).Err?
    ensures RenderedUpTo(canon, ordered, |ordered|).Err?
  {
    OneFailsAll(Names(ordered), Blocks(canon, ordered), n, |ordered|);
  }

  ghost predicate AreFirst<K(!new)>(seen: set<K>, keys: seq<K>, n: nat)
    requires n <= |keys|
  {
    forall k :: k in seen <==> k in keys[..n]
  }

  lemma OneMoreSeen<K(!new)>(seen: set<K>, keys: seq<K>, n: nat, key: K)
    requires n < |keys| && key == keys[n] && AreFirst(seen, keys, n)
    ensures AreFirst(seen + {key}, keys, n + 1)
  {
    assert keys[..n + 1] == keys[..n] + [keys[n]];
  }

  /** Where the loop over the ordered sections stands: the text so far and the names seen. */
  ghost predicate Rendering(canon: Canon, ordered: seq<Section>, n: nat, out: string, seen: set<string>)
    requires n <= |ordered|
  {
    AreFirst(seen, Names(ordered), n) && RenderedUpTo(canon, ordered, n) == Ok(out)
  }

  /** One section of the ordered list; None when it cannot be rendered there. */
  method AddStanza(canon: Canon, ordered: seq<Section>, n: nat, out: string, seen: set<string>)
    returns (r: Option<(string, set<string>)>)
    requires n < |ordered| && Rendering(canon, ordered, n, out, seen)
    ensures r.None? ==> RenderedUpTo(canon, ordered, |ordered|).Err?
    ensures r.Some? ==> Rendering(canon, ordered, n + 1, r.value.0, r.value.1)
  {
    var s := ordered[n];
    RenderNext(canon, ordered, n, out);
    if s.name == GlobalSection || s.name in seen {
      RenderFails(canon, ordered, n + 1);
      return None;
    }
    var block := RenderSection(canon, s);
    if block.Err? {
      RenderFails(canon, ordered, n + 1);
      return None;
    }
    OneMoreSeen(seen, Names(ordered), n, s.name);
    r := Some((out + block.value, seen + {s.name}));
  }

  method RenderOrdered(canon: Canon, ordered: seq<Section>) returns (r: Result<string>)
    ensures r == RenderedUpTo(canon, ordered, |ordered|)
  {
    var out, seen: set<string> := "", {};
    for i := 0 to |ordered|
      invariant Rendering(canon, ordered, i, out, seen)
    {
      var next := AddStanza(canon, ordered, i, out, seen);
      if next.None? {
        return Err;
      }
      out, seen := next.value.0, next.value.1;
    }
    r := Ok(out);
  }

  /** The defaults as [*], when there are any. */
  ghost function DefaultBlock(canon: Canon, defaults: Values): Result<seq<string>> {
    if defaults == map[] then Ok([]) else Block(canon, Section(GlobalSection, defaults))
  }

  ghost function SectionBlocks(canon: Canon, sections: seq<Section>): Result<seq<string>> {
    var sorted := SortByName(sections);
    Joined(Names(sorted), Blocks(canon, sorted), |sorted|)
  }

  /** The lines of the whole file. */
  ghost function RenderedLines(canon: Canon, header: seq<string>, defaults: Values, sections: seq<Section>)
    : Result<seq<string>>
  {
    var top, rest := DefaultBlock(canon, defaults), SectionBlocks(canon, sections);
    if top.Err? || rest.Err? then Err else Ok(header + top.value + rest.value)
  }

  method RenderDefaults(canon: Canon, defaults: Values) returns (r: Result<string>)
    ensures r == TextOf(DefaultBlock(canon, defaults))
  {
    if defaults == map[] {
      return Ok("");
    }
    r := RenderSection(canon, Section(GlobalSection, defaults));
  }

  lemma UnlinesThree(a: seq<string>, b: seq<string>, c: seq<string>)
    ensures Unlines(a + b + c) == Unlines(a) + Unlines(b) + Unlines(c)
  {
    UnlinesConcat(a, b);
    UnlinesConcat(a + b, c);
  }

  method RenderModelsINI(canon: Canon, header: seq<string>, defaults: Values, sections: seq<Section>)
    returns (r: Result<string>)
    ensures r == TextOf(RenderedLines(canon, header, defaults, sections))
  {
    var top := RenderDefaults(canon, defaults);
    if top.Err? {
      return Err;
    }
    var rest := RenderOrdered(canon, SortByName(sections));
    if rest.Err? {
      return Err;
    }
    UnlinesThree(header, DefaultBlock(canon, defaults).value, SectionBlocks(canon, sections).value);
    r := Ok(Unlines(header) + top.value + rest.value);
  }

  lemma GlobalNameIsValid()
    ensures ValidName(GlobalSection) && Trim(GlobalSection) == GlobalSection
  {
    TrimIsTrimmed("*");
  }

  lemma {:induction false} InsertHolds(s: Section, ordered: seq<Section>)
    ensures forall x :: x in InsertByName(s, ordered) <==> x == s || x in ordered
    ensures |InsertByName(s, ordered)| == |ordered| + 1
  {
    if ordered != [] && !Leq(s.name, ordered[0].name) {
      InsertHolds(s, ordered[1..]);
      assert forall x :: x in ordered <==> x == ordered[0] || x in ordered[1..];
    }
  }

  lemma {:induction false} SortHolds(sections: seq<Section>)
    ensures forall s :: s in SortByName(sections) <==> s in sections
    ensures |SortByName(sections)| == |sections|
  {
    if sections != [] {
      SortHolds(sections[1..]);
      InsertHolds(sections[0], SortByName(sections[1..]));
      assert forall x :: x in sections <==> x == sections[0] || x in sections[1..];
    }
  }

  // ------------------------------------------------------------------
  // When rendering succeeds
  // ------------------------------------------------------------------

  ghost predicate Apart<K(!new)>(keys: seq<K>) {
    forall i, j :: 0 <= i < j < |keys| ==> keys[i] != keys[j]
  }

  lemma ApartCons<K(!new)>(k: K, rest: seq<K>)
    ensures Apart([k] + rest) <==> Apart(rest) && k !in rest
  {
    var all := [k] + rest;
    if Apart(all) {
      forall i, j | 0 <= i < j < |rest| ensures rest[i] != rest[j] {
        assert all[i + 1] != all[j + 1];
      }
      forall i | 0 <= i < |rest| ensures rest[i] != k {
        assert all[0] != all[i + 1];
      }
    }
  }

  lemma NamesCons(s: Section, rest: seq<Section>)
    ensures Names([s] + rest) == [s.name] + Names(rest)
  {
  }

  lemma {:induction false} InsertApart(s: Section, ordered: seq<Section>)
    ensures Apart(Names(InsertByName(s, ordered))) <==> Apart(Names(ordered)) && s.name !in Names(ordered)
    ensures forall n :: n in Names(InsertByName(s, ordered)) <==> n == s.name || n in Names(ordered)
  {
    if ordered == [] || Leq(s.name, ordered[0].name) {
      NamesCons(s, ordered);
      ApartCons(s.name, Names(ordered));
    } else {
      var head, rest := ordered[0], ordered[1..];
      InsertApart(s, rest);
      assert ordered == [head] + rest;
      NamesCons(head, rest);
      NamesCons(head, InsertByName(s, rest));
      ApartCons(head.name, Names(rest));
      ApartCons(head.name, Names(InsertByName(s, rest)));
    }
  }

  lemma {:induction false} SortApart(sections: seq<Section>)
    ensures Apart(Names(SortByName(sections))) <==> Apart(Names(sections))
    ensures forall n :: n in Names(SortByName(sections)) <==> n in Names(sections)
  {
    if sections != [] {
      var head, rest := sections[0], sections[1..];
      SortApart(rest);
      InsertApart(head, SortByName(rest));
      assert sections == [head] + rest;
      NamesCons(head, rest);
      ApartCons(head.name, Names(rest));
    }
  }

  lemma {:induction false} JoinedNeeds(names: seq<string>, blocks: seq<Result<seq<string>>>, n: nat)
    requires n <= |names| == |blocks|
    ensures Joined(names, blocks, n).Ok? <==>
            && (forall i :: 0 <= i < n ==> blocks[i].Ok? && names[i] != GlobalSection)
            && (forall i, j :: 0 <= i < j < n ==> names[i] != names[j])
    decreases n
  {
    if n > 0 {
      JoinedNeeds(names, blocks, n - 1);
      assert names[n - 1] in names[..n - 1] <==> exists i :: 0 <= i < n - 1 && names[i] == names[n - 1];
    }
  }

  ghost predicate Writable(canon: Canon, s: Section) {
    SectionRenders(canon, s) && s.name != GlobalSection
  }

  lemma BlockRendersIff(canon: Canon, sorted: seq<Section>, i: nat)
    requires i < |sorted|
    ensures Blocks(canon, sorted)[i].Ok? && Names(sorted)[i] != GlobalSection <==> Writable(canon, sorted[i])
  {
  }

  lemma AllWritable(canon: Canon, sections: seq<Section>, sorted: seq<Section>)
    requires forall s :: s in sorted <==> s in sections
    ensures (forall i :: 0 <= i < |sorted| ==> Writable(canon, sorted[i])) <==> forall s :: s in sections ==> Writable(canon, s)
  {
    if forall i :: 0 <= i < |sorted| ==> Writable(canon, sorted[i]) {
      forall s | s in sections ensures Writable(canon, s) {
        assert s in sorted;
      }
    }
    assert forall i :: 0 <= i < |sorted| ==> sorted[i] in sections;
  }

  lemma SectionsRenderIff(canon: Canon, sections: seq<Section>)
    ensures SectionBlocks(canon, sections).Ok? <==>
            (forall s :: s in sections ==> Writable(canon, s)) && Apart(Names(sections))
  {
    var sorted := SortByName(sections);
    SortHolds(sections);
    SortApart(sections);
    JoinedNeeds(Names(sorted), Blocks(canon, sorted), |sorted|);
    forall i | 0 <= i < |sorted|
      ensures Blocks(canon, sorted)[i].Ok? && Names(sorted)[i] != GlobalSection <==> Writable(canon, sorted[i])
    {
      BlockRendersIff(canon, sorted, i);
    }
    AllWritable(canon, sections, sorted);
  }

  /**
   Rendering fails exactly when the defaults or a section hold a key or value
   that cannot be written, a section name is invalid or the global one, or two
   sections share a name; the order of the list does not matter.
   */
  lemma RendersIff(canon: Canon, header: seq<string>, defaults: Values, sections: seq<Section>)
    ensures RenderedLines(canon, header, defaults, sections).Ok? <==>
            && Canonicalizable(canon, defaults)
            && (forall s :: s in sections ==> Writable(canon, s))
            && Apart(Names(sections))
  {
    GlobalNameIsValid();
    SectionsRenderIff(canon, sections);
  }

  // ------------------------------------------------------------------
  // The order of the list does not matter
  // ------------------------------------------------------------------

  ghost predicate InNameOrder(ordered: seq<Section>) {
    forall i, j :: 0 <= i < j < |ordered| ==> Leq(ordered[i].name, ordered[j].name)
  }

  lemma {:induction false} InsertKeepsOrder(s: Section, ordered: seq<Section>)
    requires InNameOrder(ordered)
    ensures InNameOrder(InsertByName(s, ordered))
  {
    if ordered != [] {
      LeqIsTotal(s.name, ordered[0].name);
      if Leq(s.name, ordered[0].name) {
        forall j | 0 <= j < |ordered| ensures Leq(s.name, ordered[j].name) {
          if j > 0 {
            LeqIsTransitive(s.name, ordered[0].name, ordered[j].name);
          }
        }
      } else {
        InsertKeepsOrder(s, ordered[1..]);
        InsertHolds(s, ordered[1..]);
        var rest := InsertByName(s, ordered[1..]);
        forall j | 0 <= j < |rest| ensures Leq(ordered[0].name, rest[j].name) {
          assert rest[j] in rest;
        }
      }
    }
  }

  lemma {:induction false} SortSorts(sections: seq<Section>)
    ensures InNameOrder(SortByName(sections))
  {
    if sections != [] {
      SortSorts(sections[1..]);
      InsertKeepsOrder(sections[0], SortByName(sections[1..]));
    }
  }

  lemma NamesAscend(sections: seq<Section>)
    requires Apart(Names(sections))
    ensures Ascending(Names(SortByName(sections)))
  {
    SortApart(sections);
    SortSorts(sections);
  }

  lemma OneSectionPerName(sections: seq<Section>, s: Section, t: Section)
    requires Apart(Names(sections)) && s in sections && t in sections && s.name == t.name
    ensures s == t
  {
    var i :| 0 <= i < |sections| && sections[i] == s;
    var j :| 0 <= j < |sections| && sections[j] == t;
    assert Names(sections)[i] == Names(sections)[j];
  }

  lemma NamesOfTheSame(sections: seq<Section>, other: seq<Section>, name: string)
    requires forall s :: s in sections ==> s in other
    requires name in Names(sections)
    ensures name in Names(other)
  {
    var i :| 0 <= i < |sections| && Names(sections)[i] == name;
    assert sections[i] in other;
    var j :| 0 <= j < |other| && other[j] == sections[i];
    assert Names(other)[j] == name;
  }

  /** The same sections, each with its own name, have one order. */
  lemma SortIsUnique(sections: seq<Section>, other: seq<Section>)
    requires Apart(Names(sections)) && Apart(Names(other)) && forall s :: s in sections <==> s in other
    ensures SortByName(sections) == SortByName(other)
  {
    var a, b := SortByName(sections), SortByName(other);
    NamesAscend(sections);
    NamesAscend(other);
    SortHolds(sections);
    SortHolds(other);
    forall n ensures n in Names(a) <==> n in Names(b) {
      if n in Names(a) {
        NamesOfTheSame(a, b, n);
      }
      if n in Names(b) {
        NamesOfTheSame(b, a, n);
      }
    }
    AscendingIsUnique(Names(a), Names(b));
    assert |Names(a)| == |a| && |Names(b)| == |b|;
    forall i | 0 <= i < |a| ensures a[i] == b[i] {
      assert a[i] in a && b[i] in b && Names(a)[i] == Names(b)[i];
      OneSectionPerName(sections, a[i], b[i]);
    }
  }

  /** The file is the same whatever order the sections come in. */
  lemma RenderingIgnoresOrder(canon: Canon, header: seq<string>, defaults: Values, sections: seq<Section>, other: seq<Section>)
    requires Apart(Names(sections)) && Apart(Names(other)) && forall s :: s in sections <==> s in other
    ensures RenderedLines(canon, header, defaults, sections) == RenderedLines(canon, header, defaults, other)
  {
    SortIsUnique(sections, other);
  }
}
