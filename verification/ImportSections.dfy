/**
 The import of a whole models.ini: every stored profile's own section goes
 through the three-way merge, and the profiles that took an edit are rewritten.
 */
module ImportSections {
  import opened Wrappers
  import opened Text
  import opened Rekey
  import opened ModelKeys
  import opened ModelsIni
  import opened ImportMerge
  import opened Scalars

  /** A stored profile: `ours` when its backend is llama.cpp; the effective form renders, the parsed one is edited. */
  datatype Document = Document(name: string, ours: bool, effective: Profile, parsed: Profile, yaml: string)

  datatype Import = Imported(adopt: map<string, string>, conflicts: seq<string>) | Failed | Panicked

  /** What becomes of one document: a text when an edit was adopted, and the keys that clash. */
  datatype Verdict = Skip | Fail | Panic | Merge(text: Option<string>, clashes: seq<string>)

  /** What an import runs under; `rewrite` writes a merged profile over its YAML. */
  datatype Importer = Importer(canon: Canon, path: string -> string, probe: Probe, rewrite: (string, Profile) -> Result<string>,
                               edited: map<string, Values>, base: map<string, Values>)
  {
    predicate InPlay(doc: Document) { doc.ours && doc.name in edited }

    ghost predicate Renders(doc: Document) {
      ValidName(doc.effective.name) && Rekeys(doc.effective.args, canon, ScalarString)
    }

    /** A section missing from the baseline is compared as an empty one. */
    function SidesOf(doc: Document, want: Values): Sides
      requires doc.name in edited
    {
      Sides(if doc.name in base then base[doc.name] else map[], edited[doc.name], want)
    }

    /** Copying edits into the nil map of a section the baseline lacks. */
    predicate Panics(doc: Document)
      requires doc.name in edited
    {
      doc.name !in base && edited[doc.name] != map[]
    }
  }

  ghost predicate MergesTo(im: Importer, doc: Document, sides: Sides, merged: Profile) {
    MergedOn(im.probe, sides, doc.parsed, merged, sides.base.Keys + sides.edited.Keys)
  }

  ghost predicate IsMerge(im: Importer, doc: Document, sides: Sides, v: Verdict) {
    || (v.Fail? && (exists k :: sides.Adopts(k)) && exists p :: MergesTo(im, doc, sides, p) && im.rewrite(doc.yaml, p).Err?)
    || (v.Merge? && Ascending(v.clashes) && (forall k :: k in v.clashes <==> sides.Conflicts(k)) && (
          || (v.text.None? && forall k :: !sides.Adopts(k))
          || (v.text.Some? && (exists k :: sides.Adopts(k)) &&
              exists p :: MergesTo(im, doc, sides, p) && im.rewrite(doc.yaml, p) == Ok(v.text.value))))
  }

  ghost predicate Judged(im: Importer, doc: Document, v: Verdict) {
    if !im.InPlay(doc) then v.Skip?
    else if !im.Renders(doc) then v.Fail?
    else if im.edited[doc.name] == Stanza(im.canon, im.path, doc.effective) then v.Skip?
    else if im.Panics(doc) then v.Panic?
    else IsMerge(im, doc, im.SidesOf(doc, Stanza(im.canon, im.path, doc.effective)), v)
  }

  /** The merge of a section is determined by its three sides. */
  lemma MergeIsUnique(probe: Probe, sides: Sides, parsed: Profile, one: Profile, other: Profile, done: set<string>)
    requires MergedOn(probe, sides, parsed, one, done) && MergedOn(probe, sides, parsed, other, done)
    ensures one == other
  {
    forall k ensures Get(one.args, k) == Get(other.args, k) {
    }
    assert forall k :: k in one.args ==> Get(other.args, k) == Some(one.args[k]);
    assert forall k :: k in other.args ==> Get(one.args, k) == Some(other.args[k]);
    assert one.args == other.args;
  }

  /** The verdict on a document leaves nothing open. */
  lemma VerdictIsUnique(im: Importer, doc: Document, v: Verdict, w: Verdict)
    requires Judged(im, doc, v) && Judged(im, doc, w)
    ensures v == w
  {
    if im.InPlay(doc) && im.Renders(doc) && im.edited[doc.name] != Stanza(im.canon, im.path, doc.effective) && !im.Panics(doc) {
      MergeVerdictIsUnique(im, doc, im.SidesOf(doc, Stanza(im.canon, im.path, doc.effective)), v, w);
    }
  }

  lemma MergeVerdictIsUnique(im: Importer, doc: Document, sides: Sides, v: Verdict, w: Verdict)
    requires IsMerge(im, doc, sides, v) && IsMerge(im, doc, sides, w)
    ensures v == w
  {
    forall p, q | MergesTo(im, doc, sides, p) && MergesTo(im, doc, sides, q) ensures p == q {
      MergeIsUnique(im.probe, sides, doc.parsed, p, q, sides.base.Keys + sides.edited.Keys);
    }
    if v.Merge? && w.Merge? {
      AscendingIsUnique(v.clashes, w.clashes);
    }
  }

  /** Only a profile of this backend that the file has a section for is looked at, and one that says what it renders is left alone. */
  lemma OnlyItsOwnSectionsCount(im: Importer, doc: Document, v: Verdict)
    requires Judged(im, doc, v)
    ensures !v.Skip? ==> doc.ours && doc.name in im.edited
    ensures doc.ours && doc.name in im.edited && im.Renders(doc) ==>
            (v.Skip? <==> im.edited[doc.name] == Stanza(im.canon, im.path, doc.effective))
  {
  }

  /** A section is compared with its own baseline, an absent one counting as empty: a key clashes if the file and the profile both left it. */
  lemma ClashesAre(im: Importer, doc: Document, v: Verdict, k: string)
    requires Judged(im, doc, v) && v.Merge?
    ensures im.InPlay(doc) && im.Renders(doc)
    ensures var base := if doc.name in im.base then Get(im.base[doc.name], k) else None;
            k in v.clashes <==> Get(im.edited[doc.name], k) != base && Get(Stanza(im.canon, im.path, doc.effective), k) != base
    ensures v.text.None? <==> forall j :: !im.SidesOf(doc, Stanza(im.canon, im.path, doc.effective)).Adopts(j)
  {
  }

  // ------------------------------------------------------------------
  // The loop over the documents
  // ------------------------------------------------------------------

  method ImportDocument(im: Importer, doc: Document) returns (v: Verdict)
    ensures Judged(im, doc, v)
  {
    if !doc.ours || doc.name !in im.edited {
      return Skip;
    }
    var want := ProfileSection(im.canon, im.path, doc.effective);
    if want.Err? {
      return Fail;
    }
    if im.edited[doc.name] == want.value {
      return Skip;
    }
    if im.Panics(doc) {
      return Panic;
    }
    v := MergeDocument(im, doc, im.SidesOf(doc, want.value));
  }

  method MergeDocument(im: Importer, doc: Document, sides: Sides) returns (v: Verdict)
    ensures IsMerge(im, doc, sides, v)
  {
    var merged, adopted, clashes := MergeSection(im.probe, sides, doc.parsed);
    if !adopted {
      return Merge(None, clashes);
    }
    assert MergesTo(im, doc, sides, merged);
    var text := im.rewrite(doc.yaml, merged);
    v := if text.Err? then Fail else Merge(Some(text.value), clashes);
  }

  function Prefixed(name: string, keys: seq<string>): seq<string> {
    seq(|keys|, i requires 0 <= i < |keys| => name + "." + keys[i])
  }

  /** The rewritten profiles of the first `n` documents; of two with one name the later one counts. */
  function Adoptions(docs: seq<Document>, verdicts: seq<Verdict>, n: nat): map<string, string>
    requires n <= |docs| && n <= |verdicts|
  {
    if n == 0 then map[]
    else if verdicts[n - 1].Merge? && verdicts[n - 1].text.Some?
    then Adoptions(docs, verdicts, n - 1)[docs[n - 1].name := verdicts[n - 1].text.value]
    else Adoptions(docs, verdicts, n - 1)
  }

  function Reports(docs: seq<Document>, verdicts: seq<Verdict>, n: nat): seq<string>
    requires n <= |docs| && n <= |verdicts|
  {
    if n == 0 then []
    else if verdicts[n - 1].Merge? then Reports(docs, verdicts, n - 1) + Prefixed(docs[n - 1].name, verdicts[n - 1].clashes)
    else Reports(docs, verdicts, n - 1)
  }

  ghost predicate AllJudged(im: Importer, docs: seq<Document>, verdicts: seq<Verdict>)
    requires |verdicts| <= |docs|
  {
    forall i :: 0 <= i < |verdicts| ==> Judged(im, docs[i], verdicts[i])
  }

  predicate Goes(v: Verdict) { v.Skip? || v.Merge? }

  /** Where the loop stands: every document so far went through. */
  ghost predicate Gathered(im: Importer, docs: seq<Document>, verdicts: seq<Verdict>, adopt: map<string, string>, conflicts: seq<string>) {
    && |verdicts| <= |docs| && AllJudged(im, docs, verdicts) && Tallied(docs, verdicts, adopt, conflicts)
  }

  ghost predicate Tallied(docs: seq<Document>, verdicts: seq<Verdict>, adopt: map<string, string>, conflicts: seq<string>)
    requires |verdicts| <= |docs|
  {
    && (forall i :: 0 <= i < |verdicts| ==> Goes(verdicts[i]))
    && adopt == Adoptions(docs, verdicts, |verdicts|)
    && conflicts == Reports(docs, verdicts, |verdicts|)
  }

  /** The loop stopped at the first document that did not go through. */
  ghost predicate StoppedAt(im: Importer, docs: seq<Document>, verdicts: seq<Verdict>, v: Verdict) {
    && 0 < |verdicts| <= |docs| && AllJudged(im, docs, verdicts)
    && verdicts[|verdicts| - 1] == v && !Goes(v)
    && forall i :: 0 <= i < |verdicts| - 1 ==> Goes(verdicts[i])
  }

  /** The verdicts on the documents, in order, are the reason for the result. */
  ghost predicate Explains(im: Importer, docs: seq<Document>, verdicts: seq<Verdict>, r: Import) {
    match r
    case Imported(adopt, conflicts) => |verdicts| == |docs| && Gathered(im, docs, verdicts, adopt, conflicts)
    case Failed => StoppedAt(im, docs, verdicts, Fail)
    case Panicked => StoppedAt(im, docs, verdicts, Panic)
  }

  method ImportSections(im: Importer, docs: seq<Document>) returns (r: Import)
    ensures exists verdicts :: Explains(im, docs, verdicts, r)
  {
    var adopt: map<string, string>, conflicts: seq<string> := map[], [];
    ghost var verdicts: seq<Verdict> := [];
    for n := 0 to |docs|
      invariant |verdicts| == n && Gathered(im, docs, verdicts, adopt, conflicts)
    {
      var v := ImportDocument(im, docs[n]);
      OneMoreGathered(im, docs, verdicts, adopt, conflicts, v);
      verdicts := verdicts + [v];
      if v.Panic? {
        return Panicked;
      }
      if v.Fail? {
        return Failed;
      }
      if v.Merge? {
        conflicts := conflicts + Prefixed(docs[n].name, v.clashes);
        if v.text.Some? {
          adopt := adopt[docs[n].name := v.text.value];
        }
      }
    }
    r := Imported(adopt, conflicts);
    assert Explains(im, docs, verdicts, r);
  }

  /** One more document stops the loop, or is gathered. */
  lemma OneMoreGathered(im: Importer, docs: seq<Document>, verdicts: seq<Verdict>, adopt: map<string, string>,
                        conflicts: seq<string>, v: Verdict)
    requires |verdicts| < |docs| && Gathered(im, docs, verdicts, adopt, conflicts) && Judged(im, docs[|verdicts|], v)
    ensures v.Panic? ==> Explains(im, docs, verdicts + [v], Panicked)
    ensures v.Fail? ==> Explains(im, docs, verdicts + [v], Failed)
    ensures v.Skip? ==> Gathered(im, docs, verdicts + [v], adopt, conflicts)
    ensures v.Merge? ==>
            var name := docs[|verdicts|].name;
            Gathered(im, docs, verdicts + [v], if v.text.Some? then adopt[name := v.text.value] else adopt,
                     conflicts + Prefixed(name, v.clashes))
  {
    OneMoreJudged(im, docs, verdicts, v);
    OneMoreTallied(docs, verdicts, adopt, conflicts, v);
  }

  lemma {:induction false} PrefixOfVerdicts(im: Importer, docs: seq<Document>, one: seq<Verdict>, other: seq<Verdict>, i: nat)
    requires |one| <= |docs| && |other| <= |docs| && AllJudged(im, docs, one) && AllJudged(im, docs, other)
    requires i < |one| && i < |other|
    ensures one[i] == other[i]
  {
    VerdictIsUnique(im, docs[i], one[i], other[i]);
  }

  /** An import has one result: the documents and the three sides leave nothing to chance. */
  lemma ImportIsDetermined(im: Importer, docs: seq<Document>, one: seq<Verdict>, other: seq<Verdict>, r: Import, s: Import)
    requires Explains(im, docs, one, r) && Explains(im, docs, other, s)
    ensures r == s
  {
    forall i | 0 <= i < |one| && i < |other| ensures one[i] == other[i] {
      PrefixOfVerdicts(im, docs, one, other, i);
    }
    assert |one| == |other|;
    assert one == other;
  }

  lemma OneMoreJudged(im: Importer, docs: seq<Document>, verdicts: seq<Verdict>, v: Verdict)
    requires |verdicts| < |docs| && AllJudged(im, docs, verdicts) && Judged(im, docs[|verdicts|], v)
    ensures AllJudged(im, docs, verdicts + [v])
  {
    var all := verdicts + [v];
    forall i | 0 <= i < |all| ensures Judged(im, docs[i], all[i]) {
      assert i < |verdicts| ==> all[i] == verdicts[i];
    }
  }

  lemma OneMoreTallied(docs: seq<Document>, verdicts: seq<Verdict>, adopt: map<string, string>, conflicts: seq<string>, v: Verdict)
    requires |verdicts| < |docs| && Tallied(docs, verdicts, adopt, conflicts)
    ensures var name := docs[|verdicts|].name;
            match v
            case Skip => Tallied(docs, verdicts + [v], adopt, conflicts)
            case Merge(None, clashes) => Tallied(docs, verdicts + [v], adopt, conflicts + Prefixed(name, clashes))
            case Merge(Some(text), clashes) =>
              Tallied(docs, verdicts + [v], adopt[name := text], conflicts + Prefixed(name, clashes))
            case _ => forall i :: 0 <= i < |verdicts| ==> Goes((verdicts + [v])[i])
  {
    OneMoreVerdict(docs, verdicts, v, |verdicts|);
  }

  lemma {:induction false} OneMoreVerdict(docs: seq<Document>, verdicts: seq<Verdict>, v: Verdict, n: nat)
    requires n <= |docs| && n <= |verdicts|
    ensures Adoptions(docs, verdicts + [v], n) == Adoptions(docs, verdicts, n)
    ensures Reports(docs, verdicts + [v], n) == Reports(docs, verdicts, n)
    decreases n
  {
    if n > 0 {
      OneMoreVerdict(docs, verdicts, v, n - 1);
    }
  }

  /** Exactly the profiles that took an edit are rewritten. */
  lemma {:induction false} AdoptionsAre(docs: seq<Document>, verdicts: seq<Verdict>, n: nat, name: string)
    requires n <= |docs| && n <= |verdicts|
    ensures name in Adoptions(docs, verdicts, n) <==>
            exists i :: 0 <= i < n && docs[i].name == name && verdicts[i].Merge? && verdicts[i].text.Some?
    decreases n
  {
    if n > 0 {
      AdoptionsAre(docs, verdicts, n - 1, name);
    }
  }

  /** The conflicts reported are exactly the keys that clash, each behind the name of its profile. */
  lemma {:induction false} ReportsAre(docs: seq<Document>, verdicts: seq<Verdict>, n: nat, report: string)
    requires n <= |docs| && n <= |verdicts|
    ensures report in Reports(docs, verdicts, n) <==>
            exists i, k :: 0 <= i < n && verdicts[i].Merge? && k in verdicts[i].clashes && report == docs[i].name + "." + k
    decreases n
  {
    if n > 0 {
      ReportsAre(docs, verdicts, n - 1, report);
      if verdicts[n - 1].Merge? {
        var name, clashes := docs[n - 1].name, verdicts[n - 1].clashes;
        var mine := Prefixed(name, clashes);
        forall k | k in clashes ensures name + "." + k in mine {
          var j :| 0 <= j < |clashes| && clashes[j] == k;
          assert mine[j] == name + "." + k;
        }
      }
    }
  }

  /** Documents with distinct names each get their own text. */
  lemma {:induction false} EachKeepsItsOwnText(docs: seq<Document>, verdicts: seq<Verdict>, n: nat, i: nat)
    requires i < n <= |docs| && n <= |verdicts| && verdicts[i].Merge? && verdicts[i].text.Some?
    requires forall j :: i < j < n ==> docs[j].name != docs[i].name
    ensures docs[i].name in Adoptions(docs, verdicts, n)
    ensures Adoptions(docs, verdicts, n)[docs[i].name] == verdicts[i].text.value
    decreases n
  {
    if i < n - 1 {
      EachKeepsItsOwnText(docs, verdicts, n - 1, i);
    }
  }

  /** An edited section that the baseline does not have. */
  lemma AMissingBaselinePanics(im: Importer, doc: Document)
    requires im.InPlay(doc) && im.Renders(doc) && doc.name !in im.base
    requires im.edited[doc.name] != map[] && im.edited[doc.name] != Stanza(im.canon, im.path, doc.effective)
    ensures Explains(im, [doc], [Panic], Panicked)
  {
  }

  /** One such file: a profile that renders nothing, with one key written by hand. */
  lemma AKeyByHandPanics(canon: Canon, path: string -> string, probe: Probe, rewrite: (string, Profile) -> Result<string>,
                         name: string, key: string, value: string)
    requires ValidName(name)
    ensures var p := Profile(name, "", map[]);
            var im := Importer(canon, path, probe, rewrite, map[name := map[key := value]], map[]);
            Explains(im, [Document(name, true, p, p, "")], [Panic], Panicked)
  {
    var p := Profile(name, "", map[]);
    var im := Importer(canon, path, probe, rewrite, map[name := map[key := value]], map[]);
    RekeyedIs(p.args, canon, ScalarString, map[]);
    assert Stanza(canon, path, p) == map[];
    assert key in im.edited[name];
    AMissingBaselinePanics(im, Document(name, true, p, p, ""));
  }
}
