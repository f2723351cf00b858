/**
 Carrying manual models.ini edits back into a profile: a three-way merge, key by
 key, of the baseline that was last written, the file as it stands, and what the
 profile would render now.

 The YAML probe of a scalar (`probe`), the key canonicaliser (`canon`) and the
 path a model source resolves to (`path`) are parameters.
 */
module ImportMerge {
  import opened Wrappers
  import opened Text
  import opened Rekey
  import opened ModelKeys
  import opened ModelsIni
  import opened Scalars

  // ------------------------------------------------------------------
  // Profiles and their sections
  // ------------------------------------------------------------------

  /** The fields of a profile the merge can reach; a missing engine_args is an empty map. */
  datatype Profile = Profile(name: string, source: string, args: map<string, Scalar>)

  const ModelKey := "model"

  function Get<V>(m: map<string, V>, k: string): Option<V> {
    if k in m then Some(m[k]) else None
  }

  /** The stanza of a profile: its engine_args, then `model` from the source when there is one. */
  ghost function Stanza(canon: Canon, path: string -> string, p: Profile): Values
    requires Rekeys(p.args, canon, ScalarString)
  {
    WithModel(Rekeyed(p.args, canon, ScalarString), path, p.source)
  }

  ghost predicate IsSection(canon: Canon, path: string -> string, p: Profile, values: Values) {
    Rekeys(p.args, canon, ScalarString) && values == Stanza(canon, path, p)
  }

  function WithModel(values: Values, path: string -> string, source: string): Values {
    if source == "" then values else values[ModelKey := path(source)]
  }

  method ProfileSection(canon: Canon, path: string -> string, p: Profile) returns (r: Result<Values>)
    ensures r.Ok? <==> ValidName(p.name) && Rekeys(p.args, canon, ScalarString)
    ensures r.Ok? ==> IsSection(canon, path, p, r.value)
  {
    if !ValidName(p.name) {
      return Err;
    }
    var values := RekeyMap(p.args, canon, ScalarString);
    if values.Err? {
      return Err;
    }
    r := Ok(WithModel(values.value, path, p.source));
  }

  // ------------------------------------------------------------------
  // The merge
  // ------------------------------------------------------------------

  /** The three sides of one section. */
  datatype Sides = Sides(base: Values, edited: Values, want: Values) {
    /** The file no longer says what was written. */
    predicate Touched(k: string) { Get(edited, k) != Get(base, k) }

    /** The profile no longer renders what was written. */
    predicate Moved(k: string) { Get(want, k) != Get(base, k) }

    predicate Adopts(k: string) { Touched(k) && !Moved(k) }

    predicate Conflicts(k: string) { Touched(k) && Moved(k) }
  }

  function Adopt(probe: Probe, p: Profile, key: string, value: Option<string>): Profile {
    if key == ModelKey then p.(source := if value.Some? then value.value else "")
    else if value.None? then p.(args := p.args - {key})
    else p.(args := p.args[key := ScalarValue(probe, value.value)])
  }

  /** `merged` differs from `parsed` exactly by the edits of the keys in `done` that are adopted. */
  ghost predicate MergedOn(probe: Probe, sides: Sides, parsed: Profile, merged: Profile, done: set<string>) {
    && merged.name == parsed.name
    && merged.source == (if ModelKey in done && sides.Adopts(ModelKey)
                         then (if ModelKey in sides.edited then sides.edited[ModelKey] else "")
                         else parsed.source)
    && (forall k :: k != ModelKey && k in done && sides.Adopts(k) ==>
          Get(merged.args, k) == if k in sides.edited then Some(ScalarValue(probe, sides.edited[k])) else None)
    && (forall k :: k == ModelKey || k !in done || !sides.Adopts(k) ==> Get(merged.args, k) == Get(parsed.args, k))
  }

  /** One key of the walk keeps the profile exact on the keys walked so far. */
  lemma MergeOne(probe: Probe, sides: Sides, parsed: Profile, merged: Profile, done: set<string>, k: string)
    requires MergedOn(probe, sides, parsed, merged, done) && k !in done
    ensures MergedOn(probe, sides, parsed,
                     if sides.Adopts(k) then Adopt(probe, merged, k, Get(sides.edited, k)) else merged, done + {k})
  {
  }

  /** Those of the first `n` keys that `which` selects, in order. */
  function Selected<K>(keys: seq<K>, n: nat, which: K -> bool): seq<K>
    requires n <= |keys|
  {
    if n == 0 then []
    else if which(keys[n - 1]) then Selected(keys, n - 1, which) + [keys[n - 1]]
    else Selected(keys, n - 1, which)
  }

  lemma {:induction false} SelectedIs<K(!new)>(keys: seq<K>, n: nat, which: K -> bool)
    requires n <= |keys|
    ensures forall k :: k in Selected(keys, n, which) <==> k in keys[..n] && which(k)
    decreases n
  {
    if n > 0 {
      SelectedIs(keys, n - 1, which);
      assert keys[..n] == keys[..n - 1] + [keys[n - 1]];
    }
  }

  lemma {:induction false} SelectedAscends(keys: seq<string>, n: nat, which: string -> bool)
    requires n <= |keys| && Ascending(keys)
    ensures Ascending(Selected(keys, n, which))
    decreases n
  {
    if n > 0 {
      SelectedAscends(keys, n - 1, which);
      SelectedIs(keys, n - 1, which);
      var before := Selected(keys, n - 1, which);
      forall i | 0 <= i < |before| ensures Leq(before[i], keys[n - 1]) && before[i] != keys[n - 1] {
        assert before[i] in keys[..n - 1];
        var j :| 0 <= j < n - 1 && keys[j] == before[i];
      }
    }
  }

  lemma {:induction false} FirstKeysGrow<K(!new)>(keys: seq<K>, n: nat)
    requires n < |keys|
    ensures FirstKeys(keys, n + 1) == FirstKeys(keys, n) + {keys[n]}
    ensures (forall i, j :: 0 <= i < j < |keys| ==> keys[i] != keys[j]) ==> keys[n] !in FirstKeys(keys, n)
  {
    assert keys[..n + 1] == keys[..n] + [keys[n]];
  }

  ghost function FirstKeys<K(!new)>(keys: seq<K>, n: nat): set<K>
    requires n <= |keys|
  {
    set k | k in keys[..n]
  }

  /** Where the walk stands after the first `n` keys of `union`. */
  ghost predicate Walked(probe: Probe, sides: Sides, parsed: Profile, union: seq<string>, n: nat,
                         merged: Profile, adopted: bool, conflicts: seq<string>)
    requires n <= |union|
  {
    && MergedOn(probe, sides, parsed, merged, FirstKeys(union, n))
    && (adopted <==> Selected(union, n, k => sides.Adopts(k)) != [])
    && conflicts == Selected(union, n, k => sides.Conflicts(k))
  }

  lemma WalkOn(probe: Probe, sides: Sides, parsed: Profile, union: seq<string>, n: nat,
               merged: Profile, adopted: bool, conflicts: seq<string>)
    requires n < |union| && Ascending(union)
    requires Walked(probe, sides, parsed, union, n, merged, adopted, conflicts)
    ensures var k := union[n];
            if !sides.Touched(k) then Walked(probe, sides, parsed, union, n + 1, merged, adopted, conflicts)
            else if sides.Moved(k) then Walked(probe, sides, parsed, union, n + 1, merged, adopted, conflicts + [k])
            else Walked(probe, sides, parsed, union, n + 1, Adopt(probe, merged, k, Get(sides.edited, k)), true, conflicts)
  {
    FirstKeysGrow(union, n);
    MergeOne(probe, sides, parsed, merged, FirstKeys(union, n), union[n]);
  }

  method MergeSection(probe: Probe, sides: Sides, parsed: Profile)
    returns (merged: Profile, adopted: bool, conflicts: seq<string>)
    ensures MergedOn(probe, sides, parsed, merged, sides.base.Keys + sides.edited.Keys)
    ensures adopted <==> exists k :: sides.Adopts(k)
    ensures forall k :: k in conflicts <==> sides.Conflicts(k)
    ensures Ascending(conflicts)
  {
    merged, adopted, conflicts := parsed, false, [];
    var union := SortedKeys(sides.base.Keys + sides.edited.Keys);
    SortedKeysSort(sides.base.Keys + sides.edited.Keys);
    for i := 0 to |union|
      invariant Walked(probe, sides, parsed, union, i, merged, adopted, conflicts)
    {
      var key := union[i];
      WalkOn(probe, sides, parsed, union, i, merged, adopted, conflicts);
      if !sides.Touched(key) {
        continue;
      }
      if sides.Moved(key) {
        conflicts := conflicts + [key];
        continue;
      }
      merged, adopted := Adopt(probe, merged, key, Get(sides.edited, key)), true;
    }
    MergeCoversEveryKey(sides, union);
  }

  /** A key neither side of the file names was not touched, so the walk over the union sees them all. */
  lemma MergeCoversEveryKey(sides: Sides, union: seq<string>)
    requires Ascending(union) && forall k :: k in union <==> k in sides.base.Keys + sides.edited.Keys
    ensures FirstKeys(union, |union|) == sides.base.Keys + sides.edited.Keys
    ensures Selected(union, |union|, k => sides.Adopts(k)) != [] <==> exists k :: sides.Adopts(k)
    ensures forall k :: k in Selected(union, |union|, k => sides.Conflicts(k)) <==> sides.Conflicts(k)
    ensures Ascending(Selected(union, |union|, k => sides.Conflicts(k)))
  {
    assert union[..|union|] == union;
    SelectedIs(union, |union|, k => sides.Adopts(k));
    SelectedIs(union, |union|, k => sides.Conflicts(k));
    SelectedAscends(union, |union|, k => sides.Conflicts(k));
    assert forall k :: sides.Touched(k) ==> k in union;
    var adopts := Selected(union, |union|, k => sides.Adopts(k));
    if adopts != [] {
      assert adopts[0] in adopts;
    }
  }

  // ------------------------------------------------------------------
  // What the merged profile renders
  // ------------------------------------------------------------------

  ghost predicate CanonicalArgs(canon: Canon, args: map<string, Scalar>) {
    forall k :: k in args ==> canon(k) == Ok(k) && ScalarString(args[k]).Ok?
  }

  /** The value a profile renders for `model`: its source's path, or an engine_arg of that name. */
  function RenderedModel(path: string -> string, p: Profile): Option<string> {
    if p.source != "" then Some(path(p.source)) else RenderedArg(p.args, ModelKey)
  }

  function RenderedArg(args: map<string, Scalar>, k: string): Option<string> {
    if k in args && ScalarString(args[k]).Ok? then Some(ScalarString(args[k]).value) else None
  }

  /** A profile with canonical keys renders, key for key, the text of its scalars. */
  lemma CanonicalArgsRender(canon: Canon, path: string -> string, p: Profile, k: string)
    requires CanonicalArgs(canon, p.args)
    ensures Rekeys(p.args, canon, ScalarString)
    ensures Get(Stanza(canon, path, p), k) == if k == ModelKey then RenderedModel(path, p) else RenderedArg(p.args, k)
  {
    RekeyedFits(p.args, canon, ScalarString);
  }

  /** `values` is, key for key, what the profile renders. */
  ghost predicate RendersAs(path: string -> string, p: Profile, values: Values) {
    forall k :: Get(values, k) == if k == ModelKey then RenderedModel(path, p) else RenderedArg(p.args, k)
  }

  /** For canonical arguments that is its stanza. */
  lemma SectionIsWhatRenders(canon: Canon, path: string -> string, p: Profile, values: Values)
    requires CanonicalArgs(canon, p.args)
    ensures IsSection(canon, path, p, values) <==> RendersAs(path, p, values)
  {
    forall k ensures Rekeys(p.args, canon, ScalarString) &&
                     Get(Stanza(canon, path, p), k) == if k == ModelKey then RenderedModel(path, p) else RenderedArg(p.args, k)
    {
      CanonicalArgsRender(canon, path, p, k);
    }
    if RendersAs(path, p, values) {
      SameEntries(values, Stanza(canon, path, p));
    }
  }

  lemma SameEntries(a: Values, b: Values)
    requires forall k :: Get(a, k) == Get(b, k)
    ensures a == b
  {
    assert forall k :: k in a ==> Get(b, k) == Some(a[k]);
    assert forall k :: k in b ==> Get(a, k) == Some(b[k]);
  }

  /** The hypotheses of the merge theorems: `want` is what the profile renders, and edits survive as scalars. */
  ghost predicate Mergeable(canon: Canon, path: string -> string, probe: Probe, sides: Sides, parsed: Profile) {
    && CanonicalArgs(canon, parsed.args) && RendersAs(path, parsed, sides.want)
    && (forall k :: k in sides.edited ==> canon(k) == Ok(k) && (k != ModelKey ==> Survives(probe, sides.edited[k])))
  }

  lemma MergedArgsAreCanonical(canon: Canon, path: string -> string, probe: Probe, sides: Sides, parsed: Profile, merged: Profile)
    requires Mergeable(canon, path, probe, sides, parsed)
    requires MergedOn(probe, sides, parsed, merged, sides.base.Keys + sides.edited.Keys)
    ensures CanonicalArgs(canon, parsed.args) && CanonicalArgs(canon, merged.args)
  {
    forall k | k in merged.args ensures canon(k) == Ok(k) && ScalarString(merged.args[k]).Ok? {
      assert Get(merged.args, k) == Some(merged.args[k]);
      if k == ModelKey || !sides.Adopts(k) {
        assert Get(parsed.args, k) == Some(merged.args[k]);
      }
    }
  }

  /**
   Rendering the merged profile gives the edited value, or its absence, on every
   adopted key and the wanted one on every other key. `model` goes through the
   model source, so there it gives what the adopted source renders.
   */
  lemma MergedRenders(canon: Canon, path: string -> string, probe: Probe, sides: Sides, parsed: Profile, merged: Profile, k: string)
    requires Mergeable(canon, path, probe, sides, parsed)
    requires MergedOn(probe, sides, parsed, merged, sides.base.Keys + sides.edited.Keys)
    ensures Rekeys(merged.args, canon, ScalarString)
    ensures Get(Stanza(canon, path, merged), k) ==
            if !sides.Adopts(k) then Get(sides.want, k)
            else if k == ModelKey then RenderedModel(path, merged)
            else Get(sides.edited, k)
  {
    MergedArgsAreCanonical(canon, path, probe, sides, parsed, merged);
    CanonicalArgsRender(canon, path, merged, k);
    MergedArgRenders(probe, sides, parsed, merged, k);
  }

  /**
   The three-way merge of one engine_arg, by its three sides alone: an edit the
   profile did not answer is what renders afterwards, and so is the profile's own
   value when the file was left as it was written; only two different changes of one
   key are a conflict, and the profile's value stands.
   */
  lemma ThreeWay(canon: Canon, path: string -> string, probe: Probe, sides: Sides, parsed: Profile, merged: Profile, k: string)
    requires Mergeable(canon, path, probe, sides, parsed) && k != ModelKey
    requires MergedOn(probe, sides, parsed, merged, sides.base.Keys + sides.edited.Keys)
    ensures Rekeys(merged.args, canon, ScalarString)
    ensures var base, edited, want, now := Get(sides.base, k), Get(sides.edited, k), Get(sides.want, k), Get(Stanza(canon, path, merged), k);
            && (edited == base ==> now == want && !sides.Conflicts(k))
            && (want == base ==> now == edited && !sides.Conflicts(k))
            && (edited != base && want != base ==> now == want && sides.Conflicts(k))
  {
    MergedRenders(canon, path, probe, sides, parsed, merged, k);
  }

  /** The engine_arg half of MergedRenders. */
  lemma MergedArgRenders(probe: Probe, sides: Sides, parsed: Profile, merged: Profile, k: string)
    requires k in sides.edited && k != ModelKey ==> Survives(probe, sides.edited[k])
    requires MergedOn(probe, sides, parsed, merged, sides.base.Keys + sides.edited.Keys)
    ensures RenderedArg(merged.args, k) ==
            if k != ModelKey && sides.Adopts(k) then Get(sides.edited, k) else RenderedArg(parsed.args, k)
    ensures !sides.Adopts(ModelKey) ==> merged.source == parsed.source
  {
    if k != ModelKey && sides.Adopts(k) {
      assert k in sides.base.Keys + sides.edited.Keys;
      assert Get(merged.args, k) == if k in sides.edited then Some(ScalarValue(probe, sides.edited[k])) else None;
    } else {
      assert Get(merged.args, k) == Get(parsed.args, k);
    }
  }

  /** An adopted model edit comes back exactly when the source it became renders that very text. */
  lemma ModelEditComesBackIff(canon: Canon, path: string -> string, probe: Probe, sides: Sides, parsed: Profile, merged: Profile)
    requires Mergeable(canon, path, probe, sides, parsed) && sides.Adopts(ModelKey)
    requires MergedOn(probe, sides, parsed, merged, sides.base.Keys + sides.edited.Keys)
    ensures RenderedModel(path, merged) == Get(sides.edited, ModelKey) <==>
            if ModelKey in sides.edited && sides.edited[ModelKey] != "" then path(sides.edited[ModelKey]) == sides.edited[ModelKey]
            else RenderedArg(parsed.args, ModelKey) == Get(sides.edited, ModelKey)
  {
    assert ModelKey in sides.base.Keys + sides.edited.Keys;
    MergedArgRenders(probe, sides, parsed, merged, ModelKey);
  }

  /** What the profile renders for `model` once an edit of it is adopted. */
  function ModelAfter(path: string -> string, sides: Sides, parsed: Profile): Option<string> {
    if ModelKey in sides.edited && sides.edited[ModelKey] != "" then Some(path(sides.edited[ModelKey]))
    else RenderedArg(parsed.args, ModelKey)
  }

  lemma ModelAfterIs(path: string -> string, probe: Probe, sides: Sides, parsed: Profile, merged: Profile)
    requires sides.Adopts(ModelKey)
    requires MergedOn(probe, sides, parsed, merged, sides.base.Keys + sides.edited.Keys)
    ensures RenderedModel(path, merged) == ModelAfter(path, sides, parsed)
  {
    assert ModelKey in sides.base.Keys + sides.edited.Keys;
    assert Get(merged.args, ModelKey) == Get(parsed.args, ModelKey);
  }

  /** An adopted `model` edit whose path is the one the baseline already had. */
  predicate ModelComesBack(path: string -> string, sides: Sides, parsed: Profile) {
    sides.Adopts(ModelKey) && ModelAfter(path, sides, parsed) == Get(sides.base, ModelKey)
  }

  /**
   Importing the same edits again before the file is rewritten adopts nothing,
   unless the adopted model edit renders the baseline's path again; every touched
   key is then reported as a conflict.
   */
  lemma SecondImportAdoptsNothing(canon: Canon, path: string -> string, probe: Probe, sides: Sides, parsed: Profile,
                                  merged: Profile, again: Values)
    requires Mergeable(canon, path, probe, sides, parsed)
    requires MergedOn(probe, sides, parsed, merged, sides.base.Keys + sides.edited.Keys)
    requires RendersAs(path, merged, again)
    ensures var second := sides.(want := again);
            && ((forall k :: !second.Adopts(k)) <==> !ModelComesBack(path, sides, parsed))
            && (forall k :: k != ModelKey ==> (second.Conflicts(k) <==> sides.Touched(k)))
  {
    var second := sides.(want := again);
    forall k
      ensures second.Adopts(k) <==> k == ModelKey && ModelComesBack(path, sides, parsed)
      ensures k != ModelKey ==> (second.Conflicts(k) <==> sides.Touched(k))
    {
      SecondImportAt(canon, path, probe, sides, parsed, merged, again, k);
    }
  }

  lemma RendersAgain(canon: Canon, path: string -> string, probe: Probe, sides: Sides, parsed: Profile,
                     merged: Profile, again: Values, k: string)
    requires Mergeable(canon, path, probe, sides, parsed)
    requires MergedOn(probe, sides, parsed, merged, sides.base.Keys + sides.edited.Keys)
    requires RendersAs(path, merged, again)
    ensures Get(again, k) == if !sides.Adopts(k) then Get(sides.want, k)
                             else if k == ModelKey then ModelAfter(path, sides, parsed)
                             else Get(sides.edited, k)
  {
    MergedRenders(canon, path, probe, sides, parsed, merged, k);
    MergedArgsAreCanonical(canon, path, probe, sides, parsed, merged);
    CanonicalArgsRender(canon, path, merged, k);
    if sides.Adopts(ModelKey) {
      ModelAfterIs(path, probe, sides, parsed, merged);
    }
  }

  /** SecondImportAdoptsNothing at one key. */
  lemma SecondImportAt(canon: Canon, path: string -> string, probe: Probe, sides: Sides, parsed: Profile,
                       merged: Profile, again: Values, k: string)
    requires Mergeable(canon, path, probe, sides, parsed)
    requires MergedOn(probe, sides, parsed, merged, sides.base.Keys + sides.edited.Keys)
    requires RendersAs(path, merged, again)
    ensures var second := sides.(want := again);
            && (second.Adopts(k) <==> k == ModelKey && ModelComesBack(path, sides, parsed))
            && (k != ModelKey ==> (second.Conflicts(k) <==> sides.Touched(k)))
  {
    RendersAgain(canon, path, probe, sides, parsed, merged, again, k);
  }

  /** A file whose model path was shortened to a name that resolves to the same path is imported again and again. */
  lemma AnImportCanAdoptAgain(canon: Canon, path: string -> string, probe: Probe, short: string, source: string, full: string)
    requires short != "" && source != "" && short != full && path(short) == full == path(source) && canon(ModelKey) == Ok(ModelKey)
    ensures var sides := Sides(map[ModelKey := full], map[ModelKey := short], map[ModelKey := full]);
            var parsed := Profile("p", source, map[]);
            && Mergeable(canon, path, probe, sides, parsed)
            && ModelComesBack(path, sides, parsed)
            && MergedOn(probe, sides, parsed, parsed.(source := short), sides.base.Keys + sides.edited.Keys)
            && RendersAs(path, parsed.(source := short), sides.want) && sides.Adopts(ModelKey)
  {
  }
}
