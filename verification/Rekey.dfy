/**
 Rebuilding a map under canonical keys, as both the renderer and the profile
 section do: a key that does not canonicalise, two keys that canonicalise alike,
 and a value that cannot be written are each an error.
 */
module Rekey {
  import opened Wrappers

  ghost predicate Rekeys<V(!new)>(raw: map<string, V>, canon: string -> Result<string>, text: V -> Result<string>) {
    RekeysOn(raw, raw.Keys, canon, text)
  }

  /** The keys `ks` canonicalise, each to its own key, and their values can be written. */
  ghost predicate RekeysOn<V(!new)>(raw: map<string, V>, ks: set<string>, canon: string -> Result<string>,
                                    text: V -> Result<string>)
    requires ks <= raw.Keys
  {
    && (forall k :: k in ks ==> canon(k).Ok? && text(raw[k]).Ok?)
    && (forall j, k :: j in ks && k in ks && canon(j) == canon(k) ==> j == k)
  }

  /** `values` holds exactly the entries of `ks`, written out under their canonical keys. */
  ghost predicate IsRekeyed<V(!new)>(raw: map<string, V>, ks: set<string>, canon: string -> Result<string>,
                                     text: V -> Result<string>, values: map<string, string>)
    requires ks <= raw.Keys
  {
    && (forall k :: k in ks ==> canon(k).Ok? && canon(k).value in values && text(raw[k]) == Ok(values[canon(k).value]))
    && (forall c :: c in values ==> exists k :: k in ks && canon(k) == Ok(c))
  }

  lemma RekeyedIsUnique<V(!new)>(raw: map<string, V>, canon: string -> Result<string>, text: V -> Result<string>,
                                 a: map<string, string>, b: map<string, string>)
    requires IsRekeyed(raw, raw.Keys, canon, text, a) && IsRekeyed(raw, raw.Keys, canon, text, b)
    ensures a == b
  {
    assert forall c :: c in a ==> c in b && a[c] == b[c];
    assert forall c :: c in b ==> c in a;
  }

  ghost function Rekeyed<V(!new)>(raw: map<string, V>, canon: string -> Result<string>, text: V -> Result<string>)
    : map<string, string>
    requires Rekeys(raw, canon, text)
  {
    map c | c in CanonicalKeys(raw, canon) :: text(raw[KeyFor(raw, canon, c)]).value
  }

  lemma RekeyedFits<V(!new)>(raw: map<string, V>, canon: string -> Result<string>, text: V -> Result<string>)
    requires Rekeys(raw, canon, text)
    ensures IsRekeyed(raw, raw.Keys, canon, text, Rekeyed(raw, canon, text))
  {
  }

  lemma RekeyedIs<V(!new)>(raw: map<string, V>, canon: string -> Result<string>, text: V -> Result<string>,
                           values: map<string, string>)
    requires Rekeys(raw, canon, text) && IsRekeyed(raw, raw.Keys, canon, text, values)
    ensures values == Rekeyed(raw, canon, text)
  {
    RekeyedFits(raw, canon, text);
    RekeyedIsUnique(raw, canon, text, values, Rekeyed(raw, canon, text));
  }

  ghost function CanonicalKeys<V>(raw: map<string, V>, canon: string -> Result<string>): set<string>
    requires forall k :: k in raw ==> canon(k).Ok?
  {
    set k | k in raw :: canon(k).value
  }

  ghost function KeyFor<V>(raw: map<string, V>, canon: string -> Result<string>, c: string): (k: string)
    requires exists k :: k in raw && canon(k) == Ok(c)
    ensures k in raw && canon(k) == Ok(c)
  {
    var k :| k in raw && canon(k) == Ok(c);
    k
  }

  /** One more key either clashes with one done before or extends the result by its entry. */
  lemma RekeyOneMore<V(!new)>(raw: map<string, V>, ks: set<string>, canon: string -> Result<string>,
                              text: V -> Result<string>, values: map<string, string>, key: string)
    requires ks <= raw.Keys && key in raw && key !in ks && canon(key).Ok? && text(raw[key]).Ok?
    requires RekeysOn(raw, ks, canon, text) && IsRekeyed(raw, ks, canon, text, values)
    ensures canon(key).value in values ==> !Rekeys(raw, canon, text)
    ensures canon(key).value !in values ==>
              && RekeysOn(raw, ks + {key}, canon, text)
              && IsRekeyed(raw, ks + {key}, canon, text, values[canon(key).value := text(raw[key]).value])
  {
    if canon(key).value in values {
      var other :| other in ks && canon(other) == canon(key);
    }
  }

  /** The map is walked in no particular order; the result does not depend on it. */
  method RekeyMap<V(!new)>(raw: map<string, V>, canon: string -> Result<string>, text: V -> Result<string>)
    returns (r: Result<map<string, string>>)
    ensures r.Ok? <==> Rekeys(raw, canon, text)
    ensures r.Ok? ==> r.value == Rekeyed(raw, canon, text)
  {
    var values: map<string, string> := map[];
    var todo := raw.Keys;
    ghost var done: set<string> := {};
    while todo != {}
      invariant done !! todo && done + todo == raw.Keys
      invariant RekeysOn(raw, done, canon, text) && IsRekeyed(raw, done, canon, text, values)
      decreases todo
    {
      var key :| key in todo;
      var canonical, written := canon(key), text(raw[key]);
      if canonical.Err? || written.Err? {
        return Err;
      }
      RekeyOneMore(raw, done, canon, text, values, key);
      if canonical.value in values {
        return Err;
      }
      values := values[canonical.value := written.value];
      done, todo := done + {key}, todo - {key};
    }
    assert done == raw.Keys;
    RekeyedIs(raw, canon, text, values);
    r := Ok(values);
  }
}
