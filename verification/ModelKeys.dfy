/** models.ini keys: the canonical lowercase CLI form, aliases, and the LLAMA_ARG_* spelling. */
module ModelKeys {
  import opened Wrappers
  import opened Text

  // Turns a key into its canonical form, or rejects it.
  type Canon = string -> Result<string>

  /** What the file format needs of a canonicaliser: plain results that are their own canonical form. */
  ghost predicate KeyRules(canon: Canon) {
    forall k :: canon(k).Ok? ==> KeyPattern(canon(k).value) && canon(canon(k).value) == canon(k)
  }

  lemma CanonicalKeyMeetsTheRules()
    ensures KeyRules(CanonicalKey)
  {
    forall k | CanonicalKey(k).Ok?
      ensures KeyPattern(CanonicalKey(k).value) && CanonicalKey(CanonicalKey(k).value) == CanonicalKey(k)
    {
      CanonicalKeyIsIdempotent(k);
    }
  }

  /** unicode.ToLower where the result is ASCII; any other letter fails the key pattern either way. */
  function LowerChar(c: char): char {
    if 'A' <= c <= 'Z' then ((c as int) + 32) as char
    else if c == '\U{212A}' then 'k'
    else if c == '\U{130}' then 'i'
    else c
  }

  function UpperChar(c: char): char {
    if 'a' <= c <= 'z' then ((c as int) - 32) as char else c
  }

  function Lower(s: string): (r: string)
    ensures |r| == |s|
    ensures forall i :: 0 <= i < |s| ==> r[i] == LowerChar(s[i])
  {
    seq(|s|, i requires 0 <= i < |s| => LowerChar(s[i]))
  }

  function Upper(s: string): (r: string)
    ensures |r| == |s|
    ensures forall i :: 0 <= i < |s| ==> r[i] == UpperChar(s[i])
  {
    seq(|s|, i requires 0 <= i < |s| => UpperChar(s[i]))
  }

  function DashesForUnderscores(s: string): string {
    seq(|s|, i requires 0 <= i < |s| => if s[i] == '_' then '-' else s[i])
  }

  predicate KeyStart(c: char) { 'a' <= c <= 'z' || c == '_' }

  predicate KeyRest(c: char) { KeyStart(c) || '0' <= c <= '9' || c == '.' || c == '-' }

  /** The pattern ^[a-z_][a-z0-9_.-]*$. */
  predicate KeyPattern(s: string) {
    s != [] && KeyStart(s[0]) && forall c :: c in s ==> KeyRest(c)
  }

  function Alias(key: string): string {
    if key == "batch" then "batch-size"
    else if key == "ubatch" then "ubatch-size"
    else if key == "n-parallel" then "parallel"
    else if key == "endpoint-metrics" then "metrics"
    else if key == "endpoint-props" then "props"
    else if key == "endpoint-slots" then "slots"
    else if key == "think" then "reasoning-format"
    else if key == "think-budget" then "reasoning-budget"
    else if key == "models_dir" then "models-dir"
    else if key == "models_preset" then "models-preset"
    else if key == "models_max" then "models-max"
    else key
  }

  const EnvPrefix := "LLAMA_ARG_"

  function CanonicalKey(key: string): Result<string> {
    var trimmed := Trim(key);
    if trimmed == "" then Err
    else if EnvPrefix <= trimmed then
      if trimmed != Upper(trimmed) then Err
      else PatternedKey(Lower(DashesForUnderscores(trimmed[|EnvPrefix|..])))
    else if trimmed != Lower(trimmed) then Err
    else PatternedKey(trimmed)
  }

  function PatternedKey(key: string): Result<string> {
    if KeyPattern(key) then Ok(Alias(key)) else Err
  }

  /** Enough of a key's spelling to tell it from every alias. */
  lemma NotAnAlias(t: string)
    requires t != []
    requires || t[0] in "prs"
             || (t[0] == 'b' && |t| != 5)
             || (t[0] == 'u' && |t| != 6)
             || (t[0] == 'm' && |t| > 6 && t[6] != '_')
    ensures Alias(t) == t
  {
  }

  /** The legacy keys that are not about models. */
  predicate EngineAlias(key: string) {
    || key == "batch" || key == "ubatch" || key == "n-parallel" || key == "endpoint-metrics" || key == "endpoint-props"
    || key == "endpoint-slots"
  }

  lemma EngineAliasIsAKey(key: string)
    requires EngineAlias(key)
    ensures KeyPattern(Alias(key))
  {
  }

  /** The legacy keys for models and for thinking. */
  predicate OtherAlias(key: string) {
    key == "think" || key == "think-budget" || key == "models_dir" || key == "models_preset" || key == "models_max"
  }

  lemma OtherAliasIsAKey(key: string)
    requires OtherAlias(key)
    ensures KeyPattern(Alias(key))
  {
  }

  lemma NoAlias(key: string)
    requires !EngineAlias(key) && !OtherAlias(key)
    ensures Alias(key) == key
  {
  }

  /** An alias says the same as the legacy key: what follows its prefix, with a suffix, or with dashes. */
  lemma EngineAliasSpelling(key: string)
    requires EngineAlias(key)
    ensures key == "batch" || key == "ubatch" ==> Alias(key) == key + "-size"
    ensures key == "n-parallel" ==> key == "n-" + Alias(key)
    ensures key == "endpoint-metrics" || key == "endpoint-props" || key == "endpoint-slots" ==> key == "endpoint-" + Alias(key)
  {
  }

  lemma ThinkAliasSpelling(key: string)
    requires OtherAlias(key)
    ensures key == "think" ==> Alias(key) == "reasoning-format"
    ensures key == "think-budget" ==> Alias(key) == "reasoning" + key[5..]
  {
  }

  lemma ModelsAliasSpelling(key: string)
    requires OtherAlias(key)
    ensures key == "models_dir" || key == "models_preset" || key == "models_max" ==> Alias(key) == DashesForUnderscores(key)
  {
  }

  lemma AliasIsAKey(key: string)
    requires KeyPattern(key)
    ensures KeyPattern(Alias(key))
  {
    if EngineAlias(key) {
      EngineAliasIsAKey(key);
    } else if OtherAlias(key) {
      OtherAliasIsAKey(key);
    } else {
      NoAlias(key);
    }
  }

  lemma AliasIsCanonical(key: string)
    requires KeyPattern(key)
    ensures KeyPattern(Alias(key)) && Alias(Alias(key)) == Alias(key)
  {
    AliasIsAKey(key);
    if Alias(key) != key {
      NotAnAlias(Alias(key));
    }
  }

  /** Canonical keys are exactly the fixed points, so parsing a rendered key gives it back. */
  lemma CanonicalKeyIsIdempotent(key: string)
    requires CanonicalKey(key).Ok?
    ensures var c := CanonicalKey(key).value; CanonicalKey(c) == Ok(c) && KeyPattern(c)
  {
    var c := CanonicalKey(key).value;
    assert exists k :: KeyPattern(k) && c == Alias(k);
    var k :| KeyPattern(k) && c == Alias(k);
    AliasIsCanonical(k);
    PatternIsPlain(c);
  }

  /** A key is accepted exactly in its lowercase form, or in the environment's with every letter in upper case. */
  lemma CanonicalKeyAcceptsIff(key: string)
    ensures var t := Trim(key);
            CanonicalKey(key).Ok? <==>
            KeyPattern(t) || (EnvPrefix <= t && t == Upper(t) && KeyPattern(Lower(DashesForUnderscores(t[|EnvPrefix|..]))))
    ensures KeyPattern(Trim(key)) ==> CanonicalKey(key) == Ok(Alias(Trim(key)))
  {
    if KeyPattern(Trim(key)) {
      PatternIsPlain(Trim(key));
    }
  }

  function UnderscoresForDashes(s: string): (r: string)
    ensures |r| == |s| && forall i :: 0 <= i < |s| ==> r[i] == if s[i] == '-' then '_' else s[i]
  {
    seq(|s|, i requires 0 <= i < |s| => if s[i] == '-' then '_' else s[i])
  }

  /** The environment's spelling of an option is its command-line spelling. */
  lemma EnvironmentSpelling(key: string)
    requires KeyPattern(key) && '_' !in key
    ensures CanonicalKey(EnvPrefix + Upper(UnderscoresForDashes(key))) == CanonicalKey(key) == Ok(Alias(key))
  {
    var rest := Upper(UnderscoresForDashes(key));
    forall i | 0 <= i < |key|
      ensures rest[i] == UpperChar(rest[i]) && !IsSpace(rest[i]) && LowerChar(if rest[i] == '_' then '-' else rest[i]) == key[i]
    {
      assert key[i] in key && KeyRest(key[i]);
    }
    assert Lower(DashesForUnderscores(rest)) == key;
    EnvironmentKey(EnvPrefix, rest);
    PatternIsPlain(key);
  }

  /** A key in the environment's spelling is what follows the prefix, lowercase and with dashes. */
  lemma EnvironmentKey(prefix: string, rest: string)
    requires prefix == EnvPrefix && rest != [] && rest == Upper(rest) && forall i :: 0 <= i < |rest| ==> !IsSpace(rest[i])
    ensures CanonicalKey(prefix + rest) == PatternedKey(Lower(DashesForUnderscores(rest)))
  {
    var env := prefix + rest;
    assert prefix == Upper(prefix) && !IsSpace(prefix[0]);
    assert env[|prefix|..] == rest && prefix <= env && env[0] == prefix[0] && env[|env| - 1] == rest[|rest| - 1];
    assert env == Upper(env);
    TrimIsTrimmed(env);
  }

  lemma PatternIsPlain(c: string)
    requires KeyPattern(c)
    ensures Trimmed(c) && Trim(c) == c && Lower(c) == c && !(EnvPrefix <= c)
    ensures '\n' !in c && '=' !in c
  {
    forall i | 0 <= i < |c| ensures KeyRest(c[i]) {
      assert c[i] in c;
    }
    TrimIsTrimmed(c);
  }
}
