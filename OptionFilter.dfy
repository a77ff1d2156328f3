/** Construction-time option resolution of the build orchestrator: every
    option key that passes the filter is overwritten by the project's
    resolver for that key, in the order the options dictionary lists its
    keys. The resolver is a foreign call; it sees the options as they stand
    when it runs, so earlier resolutions can influence later ones. */
module OptionFilter {
  import opened Sequences
  import opened Text

  /** A value held by the options object. */
  datatype OptionValue = OptStr(str: string) | OptBool(flag: bool) | OptInt(num: int) | OptNone

  /** Python truthiness of an option value. */
  predicate Truthy(v: OptionValue) {
    match v
    case OptStr(s) => s != ""
    case OptBool(b) => b
    case OptInt(n) => n != 0
    case OptNone => false
  }

  /** The options that are never re-resolved, by exact name. */
  const SkippedKeys: seq<string> := ["args", "input_path", "anonymize", "package", "zip", "zip_compression"]

  /** Whether the constructor re-resolves option `key`: not one of the
      skipped names, no `ignore_`, `no_`, `force_` or `resolve_` prefix and
      no `_token` suffix. */
  predicate IsResolved(key: string) {
    && key !in SkippedKeys
    && !(StartsWith(key, "ignore_") || StartsWith(key, "no_")
         || StartsWith(key, "force_") || StartsWith(key, "resolve_"))
    && !EndsWith(key, "_token")
  }

  /** The options after resolving `keys` in order, starting from `values`. */
  function ResolveFold(keys: seq<string>, values: map<string, OptionValue>,
                       resolver: (string, map<string, OptionValue>) -> OptionValue): map<string, OptionValue>
  {
    if keys == [] then values
    else
      var before := ResolveFold(keys[..|keys| - 1], values, resolver);
      var key := keys[|keys| - 1];
      if IsResolved(key) then before[key := resolver(key, before)] else before
  }

  /** The constructor's loop over the option keys. */
  method ResolveOptions(keys: seq<string>, values: map<string, OptionValue>,
                        resolver: (string, map<string, OptionValue>) -> OptionValue)
    returns (options: map<string, OptionValue>)
    ensures options == ResolveFold(keys, values, resolver)
  {
    options := values;
    var i := 0;
    while i < |keys|
      invariant 0 <= i <= |keys|
      invariant options == ResolveFold(keys[..i], values, resolver)
    {
      assert keys[..i + 1][..i] == keys[..i];
      var key := keys[i];
      if IsResolved(key) {
        options := options[key := resolver(key, options)];
      }
      i := i + 1;
    }
    assert keys[..|keys|] == keys;
  }

  /** Resolution never adds or drops an option: the keys are the dictionary's own. */
  lemma {:induction false} ResolveKeepsKeys(keys: seq<string>, values: map<string, OptionValue>,
                                           resolver: (string, map<string, OptionValue>) -> OptionValue)
    requires forall k :: k in keys ==> k in values
    ensures ResolveFold(keys, values, resolver).Keys == values.Keys
  {
    if keys != [] {
      assert forall k :: k in keys[..|keys| - 1] ==> k in keys;
      ResolveKeepsKeys(keys[..|keys| - 1], values, resolver);
    }
  }

  /** A skipped key, or one the loop never reaches, keeps its value. */
  lemma {:induction false} ResolveKeepsUnresolved(keys: seq<string>, values: map<string, OptionValue>,
                                                  resolver: (string, map<string, OptionValue>) -> OptionValue,
                                                  key: string)
    requires key in values
    requires !IsResolved(key) || key !in keys
    ensures key in ResolveFold(keys, values, resolver)
    ensures ResolveFold(keys, values, resolver)[key] == values[key]
  {
    if keys != [] {
      assert key !in keys ==> key !in keys[..|keys| - 1];
      ResolveKeepsUnresolved(keys[..|keys| - 1], values, resolver, key);
    }
  }

  /** A key that passes the filter ends up with what the resolver returned
      for it, given the options as they stood when its turn came. */
  lemma {:induction false} ResolvedKeyValue(keys: seq<string>, values: map<string, OptionValue>,
                                           resolver: (string, map<string, OptionValue>) -> OptionValue,
                                           i: nat)
    requires NoDups(keys)
    requires i < |keys| && IsResolved(keys[i])
    ensures keys[i] in ResolveFold(keys, values, resolver)
    ensures ResolveFold(keys, values, resolver)[keys[i]] == resolver(keys[i], ResolveFold(keys[..i], values, resolver))
  {
    if i < |keys| - 1 {
      var init := keys[..|keys| - 1];
      assert NoDups(init);
      assert init[..i] == keys[..i];
      ResolvedKeyValue(init, values, resolver, i);
    } else {
      assert keys[..|keys| - 1] == keys[..i];
    }
  }

  /** Concrete cases: the prefixes and the suffix are matched literally,
      so `zip` is skipped while `zip_output_path` is resolved. */
  lemma SkippedExamples()
    ensures !IsResolved("no_parallel") && !IsResolved("zip") && !IsResolved("access_token")
  {
    assert "no_parallel"[..3] == "no_";
    assert "access_token"[|"access_token"| - 6..] == "_token";
  }

  lemma ResolvedExample()
    ensures IsResolved("zip_output_path")
  {
    var key := "zip_output_path";
    assert key[0] == 'z' && key[1] == 'i';
    assert key[..7][0] != 'i' && key[..3][0] != 'n' && key[..6][0] != 'f' && key[..8][0] != 'r';
    assert key != "zip" && key != "zip_compression";
    assert "zip_output_path"[|"zip_output_path"| - 6..] != "_token";
  }
}
